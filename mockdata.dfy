/**
 * The sample records loaded on first run: built with DD-MM-YYYY date
 * strings and then rewritten in place to YYYY-MM-DD, the form the date
 * input and the rest of the ledger use.
 */
module MockData {
  import opened Wrappers
  import opened Dates
  import opened DateText

  /** A sample record as first built, its date still a string. */
  datatype MockItem = MockItem(id: int, description: string, amount: int, category: string, date: string)

  /**
   * The `forEach` over the sample records: each date is split on `-` and
   * reassembled year first; nothing else about any record changes.
   */
  method RewriteMockDates(items: array<MockItem>)
    modifies items
    ensures forall i :: 0 <= i < items.Length ==>
      items[i] == old(items[i]).(date := RewriteDate(old(items[i]).date))
  {
    var i := 0;
    while i < items.Length
      invariant 0 <= i <= items.Length
      invariant forall j :: 0 <= j < i ==> items[j] == old(items[j]).(date := RewriteDate(old(items[j]).date))
      invariant forall j :: i <= j < items.Length ==> items[j] == old(items[j])
    {
      var item := items[i];
      items[i] := item.(date := RewriteDate(item.date));
      i := i + 1;
    }
  }

  /**
   * Built from calendar dates with `DmyString`, the rewritten records carry
   * the ISO strings of those same dates, which parse back to them.
   */
  lemma RewrittenMockDates(before: seq<MockItem>, after: seq<MockItem>, days: seq<Date>)
    requires |before| == |after| == |days|
    requires forall i :: 0 <= i < |days| ==> ValidDate(days[i]) && 1000 <= days[i].year <= 9999
    requires forall i :: 0 <= i < |before| ==> before[i].date == DmyString(days[i])
    requires forall i :: 0 <= i < |before| ==> after[i] == before[i].(date := RewriteDate(before[i].date))
    ensures forall i :: 0 <= i < |after| ==> after[i].date == IsoString(days[i])
    ensures forall i :: 0 <= i < |after| ==> ParseIso(after[i].date) == Some(days[i])
  {
    forall i | 0 <= i < |after|
      ensures after[i].date == IsoString(days[i]) && ParseIso(after[i].date) == Some(days[i])
    {
      RewriteDmyIsIso(days[i]);
      RewrittenSampleDate(days[i]);
    }
  }
}
