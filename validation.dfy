/**
 * The four field validators. Each maps one candidate value to no error or
 * to the message shown beside the field.
 */
module Validation {
  import opened Wrappers
  import opened Text
  import opened Dates

  const MaxDescriptionLength: nat := 100
  /** ₹99,99,999: the largest amount a single entry may carry. */
  const MaxAmount: int := 9999999

  const DescriptionRequired := "Description is required"
  const DescriptionTooLong := "Description must be 100 characters or less"
  const AmountNotPositive := "Amount must be a positive number"
  const AmountTooLarge := "Amount cannot exceed \U{20B9}99,99,999"
  const CategoryRequired := "Category is required"
  const DateRequired := "Date is required"
  const DateInFuture := "Date cannot be in the future"

  /** A description is accepted when it holds a character other than white space and at most 100 characters. */
  function ValidateDescription(description: string): (error: Option<string>)
    ensures error == None <==>
      (exists i :: 0 <= i < |description| && !IsWhitespace(description[i]))
      && |description| <= MaxDescriptionLength
    ensures error == Some(DescriptionRequired) <==> AllWhitespace(description)
    ensures error == Some(DescriptionTooLong) <==>
      !AllWhitespace(description) && |description| > MaxDescriptionLength
  {
    if |Trim(description)| == 0 then Some(DescriptionRequired)
    else if |description| > MaxDescriptionLength then Some(DescriptionTooLong)
    else None
  }

  /**
   * An amount (None when the input did not parse as a number) is accepted
   * when it lies in 1 .. 9999999; it is a magnitude, its sign comes later.
   */
  function ValidateAmount(amount: Option<int>): (error: Option<string>)
    ensures error == None <==> amount.Some? && 0 < amount.value <= MaxAmount
    ensures error == Some(AmountNotPositive) <==> amount.None? || amount.value <= 0
    ensures error == Some(AmountTooLarge) <==> amount.Some? && amount.value > MaxAmount
  {
    if amount.None? || amount.value <= 0 then Some(AmountNotPositive)
    else if amount.value > MaxAmount then Some(AmountTooLarge)
    else None
  }

  /** A category is accepted when one was chosen. */
  function ValidateCategory(category: string): (error: Option<string>)
    ensures error == None <==> category != ""
    ensures error != None ==> error == Some(CategoryRequired)
  {
    if category == "" then Some(CategoryRequired) else None
  }

  /** A date (None when the input is empty) is accepted when it is today or earlier. */
  function ValidateDate(date: Option<Date>, today: Date): (error: Option<string>)
    ensures error == None <==> date.Some? && OnOrBefore(date.value, today)
    ensures error == Some(DateRequired) <==> date.None?
    ensures error == Some(DateInFuture) <==> date.Some? && After(date.value, today)
  {
    if date.None? then Some(DateRequired)
    else if After(date.value, today) then Some(DateInFuture)
    else None
  }
}
