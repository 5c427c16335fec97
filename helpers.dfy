/** `Helpers.checkStringLength` of the chat application. */
module Helpers {

  /** True exactly when the string is not empty. */
  function CheckStringLength(value: string): (r: bool)
    ensures r <==> |value| > 0
  {
    |value| > 0
  }

  lemma EmptyStringFails()
    ensures !CheckStringLength("")
  {
  }

  /** The verdict depends on the length only, never on the characters. */
  lemma OnlyLengthMatters(a: string, b: string)
    requires |a| == |b|
    ensures CheckStringLength(a) == CheckStringLength(b)
  {
  }
}
