/** The length check of the text inputs (frontend/src/components/inputs/utils.ts). */
module InputUtils {
  import opened Base
  import opened Strings

  const LENGTH_ERROR_PREFIX: string := "Текст не может быть длиннее "

  /** `getLengthError`: no error while the text fits; otherwise the limit in words, with
      the noun in the form the last digit of the limit calls for ("символа" after a
      final 1, "символов" otherwise). */
  function GetLengthError(max: int, length: int): (r: Option<string>)
    ensures r.None? <==> length <= max
    ensures r.Some? && Abs(max) % 10 == 1 ==> r.value == LENGTH_ERROR_PREFIX + IntToString(max) + " " + "символа"
    ensures r.Some? && Abs(max) % 10 != 1 ==> r.value == LENGTH_ERROR_PREFIX + IntToString(max) + " " + "символов"
  {
    if length <= max then None
    else
      var numberString := IntToString(max);
      var lastDigit := numberString[|numberString| - 1];
      Some(LENGTH_ERROR_PREFIX + numberString + " " + (if lastDigit == '1' then "символа" else "символов"))
  }

  /** The message starts with the fixed prefix and the limit, and ends with one of the
      two noun forms; the singular form is used exactly when the limit's last digit is 1. */
  lemma LengthErrorShape(max: int, length: int)
    requires length > max
    ensures var e := GetLengthError(max, length).value;
      var n := |LENGTH_ERROR_PREFIX + IntToString(max) + " "|;
      e[..n] == LENGTH_ERROR_PREFIX + IntToString(max) + " "
      && (e[n..] == "символа" <==> Abs(max) % 10 == 1)
      && (e[n..] == "символов" <==> Abs(max) % 10 != 1)
  {
  }
}
