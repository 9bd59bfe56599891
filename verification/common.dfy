/** Values shared by every part of the storefront model: optional values,
    the error values that the server actions put in their result envelope,
    validation issues, and the decimal text of a row id. */
module Common {

  datatype Option<+T> = None | Some(value: T)

  /** Row ids. The store generates them; the model draws them from a counter. */
  type Id = nat

  /** The form fields that validation issues are attached to. */
  datatype Field =
    | Name | Slug | Category | Brand | Description | Images | Price
    | Email | Password | ConfirmPassword

  /** One validation issue: the field it is attached to and its message. */
  datatype Issue = Issue(path: Field, message: string)

  /** What a failed action carries in its `{success: false, message}` envelope.
      The text shown to the user is this value passed through the project's
      error formatter, which is not part of this model. */
  datatype Error =
    | Message(text: string)          // an Error thrown or returned with this text
    | Invalid(issues: seq<Issue>)    // a schema parse that failed with these issues
    | UniqueViolation(field: string) // the store refused a duplicate value of a unique field
    | RecordNotFound                 // the store refused to update a row that does not exist

  datatype Result<+T> = Ok(value: T) | Err(error: Error)

  /** The `{success, message}` envelope of a server action, or a navigation
      signal that the action let propagate to the framework. */
  datatype Reply = Succeeded(message: string) | Failed(error: Error) | Rethrown(url: string)

  predicate IsDigit(c: char) { '0' <= c <= '9' }

  predicate AllDigits(s: string) { forall i :: 0 <= i < |s| ==> IsDigit(s[i]) }

  function DigitChar(d: nat): (c: char)
    requires d < 10
    ensures IsDigit(c)
  {
    ['0', '1', '2', '3', '4', '5', '6', '7', '8', '9'][d]
  }

  function DigitValue(c: char): (d: nat)
    requires IsDigit(c)
    ensures d < 10 && DigitChar(d) == c
  {
    (c as int - '0' as int) as nat
  }

  /** Value of a string of decimal digits. */
  function DecimalValue(s: string): nat
    requires AllDigits(s)
  {
    if s == [] then 0 else 10 * DecimalValue(s[..|s| - 1]) + DigitValue(s[|s| - 1])
  }

  /** Decimal text of an id, as it appears in a URL such as `/order/<id>`. */
  function IdText(n: nat): (s: string)
    ensures |s| >= 1 && AllDigits(s)
    ensures DecimalValue(s) == n
  {
    if n < 10 then [DigitChar(n)]
    else
      var s := IdText(n / 10) + [DigitChar(n % 10)];
      assert s[..|s| - 1] == IdText(n / 10);
      s
  }
}
