/**
 * Field validators of package `validator` and the serialiser of a list of
 * validation errors. A validator returns Go's `error`: None for nil, or the
 * error's message.
 */
module Validator {
  import opened Wrappers
  import opened GoStrings

  datatype ValidationError = ValidationError(field: string, message: string)

  type ValidationErrors = seq<ValidationError>

  const ErrorsHeading: string := "Validation errors: "
  const ErrorsSeparator: string := ", "

  /** `fmt.Sprintf("%s: %s", err.Field, err.Message)`: the field, then ": ", then the message. */
  function Format(e: ValidationError): (s: string)
    ensures |s| == |e.field| + 2 + |e.message|
    ensures s[..|e.field|] == e.field && s[|e.field|..|e.field| + 2] == ": " && s[|e.field| + 2..] == e.message
  {
    e.field + ": " + e.message
  }

  /** Every entry formatted, in list order. */
  function Formatted(ve: ValidationErrors): (lines: seq<string>)
    ensures |lines| == |ve|
    ensures forall i :: 0 <= i < |ve| ==> lines[i] == Format(ve[i])
  {
    seq(|ve|, i requires 0 <= i < |ve| => Format(ve[i]))
  }

  /** The text `ValidationErrors.Error` produces: "" for no errors, else the heading and the formatted entries joined by ", ". */
  function ErrorText(ve: ValidationErrors): (s: string)
    ensures s == "" <==> |ve| == 0
    ensures |ve| > 0 ==> |s| > |ErrorsHeading| && s[..|ErrorsHeading|] == ErrorsHeading
  {
    if |ve| == 0 then "" else ErrorsHeading + Join(Formatted(ve), ErrorsSeparator)
  }

  /** `ValidationErrors.Error`: writes the heading once, then each entry with ", " before every entry but the first. */
  method Error(ve: ValidationErrors) returns (s: string)
    ensures s == ErrorText(ve)
  {
    if |ve| == 0 {
      return "";
    }
    var sb := ErrorsHeading;
    for i := 0 to |ve|
      invariant sb == ErrorsHeading + Join(Formatted(ve)[..i], ErrorsSeparator)
    {
      if i > 0 {
        sb := sb + ErrorsSeparator;
      }
      sb := sb + Format(ve[i]);
      assert Formatted(ve)[..i + 1][..i] == Formatted(ve)[..i];
    }
    assert Formatted(ve)[..|ve|] == Formatted(ve);
    s := sb;
  }

  /** A single error reads "Validation errors: <field>: <message>". */
  lemma ErrorTextSingle(e: ValidationError)
    ensures ErrorText([e]) == ErrorsHeading + e.field + ": " + e.message
  {
  }

  /** Appending an error to a non-empty list appends ", " and its formatted entry, so entries appear in list order. */
  lemma {:induction false} ErrorTextAppend(ve: ValidationErrors, e: ValidationError)
    requires |ve| > 0
    ensures ErrorText(ve + [e]) == ErrorText(ve) + ErrorsSeparator + Format(e)
  {
    assert Formatted(ve + [e]) == Formatted(ve) + [Format(e)];
    JoinConcat(Formatted(ve), [Format(e)], ErrorsSeparator);
  }

  /** Concatenating two non-empty lists: the second list's entries follow the first's after one separator. */
  lemma {:induction false} ErrorTextConcat(a: ValidationErrors, b: ValidationErrors)
    requires |a| > 0 && |b| > 0
    ensures ErrorText(a + b) == ErrorText(a) + ErrorsSeparator + Join(Formatted(b), ErrorsSeparator)
  {
    assert Formatted(a + b) == Formatted(a) + Formatted(b);
    JoinConcat(Formatted(a), Formatted(b), ErrorsSeparator);
  }

  const ErrEmptyEmail: string := "email cannot be empty"
  const ErrInvalidEmail: string := "invalid email format"

  /**
   * `ValidateEmail`: an empty address fails first; otherwise the address
   * must be accepted by `parseAddress`, which stands for `mail.ParseAddress`.
   */
  function ValidateEmail(email: string, parseAddress: string -> bool): (err: Option<string>)
    ensures email == "" ==> err == Some(ErrEmptyEmail)
    ensures email != "" ==> (err == None <==> parseAddress(email))
    ensures err != None ==> err == Some(if email == "" then ErrEmptyEmail else ErrInvalidEmail)
  {
    if email == "" then Some(ErrEmptyEmail)
    else if !parseAddress(email) then Some(ErrInvalidEmail)
    else None
  }

  const MinPasswordLength: nat := 8
  const ErrPasswordTooShort: string := "password must be at least 8 characters long"
  const ErrPasswordNoUpper: string := "password must contain at least one uppercase letter"
  const ErrPasswordNoDigit: string := "password must contain at least one digit"

  predicate IsAsciiUpper(c: char) { 'A' <= c <= 'Z' }

  predicate IsAsciiDigit(c: char) { '0' <= c <= '9' }

  /** `regexp.MustCompile("[...]").MatchString(s)` for a one-byte character class: a scan for a byte of the class. */
  function MatchString(s: string, inClass: char -> bool): (found: bool)
    ensures found <==> exists i :: 0 <= i < |s| && inClass(s[i])
    decreases |s|
  {
    if s == [] then false
    else if inClass(s[0]) then true
    else
      var rest := MatchString(s[1..], inClass);
      assert forall i :: 0 < i < |s| ==> s[i] == s[1..][i - 1];
      rest
  }

  /**
   * `ValidatePassword`: the first failing rule decides the message, checked
   * in the order length, upper-case letter, digit.
   */
  function ValidatePassword(password: string): (err: Option<string>)
    ensures err == None <==>
              |password| >= MinPasswordLength
              && (exists i :: 0 <= i < |password| && IsAsciiUpper(password[i]))
              && (exists i :: 0 <= i < |password| && IsAsciiDigit(password[i]))
    ensures err == Some(ErrPasswordTooShort) <==> |password| < MinPasswordLength
    ensures err == Some(ErrPasswordNoUpper) <==>
              |password| >= MinPasswordLength && forall i :: 0 <= i < |password| ==> !IsAsciiUpper(password[i])
    ensures err == Some(ErrPasswordNoDigit) <==>
              |password| >= MinPasswordLength
              && (exists i :: 0 <= i < |password| && IsAsciiUpper(password[i]))
              && forall i :: 0 <= i < |password| ==> !IsAsciiDigit(password[i])
  {
    if |password| < MinPasswordLength then Some(ErrPasswordTooShort)
    else if !MatchString(password, IsAsciiUpper) then Some(ErrPasswordNoUpper)
    else if !MatchString(password, IsAsciiDigit) then Some(ErrPasswordNoDigit)
    else None
  }

  /** `ValidateNonEmpty`: fails, naming the field, exactly when the value is empty or all white space. */
  function ValidateNonEmpty(field: string, value: string): (err: Option<string>)
    ensures err != None <==> forall i :: 0 <= i < |value| ==> IsSpace(value[i])
    ensures err != None ==> err == Some(field + " cannot be empty")
  {
    TrimSpaceEmpty(value);
    if TrimSpace(value) == "" then Some(field + " cannot be empty") else None
  }
}
