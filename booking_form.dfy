/** The booking form of the chat widget (components/widget/BookingForm.tsx):
    its field validation, the submit gate and the per-field error clearing.
    The rendering and the `onSubmit`/`onCancel` callbacks' effects are not
    modelled; a submission is the form data handed to `onSubmit`. */
module BookingForm {
  import opened Wrappers

  /** The four form fields. */
  datatype Field = Name | Email | Phone | Notes

  datatype FormData = FormData(name: string, email: string, phone: string, notes: string)

  const NameRequired := "Name is required"
  const EmailRequired := "Email is required"
  const EmailInvalid := "Please enter a valid email address"
  const PhoneRequired := "Phone number is required"
  const PhoneInvalid := "Please enter a valid phone number"

  /** The characters JavaScript's `\s` matches and `trim` removes. */
  predicate IsJsWhitespace(c: char)
  {
    || c == '\t' || c == '\n' || c == '\U{000B}' || c == '\U{000C}' || c == '\r' || c == ' '
    || c == '\U{00A0}' || c == '\U{1680}' || ('\U{2000}' <= c <= '\U{200A}')
    || c == '\U{2028}' || c == '\U{2029}' || c == '\U{202F}' || c == '\U{205F}'
    || c == '\U{3000}' || c == '\U{FEFF}'
  }

  /** `s.trim()`: without its leading and trailing whitespace. */
  function Trim(s: string): (t: string)
    ensures |t| <= |s|
    ensures t != [] ==> !IsJsWhitespace(t[0]) && !IsJsWhitespace(t[|t| - 1])
    decreases |s|
  {
    if s == [] then []
    else if IsJsWhitespace(s[0]) then Trim(s[1..])
    else if IsJsWhitespace(s[|s| - 1]) then Trim(s[..|s| - 1])
    else s
  }

  /** `!s.trim()`: the string is empty or all whitespace. */
  predicate Blank(s: string)
  {
    Trim(s) == ""
  }

  /** A string is blank exactly when every character is whitespace. */
  lemma {:induction false} BlankIffAllWhitespace(s: string)
    ensures Blank(s) <==> forall i :: 0 <= i < |s| ==> IsJsWhitespace(s[i])
    decreases |s|
  {
    if s != [] {
      if IsJsWhitespace(s[0]) {
        BlankIffAllWhitespace(s[1..]);
        assert forall i :: 1 <= i < |s| ==> s[i] == s[1..][i - 1];
      } else if IsJsWhitespace(s[|s| - 1]) {
        BlankIffAllWhitespace(s[..|s| - 1]);
        assert !Blank(s[..|s| - 1]) by {
          assert s[..|s| - 1][0] == s[0];
        }
      }
    }
  }

  /** `[^\s@]`. */
  predicate EmailChar(c: char) { !IsJsWhitespace(c) && c != '@' }

  /** `[^\s@]+`. */
  predicate EmailPart(s: string)
  {
    |s| > 0 && forall i :: 0 <= i < |s| ==> EmailChar(s[i])
  }

  /** `/^[^\s@]+@[^\s@]+\.[^\s@]+$/`, read as a regular expression: the string
      splits into three non-empty runs of `[^\s@]` joined by '@' and '.'. */
  ghost predicate EmailRegex(s: string)
  {
    exists local: string, host: string, tld: string ::
      EmailPart(local) && EmailPart(host) && EmailPart(tld) && s == local + "@" + host + "." + tld
  }

  /** The same test on positions, as the form evaluates it: exactly one '@',
      not first; no whitespace; and a '.' after the '@' that neither follows it
      directly nor ends the string. */
  predicate IsValidEmail(s: string)
  {
    exists at, dot | 0 <= at < dot < |s| :: EmailAt(s, at, dot)
  }

  /** The positional conditions of `IsValidEmail` for one choice of the '@'
      and the '.'. */
  predicate EmailAt(s: string, at: int, dot: int)
    requires 0 <= at < dot < |s|
  {
    && 0 < at && at + 1 < dot && dot < |s| - 1
    && s[at] == '@' && s[dot] == '.'
    && forall k :: 0 <= k < |s| && k != at ==> EmailChar(s[k])
  }

  /** An address assembled from three parts passes the positional test. */
  lemma EmailPartsAreValid(local: string, host: string, tld: string)
    requires EmailPart(local) && EmailPart(host) && EmailPart(tld)
    ensures IsValidEmail(local + "@" + host + "." + tld)
  {
    var s := local + "@" + host + "." + tld;
    var at := |local|;
    var dot := |local| + 1 + |host|;
    forall k | 0 <= k < |s| && k != at
      ensures EmailChar(s[k])
    {
      if k < at {
        assert s[k] == local[k];
      } else if k < dot {
        assert s[k] == host[k - at - 1];
      } else if k > dot {
        assert s[k] == tld[k - dot - 1];
      }
    }
    assert EmailAt(s, at, dot);
  }

  /** A string passing the positional test splits into the regular
      expression's three parts. */
  lemma ValidEmailHasParts(s: string, at: int, dot: int)
    requires 0 <= at < dot < |s| && EmailAt(s, at, dot)
    ensures EmailRegex(s)
  {
    var local, host, tld := s[..at], s[at + 1..dot], s[dot + 1..];
    assert forall i :: 0 <= i < |local| ==> local[i] == s[i];
    assert forall i :: 0 <= i < |host| ==> host[i] == s[at + 1 + i];
    assert forall i :: 0 <= i < |tld| ==> tld[i] == s[dot + 1 + i];
    assert s == local + "@" + host + "." + tld;
    assert EmailPart(local) && EmailPart(host) && EmailPart(tld);
  }

  /** The positional test is exactly the regular expression. */
  lemma EmailRegexIffValid(s: string)
    ensures EmailRegex(s) <==> IsValidEmail(s)
  {
    if EmailRegex(s) {
      var local: string, host: string, tld: string :|
        EmailPart(local) && EmailPart(host) && EmailPart(tld) && s == local + "@" + host + "." + tld;
      EmailPartsAreValid(local, host, tld);
    }
    if IsValidEmail(s) {
      var at, dot :| 0 <= at < dot < |s| && EmailAt(s, at, dot);
      ValidEmailHasParts(s, at, dot);
    }
  }

  /** The digit class `\d`. */
  predicate IsAsciiDigit(c: char) { '0' <= c <= '9' }

  /** `[\d\s\-()]`. */
  predicate PhoneChar(c: char)
  {
    IsAsciiDigit(c) || IsJsWhitespace(c) || c == '-' || c == '(' || c == ')'
  }

  /** `/^\+?[\d\s\-()]+$/`, read as a regular expression. */
  ghost predicate PhoneRegex(s: string)
  {
    exists sign: string, body: string ::
      (sign == "" || sign == "+") && |body| > 0
      && (forall i :: 0 <= i < |body| ==> PhoneChar(body[i]))
      && s == sign + body
  }

  /** The same test as the form evaluates it: an optional leading '+', then at
      least one digit, whitespace, '-', '(' or ')', and nothing else. */
  predicate IsValidPhone(s: string)
  {
    |PhoneBody(s)| > 0 && forall i :: 0 <= i < |PhoneBody(s)| ==> PhoneChar(PhoneBody(s)[i])
  }

  /** The phone number without its optional leading '+'. */
  function PhoneBody(s: string): (body: string)
    ensures |s| > 0 && s[0] == '+' ==> s == "+" + body
    ensures !(|s| > 0 && s[0] == '+') ==> s == body
  {
    if |s| > 0 && s[0] == '+' then s[1..] else s
  }

  /** The direct test is exactly the regular expression. */
  lemma PhoneRegexIffValid(s: string)
    ensures PhoneRegex(s) <==> IsValidPhone(s)
  {
    if PhoneRegex(s) {
      var sign: string, body: string :|
        (sign == "" || sign == "+") && |body| > 0
        && (forall i :: 0 <= i < |body| ==> PhoneChar(body[i]))
        && s == sign + body;
      if sign == "" {
        assert s[0] == body[0];
        assert !(s[0] == '+');
      } else {
        assert s[1..] == body;
      }
    }
    if IsValidPhone(s) {
      var sign := if |s| > 0 && s[0] == '+' then "+" else "";
      var body := s[|sign|..];
      assert body == PhoneBody(s);
      assert s == sign + body;
      assert (sign == "" || sign == "+") && |body| > 0
        && (forall i :: 0 <= i < |body| ==> PhoneChar(body[i]))
        && s == sign + body;
    }
  }

  /** The error recorded for the name, if any. */
  function NameError(name: string): (e: Option<string>)
    ensures e.Some? <==> Blank(name)
  {
    if Blank(name) then Some(NameRequired) else None
  }

  /** The error recorded for the email, if any; the pattern is tested on the
      value as typed, not on the trimmed value. */
  function EmailError(email: string): (e: Option<string>)
    ensures e == Some(EmailRequired) <==> Blank(email)
    ensures e == Some(EmailInvalid) <==> !Blank(email) && !EmailRegex(email)
    ensures e == None <==> EmailRegex(email)
  {
    EmailRegexIffValid(email);
    if Blank(email) then
      BlankIffAllWhitespace(email);
      Some(EmailRequired)
    else if !IsValidEmail(email) then Some(EmailInvalid)
    else None
  }

  /** The error recorded for the phone, if any. */
  function PhoneError(phone: string): (e: Option<string>)
    ensures e == Some(PhoneRequired) <==> Blank(phone)
    ensures e == Some(PhoneInvalid) <==> !Blank(phone) && !PhoneRegex(phone)
    ensures e == None <==> !Blank(phone) && PhoneRegex(phone)
  {
    PhoneRegexIffValid(phone);
    if Blank(phone) then Some(PhoneRequired)
    else if !IsValidPhone(phone) then Some(PhoneInvalid)
    else None
  }

  /** The errors `validateForm` records: one entry per failing field. */
  function FieldErrors(d: FormData): (errors: map<Field, string>)
    ensures Name in errors <==> NameError(d.name).Some?
    ensures Email in errors <==> EmailError(d.email).Some?
    ensures Phone in errors <==> PhoneError(d.phone).Some?
    ensures Notes !in errors
    ensures Name in errors ==> errors[Name] == NameError(d.name).value
    ensures Email in errors ==> errors[Email] == EmailError(d.email).value
    ensures Phone in errors ==> errors[Phone] == PhoneError(d.phone).value
  {
    var withName: map<Field, string> := if NameError(d.name).Some? then map[Name := NameError(d.name).value] else map[];
    var withEmail := if EmailError(d.email).Some? then withName[Email := EmailError(d.email).value] else withName;
    if PhoneError(d.phone).Some? then withEmail[Phone := PhoneError(d.phone).value] else withEmail
  }

  /** The form validates exactly when the name and the phone are not blank
      and the email and the phone match their patterns. */
  lemma ValidIffFieldsValid(d: FormData)
    ensures FieldErrors(d) == map[] <==>
      !Blank(d.name) && EmailRegex(d.email) && !Blank(d.phone) && PhoneRegex(d.phone)
  {
    var errors := FieldErrors(d);
    if !Blank(d.name) && EmailRegex(d.email) && !Blank(d.phone) && PhoneRegex(d.phone) {
      assert errors.Keys == {};
    } else {
      assert Name in errors || Email in errors || Phone in errors;
    }
  }

  /** A phone of spaces only matches the pattern, since `\s` is in its class,
      and is caught by the blank test instead. */
  lemma BlankPhoneMatchesPattern()
    ensures PhoneRegex("  ") && PhoneError("  ") == Some(PhoneRequired)
  {
    assert "  "[0] != '+' && PhoneChar("  "[0]) && PhoneChar("  "[1]);
    assert IsValidPhone("  ");
    PhoneRegexIffValid("  ");
    BlankIffAllWhitespace("  ");
  }

  /** An email with a space around it is rejected, although it is a valid
      address once trimmed. */
  lemma UntrimmedEmailRejected()
    ensures EmailError(" a@b.co") == Some(EmailInvalid)
    ensures EmailError("a@b.co") == None
  {
    var s := " a@b.co";
    assert !IsValidEmail(s);
    EmailRegexIffValid(s);
    assert !Blank(s) by { BlankIffAllWhitespace(s); assert !IsJsWhitespace(s[1]); }
    var t := "a@b.co";
    assert EmailAt(t, 1, 3);
    EmailRegexIffValid(t);
  }

  /** A phone number needs no digit: "(-)" passes, "+" alone does not. */
  lemma PhoneNeedsNoDigit()
    ensures PhoneError("(-)") == None
    ensures PhoneError("+") == Some(PhoneInvalid)
  {
    assert "(-)"[0] != '+' && PhoneChar("(-)"[0]) && PhoneChar("(-)"[1]) && PhoneChar("(-)"[2]);
    assert IsValidPhone("(-)");
    assert !Blank("(-)") by { BlankIffAllWhitespace("(-)"); assert !IsJsWhitespace("(-)"[0]); }
    assert !IsValidPhone("+");
    assert !Blank("+") by { BlankIffAllWhitespace("+"); assert !IsJsWhitespace("+"[0]); }
    PhoneRegexIffValid("(-)");
    PhoneRegexIffValid("+");
  }

  /** The value of one field. */
  function Get(d: FormData, f: Field): string
  {
    match f
    case Name => d.name
    case Email => d.email
    case Phone => d.phone
    case Notes => d.notes
  }

  /** `{ ...prev, [field]: value }`. */
  function WithField(d: FormData, f: Field, value: string): (r: FormData)
    ensures Get(r, f) == value
    ensures forall g :: g != f ==> Get(r, g) == Get(d, g)
  {
    match f
    case Name => d.(name := value)
    case Email => d.(email := value)
    case Phone => d.(phone := value)
    case Notes => d.(notes := value)
  }

  /** `errors[field]` is truthy: present and not the empty string. */
  predicate HasError(errors: map<Field, string>, f: Field)
  {
    f in errors && errors[f] != ""
  }

  class Form {
    var formData: FormData
    var errors: map<Field, string>

    /** A fresh form: every field empty, no errors. */
    constructor ()
      ensures formData == FormData("", "", "", "") && errors == map[]
    {
      formData := FormData("", "", "", "");
      errors := map[];
    }

    /** `validateForm`: records the field errors and reports whether there
        were none. */
    method ValidateForm() returns (ok: bool)
      modifies this`errors
      ensures errors == FieldErrors(formData)
      ensures ok <==> !Blank(formData.name) && EmailRegex(formData.email) && !Blank(formData.phone) && PhoneRegex(formData.phone)
    {
      var newErrors: map<Field, string> := map[];
      if Blank(formData.name) {
        newErrors := newErrors[Name := NameRequired];
      }
      if Blank(formData.email) {
        newErrors := newErrors[Email := EmailRequired];
      } else if !IsValidEmail(formData.email) {
        newErrors := newErrors[Email := EmailInvalid];
      }
      if Blank(formData.phone) {
        newErrors := newErrors[Phone := PhoneRequired];
      } else if !IsValidPhone(formData.phone) {
        newErrors := newErrors[Phone := PhoneInvalid];
      }
      errors := newErrors;
      ok := |newErrors| == 0;
      ValidIffFieldsValid(formData);
      assert ok <==> newErrors == map[];
    }

    /** `handleSubmit`: the data handed to `onSubmit`, which happens only when
        validation passes. */
    method HandleSubmit() returns (submitted: Option<FormData>)
      modifies this`errors
      ensures errors == FieldErrors(formData)
      ensures submitted.Some? <==> FieldErrors(formData) == map[]
      ensures submitted.Some? ==> submitted.value == formData
    {
      var ok := ValidateForm();
      if ok {
        submitted := Some(formData);
      } else {
        submitted := None;
      }
    }

    /** `handleChange(field, value)`: sets that field and, if it had an error,
        sets that error to the empty string; nothing else changes. */
    method HandleChange(field: Field, value: string)
      modifies this
      ensures formData == WithField(old(formData), field, value)
      ensures errors == if HasError(old(errors), field) then old(errors)[field := ""] else old(errors)
    {
      formData := WithField(formData, field, value);
      if HasError(errors, field) {
        errors := errors[field := ""];
      }
    }
  }

  /** After a change, the other fields and their errors are as they were, and
      the changed field's error is no longer truthy. */
  lemma ChangeTouchesOnlyItsField(d: FormData, errors: map<Field, string>, f: Field, value: string)
    ensures var errors' := if HasError(errors, f) then errors[f := ""] else errors;
      && Get(WithField(d, f, value), f) == value
      && !HasError(errors', f)
      && (forall g :: g != f ==> Get(WithField(d, f, value), g) == Get(d, g))
      && (forall g :: g != f ==> (g in errors' <==> g in errors) && (g in errors ==> errors'[g] == errors[g]))
      && errors'.Keys == errors.Keys
  {
  }
}
