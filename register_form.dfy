/** The registration form of the client: `validateForm`, which records one message per field
    in error, the password requirement indicators, and `handleChange`, which clears the error
    of the field being edited. */
module RegisterForm {
  import opened JsRuntime

  datatype Field = Name | Email | Password | ConfirmPassword

  const AllFields: set<Field> := {Name, Email, Password, ConfirmPassword}

  /** `formData`. */
  datatype FormData = FormData(name: string, email: string, password: string, confirmPassword: string)

  function FieldValue(d: FormData, f: Field): string
  {
    match f
    case Name => d.name
    case Email => d.email
    case Password => d.password
    case ConfirmPassword => d.confirmPassword
  }

  /** `{ ...prev, [name]: value }`. */
  function WithField(d: FormData, f: Field, value: string): (r: FormData)
    ensures FieldValue(r, f) == value
    ensures forall g :: g != f ==> FieldValue(r, g) == FieldValue(d, g)
  {
    match f
    case Name => d.(name := value)
    case Email => d.(email := value)
    case Password => d.(password := value)
    case ConfirmPassword => d.(confirmPassword := value)
  }

  /** Nothing but white space. */
  predicate Blank(s: string)
  {
    forall k :: 0 <= k < |s| ==> IsWhitespace(s[k])
  }

  /** `!s.trim()`: trimming leaves nothing exactly when the string is blank. */
  lemma TrimEmptyIffBlank(s: string)
    ensures Trim(s) == "" <==> Blank(s)
  {
    TrimSlice(s);
    if Trim(s) != "" {
      assert !IsWhitespace(Trim(s)[0]);
      assert Trim(s)[0] == s[TrimOffset(s)];
    }
  }

  /** `!s.trim()`. */
  method TrimsToEmpty(s: string) returns (empty: bool)
    ensures empty <==> Blank(s)
  {
    TrimEmptyIffBlank(s);
    empty := Trim(s) == "";
  }

  // ---------------------------------------------------------------------------
  // The e-mail pattern
  // ---------------------------------------------------------------------------

  /** `/\S+@\S+\.\S+/.test(s)`, unanchored: somewhere in `s` a non-space character, an `@`,
      a run of non-space characters, a `.` and a non-space character follow one another.
      (`\S+` may take more characters, `@` and `.` included, but one at each end decides.) */
  predicate EmailPattern(s: string)
  {
    exists at, dot | 0 <= at < |s| && 0 <= dot < |s| :: MatchAt(s, at, dot)
  }

  /** The pattern matches with its `@` at `at` and its `.` at `dot`. */
  predicate MatchAt(s: string, at: int, dot: int)
  {
    0 < at && at + 1 < dot && dot + 1 < |s| && s[at] == '@' && s[dot] == '.'
    && !IsWhitespace(s[at - 1]) && !IsWhitespace(s[dot + 1]) && NonSpaceRun(s, at + 1, dot)
  }

  /** `s[i..j]` holds no white space (`\S*`). */
  predicate NonSpaceRun(s: string, i: int, j: int)
    requires 0 <= i <= j <= |s|
  {
    forall k :: i <= k < j ==> !IsWhitespace(s[k])
  }

  lemma SimpleAddressMatches()
    ensures EmailPattern("a@b.c")
  {
    var s := "a@b.c";
    assert NonSpaceRun(s, 2, 3);
    assert MatchAt(s, 1, 3);
  }

  /** There must be something between the `@` and the `.`. */
  lemma DotRightAfterAtFails()
    ensures !EmailPattern("ab@.cd")
  {
    var s := "ab@.cd";
    forall at, dot ensures !MatchAt(s, at, dot) {
      if 0 < at < |s| && s[at] == '@' {
        assert at == 2;
      }
    }
  }

  /** Text around an address does not matter: the pattern is unanchored. */
  lemma EmailPatternUnanchored(before: string, s: string, after: string)
    requires EmailPattern(s)
    ensures EmailPattern(before + s + after)
  {
    var at, dot :| 0 <= at < |s| && 0 <= dot < |s| && MatchAt(s, at, dot);
    assert 0 < at && at + 1 < dot && dot + 1 < |s|;
    var t := before + s + after;
    var n := |before|;
    assert t[n + at] == '@' && t[n + dot] == '.';
    assert t[n + at - 1] == s[at - 1] && t[n + dot + 1] == s[dot + 1];
    assert NonSpaceRun(t, n + at + 1, n + dot) by {
      forall k | n + at + 1 <= k < n + dot ensures !IsWhitespace(t[k]) {
        assert t[k] == s[k - n];
      }
    }
    assert MatchAt(t, n + at, n + dot);
  }

  // ---------------------------------------------------------------------------
  // validateForm
  // ---------------------------------------------------------------------------

  /** The message `validateForm` records for one field, if any. */
  function FieldError(d: FormData, f: Field): (r: Option<string>)
  {
    match f
    case Name => if Blank(d.name) then Some("Name is required") else None
    case Email =>
      if Blank(d.email) then Some("Email is required")
      else if !EmailPattern(d.email) then Some("Email is invalid")
      else None
    case Password =>
      if d.password == "" then Some("Password is required")
      else if |d.password| < 6 then Some("Password must be at least 6 characters")
      else None
    case ConfirmPassword => if d.password != d.confirmPassword then Some("Passwords do not match") else None
  }

  /** `newErrors`: one entry per field in error. */
  function FormErrors(d: FormData): (r: map<Field, string>)
    ensures forall f :: f in r <==> FieldError(d, f).Some?
    ensures forall f :: f in r ==> r[f] == FieldError(d, f).value
  {
    map f | f in AllFields && FieldError(d, f).Some? :: FieldError(d, f).value
  }

  /** `if (message) newErrors[f] = message`. */
  function Record(errors: map<Field, string>, f: Field, message: Option<string>): map<Field, string>
  {
    if message.Some? then errors[f := message.value] else errors
  }

  /** Checking the four fields in turn, each adding its message if it has one, records
      exactly `FormErrors`. */
  lemma FieldByFieldIsFormErrors(d: FormData)
    ensures Record(Record(Record(Record(map[], Name, FieldError(d, Name)), Email, FieldError(d, Email)),
                          Password, FieldError(d, Password)),
                   ConfirmPassword, FieldError(d, ConfirmPassword)) == FormErrors(d)
  {
    var m := Record(Record(Record(Record(map[], Name, FieldError(d, Name)), Email, FieldError(d, Email)),
                           Password, FieldError(d, Password)),
                    ConfirmPassword, FieldError(d, ConfirmPassword));
    assert forall f :: f in m <==> FieldError(d, f).Some?;
    assert forall f :: f in m ==> m[f] == FieldError(d, f).value;
  }

  /** `Object.keys(m).length === 0` says that `m` is empty. */
  lemma NoKeysIffEmpty<K, V>(m: map<K, V>)
    ensures |m| == 0 <==> m == map[]
  {
    if |m| != 0 {
      var k :| k in m;
    }
  }

  /** What the form demands, stated field by field: a name that is not blank, an e-mail that
      is not blank and matches the pattern, a password of at least 6 characters, and the same
      password twice. */
  predicate MeetsRequirements(d: FormData)
  {
    !Blank(d.name) && !Blank(d.email) && EmailPattern(d.email)
    && |d.password| >= 6 && d.password == d.confirmPassword
  }

  /** No field is in error exactly when the form meets the requirements. */
  lemma NoFieldErrorIffRequirements(d: FormData)
    ensures (forall f :: FieldError(d, f).None?) <==> MeetsRequirements(d)
  {
    if !MeetsRequirements(d) {
      if Blank(d.name) {
        assert FieldError(d, Name).Some?;
      } else if Blank(d.email) || !EmailPattern(d.email) {
        assert FieldError(d, Email).Some?;
      } else if |d.password| < 6 {
        assert FieldError(d, Password).Some?;
      } else {
        assert FieldError(d, ConfirmPassword).Some?;
      }
    }
  }

  /** The form is accepted exactly when it meets the requirements. */
  lemma NoErrorsIffRequirements(d: FormData)
    ensures FormErrors(d) == map[] <==> MeetsRequirements(d)
  {
    NoFieldErrorIffRequirements(d);
    var e := FormErrors(d);
    if forall f :: FieldError(d, f).None? {
      assert e.Keys == {};
    } else {
      var f :| FieldError(d, f).Some?;
      assert f in e;
    }
  }

  /** The confirmation check does not depend on the other checks: it fails whenever the two
      passwords differ, even when the password itself is missing. */
  lemma ConfirmationIndependent(d: FormData)
    ensures ConfirmPassword in FormErrors(d) <==> d.password != d.confirmPassword
  {
  }

  // ---------------------------------------------------------------------------
  // Password requirement indicators
  // ---------------------------------------------------------------------------

  /** The three indicators: length at least 6, `/[A-Z]/` and `/[0-9]/`. */
  datatype Indicators = Indicators(longEnough: bool, hasUppercase: bool, hasDigit: bool)

  function PasswordIndicators(p: string): (r: Indicators)
    ensures r.longEnough <==> |p| >= 6
    ensures r.hasUppercase <==> exists k :: 0 <= k < |p| && 'A' <= p[k] <= 'Z'
    ensures r.hasDigit <==> exists k :: 0 <= k < |p| && '0' <= p[k] <= '9'
  {
    Indicators(|p| >= 6, exists k :: 0 <= k < |p| && 'A' <= p[k] <= 'Z', exists k :: 0 <= k < |p| && '0' <= p[k] <= '9')
  }

  /** The length indicator agrees with the password check; the other two are not enforced. */
  lemma LengthIndicatorMatchesCheck(d: FormData)
    requires d.password != ""
    ensures Password !in FormErrors(d) <==> PasswordIndicators(d.password).longEnough
  {
  }

  /** "abcdef" turns only the length indicator green. */
  lemma LowercaseIndicators()
    ensures PasswordIndicators("abcdef") == Indicators(true, false, false)
  {
    var p := "abcdef";
    assert forall k :: 0 <= k < |p| ==> 'a' <= p[k] <= 'z';
  }

  /** A password without capitals or digits is accepted though two indicators stay grey. */
  lemma IndicatorsAreDisplayOnly(d: FormData)
    requires !Blank(d.name) && !Blank(d.email) && EmailPattern(d.email)
    ensures FormErrors(d.(password := "abcdef", confirmPassword := "abcdef")) == map[]
    ensures !PasswordIndicators("abcdef").hasUppercase && !PasswordIndicators("abcdef").hasDigit
  {
    NoErrorsIffRequirements(d.(password := "abcdef", confirmPassword := "abcdef"));
    LowercaseIndicators();
  }

  // ---------------------------------------------------------------------------
  // handleChange
  // ---------------------------------------------------------------------------

  /** `if (errors[name]) setErrors({ ...prev, [name]: '' })`: a recorded message is emptied. */
  function ClearError(errors: map<Field, string>, f: Field): (r: map<Field, string>)
    ensures r.Keys == errors.Keys
    ensures f in errors ==> r[f] == ""
    ensures forall g :: g in errors && g != f ==> r[g] == errors[g]
  {
    if f in errors && errors[f] != "" then errors[f := ""] else errors
  }

  /** Clearing twice is clearing once. */
  lemma ClearErrorIdempotent(errors: map<Field, string>, f: Field)
    ensures ClearError(ClearError(errors, f), f) == ClearError(errors, f)
  {
  }

  /** The form's state: the field values and the messages on display. */
  class RegisterPage {
    var formData: FormData
    var errors: map<Field, string>

    constructor ()
      ensures formData == FormData("", "", "", "") && errors == map[]
    {
      formData := FormData("", "", "", "");
      errors := map[];
    }

    /** `validateForm`: the messages replace the errors, and the form is valid when there
        are none. */
    method ValidateForm() returns (ok: bool)
      modifies this`errors
      ensures errors == FormErrors(formData)
      ensures ok <==> errors == map[]
      ensures ok <==> MeetsRequirements(formData)
    {
      var d := formData;
      var newErrors: map<Field, string> := map[];
      var nameBlank := TrimsToEmpty(d.name);
      if nameBlank {
        newErrors := newErrors[Name := "Name is required"];
      }
      ghost var afterName := Record(map[], Name, FieldError(d, Name));
      assert newErrors == afterName;
      var emailBlank := TrimsToEmpty(d.email);
      if emailBlank {
        newErrors := newErrors[Email := "Email is required"];
      } else if !EmailPattern(d.email) {
        newErrors := newErrors[Email := "Email is invalid"];
      }
      ghost var afterEmail := Record(afterName, Email, FieldError(d, Email));
      assert newErrors == afterEmail;
      if d.password == "" {
        newErrors := newErrors[Password := "Password is required"];
      } else if |d.password| < 6 {
        newErrors := newErrors[Password := "Password must be at least 6 characters"];
      }
      ghost var afterPassword := Record(afterEmail, Password, FieldError(d, Password));
      assert newErrors == afterPassword;
      if d.password != d.confirmPassword {
        newErrors := newErrors[ConfirmPassword := "Passwords do not match"];
      }
      assert newErrors == Record(afterPassword, ConfirmPassword, FieldError(d, ConfirmPassword));
      FieldByFieldIsFormErrors(d);
      NoErrorsIffRequirements(d);
      NoKeysIffEmpty(newErrors);
      errors := newErrors;
      ok := |newErrors| == 0;
    }

    /** `handleChange`: the edited field takes the new value and only its error is cleared. */
    method HandleChange(f: Field, value: string)
      modifies this
      ensures formData == WithField(old(formData), f, value)
      ensures errors == ClearError(old(errors), f)
    {
      formData := WithField(formData, f, value);
      if f in errors && errors[f] != "" {
        errors := errors[f := ""];
      }
    }
  }
}
