/**
 * The account forms of users/forms.py: the name checks shared by the
 * registration and profile-edit forms, the activation state a registration
 * leaves behind, and the bounds of the message-to-the-admin form.
 */
module UserForms {
  import opened Wrappers
  import opened Text
  import opened Forms
  import opened UserModel

  /** Names of at most this many characters are rejected. */
  const ShortestRejected: nat := 3

  function InvalidCode(fieldName: string): string {
    "invalid_" + fieldName
  }

  const OnlyDigits: string := "only_digits"

  lemma InvalidCodeIsNotOnlyDigits(fieldName: string)
    ensures InvalidCode(fieldName) != OnlyDigits
  {
    assert InvalidCode(fieldName)[0] == 'i';
  }

  /** The error `num_validation` adds: 'only_digits', exactly when the value is all digits. */
  function NumErrors(value: string, fieldName: string): (r: seq<FieldError>)
    ensures |r| <= 1
    ensures r != [] <==> IsDigits(value)
    ensures forall e :: e in r ==> e == FieldError(fieldName, OnlyDigits, NoParam)
  {
    if IsDigits(value) then [FieldError(fieldName, OnlyDigits, NoParam)] else []
  }

  /**
   * The errors `len_validation` adds: 'invalid_<field>' carrying the length
   * when the value has at most three characters, then whatever
   * `num_validation` adds, which it always runs.
   */
  function LenErrors(value: string, fieldName: string): (r: seq<FieldError>)
    ensures FieldError(fieldName, InvalidCode(fieldName), LengthParam(|value|)) in r <==> |value| <= ShortestRejected
    ensures |r| <= 2
    ensures IsDigits(value) <==> FieldError(fieldName, OnlyDigits, NoParam) in r
    ensures forall e :: e in r ==> e.field == fieldName
  {
    InvalidCodeIsNotOnlyDigits(fieldName);
    (if |value| <= ShortestRejected then [FieldError(fieldName, InvalidCode(fieldName), LengthParam(|value|))] else [])
      + NumErrors(value, fieldName)
  }

  /** A name passes exactly when it is longer than three characters and not all digits. */
  lemma LenErrorsEmpty(value: string, fieldName: string)
    ensures LenErrors(value, fieldName) == [] <==> |value| > ShortestRejected && !IsDigits(value)
  {
  }

  /** A short all-digit name gets both errors, the length error first. */
  lemma ShortDigitsGetBothErrors(value: string, fieldName: string)
    requires |value| <= ShortestRejected && IsDigits(value)
    ensures LenErrors(value, fieldName) ==
            [FieldError(fieldName, InvalidCode(fieldName), LengthParam(|value|)), FieldError(fieldName, OnlyDigits, NoParam)]
  {
  }

  /** `num_validation`: record the 'only_digits' error if needed, and give the value back. */
  method NumValidation(form: Form, value: string, fieldName: string) returns (r: string)
    modifies form
    ensures r == value
    ensures form.errors == old(form.errors) + NumErrors(value, fieldName)
    ensures form.cleaned == if IsDigits(value) then old(form.cleaned) - {fieldName} else old(form.cleaned)
  {
    if IsDigits(value) {
      form.AddError(FieldError(fieldName, OnlyDigits, NoParam));
    }
    r := value;
  }

  /** `len_validation`: record the length error if needed, run `num_validation`, and give the value back. */
  method LenValidation(form: Form, value: string, fieldName: string) returns (r: string)
    modifies form
    ensures r == value
    ensures form.errors == old(form.errors) + LenErrors(value, fieldName)
    ensures form.cleaned == if LenErrors(value, fieldName) != [] then old(form.cleaned) - {fieldName} else old(form.cleaned)
  {
    if |value| <= ShortestRejected {
      form.AddError(FieldError(fieldName, InvalidCode(fieldName), LengthParam(|value|)));
    }
    r := NumValidation(form, value, fieldName);
  }

  /** The errors the profile-edit form's `clean_first_name` and `clean_last_name` add. */
  function ChangeProfileErrors(firstName: string, lastName: string): seq<FieldError> {
    LenErrors(firstName, "first_name") + LenErrors(lastName, "last_name")
  }

  /**
   * The errors the registration form's `clean_username`, `clean_first_name`
   * and `clean_last_name` add, in field order: the username's, then the same
   * as the profile-edit form's.
   */
  function RegisterErrors(username: string, firstName: string, lastName: string): seq<FieldError> {
    LenErrors(username, "username") + ChangeProfileErrors(firstName, lastName)
  }

  /** Registration reports a field exactly when that field's value is too short or all digits. */
  lemma RegisterErrorsByField(username: string, firstName: string, lastName: string)
    ensures ErrorsOn(RegisterErrors(username, firstName, lastName), "username") == LenErrors(username, "username")
    ensures ErrorsOn(RegisterErrors(username, firstName, lastName), "first_name") == LenErrors(firstName, "first_name")
    ensures ErrorsOn(RegisterErrors(username, firstName, lastName), "last_name") == LenErrors(lastName, "last_name")
  {
    var a, b, c := LenErrors(username, "username"), LenErrors(firstName, "first_name"), LenErrors(lastName, "last_name");
    assert RegisterErrors(username, firstName, lastName) == (a + b) + c;
    ErrorsOnAppend(a + b, c, "username");
    ErrorsOnAppend(a, b, "username");
    ErrorsOnOneField(a, "username");
    ErrorsOnOther(b, "first_name", "username");
    ErrorsOnOther(c, "last_name", "username");
    ErrorsOnAppend(a + b, c, "first_name");
    ErrorsOnAppend(a, b, "first_name");
    ErrorsOnOther(a, "username", "first_name");
    ErrorsOnOneField(b, "first_name");
    ErrorsOnOther(c, "last_name", "first_name");
    ErrorsOnAppend(a + b, c, "last_name");
    ErrorsOnAppend(a, b, "last_name");
    ErrorsOnOther(a, "username", "last_name");
    ErrorsOnOther(b, "first_name", "last_name");
    ErrorsOnOneField(c, "last_name");
  }

  /** The profile-edit form never reports anything against the username. */
  lemma ChangeProfileLeavesUsername(firstName: string, lastName: string)
    ensures ErrorsOn(ChangeProfileErrors(firstName, lastName), "username") == []
  {
    var b, c := LenErrors(firstName, "first_name"), LenErrors(lastName, "last_name");
    ErrorsOnAppend(b, c, "username");
    ErrorsOnOther(b, "first_name", "username");
    ErrorsOnOther(c, "last_name", "username");
  }

  lemma {:induction false} ErrorsOnAppend(a: seq<FieldError>, b: seq<FieldError>, field: string)
    ensures ErrorsOn(a + b, field) == ErrorsOn(a, field) + ErrorsOn(b, field)
    decreases |a|
  {
    if a == [] {
      assert a + b == b;
    } else {
      assert (a + b)[1..] == a[1..] + b;
      ErrorsOnAppend(a[1..], b, field);
    }
  }

  lemma {:induction false} ErrorsOnOneField(a: seq<FieldError>, field: string)
    requires forall e :: e in a ==> e.field == field
    ensures ErrorsOn(a, field) == a
    decreases |a|
  {
    if a != [] {
      ErrorsOnOneField(a[1..], field);
      assert a == [a[0]] + a[1..];
    }
  }

  lemma {:induction false} ErrorsOnOther(a: seq<FieldError>, field: string, other: string)
    requires field != other
    requires forall e :: e in a ==> e.field == field
    ensures ErrorsOn(a, other) == []
    decreases |a|
  {
    if a != [] {
      ErrorsOnOther(a[1..], field, other);
    }
  }

  /** The three `clean_*` checks of the registration form, in field order. */
  method CleanRegister(form: Form, username: string, firstName: string, lastName: string)
    returns (u: string, f: string, l: string)
    modifies form
    ensures u == username && f == firstName && l == lastName
    ensures form.errors == old(form.errors) + RegisterErrors(username, firstName, lastName)
  {
    ghost var before := form.errors;
    u := LenValidation(form, username, "username");
    ghost var middle := form.errors;
    f, l := CleanChangeProfile(form, firstName, lastName);
    calc {
      form.errors;
      middle + ChangeProfileErrors(firstName, lastName);
      (before + LenErrors(username, "username")) + ChangeProfileErrors(firstName, lastName);
      { SeqAssoc(before, LenErrors(username, "username"), ChangeProfileErrors(firstName, lastName)); }
      before + RegisterErrors(username, firstName, lastName);
    }
  }

  lemma SeqAssoc<T>(a: seq<T>, b: seq<T>, c: seq<T>)
    ensures (a + b) + c == a + (b + c)
  {
  }

  /** The two `clean_*` checks of the profile-edit form. */
  method CleanChangeProfile(form: Form, firstName: string, lastName: string) returns (f: string, l: string)
    modifies form
    ensures f == firstName && l == lastName
    ensures form.errors == old(form.errors) + ChangeProfileErrors(firstName, lastName)
  {
    ghost var before := form.errors;
    f := LenValidation(form, firstName, "first_name");
    ghost var a := form.errors;
    l := LenValidation(form, lastName, "last_name");
    assert form.errors == a + LenErrors(lastName, "last_name");
    assert a == before + LenErrors(firstName, "first_name");
  }

  /** Length of a SHA-1 hex digest, the form the activation key takes. */
  const DigestLength: nat := 40

  /**
   * `UserRegisterForm.save`: the new account is left inactive holding the
   * activation key (a SHA-1 hex digest of the email and a random salt, given
   * here as `digest`); nothing else about it changes.
   */
  function RegisterSave(u: MyUser, digest: string): (r: MyUser)
    requires |digest| == DigestLength
    ensures !r.isActive && r.activationKey.Some? && |r.activationKey.value| > 0 && r.activationKey.value == digest
    ensures r.(isActive := u.isActive, activationKey := u.activationKey) == u
  {
    u.(isActive := false, activationKey := Some(digest))
  }

  /** A freshly registered account cannot yet log in, and its key stays usable for 48 hours. */
  lemma RegisteredUserAwaitsActivation(id: nat, username: string, firstName: string, lastName: string,
                                       email: string, now: Time, digest: string, t: Time)
    requires |digest| == DigestLength
    requires now <= t <= now + ActivationKeyLifetime
    ensures var u := RegisterSave(NewUser(id, username, firstName, lastName, email, now), digest);
            !u.isActive && IsActivationKeyExpired(u, t) == Some(false)
  {
  }

  const TitleMaxLength: nat := 255
  const GradeMin: int := 1
  const GradeMax: int := 10

  /** The submitted grade: empty (Django's `required`), not an integer (`invalid`), or a number. */
  datatype GradeInput = NoGrade | NotANumber | Grade(value: int)

  /**
   * The built-in checks of `WriteAdminForm`: title required and at most 255
   * characters, content required, grade required, an integer, and within 1..10.
   */
  function WriteAdminErrors(title: string, content: string, grade: GradeInput): (r: seq<FieldError>)
    ensures forall e :: e in r ==> e.field in {"title", "content", "grade"}
    ensures grade == NotANumber ==> FieldError("grade", "invalid", NoParam) in r
  {
    (if title == "" then [FieldError("title", "required", NoParam)]
     else if |title| > TitleMaxLength then [FieldError("title", "max_length", LengthParam(|title|))]
     else [])
    + (if content == "" then [FieldError("content", "required", NoParam)] else [])
    + (match grade
       case NoGrade => [FieldError("grade", "required", NoParam)]
       case NotANumber => [FieldError("grade", "invalid", NoParam)]
       case Grade(g) =>
         if g < GradeMin then [FieldError("grade", "min_value", NoParam)]
         else if g > GradeMax then [FieldError("grade", "max_value", NoParam)]
         else [])
  }

  /** The message form is accepted exactly when every field is within its bounds. */
  lemma WriteAdminAccepts(title: string, content: string, grade: GradeInput)
    ensures WriteAdminErrors(title, content, grade) == [] <==>
            0 < |title| <= TitleMaxLength && content != "" && grade.Grade? && GradeMin <= grade.value <= GradeMax
  {
  }
}
