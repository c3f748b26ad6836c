/**
  The sign-up form (`Signup`): before anything is posted, every field must
  be filled, the e-mail must have the shape `local@domain.tld`, the password
  must be at least six characters and the confirmation must repeat it;
  the first check that fails is the message shown.
 */
module Signup {
  import opened Common
  import opened Text

  datatype SignupForm = SignupForm(name: string, email: string, password: string, confirmPassword: string)

  const AllFieldsRequired := "All fields are required."
  const InvalidEmail := "Please enter a valid email address."
  const PasswordTooShort := "Password must be at least 6 characters long."
  const PasswordsDiffer := "Passwords do not match."

  const MinPasswordLength := 6

  /** `[^\s@]`: neither white space nor `@`. */
  predicate Plain(c: char) {
    !IsWhitespace(c) && c != '@'
  }

  predicate AllPlain(s: string) {
    forall k :: 0 <= k < |s| ==> Plain(s[k])
  }

  function IsAt(c: char): bool {
    c == '@'
  }

  /** A `.` that is neither the first nor the last character. */
  predicate HasInnerDot(s: string) {
    exists j :: 1 <= j < |s| - 1 && s[j] == '.'
  }

  /**
    `/^[^\s@]+@[^\s@]+\.[^\s@]+$/.test(email)`: one `@`, not first, every
    other character plain, and after the `@` a dot with at least one
    character on each side of it.
   */
  predicate ValidEmail(e: string) {
    match FindIndex(e, IsAt)
    case None => false
    case Some(i) =>
      i > 0 && (forall k :: 0 <= k < |e| && k != i ==> Plain(e[k])) && HasInnerDot(e[i + 1..])
  }

  /** Every address of the shape the expression describes passes. */
  lemma SplitEmailIsValid(a: string, b: string, c: string)
    requires a != [] && b != [] && c != []
    requires AllPlain(a) && AllPlain(b) && AllPlain(c)
    ensures ValidEmail(a + "@" + b + "." + c)
  {
    var e := a + "@" + b + "." + c;
    FindIndexAt(e, IsAt, |a|);
    var rest := e[|a| + 1..];
    assert rest == b + "." + c;
    assert rest[|b|] == '.';
    forall k | 0 <= k < |e| && k != |a| ensures Plain(e[k]) {
      if k < |a| {
        assert e[k] == a[k];
      } else if k <= |a| + |b| {
        assert e[k] == b[k - |a| - 1];
      } else if k == |a| + |b| + 1 {
        assert e[k] == '.';
      } else {
        assert e[k] == c[k - |a| - |b| - 2];
      }
    }
  }

  /** Every address that passes has that shape: its parts are returned. */
  lemma ValidEmailSplits(e: string) returns (a: string, b: string, c: string)
    requires ValidEmail(e)
    ensures a != [] && b != [] && c != []
    ensures AllPlain(a) && AllPlain(b) && AllPlain(c)
    ensures e == a + "@" + b + "." + c
  {
    var i := FindIndex(e, IsAt).value;
    var rest := e[i + 1..];
    var j :| 1 <= j < |rest| - 1 && rest[j] == '.';
    a := e[..i];
    b := rest[..j];
    c := rest[j + 1..];
    assert rest == b + "." + c;
    assert e == a + "@" + rest;
    forall k | 0 <= k < |a| ensures Plain(a[k]) {
      assert a[k] == e[k];
    }
    forall k | 0 <= k < |b| ensures Plain(b[k]) {
      assert b[k] == e[i + 1 + k];
    }
    forall k | 0 <= k < |c| ensures Plain(c[k]) {
      assert c[k] == e[i + 2 + j + k];
    }
  }

  /** Every field of the form has text. */
  predicate AllFilled(f: SignupForm) {
    f.name != "" && f.email != "" && f.password != "" && f.confirmPassword != ""
  }

  /** `validateForm`: `None` when the form may be sent, otherwise the first message that applies. */
  function Validate(f: SignupForm): (r: Option<string>)
    ensures r.None? <==>
      f.name != "" && f.email != "" && f.password != "" && f.confirmPassword != ""
      && ValidEmail(f.email) && |f.password| >= MinPasswordLength && f.password == f.confirmPassword
    ensures (f.name == "" || f.email == "" || f.password == "" || f.confirmPassword == "") ==> r == Some(AllFieldsRequired)
    ensures r == Some(PasswordsDiffer) ==> ValidEmail(f.email) && |f.password| >= MinPasswordLength
    ensures AllFilled(f) && !ValidEmail(f.email) ==> r == Some(InvalidEmail)
    ensures (AllFilled(f) && ValidEmail(f.email) && |f.password| < MinPasswordLength) ==> r == Some(PasswordTooShort)
    ensures (AllFilled(f) && ValidEmail(f.email) && |f.password| >= MinPasswordLength && f.password != f.confirmPassword)
      ==> r == Some(PasswordsDiffer)
  {
    if f.name == "" || f.email == "" || f.password == "" || f.confirmPassword == "" then Some(AllFieldsRequired)
    else if !ValidEmail(f.email) then Some(InvalidEmail)
    else if |f.password| < MinPasswordLength then Some(PasswordTooShort)
    else if f.password != f.confirmPassword then Some(PasswordsDiffer)
    else None
  }

  /** The body `handleSignup` posts: name, e-mail and password; nothing is posted for a form that fails. */
  datatype RegisterBody = RegisterBody(name: string, email: string, password: string)

  function SignupRequest(f: SignupForm): (r: Option<RegisterBody>)
    ensures r.Some? <==> Validate(f).None?
    ensures r.Some? ==> r.value.name == f.name && r.value.email == f.email
    ensures r.Some? ==> r.value.password == f.password && r.value.password == f.confirmPassword
  {
    if Validate(f).None? then Some(RegisterBody(f.name, f.email, f.password)) else None
  }

  /** A plain address passes. */
  lemma ExampleAddressPasses()
    ensures ValidEmail("ali@food.pk")
  {
    assert AllPlain("ali") && AllPlain("food") && AllPlain("pk");
    SplitEmailIsValid("ali", "food", "pk");
    assert "ali" + "@" + "food" + "." + "pk" == "ali@food.pk";
  }

  /** An address without a dot after the `@` fails. */
  lemma NoDotFails()
    ensures !ValidEmail("ali@foodpk")
  {
    var e := "ali@foodpk";
    assert e[..3] == "ali";
    FindIndexAt(e, IsAt, 3);
    var rest := e[4..];
    assert rest == ['f', 'o', 'o', 'd', 'p', 'k'];
    assert forall j :: 0 <= j < |rest| ==> rest[j] != '.';
  }

  /** An address with a space fails. */
  lemma SpaceFails()
    ensures !ValidEmail("a li@food.pk")
  {
    var e := "a li@food.pk";
    assert e[..4] == ['a', ' ', 'l', 'i'];
    FindIndexAt(e, IsAt, 4);
    assert !Plain(e[1]);
  }
}
