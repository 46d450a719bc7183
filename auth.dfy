/**
  The sign-in / registration form. Registration checks that the two passwords
  match and then that the name is not blank before it calls sign-up; sign-in
  calls the auth service with no local check. The auth service itself is a
  reply parameter.
 */
module Auth {
  import opened Common

  const PasswordMismatch := "Lösenorden matchar inte"
  const NameMissing := "Ange ditt namn"
  const VerifyRoute := "/auth/verify"
  const DashboardRoute := "/dashboard"

  /** The auth-service call a submit makes, if any. */
  datatype AuthCall = NoCall | SignUp(email: string, password: string, fullName: string) | SignIn(email: string, password: string)

  /** The characters `String.prototype.trim` removes: white space and line terminators. */
  predicate IsTrimmed(c: char)
  {
    var v := c as int;
    (0x09 <= v <= 0x0D) || v == 0x20 || v == 0xA0 || v == 0x1680 || (0x2000 <= v <= 0x200A) ||
    v == 0x2028 || v == 0x2029 || v == 0x202F || v == 0x205F || v == 0x3000 || v == 0xFEFF
  }

  /** The characters left after the leading ones `trim` removes: a suffix that starts with a kept character. */
  function TrimStart(s: string): (r: string)
    ensures |r| <= |s| && r == s[|s| - |r|..] && Blank(s[..|s| - |r|])
    ensures r == [] || !IsTrimmed(r[0])
  {
    if s != [] && IsTrimmed(s[0]) then
      var r := TrimStart(s[1..]);
      TrimStartStep(s, r);
      r
    else s
  }

  /** Dropping one more trimmed character in front keeps `r` a suffix after a blank prefix. */
  lemma TrimStartStep(s: string, r: string)
    requires s != [] && IsTrimmed(s[0])
    requires |r| <= |s[1..]| && r == s[1..][|s[1..]| - |r|..] && Blank(s[1..][..|s[1..]| - |r|])
    ensures |r| <= |s| && r == s[|s| - |r|..] && Blank(s[..|s| - |r|])
  {
    assert forall i :: 1 <= i < |s| - |r| ==> s[i] == s[1..][..|s[1..]| - |r|][i - 1];
  }

  /** The characters left before the trailing ones `trim` removes: a prefix that ends with a kept character. */
  function TrimEnd(s: string): (r: string)
    ensures |r| <= |s| && r == s[..|r|] && Blank(s[|r|..])
    ensures r == [] || !IsTrimmed(r[|r| - 1])
  {
    if s != [] && IsTrimmed(s[|s| - 1]) then
      var r := TrimEnd(s[..|s| - 1]);
      TrimEndStep(s, r);
      r
    else s
  }

  /** Dropping one more trimmed character at the end keeps `r` a prefix before a blank suffix. */
  lemma TrimEndStep(s: string, r: string)
    requires s != [] && IsTrimmed(s[|s| - 1])
    requires |r| <= |s[..|s| - 1]| && r == s[..|s| - 1][..|r|] && Blank(s[..|s| - 1][|r|..])
    ensures |r| <= |s| && r == s[..|r|] && Blank(s[|r|..])
  {
    assert forall i :: |r| <= i < |s| - 1 ==> s[i] == s[..|s| - 1][|r|..][i - |r|];
  }

  /** `s.trim()`. */
  function Trim(s: string): (r: string)
    ensures exists lead, trail :: Blank(lead) && Blank(trail) && s == lead + r + trail
    ensures r == [] || (!IsTrimmed(r[0]) && !IsTrimmed(r[|r| - 1]))
  {
    var t := TrimStart(s);
    var r := TrimEnd(t);
    TrimShape(s, t, r);
    r
  }

  /**
    What `trim` leaves: `t` is `s` without a blank prefix and starts with a kept
    character; `r` is `t` without a blank suffix and ends with a kept character.
   */
  lemma TrimShape(s: string, t: string, r: string)
    requires |t| <= |s| && t == s[|s| - |t|..] && Blank(s[..|s| - |t|])
    requires t == [] || !IsTrimmed(t[0])
    requires |r| <= |t| && r == t[..|r|] && Blank(t[|r|..])
    requires r == [] || !IsTrimmed(r[|r| - 1])
    ensures exists lead, trail :: Blank(lead) && Blank(trail) && s == lead + r + trail
    ensures r == [] || (!IsTrimmed(r[0]) && !IsTrimmed(r[|r| - 1]))
  {
    var lead, trail := s[..|s| - |t|], t[|r|..];
    assert s == lead + t;
    assert t == r + trail;
    assert s == lead + r + trail;
  }

  predicate Blank(s: string)
  {
    forall i :: 0 <= i < |s| ==> IsTrimmed(s[i])
  }

  lemma {:induction false} TrimEndEmpty(s: string)
    ensures TrimEnd(s) == "" <==> Blank(s)
    decreases |s|
  {
    if s != [] && IsTrimmed(s[|s| - 1]) {
      TrimEndEmpty(s[..|s| - 1]);
      assert forall i :: 0 <= i < |s| - 1 ==> s[..|s| - 1][i] == s[i];
    }
  }

  lemma {:induction false} TrimStartBlank(s: string)
    ensures Blank(TrimStart(s)) <==> Blank(s)
    ensures TrimStart(s) == "" ==> Blank(s)
    decreases |s|
  {
    if s != [] && IsTrimmed(s[0]) {
      TrimStartBlank(s[1..]);
      assert forall i :: 1 <= i < |s| ==> s[1..][i - 1] == s[i];
    }
  }

  /** A name is empty after trimming exactly when it consists only of white space. */
  lemma TrimEmptyIffBlank(s: string)
    ensures Trim(s) == "" <==> Blank(s)
  {
    TrimStartBlank(s);
    TrimEndEmpty(TrimStart(s));
  }

  /** The local checks of a submit: the error they raise, if any. Sign-in has none. */
  function Validate(isRegister: bool, password: string, confirmPassword: string, fullName: string): (r: Option<string>)
    ensures !isRegister ==> r == None
    ensures isRegister && password != confirmPassword ==> r == Some(PasswordMismatch)
    ensures isRegister && password == confirmPassword ==> (r == Some(NameMissing) <==> Blank(fullName))
    ensures isRegister && password == confirmPassword && !Blank(fullName) ==> r == None
  {
    TrimEmptyIffBlank(fullName);
    if !isRegister then None
    else if password != confirmPassword then Some(PasswordMismatch)
    else if Trim(fullName) == "" then Some(NameMissing)
    else None
  }

  /** The form's state. */
  class AuthPage {
    var error: Option<string>
    var loading: bool
    /** The last route pushed to the router, if any. */
    var route: Option<string>

    constructor ()
      ensures error == None && !loading && route == None
    {
      error := None;
      loading := false;
      route := None;
    }

    /**
      handleSubmit. `reply` is the auth service's answer: None on success, or the
      error message it returns (which the handler rethrows).
     */
    method HandleSubmit(isRegister: bool, email: string, password: string, confirmPassword: string,
                        fullName: string, reply: Option<string>) returns (call: AuthCall)
      modifies this
      ensures !loading
      ensures Validate(isRegister, password, confirmPassword, fullName).Some? ==>
        call == NoCall && error == Validate(isRegister, password, confirmPassword, fullName) && route == old(route)
      ensures Validate(isRegister, password, confirmPassword, fullName).None? ==>
        call == (if isRegister then SignUp(email, password, fullName) else SignIn(email, password)) &&
        error == reply &&
        route == (if reply.Some? then old(route) else Some(if isRegister then VerifyRoute else DashboardRoute))
    {
      error := None;
      loading := true;
      call := NoCall;
      var failure := Validate(isRegister, password, confirmPassword, fullName);
      if failure.Some? {
        error := failure;
      } else {
        if isRegister {
          call := SignUp(email, password, fullName);
        } else {
          call := SignIn(email, password);
        }
        if reply.Some? {
          error := reply;
        } else {
          route := Some(if isRegister then VerifyRoute else DashboardRoute);
        }
      }
      loading := false;
    }
  }

  /** The password check comes first: mismatching passwords report the mismatch even with a blank name. */
  lemma PasswordCheckFirst(password: string, confirmPassword: string, fullName: string)
    requires password != confirmPassword && Blank(fullName)
    ensures Validate(true, password, confirmPassword, fullName) == Some(PasswordMismatch)
  {
  }
}
