/**
 * The signup form: its schema (including the Yemeni mobile number pattern),
 * the registration request it sends, and the account it signs in with once
 * the backend has created the user.
 */
module Signup {
  import opened Wrappers
  import opened Session

  predicate IsDigit(c: char) {
    '0' <= c <= '9'
  }

  predicate AllDigits(s: string) {
    forall i :: 0 <= i < |s| ==> IsDigit(s[i])
  }

  /** The alternatives the phone pattern opens with, in the pattern's order. */
  const PhonePrefixes: seq<string> := ["70", "71", "73", "77", "78"]

  /** `\d{n}$`: the rest of the input is exactly `n` digits. */
  predicate MatchDigits(s: string, n: nat) {
    if n == 0 then s == ""
    else |s| > 0 && IsDigit(s[0]) && MatchDigits(s[1..], n - 1)
  }

  /** `\d{n}$` accepts exactly the strings of `n` digits. */
  lemma {:induction false} MatchDigitsIff(s: string, n: nat)
    ensures MatchDigits(s, n) <==> |s| == n && AllDigits(s)
  {
    if n > 0 && |s| > 0 {
      MatchDigitsIff(s[1..], n - 1);
      assert forall i :: 1 <= i < |s| ==> s[i] == s[1..][i - 1];
    }
  }

  /** Try each alternative in turn, each followed by seven digits to the end. */
  function MatchAlternatives(s: string, alternatives: seq<string>): bool {
    if |alternatives| == 0 then false
    else
      var a := alternatives[0];
      (|a| <= |s| && s[..|a|] == a && MatchDigits(s[|a|..], 7))
      || MatchAlternatives(s, alternatives[1..])
  }

  /** `/^(70|71|73|77|78)\d{7}$/`, matched the way the pattern reads. */
  predicate MatchesPhonePattern(s: string) {
    MatchAlternatives(s, PhonePrefixes)
  }

  /** A Yemeni mobile number: nine ASCII digits opening with one of the five prefixes. */
  predicate IsYemeniPhone(s: string) {
    |s| == 9 && AllDigits(s) && s[..2] in PhonePrefixes
  }

  lemma {:induction false} AlternativesIff(s: string, alternatives: seq<string>)
    requires forall k :: 0 <= k < |alternatives| ==> |alternatives[k]| == 2
    ensures MatchAlternatives(s, alternatives) <==>
      |s| == 9 && AllDigits(s[2..]) && s[..2] in alternatives
  {
    if |alternatives| > 0 {
      AlternativesIff(s, alternatives[1..]);
      if |alternatives[0]| <= |s| {
        MatchDigitsIff(s[|alternatives[0]|..], 7);
      }
      if |s| >= 2 {
        assert s[..2] in alternatives <==> s[..2] == alternatives[0] || s[..2] in alternatives[1..] by {
          assert alternatives == [alternatives[0]] + alternatives[1..];
        }
      }
    }
  }

  /** The pattern accepts exactly the Yemeni mobile numbers. */
  lemma PhonePatternIff(s: string)
    ensures MatchesPhonePattern(s) <==> IsYemeniPhone(s)
  {
    AlternativesIff(s, PhonePrefixes);
    if |s| == 9 && s[..2] in PhonePrefixes {
      assert IsDigit(s[0]) && IsDigit(s[1]);
      assert forall i :: 2 <= i < 9 ==> s[i] == s[2..][i - 2];
    }
  }

  /** Two sample numbers: one accepted, one with a prefix outside the list. */
  lemma PhoneExamples()
    ensures MatchesPhonePattern("771234567")
    ensures !MatchesPhonePattern("721234567")
    ensures !MatchesPhonePattern("77123456")
  {
    PhonePatternIff("771234567");
    PhonePatternIff("721234567");
    PhonePatternIff("77123456");
    assert "771234567"[..2] == "77";
    assert "721234567"[..2] == "72";
  }

  datatype SignupValues = SignupValues(name: string, phone: string, email: string, username: string, password: string)

  /**
   * The schema: a name of at least 2 characters, a Yemeni mobile number, a
   * valid e-mail address (`emailValid`, decided outside the model), a
   * username of at least 3 characters and a password of at least 6.
   */
  predicate SchemaValid(v: SignupValues, emailValid: bool) {
    && |v.name| >= 2
    && MatchesPhonePattern(v.phone)
    && emailValid
    && |v.username| >= 3
    && |v.password| >= 6
  }

  /** The body posted to the registration endpoint; the phone travels as `surname`. */
  datatype RegisterBody = RegisterBody(name: string, surname: string, email: string, userName: string, password: string)

  function ToRegisterBody(v: SignupValues): (b: RegisterBody)
    ensures b.surname == v.phone && b.userName == v.username
  {
    RegisterBody(v.name, v.phone, v.email, v.username, v.password)
  }

  /** The form values a registration body was built from. */
  function FromRegisterBody(b: RegisterBody): SignupValues {
    SignupValues(b.name, b.surname, b.email, b.userName, b.password)
  }

  /** No form value is lost on the way to the request. */
  lemma RegisterBodyRoundTrip(v: SignupValues)
    ensures FromRegisterBody(ToRegisterBody(v)) == v
  {
  }

  /** The user record the backend may return; absent fields are `None`. */
  datatype ServerUser = ServerUser(
    id: Option<string>, name: Option<string>, username: Option<string>,
    email: Option<string>, phone: Option<string>)

  /** What the registration call produced: it threw, or it answered. */
  datatype Response = Threw | Responded(ok: bool, success: bool, user: Option<ServerUser>)

  /**
   * The account signed in after a successful registration: each field the
   * backend returned wins, otherwise the form's value (and "" for the id).
   */
  function SignedInUser(server: Option<ServerUser>, v: SignupValues): (u: User)
    ensures server.None? ==> u == User("", v.name, v.username, v.email, v.phone)
    ensures server.Some? ==>
      && u.id == server.value.id.GetOr("")
      && u.name == server.value.name.GetOr(v.name)
      && u.username == server.value.username.GetOr(v.username)
      && u.email == server.value.email.GetOr(v.email)
      && u.phone == server.value.phone.GetOr(v.phone)
  {
    match server
    case None => User("", v.name, v.username, v.email, v.phone)
    case Some(su) =>
      User(su.id.GetOr(""), su.name.GetOr(v.name), su.username.GetOr(v.username),
           su.email.GetOr(v.email), su.phone.GetOr(v.phone))
  }

  datatype Outcome = Invalid | Failed | SignedIn(user: User)

  /** The request sent (if any) and the outcome of submitting the form. */
  datatype Submission = Submission(request: Option<RegisterBody>, outcome: Outcome)

  /**
   * Submitting: an invalid form sends nothing; a valid one posts its body
   * and signs in only when the answer is ok with `success`.
   */
  function Submit(v: SignupValues, emailValid: bool, response: Response): (r: Submission)
    ensures r.request.Some? <==> SchemaValid(v, emailValid)
    ensures r.request.Some? ==> r.request.value == ToRegisterBody(v)
    ensures r.outcome.Invalid? <==> !SchemaValid(v, emailValid)
    ensures r.outcome.SignedIn? <==>
      SchemaValid(v, emailValid) && response.Responded? && response.ok && response.success
    ensures r.outcome.SignedIn? ==> r.outcome.user == SignedInUser(response.user, v)
  {
    if !SchemaValid(v, emailValid) then Submission(None, Invalid)
    else
      var body := ToRegisterBody(v);
      match response
      case Threw => Submission(Some(body), Failed)
      case Responded(ok, success, user) =>
        if ok && success then Submission(Some(body), SignedIn(SignedInUser(user, v)))
        else Submission(Some(body), Failed)
  }

  /**
   * A signed-in account always has a Yemeni phone number unless the backend
   * supplied a different one.
   */
  lemma SignedInPhone(v: SignupValues, emailValid: bool, response: Response)
    requires Submit(v, emailValid, response).outcome.SignedIn?
    requires response.user.None? || response.user.value.phone.None?
    ensures IsYemeniPhone(Submit(v, emailValid, response).outcome.user.phone)
  {
    PhonePatternIff(v.phone);
  }
}
