/** The registration form's client-side check: each field's rule records at
    most one message under the field's key, and the form may be submitted
    only when no message was recorded. */
module RegisterForm {
  import opened Common

  const UsernameKey: string := "username"
  const EmailKey: string := "email"
  const PasswordKey: string := "password"
  const ConfirmPasswordKey: string := "confirmPassword"

  const UsernameMessage: string := "Username must be at least 3 characters long."
  const EmailMessage: string := "Invalid email format."
  const ConfirmPasswordMessage: string := "Passwords do not match."

  datatype Form = Form(username: string, email: string, password: string, confirmPassword: string)

  // ---------------------------------------------------------------------
  // Character classes of the password patterns /[A-Z]/, /[a-z]/, /[0-9]/
  // and /[!@#$%^&*]/.

  datatype CharClass = Upper | Lower | Digit | Special

  predicate InClass(k: CharClass, c: char)
  {
    match k
    case Upper => 'A' <= c <= 'Z'
    case Lower => 'a' <= c <= 'z'
    case Digit => '0' <= c <= '9'
    case Special => c in "!@#$%^&*"
  }

  /** /[k]/.test(s), scanning from the front. */
  function ContainsClass(k: CharClass, s: string): (b: bool)
    ensures b <==> exists i | 0 <= i < |s| :: InClass(k, s[i])
  {
    if |s| == 0 then false
    else if InClass(k, s[0]) then true
    else
      var b := ContainsClass(k, s[1..]);
      assert forall i | 1 <= i < |s| :: s[i] == s[1..][i - 1];
      b
  }

  // ---------------------------------------------------------------------
  // The password chain: the first rule that fails gives the message.

  datatype PasswordRule = MinLength | HasUpper | HasLower | HasDigit | HasSpecial

  const PasswordRules: seq<PasswordRule> := [MinLength, HasUpper, HasLower, HasDigit, HasSpecial]

  predicate Holds(r: PasswordRule, p: string)
  {
    match r
    case MinLength => |p| >= 8
    case HasUpper => ContainsClass(Upper, p)
    case HasLower => ContainsClass(Lower, p)
    case HasDigit => ContainsClass(Digit, p)
    case HasSpecial => ContainsClass(Special, p)
  }

  function RuleMessage(r: PasswordRule): string
  {
    match r
    case MinLength => "Password must be at least 8 characters long."
    case HasUpper => "Password must contain at least one uppercase letter."
    case HasLower => "Password must contain at least one lowercase letter."
    case HasDigit => "Password must contain at least one number."
    case HasSpecial => "Password must contain at least one special character."
  }

  /** The first rule of the chain that p breaks, if any. */
  function FirstFailing(rules: seq<PasswordRule>, p: string): (r: Option<nat>)
    ensures r.None? <==> forall i | 0 <= i < |rules| :: Holds(rules[i], p)
    ensures r.Some? ==> && r.value < |rules| && !Holds(rules[r.value], p)
                        && forall i | 0 <= i < r.value :: Holds(rules[i], p)
  {
    if |rules| == 0 then None
    else if !Holds(rules[0], p) then Some(0)
    else
      match FirstFailing(rules[1..], p)
      case None =>
        assert forall i | 1 <= i < |rules| :: rules[i] == rules[1..][i - 1];
        None
      case Some(j) =>
        assert forall i | 1 <= i < |rules| :: rules[i] == rules[1..][i - 1];
        Some(j + 1)
  }

  /** The message that a password gets, None when it passes. */
  function PasswordError(p: string): (m: Option<string>)
    ensures m.None? <==> |p| >= 8 && ContainsClass(Upper, p) && ContainsClass(Lower, p)
                         && ContainsClass(Digit, p) && ContainsClass(Special, p)
  {
    match FirstFailing(PasswordRules, p)
    case None =>
      assert Holds(PasswordRules[0], p) && Holds(PasswordRules[1], p) && Holds(PasswordRules[2], p)
             && Holds(PasswordRules[3], p) && Holds(PasswordRules[4], p);
      None
    case Some(i) => Some(RuleMessage(PasswordRules[i]))
  }

  /** A password that fails an earlier rule is told about that rule only:
      a short password hears about its length whatever its characters. */
  lemma EarlierRuleWins(p: string)
    ensures |p| < 8 ==> PasswordError(p) == Some(RuleMessage(MinLength))
    ensures |p| >= 8 && !ContainsClass(Upper, p) ==> PasswordError(p) == Some(RuleMessage(HasUpper))
    ensures |p| >= 8 && ContainsClass(Upper, p) && !ContainsClass(Lower, p) ==>
      PasswordError(p) == Some(RuleMessage(HasLower))
    ensures |p| >= 8 && ContainsClass(Upper, p) && ContainsClass(Lower, p) && !ContainsClass(Digit, p) ==>
      PasswordError(p) == Some(RuleMessage(HasDigit))
    ensures (|p| >= 8 && ContainsClass(Upper, p) && ContainsClass(Lower, p) && ContainsClass(Digit, p)
             && !ContainsClass(Special, p)) ==> PasswordError(p) == Some(RuleMessage(HasSpecial))
  {
    var r := FirstFailing(PasswordRules, p);
    if r.Some? {
      assert r.value == 0 || Holds(PasswordRules[0], p);
      assert r.value <= 1 || Holds(PasswordRules[1], p);
      assert r.value <= 2 || Holds(PasswordRules[2], p);
      assert r.value <= 3 || Holds(PasswordRules[3], p);
    }
  }

  // ---------------------------------------------------------------------
  // The e-mail pattern /^[^\s@]+@[^\s@]+\.[^\s@]+$/.

  /** The class [^\s@]. */
  predicate EmailChar(c: char)
  {
    !IsJsWhiteSpace(c) && c != '@'
  }

  /** Every character of s is accepted by ok. */
  predicate AllOf(ok: char -> bool, s: string)
  {
    forall i | 0 <= i < |s| :: ok(s[i])
  }

  /** s is A + "@" + B + "." + C with A, B and C non-empty runs of characters
      accepted by ok (the '@' sits at i and the '.' at j). */
  ghost predicate AtDotShape(ok: char -> bool, s: string)
  {
    exists i, j | 0 < i && i + 1 < j && j + 1 < |s| ::
      && s[i] == '@' && s[j] == '.'
      && AllOf(ok, s[..i]) && AllOf(ok, s[i + 1..j]) && AllOf(ok, s[j + 1..])
  }

  /** The meaning of the pattern: the shape with runs of [^\s@]. */
  ghost predicate MatchesEmailPattern(s: string)
  {
    AtDotShape(EmailChar, s)
  }

  /** The test on the text after the first '@': no white space and no '@',
      and a '.' that is neither its first nor its last character. */
  predicate DomainPart(ok: char -> bool, rest: string)
  {
    AllOf(ok, rest) && exists k | 1 <= k < |rest| - 1 :: rest[k] == '.'
  }

  /** emailRegex.test(email): the text before the first '@' is a non-empty
      run and the text after it passes DomainPart. */
  function EmailTest(s: string): (b: bool)
    ensures b <==> MatchesEmailPattern(s)
  {
    assert !EmailChar('@') && EmailChar('.');
    match IndexOf(s, '@')
    case None =>
      NoAtNoShape(EmailChar, s);
      false
    case Some(i) =>
      ShapeAtFirstAt(EmailChar, s, i);
      0 < i && AllOf(EmailChar, s[..i]) && DomainPart(EmailChar, s[i + 1..])
  }

  lemma NoAtNoShape(ok: char -> bool, s: string)
    requires '@' !in s
    ensures !AtDotShape(ok, s)
  {
  }

  /** With i the first '@', the shape is exactly: a non-empty run before i
      and a domain part after it. */
  lemma ShapeAtFirstAt(ok: char -> bool, s: string, i: nat)
    requires !ok('@') && ok('.')
    requires i < |s| && s[i] == '@' && '@' !in s[..i]
    ensures AtDotShape(ok, s) <==> 0 < i && AllOf(ok, s[..i]) && DomainPart(ok, s[i + 1..])
  {
    if AtDotShape(ok, s) {
      ShapeGivesParts(ok, s, i);
    }
    if 0 < i && AllOf(ok, s[..i]) && DomainPart(ok, s[i + 1..]) {
      PartsGiveShape(ok, s, i);
    }
  }

  lemma ShapeGivesParts(ok: char -> bool, s: string, i: nat)
    requires !ok('@') && ok('.')
    requires i < |s| && s[i] == '@' && '@' !in s[..i]
    requires AtDotShape(ok, s)
    ensures 0 < i && AllOf(ok, s[..i]) && DomainPart(ok, s[i + 1..])
  {
    var i', j :| 0 < i' && i' + 1 < j && j + 1 < |s| && s[i'] == '@' && s[j] == '.'
                 && AllOf(ok, s[..i']) && AllOf(ok, s[i' + 1..j]) && AllOf(ok, s[j + 1..]);
    SameAt(ok, s, i, i');
    PartsFromWitness(ok, s, i, j);
  }

  lemma PartsFromWitness(ok: char -> bool, s: string, i: nat, j: nat)
    requires ok('.')
    requires 0 < i && i + 1 < j && j + 1 < |s| && s[j] == '.'
    requires AllOf(ok, s[i + 1..j]) && AllOf(ok, s[j + 1..])
    ensures DomainPart(ok, s[i + 1..])
  {
    var b, c := s[i + 1..j], s[j + 1..];
    assert s[i + 1..] == b + (['.'] + c);
    AllOfConcat(ok, ['.'], c);
    AllOfConcat(ok, b, ['.'] + c);
    assert s[i + 1..][|b|] == '.';
  }

  /** The first '@' and the '@' ending a run of ok characters coincide. */
  lemma SameAt(ok: char -> bool, s: string, i: nat, i': nat)
    requires !ok('@')
    requires i < |s| && s[i] == '@' && '@' !in s[..i]
    requires i' < |s| && s[i'] == '@' && AllOf(ok, s[..i'])
    ensures i == i'
  {
  }

  lemma AllOfConcat(ok: char -> bool, x: string, y: string)
    requires AllOf(ok, x) && AllOf(ok, y)
    ensures AllOf(ok, x + y)
  {
    assert forall k | 0 <= k < |x + y| :: (x + y)[k] == if k < |x| then x[k] else y[k - |x|];
  }

  lemma PartsGiveShape(ok: char -> bool, s: string, i: nat)
    requires i < |s| && s[i] == '@'
    requires 0 < i && AllOf(ok, s[..i]) && DomainPart(ok, s[i + 1..])
    ensures AtDotShape(ok, s)
  {
    var rest := s[i + 1..];
    var k :| 1 <= k < |rest| - 1 && rest[k] == '.';
    var j := i + 1 + k;
    assert s[j] == '.';
    assert s[i + 1..j] == rest[..k];
    assert s[j + 1..] == rest[k + 1..];
    AllOfSlice(ok, rest, 0, k);
    AllOfSlice(ok, rest, k + 1, |rest|);
  }

  lemma AllOfSlice(ok: char -> bool, s: string, lo: nat, hi: nat)
    requires lo <= hi <= |s| && AllOf(ok, s)
    ensures AllOf(ok, s[lo..hi])
  {
    assert forall m | 0 <= m < hi - lo :: s[lo..hi][m] == s[lo + m];
  }

  /** An accepted e-mail has exactly one '@'. */
  lemma AcceptedEmailHasOneAt(s: string)
    requires MatchesEmailPattern(s)
    ensures multiset(s)['@'] == 1
  {
    OneAt(EmailChar, s);
  }

  lemma OneAt(ok: char -> bool, s: string)
    requires !ok('@')
    requires AtDotShape(ok, s)
    ensures multiset(s)['@'] == 1
  {
    var i, j :| 0 < i && i + 1 < j && j + 1 < |s| && s[i] == '@' && s[j] == '.'
                && AllOf(ok, s[..i]) && AllOf(ok, s[i + 1..j]) && AllOf(ok, s[j + 1..]);
    OneAtAt(ok, s, i, j);
  }

  lemma OneAtAt(ok: char -> bool, s: string, i: nat, j: nat)
    requires !ok('@')
    requires 0 < i && i + 1 < j && j + 1 < |s| && s[i] == '@' && s[j] == '.'
    requires AllOf(ok, s[..i]) && AllOf(ok, s[i + 1..j]) && AllOf(ok, s[j + 1..])
    ensures multiset(s)['@'] == 1
  {
    var a, b, c := s[..i], s[i + 1..j], s[j + 1..];
    NoAtCount(ok, a);
    NoAtCount(ok, b);
    NoAtCount(ok, c);
    calc {
      s;
      a + s[i..];
      { assert s[i..] == [s[i]] + s[i + 1..]; }
      a + (['@'] + s[i + 1..]);
      { assert s[i + 1..] == b + s[j..]; }
      a + (['@'] + (b + s[j..]));
      { assert s[j..] == [s[j]] + c; }
      a + (['@'] + (b + (['.'] + c)));
    }
    assert multiset(['.'] + c)['@'] == 0;
    assert multiset(b + (['.'] + c))['@'] == 0;
    assert multiset(['@'] + (b + (['.'] + c)))['@'] == 1;
  }

  lemma NoAtCount(ok: char -> bool, s: string)
    requires !ok('@') && AllOf(ok, s)
    ensures multiset(s)['@'] == 0
  {
  }

  // ---------------------------------------------------------------------
  // validateInputs.

  /** When the form passes: the rules of the four fields, in the source's
      own terms. */
  ghost predicate FormAccepted(f: Form)
  {
    && |f.username| >= 3
    && MatchesEmailPattern(f.email)
    && |f.password| >= 8 && ContainsClass(Upper, f.password) && ContainsClass(Lower, f.password)
    && ContainsClass(Digit, f.password) && ContainsClass(Special, f.password)
    && f.password == f.confirmPassword
  }

  /** validateInputs: fills the errors dictionary rule by rule and reports
      whether it stayed empty. */
  method ValidateInputs(f: Form) returns (ok: bool, errors: map<string, string>)
    ensures errors.Keys <= {UsernameKey, EmailKey, PasswordKey, ConfirmPasswordKey}
    ensures UsernameKey in errors <==> |f.username| < 3
    ensures UsernameKey in errors ==> errors[UsernameKey] == UsernameMessage
    ensures EmailKey in errors <==> !MatchesEmailPattern(f.email)
    ensures EmailKey in errors ==> errors[EmailKey] == EmailMessage
    ensures PasswordKey in errors <==> PasswordError(f.password).Some?
    ensures PasswordKey in errors ==> errors[PasswordKey] == PasswordError(f.password).value
    ensures ConfirmPasswordKey in errors <==> f.password != f.confirmPassword
    ensures ConfirmPasswordKey in errors ==> errors[ConfirmPasswordKey] == ConfirmPasswordMessage
    ensures ok <==> |errors| == 0
    ensures ok <==> FormAccepted(f)
  {
    errors := map[];

    if |f.username| < 3 {
      errors := errors[UsernameKey := UsernameMessage];
    }

    if !EmailTest(f.email) {
      errors := errors[EmailKey := EmailMessage];
    }

    var p := f.password;
    if |p| < 8 {
      errors := errors[PasswordKey := RuleMessage(MinLength)];
    } else if !ContainsClass(Upper, p) {
      errors := errors[PasswordKey := RuleMessage(HasUpper)];
    } else if !ContainsClass(Lower, p) {
      errors := errors[PasswordKey := RuleMessage(HasLower)];
    } else if !ContainsClass(Digit, p) {
      errors := errors[PasswordKey := RuleMessage(HasDigit)];
    } else if !ContainsClass(Special, p) {
      errors := errors[PasswordKey := RuleMessage(HasSpecial)];
    }
    EarlierRuleWins(p);

    if f.password != f.confirmPassword {
      errors := errors[ConfirmPasswordKey := ConfirmPasswordMessage];
    }

    ok := |errors.Keys| == 0;
    assert |errors| == 0 <==> errors == map[] by {
      if |errors| == 0 {
        assert errors.Keys == {};
      }
    }
  }
}
