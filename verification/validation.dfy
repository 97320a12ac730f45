/** The sign-up form validators. Each regular expression of the source is
    given twice: as the language it denotes (`...Pattern`) and as the
    deterministic check the validator computes, with a proof that they agree. */
module Validation {
  import opened Wrappers
  import opened Text

  /** A validator verdict with its optional message. */
  datatype Check = Check(valid: bool, message: Option<string>)

  const PasswordRequired := "Password is required"
  const PasswordTooShort := "Password must be at least 6 characters long"
  const MinPasswordLength := 6

  // ---------------------------------------------------------------- e-mail: ^[^\s@]+@[^\s@]+\.[^\s@]+$

  /** Every character is in `[^\s@]`. */
  predicate Clean(t: string) {
    forall k :: 0 <= k < |t| ==> !IsSpace(t[k]) && t[k] != '@'
  }

  /** The strings the e-mail expression matches: a non-empty clean local part,
      `@`, a non-empty clean part, `.`, a non-empty clean part. */
  predicate EmailPattern(s: string) {
    exists i, j | 0 < i && i + 1 < j < |s| - 1 ::
      s[i] == '@' && s[j] == '.' && Clean(s[..i]) && Clean(s[i + 1..j]) && Clean(s[j + 1..])
  }

  predicate IsAtSign(c: char) { c == '@' }

  function FirstAt(s: string): (i: nat)
    ensures i <= |s|
    ensures i < |s| ==> s[i] == '@'
    ensures forall k :: 0 <= k < i ==> s[k] != '@'
    decreases |s|
  {
    if |s| == 0 then 0 else if s[0] == '@' then 0 else 1 + FirstAt(s[1..])
  }

  /** A `.` with at least one character on each side. */
  predicate InnerDot(d: string) {
    exists j | 0 < j < |d| - 1 :: d[j] == '.'
  }

  /** `validateEmail`: split at the first `@`, then check both sides. */
  function ValidateEmail(email: string): (valid: bool)
    ensures valid <==> EmailPattern(email)
  {
    var i := FirstAt(email);
    var valid := 0 < i < |email| && Clean(email[..i]) && Clean(email[i + 1..]) && InnerDot(email[i + 1..]);
    EmailAgrees(email);
    valid
  }

  /** The validator's test: both sides of the first `@` clean and non-empty,
      a dot strictly inside the domain. */
  predicate SplitAtFirstAt(s: string) {
    var i := FirstAt(s);
    0 < i < |s| && Clean(s[..i]) && Clean(s[i + 1..]) && InnerDot(s[i + 1..])
  }

  lemma EmailAgrees(s: string)
    ensures EmailPattern(s) <==> SplitAtFirstAt(s)
  {
    if EmailPattern(s) {
      EmailOnlyIf(s);
    }
    if SplitAtFirstAt(s) {
      EmailSplitMatches(s, FirstAt(s));
    }
  }

  lemma EmailOnlyIf(s: string)
    requires EmailPattern(s)
    ensures SplitAtFirstAt(s)
  {
    var a, j :| 0 < a && a + 1 < j < |s| - 1 && s[a] == '@' && s[j] == '.'
                && Clean(s[..a]) && Clean(s[a + 1..j]) && Clean(s[j + 1..]);
    EmailMatchSplitsAtFirstAt(s, a, j);
  }

  lemma EmailMatchSplitsAtFirstAt(s: string, a: int, j: int)
    requires 0 < a && a + 1 < j < |s| - 1 && s[a] == '@' && s[j] == '.'
    requires Clean(s[..a]) && Clean(s[a + 1..j]) && Clean(s[j + 1..])
    ensures FirstAt(s) == a
    ensures Clean(s[a + 1..]) && InnerDot(s[a + 1..])
  {
    var d := s[a + 1..];
    forall k | 0 <= k < |d| ensures !IsSpace(d[k]) && d[k] != '@' {
      if k < j - (a + 1) {
        assert d[k] == s[a + 1..j][k];
      } else if k > j - (a + 1) {
        assert d[k] == s[j + 1..][k - (j - a)];
      }
    }
    assert d[j - (a + 1)] == '.';
  }

  lemma EmailSplitMatches(s: string, i: int)
    requires 0 < i < |s| && s[i] == '@'
    requires Clean(s[..i]) && Clean(s[i + 1..]) && InnerDot(s[i + 1..])
    ensures EmailPattern(s)
  {
    var d := s[i + 1..];
    var k :| 0 < k < |d| - 1 && d[k] == '.';
    var j := i + 1 + k;
    assert s[i + 1..j] == d[..k];
    assert s[j + 1..] == d[k + 1..];
    assert s[j] == '.';
  }

  /** An accepted address has exactly one `@` and no whitespace. */
  lemma EmailShape(s: string)
    requires ValidateEmail(s)
    ensures exists i :: 0 <= i < |s| && s[i] == '@' && forall k :: 0 <= k < |s| && k != i ==> s[k] != '@'
    ensures forall k :: 0 <= k < |s| ==> !IsSpace(s[k])
  {
    var i := FirstAt(s);
    forall k | 0 <= k < |s| && k != i ensures s[k] != '@' && !IsSpace(s[k]) {
      if k < i { assert s[k] == s[..i][k]; } else { assert s[k] == s[i + 1..][k - i - 1]; }
    }
    assert !IsSpace(s[i]);
  }

  // ---------------------------------------------------------------- password

  function ValidatePassword(password: string): (c: Check)
    ensures c.valid <==> |password| >= MinPasswordLength
    ensures c.valid <==> c.message.None?
    ensures |password| == 0 ==> c.message == Some(PasswordRequired)
    ensures 0 < |password| < MinPasswordLength ==> c.message == Some(PasswordTooShort)
  {
    if |password| == 0 then Check(false, Some(PasswordRequired))
    else if |password| < MinPasswordLength then Check(false, Some(PasswordTooShort))
    else Check(true, None)
  }

  // ---------------------------------------------------------------- phone: ^\+?[\d\s\-()]{6,}$

  predicate PhoneChar(c: char) { IsDigit(c) || IsSpace(c) || c == '-' || c == '(' || c == ')' }

  /** `[\d\s\-()]{6,}` */
  predicate PhoneBody(t: string) {
    |t| >= 6 && forall k :: 0 <= k < |t| ==> PhoneChar(t[k])
  }

  /** The strings the phone expression matches: with or without the leading `+`. */
  predicate PhonePattern(s: string) {
    PhoneBody(s) || (|s| > 0 && s[0] == '+' && PhoneBody(s[1..]))
  }

  /** `validatePhone`: a leading `+` is consumed, then the rest is checked. */
  function ValidatePhone(phone: string): (valid: bool)
    ensures valid <==> PhonePattern(phone)
  {
    var body := if |phone| > 0 && phone[0] == '+' then phone[1..] else phone;
    PhoneBody(body)
  }

  /** No digit is required: six dashes pass. */
  lemma PhoneNeedsNoDigit()
    ensures ValidatePhone("------")
  {
  }

  // ---------------------------------------------------------------- DNI: ^[A-Za-z0-9]{6,20}$

  predicate DniPattern(s: string) {
    6 <= |s| <= 20 && forall k :: 0 <= k < |s| ==> IsAlnum(s[k])
  }

  /** `validateDNI`, as a scan over the characters. */
  method ValidateDni(dni: string) returns (valid: bool)
    ensures valid <==> DniPattern(dni)
  {
    if |dni| < 6 || |dni| > 20 {
      return false;
    }
    var k := 0;
    while k < |dni|
      invariant 0 <= k <= |dni|
      invariant forall m :: 0 <= m < k ==> IsAlnum(dni[m])
    {
      if !IsAlnum(dni[k]) {
        return false;
      }
      k := k + 1;
    }
    return true;
  }

  // ---------------------------------------------------------------- required field

  /** `validateRequired`: empty or whitespace-only values are rejected, naming the field. */
  function ValidateRequired(value: string, fieldName: string): (c: Check)
    ensures !c.valid <==> AllSpace(value)
    ensures !c.valid ==> c.message == Some(fieldName + " is required")
    ensures c.valid ==> c.message.None?
  {
    TrimEmptyIffBlank(value);
    if |value| == 0 || Trim(value) == [] then Check(false, Some(fieldName + " is required"))
    else Check(true, None)
  }
}
