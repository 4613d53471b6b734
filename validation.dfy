/** Package utils, validation_utils.go: the email pattern, password
    strength and string-length bounds.  Go's `len` on a string counts UTF-8
    bytes, so lengths here are UTF-8 lengths. */
module Validation {
  import Decimal

  /** Bytes in the UTF-8 encoding of one character. */
  function Utf8Width(c: char): (n: nat)
    ensures 1 <= n <= 4
    ensures n == 1 <==> c as int < 0x80
  {
    if c as int < 0x80 then 1
    else if c as int < 0x800 then 2
    else if c as int < 0x10000 then 3
    else 4
  }

  /** `len(s)` for a Go string holding `s` in UTF-8. */
  function Utf8Length(s: string): (n: nat)
    ensures |s| <= n <= 4 * |s|
  {
    if s == [] then 0 else Utf8Length(s[..|s| - 1]) + Utf8Width(s[|s| - 1])
  }

  /** On ASCII text the byte length is the character count. */
  lemma {:induction false} AsciiLength(s: string)
    requires forall i :: 0 <= i < |s| ==> s[i] as int < 0x80
    ensures Utf8Length(s) == |s|
  {
    if s != [] {
      AsciiLength(s[..|s| - 1]);
    }
  }

  predicate IsAsciiUpper(c: char) { 'A' <= c <= 'Z' }
  predicate IsAsciiLower(c: char) { 'a' <= c <= 'z' }
  predicate IsAsciiLetter(c: char) { IsAsciiUpper(c) || IsAsciiLower(c) }

  predicate HasUpper(s: string) { exists i :: 0 <= i < |s| && IsAsciiUpper(s[i]) }
  predicate HasLower(s: string) { exists i :: 0 <= i < |s| && IsAsciiLower(s[i]) }
  predicate HasDigit(s: string) { exists i :: 0 <= i < |s| && Decimal.IsDigit(s[i]) }

  /** The strength rule: eight bytes or more, with an upper-case letter, a
      lower-case letter and a digit somewhere; other characters neither help
      nor hurt. */
  predicate StrongPassword(s: string) {
    Utf8Length(s) >= 8 && HasUpper(s) && HasLower(s) && HasDigit(s)
  }

  /** ValidatePassword: the length test, then one pass setting a flag per
      character class. */
  method ValidatePassword(password: string) returns (ok: bool)
    ensures ok == StrongPassword(password)
    ensures Utf8Length(password) < 8 ==> !ok
  {
    if Utf8Length(password) < 8 {
      return false;
    }
    var hasUpper, hasLower, hasNumber := false, false, false;
    for i := 0 to |password|
      invariant hasUpper <==> exists j :: 0 <= j < i && IsAsciiUpper(password[j])
      invariant hasLower <==> exists j :: 0 <= j < i && IsAsciiLower(password[j])
      invariant hasNumber <==> exists j :: 0 <= j < i && Decimal.IsDigit(password[j])
    {
      var c := password[i];
      if IsAsciiUpper(c) {
        hasUpper := true;
      } else if IsAsciiLower(c) {
        hasLower := true;
      } else if Decimal.IsDigit(c) {
        hasNumber := true;
      }
    }
    return hasUpper && hasLower && hasNumber;
  }

  /** Appending a character of none of the three classes changes nothing. */
  lemma OtherCharactersIgnored(s: string, c: char)
    requires !IsAsciiLetter(c) && !Decimal.IsDigit(c)
    ensures HasUpper(s + [c]) == HasUpper(s)
    ensures HasLower(s + [c]) == HasLower(s)
    ensures HasDigit(s + [c]) == HasDigit(s)
  {
    assert forall i :: 0 <= i < |s| ==> (s + [c])[i] == s[i];
  }

  /** ValidateStringLength: inclusive bounds on the byte length. */
  function ValidateStringLength(str: string, minLength: int, maxLength: int): (ok: bool)
    ensures ok ==> minLength <= maxLength
    ensures ok <==> minLength <= Utf8Length(str) <= maxLength
  {
    Utf8Length(str) >= minLength && Utf8Length(str) <= maxLength
  }

  // ---- the email pattern ^[a-zA-Z0-9._%+-]+@[a-zA-Z0-9.-]+\.[a-zA-Z]{2,}$ ----

  predicate LocalChar(c: char) {
    IsAsciiLetter(c) || Decimal.IsDigit(c) || c == '.' || c == '_' || c == '%' || c == '+' || c == '-'
  }

  predicate DomainChar(c: char) {
    IsAsciiLetter(c) || Decimal.IsDigit(c) || c == '.' || c == '-'
  }

  /** The pattern read literally: a split of the string into a non-empty
      local part, `@`, a non-empty run of domain characters, `.`, and at
      least two letters. */
  ghost predicate MatchesEmailPattern(s: string) {
    exists at, dot ::
      && 0 < at && at + 1 < dot && dot + 2 < |s|
      && s[at] == '@' && s[dot] == '.'
      && (forall i :: 0 <= i < at ==> LocalChar(s[i]))
      && (forall i :: at < i < dot ==> DomainChar(s[i]))
      && (forall i :: dot < i < |s| ==> IsAsciiLetter(s[i]))
  }

  /** Position of the first `c` in `s`, or `|s|` when there is none. */
  function IndexOf(s: string, c: char): (r: nat)
    ensures r <= |s|
    ensures r < |s| ==> s[r] == c
    ensures forall k :: 0 <= k < r ==> s[k] != c
  {
    if s == [] then 0
    else if s[0] == c then 0
    else 1 + IndexOf(s[1..], c)
  }

  /** Position of the last `c` in `s`, or -1 when there is none. */
  function LastIndexOf(s: string, c: char): (r: int)
    ensures -1 <= r < |s|
    ensures r >= 0 ==> s[r] == c
    ensures forall k :: r < k < |s| ==> s[k] != c
  {
    if s == [] then -1
    else if s[|s| - 1] == c then |s| - 1
    else LastIndexOf(s[..|s| - 1], c)
  }

  /** ValidateEmail as a recogniser: split at the first `@`, then split the
      domain at its last `.`. */
  function ValidateEmail(email: string): (ok: bool)
    ensures ok ==> 0 < IndexOf(email, '@') && IndexOf(email, '@') + 5 <= |email|
  {
    var at := IndexOf(email, '@');
    if at == |email| then false
    else
      var local := email[..at];
      var domain := email[at + 1..];
      var dot := LastIndexOf(domain, '.');
      && |local| > 0
      && (forall i :: 0 <= i < |local| ==> LocalChar(local[i]))
      && dot > 0
      && (forall i :: 0 <= i < dot ==> DomainChar(domain[i]))
      && |domain| - dot - 1 >= 2
      && (forall i :: dot < i < |domain| ==> IsAsciiLetter(domain[i]))
  }

  /** Everything the recogniser accepts the pattern matches, split at the
      first `@` and at the domain's last `.`. */
  lemma {:induction false} AcceptedMatchesPattern(s: string)
    requires ValidateEmail(s)
    ensures var at := IndexOf(s, '@');
            var dot := at + 1 + LastIndexOf(s[at + 1..], '.');
            && 0 < at && at + 1 < dot && dot + 2 < |s|
            && s[at] == '@' && s[dot] == '.'
            && (forall i :: 0 <= i < at ==> LocalChar(s[i]))
            && (forall i :: at < i < dot ==> DomainChar(s[i]))
            && (forall i :: dot < i < |s| ==> IsAsciiLetter(s[i]))
  {
    var at := IndexOf(s, '@');
    var domain := s[at + 1..];
    var dot := at + 1 + LastIndexOf(domain, '.');
    assert s[dot] == domain[dot - at - 1];
    forall i | at < i < dot ensures DomainChar(s[i]) {
      assert s[i] == domain[i - at - 1];
    }
    forall i | dot < i < |s| ensures IsAsciiLetter(s[i]) {
      assert s[i] == domain[i - at - 1];
    }
  }

  /** Everything the pattern matches the recogniser accepts. */
  lemma {:induction false} PatternAccepted(s: string, at: int, dot: int)
    requires 0 < at && at + 1 < dot && dot + 2 < |s|
    requires s[at] == '@' && s[dot] == '.'
    requires forall i :: 0 <= i < at ==> LocalChar(s[i])
    requires forall i :: at < i < dot ==> DomainChar(s[i])
    requires forall i :: dot < i < |s| ==> IsAsciiLetter(s[i])
    ensures ValidateEmail(s)
  {
    assert forall k :: 0 <= k < at ==> s[k] != '@' by {
      forall k | 0 <= k < at ensures s[k] != '@' {
        assert LocalChar(s[k]);
      }
    }
    assert IndexOf(s, '@') == at;
    var domain := s[at + 1..];
    assert domain[dot - at - 1] == '.';
    assert forall k :: dot - at - 1 < k < |domain| ==> domain[k] != '.' by {
      forall k | dot - at - 1 < k < |domain| ensures domain[k] != '.' {
        assert domain[k] == s[at + 1 + k];
        assert IsAsciiLetter(s[at + 1 + k]);
      }
    }
    assert LastIndexOf(domain, '.') == dot - at - 1;
    forall i | 0 <= i < dot - at - 1 ensures DomainChar(domain[i]) {
      assert domain[i] == s[at + 1 + i];
    }
    forall i | dot - at - 1 < i < |domain| ensures IsAsciiLetter(domain[i]) {
      assert domain[i] == s[at + 1 + i];
    }
  }

  /** The recogniser accepts exactly the strings the pattern matches. */
  lemma EmailRecogniserMatchesPattern(s: string)
    ensures ValidateEmail(s) <==> MatchesEmailPattern(s)
  {
    if ValidateEmail(s) {
      AcceptedMatchesPattern(s);
    }
    if MatchesEmailPattern(s) {
      MatchedAccepted(s);
    }
  }

  /** PatternAccepted, with the split points taken from the pattern. */
  lemma MatchedAccepted(s: string)
    requires MatchesEmailPattern(s)
    ensures ValidateEmail(s)
  {
    var at, dot :| && 0 < at && at + 1 < dot && dot + 2 < |s|
                   && s[at] == '@' && s[dot] == '.'
                   && (forall i :: 0 <= i < at ==> LocalChar(s[i]))
                   && (forall i :: at < i < dot ==> DomainChar(s[i]))
                   && (forall i :: dot < i < |s| ==> IsAsciiLetter(s[i]));
    PatternAccepted(s, at, dot);
  }

  /** An accepted address holds exactly one `@`. */
  lemma AcceptedEmailHasOneAt(s: string)
    requires ValidateEmail(s)
    ensures exists i :: 0 <= i < |s| && s[i] == '@'
    ensures forall i, j :: 0 <= i < |s| && 0 <= j < |s| && s[i] == '@' && s[j] == '@' ==> i == j
  {
    AcceptedMatchesPattern(s);
    var at := IndexOf(s, '@');
    var dot := at + 1 + LastIndexOf(s[at + 1..], '.');
    forall i | at < i < |s| ensures s[i] != '@' {
      if i < dot {
        assert DomainChar(s[i]);
      } else if i > dot {
        assert IsAsciiLetter(s[i]);
      }
    }
    assert forall i :: 0 <= i < |s| && s[i] == '@' ==> i == at;
  }

  /** The text after an accepted address's last `.` is two letters or more. */
  lemma AcceptedEmailTopLabel(s: string)
    requires ValidateEmail(s)
    ensures LastIndexOf(s, '.') + 2 < |s|
    ensures forall i :: LastIndexOf(s, '.') < i < |s| ==> IsAsciiLetter(s[i])
  {
    AcceptedMatchesPattern(s);
    var at := IndexOf(s, '@');
    var dot := at + 1 + LastIndexOf(s[at + 1..], '.');
    forall i | dot < i < |s| ensures s[i] != '.' {
      assert IsAsciiLetter(s[i]);
    }
    assert LastIndexOf(s, '.') == dot;
  }
}
