/**
 * Classification of an OTP identifier as an e-mail address or a phone
 * number. The service matches two regular expressions; here each is a
 * character-level recogniser, and the e-mail recogniser is proved equal to
 * the pattern's own shape.
 */
module Identifiers {
  import opened Base
  import Decimal

  predicate IsAsciiLetter(c: char)
  {
    'a' <= c <= 'z' || 'A' <= c <= 'Z'
  }

  predicate IsAsciiAlnum(c: char)
  {
    IsAsciiLetter(c) || Decimal.IsDigit(c)
  }

  /** The class [a-zA-Z0-9._%+-] of the local part. */
  predicate LocalChar(c: char)
  {
    IsAsciiAlnum(c) || c == '.' || c == '_' || c == '%' || c == '+' || c == '-'
  }

  /** The class [a-zA-Z0-9.-] of the domain part. */
  predicate DomainChar(c: char)
  {
    IsAsciiAlnum(c) || c == '.' || c == '-'
  }

  predicate AllLocal(s: string)
  {
    forall k :: 0 <= k < |s| ==> LocalChar(s[k])
  }

  predicate AllDomain(s: string)
  {
    forall k :: 0 <= k < |s| ==> DomainChar(s[k])
  }

  predicate AllLetters(s: string)
  {
    forall k :: 0 <= k < |s| ==> IsAsciiLetter(s[k])
  }

  /** The whole-string shape of ^[a-zA-Z0-9._%+-]+@[a-zA-Z0-9.-]+\.[a-zA-Z]{2,}$:
      a local part, '@', a domain part, '.', and at least two letters. */
  ghost predicate EmailPattern(s: string)
  {
    exists i, j :: EmailSplit(s, i, j)
  }

  /** The pattern matches s with its '@' at i and its last '.' at j. */
  predicate EmailSplit(s: string, i: int, j: int)
  {
    0 < i && i + 2 <= j && j + 3 <= |s|
    && s[i] == '@' && s[j] == '.'
    && AllLocal(s[..i]) && AllDomain(s[i + 1..j]) && AllLetters(s[j + 1..])
  }

  /** The part after '@': domain characters whose last '.' is preceded by at
      least one character and followed by at least two letters. */
  predicate DomainTail(d: string)
  {
    AllDomain(d) &&
    match LastIndexOf(d, '.')
    case None => false
    case Some(j) => 1 <= j && j + 3 <= |d| && AllLetters(d[j + 1..])
  }

  /** OtpServiceImpl.isEmail, read left to right. */
  predicate IsEmail(s: string)
  {
    match IndexOf(s, '@')
    case None => false
    case Some(i) => 0 < i && AllLocal(s[..i]) && DomainTail(s[i + 1..])
  }

  /** Every string the recogniser accepts matches the e-mail pattern. */
  lemma EmailRecogniserSound(s: string)
    requires IsEmail(s)
    ensures EmailPattern(s)
  {
    var i := IndexOf(s, '@').value;
    var d := s[i + 1..];
    var j := LastIndexOf(d, '.').value;
    var dot := i + 1 + j;
    assert s[i + 1..dot] == d[..j];
    assert AllDomain(s[i + 1..dot]);
    assert s[dot + 1..] == d[j + 1..];
    assert s[dot] == '.';
    assert EmailSplit(s, i, dot);
  }

  /** Every string the e-mail pattern matches is accepted by the recogniser:
      the local part holds no '@', so the pattern's '@' is the first one, and
      the top-level domain holds no '.', so the pattern's '.' is the last one. */
  lemma EmailRecogniserComplete(s: string)
    requires EmailPattern(s)
    ensures IsEmail(s)
  {
    var i, j :| EmailSplit(s, i, j);
    FirstAt(s, i);
    var d := s[i + 1..];
    assert d[..j - i - 1] == s[i + 1..j];
    assert d[j - i..] == s[j + 1..];
    LastDot(d, j - i - 1);
  }

  lemma FirstAt(s: string, i: nat)
    requires i < |s| && s[i] == '@' && AllLocal(s[..i])
    ensures IndexOf(s, '@') == Some(i)
  {
    forall k | 0 <= k < i ensures s[k] != '@' {
      assert LocalChar(s[..i][k]);
    }
    var first := IndexOf(s, '@');
  }

  lemma LastDot(d: string, j: nat)
    requires j < |d| && d[j] == '.' && AllDomain(d[..j]) && AllLetters(d[j + 1..])
    ensures AllDomain(d)
    ensures LastIndexOf(d, '.') == Some(j)
  {
    forall k | 0 <= k < |d| ensures DomainChar(d[k]) {
      if k < j {
        assert d[k] == d[..j][k];
      } else if k > j {
        assert d[k] == d[j + 1..][k - j - 1];
      }
    }
    forall k | j < k < |d| ensures d[k] != '.' {
      assert IsAsciiLetter(d[j + 1..][k - j - 1]);
    }
    var last := LastIndexOf(d, '.');
  }

  /** The recogniser accepts exactly the strings the e-mail pattern matches. */
  lemma EmailRecogniserMatchesPattern(s: string)
    ensures IsEmail(s) <==> EmailPattern(s)
  {
    if IsEmail(s) {
      EmailRecogniserSound(s);
    }
    if EmailPattern(s) {
      EmailRecogniserComplete(s);
    }
  }

  /** The characters [\s\-\(\)] that isPhone strips; in a Java regex \s is [ \t\n\x0B\f\r]. */
  predicate PhoneNoise(c: char)
  {
    c == ' ' || c == '\t' || c == '\n' || c as int == 0x0B || c as int == 0x0C || c == '\r'
    || c == '-' || c == '(' || c == ')'
  }

  /** String.replaceAll("[\\s\\-\\(\\)]", ""): the non-noise characters in order. */
  function StripNoise(s: string): (r: string)
    ensures |r| <= |s|
    ensures forall c :: c in r <==> c in s && !PhoneNoise(c)
  {
    if s == [] then []
    else
      var rest := StripNoise(s[1..]);
      assert forall c :: c in s <==> c == s[0] || c in s[1..];
      if PhoneNoise(s[0]) then rest else [s[0]] + rest
  }

  /** One character is dropped exactly when it is noise and kept otherwise. */
  lemma StripNoiseChar(c: char)
    ensures StripNoise([c]) == if PhoneNoise(c) then [] else [c]
  {
    assert [c][1..] == [];
  }

  /** Stripping works piece by piece: the kept characters of a + b are those
      of a followed by those of b, so order and repetition are preserved. */
  lemma {:induction false} StripNoiseAppend(a: string, b: string)
    ensures StripNoise(a + b) == StripNoise(a) + StripNoise(b)
  {
    if a == [] {
      assert a + b == b;
    } else {
      assert (a + b)[0] == a[0];
      assert (a + b)[1..] == a[1..] + b;
      StripNoiseAppend(a[1..], b);
    }
  }

  /** Stripping twice strips nothing more. */
  lemma {:induction false} StripNoiseIdempotent(s: string)
    ensures StripNoise(StripNoise(s)) == StripNoise(s)
  {
    if s != [] {
      StripNoiseIdempotent(s[1..]);
      if !PhoneNoise(s[0]) {
        StripNoiseAppend([s[0]], StripNoise(s[1..]));
        StripNoiseChar(s[0]);
      }
    }
  }

  /** [1-9]\d{1,14}: a non-zero leading digit and 1 to 14 further digits. */
  predicate NationalNumber(u: string)
  {
    2 <= |u| <= 15 && '1' <= u[0] <= '9' && Decimal.AllDigits(u)
  }

  /** ^[+]?[1-9]\d{1,14}$ on the stripped input. */
  predicate PhonePattern(t: string)
  {
    if |t| > 0 && t[0] == '+' then NationalNumber(t[1..]) else NationalNumber(t)
  }

  /** OtpServiceImpl.isPhone. */
  predicate IsPhone(s: string)
  {
    PhonePattern(StripNoise(s))
  }

  /** OtpServiceImpl.isValidPhoneOrEmail. */
  predicate IsValidPhoneOrEmail(s: string)
  {
    IsEmail(s) || IsPhone(s)
  }

  /** A stripped phone number is 2 to 16 characters long, all digits but an optional leading '+'. */
  lemma PhoneShape(s: string)
    requires IsPhone(s)
    ensures var t := StripNoise(s);
      2 <= |t| <= 16 && forall k :: 0 < k < |t| ==> Decimal.IsDigit(t[k])
  {
    var t := StripNoise(s);
    if t[0] == '+' {
      assert forall k :: 0 < k < |t| ==> t[k] == t[1..][k - 1];
    }
  }

  /** No identifier is both: every e-mail address holds '@', which survives
      stripping and is neither '+' nor a digit. */
  lemma EmailAndPhoneDisjoint(s: string)
    requires IsEmail(s)
    ensures !IsPhone(s)
  {
    var t := StripNoise(s);
    assert '@' in t;
    var k :| 0 <= k < |t| && t[k] == '@';
    if |t| > 0 && t[0] == '+' {
      assert t[1..][k - 1] == '@';
    } else {
      assert !Decimal.IsDigit(t[k]);
    }
  }
}
