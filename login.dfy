/**
 * The login form's validator: the e-mail address must match the pattern
 * `^[^\s@]+@[^\s@]+\.[^\s@]+$` and the password must be at least six
 * characters long. The e-mail is checked first; the first failing check
 * decides the outcome.
 */
module Login {
  import opened Js

  /** What pressing "Sign in" reports; each tag stands for one alert. */
  datatype LoginOutcome = InvalidEmail | InvalidPassword | Success

  /** Shortest password, in UTF-16 code units, that the form accepts. */
  const MinPasswordLength: nat := 6

  /** The characters `\s` matches in an ECMAScript regular expression: the
      WhiteSpace set (tab, vertical tab, form feed, space, no-break space,
      byte order mark and the Unicode space separators) and the
      LineTerminator set (line feed, carriage return, line and paragraph
      separators). */
  predicate IsJsWhitespace(c: char)
    ensures c == ' ' || c == '\t' || c == '\n' || c == '\r' ==> IsJsWhitespace(c)
    ensures IsJsWhitespace(c) ==> c != '@' && c != '.' && !('0' <= c <= '9')
  {
    c == ' ' || ('\t' <= c <= '\r') || c == '\U{00A0}' || c == '\U{1680}'
    || ('\U{2000}' <= c <= '\U{200A}') || c == '\U{2028}' || c == '\U{2029}'
    || c == '\U{202F}' || c == '\U{205F}' || c == '\U{3000}' || c == '\U{FEFF}'
  }

  /** A character of the class `[^\s@]`. */
  predicate IsAddressChar(c: char) {
    !IsJsWhitespace(c) && c != '@'
  }

  /** A string in the language of `[^\s@]+`. */
  predicate IsRun(t: string) {
    |t| > 0 && forall i :: 0 <= i < |t| ==> IsAddressChar(t[i])
  }

  /** The language of the anchored pattern `^[^\s@]+@[^\s@]+\.[^\s@]+$`,
      read off the pattern: three runs joined by `@` and `.`. */
  ghost predicate MatchesEmailPattern(s: string)
    ensures MatchesEmailPattern(s) ==> |s| >= 5 && '@' in s && s[0] != '@' && s[|s| - 1] != '@'
  {
    exists local, host, tld :: IsRun(local) && IsRun(host) && IsRun(tld)
      && s == local + "@" + host + "." + tld
  }

  /** Position of the first occurrence of `c` in `s`, if any. */
  function IndexOf(s: string, c: char): (r: Option<nat>)
    ensures r.Some? ==> r.value < |s| && s[r.value] == c && c !in s[..r.value]
    ensures r.None? ==> c !in s
  {
    if s == [] then None
    else if s[0] == c then Some(0)
    else
      match IndexOf(s[1..], c)
      case None => None
      case Some(k) =>
        assert s[..k + 1] == [s[0]] + s[1..][..k];
        Some(k + 1)
  }

  /** An occurrence of `c` with none before it is the one `IndexOf` finds. */
  lemma {:induction false} IndexOfFirst(s: string, c: char, i: nat)
    requires i < |s| && s[i] == c && c !in s[..i]
    ensures IndexOf(s, c) == Some(i)
  {
    if i > 0 {
      assert s[0] == s[..i][0];
      assert s[1..][..i - 1] == s[1..i];
      assert forall x :: x in s[1..i] ==> x in s[..i];
      IndexOfFirst(s[1..], c, i - 1);
    }
  }

  /** The part after `@` as the pattern needs it, `[^\s@]+\.[^\s@]+`: no
      whitespace, no `@`, and a `.` that is neither first nor last. */
  predicate IsDomain(d: string) {
    |d| >= 3 && (forall i :: 0 <= i < |d| ==> IsAddressChar(d[i])) && '.' in d[1..|d| - 1]
  }

  /** Executable form of the pattern test: split at the first `@`. */
  predicate IsValidEmail(s: string)
    ensures IsValidEmail(s) ==> |s| >= 5 && s[0] != '@' && s[|s| - 1] != '@'
  {
    match IndexOf(s, '@')
    case None => false
    case Some(at) => IsRun(s[..at]) && IsDomain(s[at + 1..])
  }

  /** A domain splits at one of its inner dots into two runs. */
  lemma DomainSplit(d: string) returns (host: string, tld: string)
    requires IsDomain(d)
    ensures IsRun(host) && IsRun(tld) && d == host + "." + tld
  {
    var inner := d[1..|d| - 1];
    var k :| 0 <= k < |inner| && inner[k] == '.';
    var j := k + 1;
    host, tld := d[..j], d[j + 1..];
    assert d[j] == '.';
    assert d == host + "." + tld;
    forall i | 0 <= i < |host| ensures IsAddressChar(host[i]) {
      assert host[i] == d[i];
    }
    forall i | 0 <= i < |tld| ensures IsAddressChar(tld[i]) {
      assert tld[i] == d[j + 1 + i];
    }
  }

  /** Every string the matcher accepts is in the pattern's language. */
  lemma MatcherSound(s: string)
    requires IsValidEmail(s)
    ensures MatchesEmailPattern(s)
  {
    var at := IndexOf(s, '@').value;
    var local := s[..at];
    var host, tld := DomainSplit(s[at + 1..]);
    assert s == local + "@" + s[at + 1..];
    assert s == local + "@" + host + "." + tld;
    assert IsRun(local) && IsRun(host) && IsRun(tld);
  }

  /** Every string in the pattern's language is accepted by the matcher. */
  lemma MatcherComplete(local: string, host: string, tld: string)
    requires IsRun(local) && IsRun(host) && IsRun(tld)
    ensures IsValidEmail(local + "@" + host + "." + tld)
  {
    var s := local + "@" + host + "." + tld;
    var d := host + "." + tld;
    assert s == local + "@" + d;
    assert s[|local|] == '@';
    assert s[..|local|] == local;
    assert '@' !in local by {
      forall i | 0 <= i < |local| ensures local[i] != '@' { assert IsAddressChar(local[i]); }
    }
    IndexOfFirst(s, '@', |local|);
    assert s[|local| + 1..] == d;
    assert d[1..|d| - 1][|host| - 1] == '.';
    forall i | 0 <= i < |d| ensures IsAddressChar(d[i]) {
      if i < |host| { assert d[i] == host[i]; }
      else if i > |host| { assert d[i] == tld[i - |host| - 1]; }
    }
  }

  /** The executable matcher decides exactly the pattern's language. */
  lemma MatcherAgreesWithPattern(s: string)
    ensures IsValidEmail(s) <==> MatchesEmailPattern(s)
  {
    if IsValidEmail(s) {
      MatcherSound(s);
    }
    if MatchesEmailPattern(s) {
      var local, host, tld :| IsRun(local) && IsRun(host) && IsRun(tld)
        && s == local + "@" + host + "." + tld;
      MatcherComplete(local, host, tld);
    }
  }

  /** `validateAndSubmit`: reject a missing or malformed e-mail, then a
      missing or short password, and otherwise report success. */
  function ValidateAndSubmit(email: string, password: string): (r: LoginOutcome)
    ensures r == InvalidEmail <==> !MatchesEmailPattern(email)
    ensures r == InvalidPassword <==>
      MatchesEmailPattern(email) && Utf16Length(password) < MinPasswordLength
    ensures r == Success <==>
      MatchesEmailPattern(email) && Utf16Length(password) >= MinPasswordLength
  {
    MatcherAgreesWithPattern(email);
    if email == "" || !IsValidEmail(email) then InvalidEmail
    else if password == "" || Utf16Length(password) < MinPasswordLength then InvalidPassword
    else Success
  }

  /** Number of occurrences of `c` in `s`. */
  function Occurrences(s: string, c: char): nat {
    if s == [] then 0 else (if s[0] == c then 1 else 0) + Occurrences(s[1..], c)
  }

  lemma {:induction false} OccurrencesAppend(a: string, b: string, c: char)
    ensures Occurrences(a + b, c) == Occurrences(a, c) + Occurrences(b, c)
  {
    if a == [] {
      assert a + b == b;
    } else {
      assert (a + b)[1..] == a[1..] + b;
      OccurrencesAppend(a[1..], b, c);
    }
  }

  lemma {:induction false} OccurrencesOfRun(t: string)
    requires forall i :: 0 <= i < |t| ==> IsAddressChar(t[i])
    ensures Occurrences(t, '@') == 0
  {
    if t != [] {
      assert IsAddressChar(t[0]);
      OccurrencesOfRun(t[1..]);
    }
  }

  /** `@` occurs once in a string of the pattern's language. */
  lemma OneAtSign(local: string, host: string, tld: string)
    requires IsRun(local) && IsRun(host) && IsRun(tld)
    ensures Occurrences(local + "@" + host + "." + tld, '@') == 1
  {
    OccurrencesOfRun(local);
    OccurrencesOfRun(host);
    OccurrencesOfRun(tld);
    assert Occurrences("@", '@') == 1;
    assert Occurrences(".", '@') == 0;
    OccurrencesAppend(local, "@", '@');
    OccurrencesAppend(local + "@", host, '@');
    OccurrencesAppend(local + "@" + host, ".", '@');
    OccurrencesAppend(local + "@" + host + ".", tld, '@');
  }

  /** A string of the pattern's language holds no whitespace. */
  lemma NoWhitespace(local: string, host: string, tld: string)
    requires IsRun(local) && IsRun(host) && IsRun(tld)
    ensures var s := local + "@" + host + "." + tld;
      forall i :: 0 <= i < |s| ==> !IsJsWhitespace(s[i])
  {
    var s := local + "@" + host + "." + tld;
    forall i | 0 <= i < |s| ensures !IsJsWhitespace(s[i]) {
      if i < |local| {
        assert s[i] == local[i];
      } else if |local| < i < |local| + 1 + |host| {
        assert s[i] == host[i - |local| - 1];
      } else if i > |local| + 1 + |host| {
        assert s[i] == tld[i - |local| - |host| - 2];
      }
    }
  }

  /** Where `@` and the separating `.` sit in a string of the pattern's
      language. */
  lemma SeparatorPositions(local: string, host: string, tld: string)
    requires IsRun(local) && IsRun(host) && IsRun(tld)
    ensures var s := local + "@" + host + "." + tld;
      s[|local|] == '@' && s[|local| + 1 + |host|] == '.' && |s| == |local| + |host| + |tld| + 2
  {
  }

  /** An e-mail the form accepts is free of whitespace, holds exactly one
      `@` with something before it, and after the `@` holds a `.` that is
      neither right after the `@` nor the last character. */
  lemma AcceptedEmailShape(email: string, password: string)
    requires ValidateAndSubmit(email, password) == Success
    ensures Occurrences(email, '@') == 1
    ensures forall i :: 0 <= i < |email| ==> !IsJsWhitespace(email[i])
    ensures exists at, dot :: 0 < at && at + 1 < dot < |email| - 1 && email[at] == '@' && email[dot] == '.'
  {
    assert MatchesEmailPattern(email);
    var local, host, tld :| IsRun(local) && IsRun(host) && IsRun(tld)
      && email == local + "@" + host + "." + tld;
    OneAtSign(local, host, tld);
    NoWhitespace(local, host, tld);
    SeparatorPositions(local, host, tld);
    var at, dot := |local|, |local| + 1 + |host|;
    assert 0 < at && at + 1 < dot < |email| - 1 && email[at] == '@' && email[dot] == '.';
  }

  /** The empty e-mail is always reported as an invalid e-mail, whatever
      the password. */
  lemma EmptyEmailRejected(password: string)
    ensures ValidateAndSubmit("", password) == InvalidEmail
  {
  }

  /** The last run may itself contain dots, so an address ending in `.`
      is accepted. */
  lemma TrailingDotAccepted()
    ensures ValidateAndSubmit("a@b.c.", "secret") == Success
  {
    assert IsRun("a") && IsRun("b") && IsRun("c.");
    assert "a@b.c." == "a" + "@" + "b" + "." + "c.";
    assert Utf16Length("secret") == 6;
  }
}
