/** The e-mail address check of create_account: Python's
    re.match(r"^[a-zA-Z0-9._%+-]+@[a-zA-Z0-9.-]+\.[a-zA-Z]{2,}$", email).

    The pattern is stated as a split of the address into a local part, "@",
    a domain, "." and a top-level domain of at least two letters; the
    executable check scans for the longest local-part prefix and the longest
    run of trailing letters, and is proved equivalent to the split. */
module EmailFormat {

  /** [a-zA-Z] */
  predicate IsAsciiLetter(c: char) {
    'a' <= c <= 'z' || 'A' <= c <= 'Z'
  }

  /** [0-9] */
  predicate IsAsciiDigit(c: char) {
    '0' <= c <= '9'
  }

  /** The character class of the local part: [a-zA-Z0-9._%+-] */
  predicate IsLocalChar(c: char) {
    IsAsciiLetter(c) || IsAsciiDigit(c) || c == '.' || c == '_' || c == '%' || c == '+' || c == '-'
  }

  /** The character class of the domain: [a-zA-Z0-9.-] */
  predicate IsDomainChar(c: char) {
    IsAsciiLetter(c) || IsAsciiDigit(c) || c == '.' || c == '-'
  }

  predicate AllLocal(s: string) {
    forall i :: 0 <= i < |s| ==> IsLocalChar(s[i])
  }

  predicate AllDomain(s: string) {
    forall i :: 0 <= i < |s| ==> IsDomainChar(s[i])
  }

  predicate AllLetters(s: string) {
    forall i :: 0 <= i < |s| ==> IsAsciiLetter(s[i])
  }

  /** s is local "@" domain "." tld, each part drawn from its class, with
      repetition counts +, + and {2,}. */
  ghost predicate IsPatternSplit(s: string, local: string, domain: string, tld: string) {
    && s == local + "@" + domain + "." + tld
    && |local| >= 1 && AllLocal(local)
    && |domain| >= 1 && AllDomain(domain)
    && |tld| >= 2 && AllLetters(tld)
  }

  /** The pattern without its anchors matches the whole of s. */
  ghost predicate MatchesWhole(s: string) {
    exists local, domain, tld :: IsPatternSplit(s, local, domain, tld)
  }

  /** re.match anchors at the start; "$" (without MULTILINE) matches at the
      end of the string or just before a newline that ends it. */
  ghost predicate MatchesPattern(s: string) {
    MatchesWhole(s) || (|s| > 0 && s[|s| - 1] == '\n' && MatchesWhole(s[..|s| - 1]))
  }

  /** Length of the longest prefix of s drawn from the local-part class. */
  function LeadingLocal(s: string): (n: nat)
    ensures n <= |s|
    ensures AllLocal(s[..n])
    ensures n < |s| ==> !IsLocalChar(s[n])
  {
    if s == [] || !IsLocalChar(s[0]) then 0
    else
      var k := LeadingLocal(s[1..]);
      assert s[..k + 1] == [s[0]] + s[1..][..k];
      1 + k
  }

  /** Length of the longest suffix of s made of ASCII letters. */
  function TrailingLetters(s: string): (n: nat)
    ensures n <= |s|
    ensures AllLetters(s[|s| - n..])
    ensures n < |s| ==> !IsAsciiLetter(s[|s| - n - 1])
  {
    if s == [] || !IsAsciiLetter(s[|s| - 1]) then 0
    else
      var front := s[..|s| - 1];
      var k := TrailingLetters(front);
      assert s[|s| - (k + 1)..] == front[|front| - k..] + [s[|s| - 1]];
      1 + k
  }

  /** The direct scan over a string without a trailing newline allowance:
      the local part runs up to the first character outside its class, which
      must be '@'; everything after it is in the domain class, and the run of
      trailing letters (the top-level domain) has length at least two and is
      preceded by '.' and by at least one more character. */
  predicate ScanWhole(s: string) {
    var k := LeadingLocal(s);
    && 1 <= k < |s| && s[k] == '@'
    && var rest := s[k + 1..];
    && AllDomain(rest)
    && var m := TrailingLetters(rest);
    && m >= 2 && m + 2 <= |rest| && rest[|rest| - m - 1] == '.'
  }

  /** Left to right, the scan accepts exactly what the split describes. */
  lemma ScanWholeSound(s: string)
    requires ScanWhole(s)
    ensures MatchesWhole(s)
  {
    var k := LeadingLocal(s);
    var rest := s[k + 1..];
    var m := TrailingLetters(rest);
    var local, domain, tld := s[..k], rest[..|rest| - m - 1], rest[|rest| - m..];
    assert rest == domain + "." + tld;
    assert s == local + "@" + rest;
    assert AllDomain(domain) by {
      forall i | 0 <= i < |domain| ensures IsDomainChar(domain[i]) {
        assert domain[i] == rest[i];
      }
    }
    assert IsPatternSplit(s, local, domain, tld);
  }

  /** Right to left: whatever split the pattern finds, the scan finds too. */
  lemma ScanWholeComplete(s: string, local: string, domain: string, tld: string)
    requires IsPatternSplit(s, local, domain, tld)
    ensures ScanWhole(s)
  {
    var k := LeadingLocal(s);
    assert s[..|local|] == local;
    assert s[|local|] == '@';
    assert k == |local|;
    var rest := s[k + 1..];
    assert rest == domain + "." + tld;
    assert AllDomain(rest) by {
      forall i | 0 <= i < |rest| ensures IsDomainChar(rest[i]) {
        if i < |domain| {
          assert rest[i] == domain[i];
        } else if i > |domain| {
          assert rest[i] == tld[i - |domain| - 1];
        }
      }
    }
    var m := TrailingLetters(rest);
    assert rest[|rest| - |tld|..] == tld;
    assert rest[|rest| - |tld| - 1] == '.';
    assert m == |tld|;
  }

  lemma ScanWholeCorrect(s: string)
    ensures ScanWhole(s) <==> MatchesWhole(s)
  {
    if ScanWhole(s) {
      ScanWholeSound(s);
    }
    if MatchesWhole(s) {
      var local, domain, tld :| IsPatternSplit(s, local, domain, tld);
      ScanWholeComplete(s, local, domain, tld);
    }
  }

  /** database.py line 71: the e-mail format check, as a direct scan. */
  function IsValidEmail(email: string): (ok: bool)
    ensures ok <==> MatchesPattern(email)
  {
    ScanWholeCorrect(email);
    var dropped := if |email| > 0 then email[..|email| - 1] else email;
    ScanWholeCorrect(dropped);
    ScanWhole(email) || (|email| > 0 && email[|email| - 1] == '\n' && ScanWhole(dropped))
  }

  /** The address with the one trailing newline that "$" tolerates removed. */
  function Body(email: string): (b: string)
    ensures |b| <= |email| && b == email[..|b|]
  {
    if |email| > 0 && email[|email| - 1] == '\n' then email[..|email| - 1] else email
  }

  /** Necessary conditions on an accepted address: it contains '@', and it
      ends (before an optional newline) in two letters, so an address without
      '@' or with a top-level domain shorter than two letters is refused. */
  lemma PatternShape(email: string)
    requires MatchesPattern(email)
    ensures exists i :: 0 <= i < |email| && email[i] == '@'
    ensures var b := Body(email); |b| >= 2 && IsAsciiLetter(b[|b| - 1]) && IsAsciiLetter(b[|b| - 2])
  {
    if MatchesWhole(email) {
      var local, domain, tld :| IsPatternSplit(email, local, domain, tld);
      WholeShape(email, local, domain, tld);
      assert Body(email) == email;
    } else {
      var whole := email[..|email| - 1];
      var local, domain, tld :| IsPatternSplit(whole, local, domain, tld);
      WholeShape(whole, local, domain, tld);
      assert email[|local|] == whole[|local|];
    }
  }

  lemma WholeShape(s: string, local: string, domain: string, tld: string)
    requires IsPatternSplit(s, local, domain, tld)
    ensures s[|local|] == '@'
    ensures |s| >= 2 && s[|s| - 1] == tld[|tld| - 1] && s[|s| - 2] == tld[|tld| - 2]
  {
    assert s == (local + "@") + (domain + "." + tld);
  }

  /** The address created by the module's start-up code is accepted. */
  lemma ExampleAddressAccepted()
    ensures MatchesPattern("example@gmail.com")
  {
    assert IsPatternSplit("example@gmail.com", "example", "gmail", "com");
  }

  /** A sub-domain and the local part's punctuation are accepted. */
  lemma DottedAddressAccepted()
    ensures MatchesPattern("first.last+tag@mail.example.co.uk")
  {
    assert IsPatternSplit("first.last+tag@mail.example.co.uk", "first.last+tag", "mail.example.co", "uk");
  }

  /** "$" lets one final newline through (the stored address then keeps
      it), but not two. */
  lemma TrailingNewlineAccepted()
    ensures MatchesPattern("a@b.co\n")
    ensures !MatchesPattern("a@b.co\n\n")
  {
    var s := "a@b.co\n";
    assert s[..|s| - 1] == "a@b.co";
    assert IsPatternSplit("a@b.co", "a", "b", "co");
    var t := "a@b.co\n\n";
    if MatchesPattern(t) {
      PatternShape(t);
    }
  }

  /** Addresses without '@', without a top-level domain, or with a one-letter
      top-level domain are refused. */
  lemma MalformedAddressesRefused()
    ensures !MatchesPattern("not-an-email")
    ensures !MatchesPattern("a@b")
    ensures !MatchesPattern("a@b.c")
  {
    if MatchesPattern("not-an-email") {
      PatternShape("not-an-email");
    }
    if MatchesPattern("a@b") {
      PatternShape("a@b");
    }
    if MatchesPattern("a@b.c") {
      PatternShape("a@b.c");
    }
  }
}
