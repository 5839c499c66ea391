/**
 * The e-mail check shared by registration and login: the pattern
 * `^\w+([\.-]?\w+)*@\w+([\.-]?\w+)*(\.\w{2,3})+$` (no flags, so `\w` is
 * the ASCII class `[A-Za-z0-9_]`). `ValidEmail` is a hand-written
 * recogniser; `EmailPattern` reads the pattern term by term; the two are
 * proved to accept the same strings.
 */
module EmailFormat {

  /** `\w` */
  predicate IsWordChar(c: char) {
    'a' <= c <= 'z' || 'A' <= c <= 'Z' || '0' <= c <= '9' || c == '_'
  }

  /** `[\.-]` */
  predicate IsSeparator(c: char) {
    c == '.' || c == '-'
  }

  predicate AllWordChars(s: string) {
    forall i :: 0 <= i < |s| ==> IsWordChar(s[i])
  }

  /** Only word characters and separators occur, and a word character follows every separator. */
  predicate SeparatorsGuarded(s: string) {
    forall i {:trigger s[i]} :: 0 <= i < |s| ==>
      IsWordChar(s[i]) || (IsSeparator(s[i]) && i + 1 < |s| && IsWordChar(s[i + 1]))
  }

  /** Recognises `\w+([\.-]?\w+)*`: a word character first, and guarded separators. */
  predicate IsDottedWord(s: string) {
    |s| > 0 && IsWordChar(s[0]) && SeparatorsGuarded(s)
  }

  /**
   * Recognises `\w+([\.-]?\w+)*(\.\w{2,3})+`: a dotted word, then a dot and
   * two or three word characters at the very end.
   */
  predicate IsDomain(d: string) {
    exists j :: 0 < j < |d| && d[j] == '.' && IsDottedWord(d[..j])
      && 2 <= |d| - (j + 1) <= 3 && AllWordChars(d[j + 1..])
  }

  /** The e-mail test of registration and login. */
  predicate ValidEmail(s: string) {
    exists i :: 0 <= i < |s| && s[i] == '@' && IsDottedWord(s[..i]) && IsDomain(s[i + 1..])
  }

  // ---------------------------------------------------------------------
  // The pattern, one term at a time
  // ---------------------------------------------------------------------

  /** `\w+` */
  ghost predicate WordsTerm(s: string) {
    |s| > 0 && AllWordChars(s)
  }

  /** `[\.-]?\w+` */
  ghost predicate SegmentTerm(s: string) {
    WordsTerm(s) || (|s| > 0 && IsSeparator(s[0]) && WordsTerm(s[1..]))
  }

  /** `([\.-]?\w+)*` */
  ghost predicate SegmentsTerm(s: string)
    decreases |s|
  {
    s == [] || exists k :: 0 < k <= |s| && SegmentTerm(s[..k]) && SegmentsTerm(s[k..])
  }

  /** `\w+([\.-]?\w+)*` */
  ghost predicate DottedWordTerm(s: string) {
    exists k :: 0 < k <= |s| && WordsTerm(s[..k]) && SegmentsTerm(s[k..])
  }

  /** `\.\w{2,3}` */
  ghost predicate GroupTerm(g: string) {
    3 <= |g| <= 4 && g[0] == '.' && AllWordChars(g[1..])
  }

  /** `(\.\w{2,3})+` */
  ghost predicate TopLevelTerm(s: string)
    decreases |s|
  {
    exists k :: 0 < k <= |s| && GroupTerm(s[..k]) && (k == |s| || TopLevelTerm(s[k..]))
  }

  /** `\w+([\.-]?\w+)*(\.\w{2,3})+` */
  ghost predicate DomainTerm(d: string) {
    exists j :: 0 < j < |d| && DottedWordTerm(d[..j]) && TopLevelTerm(d[j..])
  }

  /** The whole anchored pattern; `@` is in none of its classes, so it splits the address. */
  ghost predicate EmailPattern(s: string) {
    exists i :: 0 <= i < |s| && s[i] == '@' && DottedWordTerm(s[..i]) && DomainTerm(s[i + 1..])
  }

  // ---------------------------------------------------------------------
  // The recogniser accepts exactly the strings the pattern matches
  // ---------------------------------------------------------------------

  lemma SeparatorsGuardedSuffix(s: string, k: nat)
    requires SeparatorsGuarded(s) && k <= |s|
    ensures SeparatorsGuarded(s[k..])
  {
    var t := s[k..];
    forall i | 0 <= i < |t|
      ensures IsWordChar(t[i]) || (IsSeparator(t[i]) && i + 1 < |t| && IsWordChar(t[i + 1]))
    {
      var j := k + i;
      assert t[i] == s[j];
      assert IsWordChar(s[j]) || (IsSeparator(s[j]) && j + 1 < |s| && IsWordChar(s[j + 1]));
      if !IsWordChar(s[j]) {
        assert t[i + 1] == s[j + 1];
      }
    }
  }

  lemma SeparatorsGuardedConcat(a: string, b: string)
    requires SeparatorsGuarded(a) && SeparatorsGuarded(b)
    ensures SeparatorsGuarded(a + b)
  {
    var c := a + b;
    forall i | 0 <= i < |c|
      ensures IsWordChar(c[i]) || (IsSeparator(c[i]) && i + 1 < |c| && IsWordChar(c[i + 1]))
    {
      if i < |a| {
        assert c[i] == a[i];
        if !IsWordChar(a[i]) {
          assert c[i + 1] == a[i + 1];
        }
      } else {
        assert c[i] == b[i - |a|];
        if !IsWordChar(b[i - |a|]) {
          assert c[i + 1] == b[i - |a| + 1];
        }
      }
    }
  }

  lemma SegmentGuarded(s: string)
    requires SegmentTerm(s)
    ensures SeparatorsGuarded(s)
  {
    if !WordsTerm(s) {
      assert s[1..][0] == s[1];
      forall i | 0 < i < |s|
        ensures IsWordChar(s[i])
      {
        assert s[i] == s[1..][i - 1];
      }
    }
  }

  lemma {:induction false} SegmentsAreGuarded(s: string)
    requires SegmentsTerm(s)
    ensures SeparatorsGuarded(s)
    decreases |s|
  {
    if s != [] {
      var k :| 0 < k <= |s| && SegmentTerm(s[..k]) && SegmentsTerm(s[k..]);
      SegmentsAreGuarded(s[k..]);
      SegmentGuarded(s[..k]);
      SeparatorsGuardedConcat(s[..k], s[k..]);
      assert s[..k] + s[k..] == s;
    }
  }

  lemma {:induction false} GuardedAreSegments(s: string)
    requires SeparatorsGuarded(s)
    ensures SegmentsTerm(s)
    decreases |s|
  {
    if s != [] {
      var k := if IsWordChar(s[0]) then 1 else 2;
      if k == 2 {
        assert IsSeparator(s[0]) && 1 < |s| && IsWordChar(s[1]);
        assert s[..k][1..] == [s[1]];
      } else {
        assert s[..k] == [s[0]];
      }
      assert SegmentTerm(s[..k]);
      SeparatorsGuardedSuffix(s, k);
      GuardedAreSegments(s[k..]);
    }
  }

  lemma DottedWordTermIff(s: string)
    ensures DottedWordTerm(s) <==> IsDottedWord(s)
  {
    if DottedWordTerm(s) {
      var k :| 0 < k <= |s| && WordsTerm(s[..k]) && SegmentsTerm(s[k..]);
      SegmentsAreGuarded(s[k..]);
      SeparatorsGuardedConcat(s[..k], s[k..]);
      assert s[..k] + s[k..] == s;
      assert s[0] == s[..k][0];
    }
    if IsDottedWord(s) {
      SeparatorsGuardedSuffix(s, 1);
      GuardedAreSegments(s[1..]);
      assert s[..1] == [s[0]];
      assert WordsTerm(s[..1]);
    }
  }

  lemma WordsAreDotted(s: string)
    requires |s| > 0 && AllWordChars(s)
    ensures IsDottedWord(s)
  {
  }

  /** A final group's one separator, its dot, is guarded. */
  lemma GroupGuarded(g: string)
    requires GroupTerm(g)
    ensures SeparatorsGuarded(g)
  {
    forall i | 0 <= i < |g|
      ensures IsWordChar(g[i]) || (IsSeparator(g[i]) && i + 1 < |g| && IsWordChar(g[i + 1]))
    {
      if i == 0 {
        assert g[1] == g[1..][0];
      } else {
        assert g[i] == g[1..][i - 1];
      }
    }
  }

  /** A dotted word followed by a group is again a dotted word. */
  lemma ExtendDotted(x: string, g: string)
    requires IsDottedWord(x) && GroupTerm(g)
    ensures IsDottedWord(x + g)
  {
    GroupGuarded(g);
    SeparatorsGuardedConcat(x, g);
    assert (x + g)[0] == x[0];
  }

  /** A dotted word followed by one final group is a domain. */
  lemma LastGroupMakesDomain(x: string, g: string)
    requires IsDottedWord(x) && GroupTerm(g)
    ensures IsDomain(x + g)
  {
    var d := x + g;
    var j := |x|;
    assert d[..j] == x;
    assert d[j + 1..] == g[1..];
    assert d[j] == '.';
  }

  lemma {:induction false} DomainFromParts(x: string, t: string)
    requires IsDottedWord(x) && TopLevelTerm(t)
    ensures IsDomain(x + t)
    decreases |t|
  {
    var k :| 0 < k <= |t| && GroupTerm(t[..k]) && (k == |t| || TopLevelTerm(t[k..]));
    if k == |t| {
      assert t[..k] == t;
      LastGroupMakesDomain(x, t);
    } else {
      ExtendDotted(x, t[..k]);
      DomainFromParts(x + t[..k], t[k..]);
      assert (x + t[..k]) + t[k..] == x + t;
    }
  }

  lemma DomainTermIsDomain(d: string)
    requires DomainTerm(d)
    ensures IsDomain(d)
  {
    var j :| 0 < j < |d| && DottedWordTerm(d[..j]) && TopLevelTerm(d[j..]);
    DottedWordTermIff(d[..j]);
    DomainFromParts(d[..j], d[j..]);
    assert d[..j] + d[j..] == d;
  }

  lemma DomainIsDomainTerm(d: string)
    requires IsDomain(d)
    ensures DomainTerm(d)
  {
    var j :| 0 < j < |d| && d[j] == '.' && IsDottedWord(d[..j])
      && 2 <= |d| - (j + 1) <= 3 && AllWordChars(d[j + 1..]);
    DottedWordTermIff(d[..j]);
    var t := d[j..];
    assert t[1..] == d[j + 1..];
    assert GroupTerm(t);
    assert t[..|t|] == t;
    assert TopLevelTerm(t);
  }

  /** The recogniser and the pattern agree on every string. */
  lemma ValidEmailIsPattern(s: string)
    ensures ValidEmail(s) <==> EmailPattern(s)
  {
    if ValidEmail(s) {
      var i :| 0 <= i < |s| && s[i] == '@' && IsDottedWord(s[..i]) && IsDomain(s[i + 1..]);
      DottedWordTermIff(s[..i]);
      DomainIsDomainTerm(s[i + 1..]);
    }
    if EmailPattern(s) {
      var i :| 0 <= i < |s| && s[i] == '@' && DottedWordTerm(s[..i]) && DomainTerm(s[i + 1..]);
      DottedWordTermIff(s[..i]);
      DomainTermIsDomain(s[i + 1..]);
    }
  }

  /** An ordinary address passes. */
  lemma PlainAddressIsValid()
    ensures ValidEmail("ann@x.com")
  {
    var s := "ann@x.com";
    assert s[..3] == "ann";
    WordsAreDotted("ann");
    WordsAreDotted("x");
    assert GroupTerm(".com");
    LastGroupMakesDomain("x", ".com");
    assert s[4..] == "x" + ".com";
  }

  /** A domain without a final dot and two or three word characters fails. */
  lemma BareDomainIsInvalid()
    ensures !ValidEmail("ann@x")
  {
    var s := "ann@x";
    forall i | 0 <= i < |s| && s[i] == '@'
      ensures !IsDomain(s[i + 1..])
    {
      assert i == 3;
      assert s[i + 1..] == "x";
    }
  }
}
