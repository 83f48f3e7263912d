/** Literal substring search through SQL LIKE (src/server/services/cmdb-search-query.ts). */
module LikeSearch {

  const WILD := '%'
  const ANY := '_'
  const ESCAPE := '\\'

  predicate Special(c: char) { c == WILD || c == ANY || c == ESCAPE }

  /** PostgreSQL rejects a pattern that ends in a lone escape character. */
  predicate WellFormed(p: string) {
    if p == "" then true
    else if p[0] == ESCAPE then |p| >= 2 && WellFormed(p[2..])
    else WellFormed(p[1..])
  }

  /** s LIKE p with the default escape character. */
  predicate Like(s: string, p: string)
    requires WellFormed(p)
    decreases |s| + |p|
  {
    if p == "" then s == ""
    else if p[0] == WILD then Like(s, p[1..]) || (s != "" && Like(s[1..], p))
    else if p[0] == ANY then s != "" && Like(s[1..], p[1..])
    else if p[0] == ESCAPE then s != "" && s[0] == p[1] && Like(s[1..], p[2..])
    else s != "" && s[0] == p[0] && Like(s[1..], p[1..])
  }

  predicate IsPrefix(t: string, s: string) { |t| <= |s| && s[..|t|] == t }

  predicate OccursIn(t: string, s: string) {
    exists i :: 0 <= i <= |s| && IsPrefix(t, s[i..])
  }

  /** One escaped character: the source puts a backslash in front of it when it is special. */
  function Unit(c: char): string { if Special(c) then [ESCAPE, c] else [c] }

  /** A backslash goes in front of every backslash, percent sign and underscore. */
  function Escaped(t: string): string {
    if t == "" then "" else Unit(t[0]) + Escaped(t[1..])
  }

  function EscapeSearchLike(nfkc: string -> string, value: string): string {
    [WILD] + Escaped(nfkc(value)) + [WILD]
  }

  /** A percent sign, an underscore and a backslash each get a backslash in front; every other character stays. */
  lemma EscapedIs(c: char, t: string)
    ensures Escaped([c] + t) == (if c in {'%', '_', '\\'} then ['\\', c] else [c]) + Escaped(t)
    ensures Escaped("") == ""
  {
    assert ([c] + t)[1..] == t;
  }

  /** What an unescaped special character would find instead: any text, or any one character. */
  lemma UnescapedFinds(s: string)
    ensures Like(s, "%") && (Like(s, "_") <==> |s| == 1) && !WellFormed("\\")
  {
    AnythingMatches(s);
    if s != "" { assert "_"[1..] == ""; }
  }

  lemma UnitStep(c: char, rest: string, s: string)
    ensures WellFormed(Unit(c) + rest) <==> WellFormed(rest)
    ensures WellFormed(rest) ==> (Like(s, Unit(c) + rest) <==> s != "" && s[0] == c && Like(s[1..], rest))
  {
    var p := Unit(c) + rest;
    if Special(c) {
      assert p[2..] == rest;
    } else {
      assert p[1..] == rest;
    }
  }

  lemma EscapedCons(t: string, tail: string)
    requires t != ""
    ensures Escaped(t) + tail == Unit(t[0]) + (Escaped(t[1..]) + tail)
  {}

  /** The escaped text in front of a well-formed tail is well-formed. */
  lemma {:induction false} EscapedWellFormed(t: string, tail: string)
    requires WellFormed(tail)
    ensures WellFormed(Escaped(t) + tail)
  {
    if t == "" {
      assert Escaped(t) + tail == tail;
    } else {
      EscapedWellFormed(t[1..], tail);
      EscapedCons(t, tail);
      UnitStep(t[0], Escaped(t[1..]) + tail, "");
    }
  }

  lemma {:induction false} AnythingMatches(s: string)
    ensures Like(s, [WILD])
  {
    if s != "" { AnythingMatches(s[1..]); }
  }

  /** An escaped text followed by % matches exactly the strings that start with the text. */
  lemma {:induction false} EscapedMatchesPrefix(t: string, s: string)
    ensures WellFormed(Escaped(t) + [WILD])
    ensures Like(s, Escaped(t) + [WILD]) <==> IsPrefix(t, s)
  {
    EscapedWellFormed(t, [WILD]);
    if t == "" {
      assert Escaped(t) + [WILD] == [WILD];
      AnythingMatches(s);
    } else {
      EscapedWellFormed(t[1..], [WILD]);
      EscapedCons(t, [WILD]);
      UnitStep(t[0], Escaped(t[1..]) + [WILD], s);
      if s != "" {
        EscapedMatchesPrefix(t[1..], s[1..]);
        assert IsPrefix(t, s) <==> s[0] == t[0] && IsPrefix(t[1..], s[1..]) by {
          if s[0] == t[0] && IsPrefix(t[1..], s[1..]) { assert s[..|t|] == [s[0]] + s[1..][..|t| - 1]; }
          if IsPrefix(t, s) { assert s[..|t|][0] == s[0]; assert s[1..][..|t| - 1] == s[..|t|][1..]; }
        }
      }
    }
  }

  /** A leading % tries every suffix. */
  lemma {:induction false} LeadingWildcard(s: string, p: string)
    requires WellFormed(p) && WellFormed([WILD] + p)
    ensures Like(s, [WILD] + p) <==> exists i :: 0 <= i <= |s| && Like(s[i..], p)
  {
    assert ([WILD] + p)[1..] == p;
    if s == "" {
      assert s[0..] == s;
    } else {
      LeadingWildcard(s[1..], p);
      assert s[0..] == s;
      assert forall i :: 0 <= i <= |s[1..]| ==> s[1..][i..] == s[i + 1..];
      assert forall i :: 1 <= i <= |s| ==> s[i..] == s[1..][i - 1..];
    }
  }

  /** The escaped pattern finds exactly the strings containing the text, whatever characters it holds. */
  lemma SearchIsExact(nfkc: string -> string, value: string, s: string)
    ensures WellFormed(EscapeSearchLike(nfkc, value))
    ensures Like(s, EscapeSearchLike(nfkc, value)) <==> OccursIn(nfkc(value), s)
  {
    var t := nfkc(value);
    var p := Escaped(t) + [WILD];
    EscapedWellFormed(t, [WILD]);
    assert EscapeSearchLike(nfkc, value) == [WILD] + p && ([WILD] + p)[1..] == p;
    LeadingWildcard(s, p);
    forall i | 0 <= i <= |s| ensures Like(s[i..], p) <==> IsPrefix(t, s[i..]) {
      EscapedMatchesPrefix(t, s[i..]);
    }
  }

  // The queries fold the pattern; they compare it with stored search text as it is, and with columns folded alike.

  /** Folding may turn one character into several. */
  function Lower(low: char -> string, s: string): string {
    if s == "" then "" else low(s[0]) + Lower(low, s[1..])
  }

  predicate Plain(t: string) { forall k :: 0 <= k < |t| ==> !Special(t[k]) }

  /** Case folding that neither changes nor creates a character LIKE treats specially. */
  ghost predicate KeepsSpecials(low: char -> string) {
    forall c :: if Special(c) then low(c) == [c] else Plain(low(c))
  }

  lemma {:induction false} LowerConcat(low: char -> string, a: string, b: string)
    ensures Lower(low, a + b) == Lower(low, a) + Lower(low, b)
  {
    if a == "" {
      assert a + b == b;
    } else {
      assert (a + b)[1..] == a[1..] + b;
      LowerConcat(low, a[1..], b);
    }
  }

  lemma LowerOne(low: char -> string, c: char)
    ensures Lower(low, [c]) == low(c)
  {
    assert [c][1..] == "";
  }

  lemma {:induction false} EscapedConcat(a: string, b: string)
    ensures Escaped(a + b) == Escaped(a) + Escaped(b)
  {
    if a == "" {
      assert a + b == b;
    } else {
      assert (a + b)[1..] == a[1..] + b;
      EscapedConcat(a[1..], b);
    }
  }

  lemma {:induction false} PlainNeedsNoEscape(t: string)
    requires Plain(t)
    ensures Escaped(t) == t
  {
    if t != "" { PlainNeedsNoEscape(t[1..]); }
  }

  lemma LowerUnit(low: char -> string, c: char)
    requires KeepsSpecials(low)
    ensures Lower(low, Unit(c)) == Escaped(low(c))
  {
    if Special(c) {
      assert Unit(c) == [ESCAPE] + [c];
      LowerConcat(low, [ESCAPE], [c]);
      LowerOne(low, ESCAPE);
      LowerOne(low, c);
      assert [c][1..] == "";
    } else {
      LowerOne(low, c);
      PlainNeedsNoEscape(low(c));
    }
  }

  /** Folding and escaping commute. */
  lemma {:induction false} LowerEscaped(low: char -> string, t: string)
    requires KeepsSpecials(low)
    ensures Lower(low, Escaped(t)) == Escaped(Lower(low, t))
  {
    if t != "" {
      LowerEscaped(low, t[1..]);
      LowerConcat(low, Unit(t[0]), Escaped(t[1..]));
      LowerUnit(low, t[0]);
      EscapedConcat(low(t[0]), Lower(low, t[1..]));
    }
  }

  /** The folded pattern finds exactly the texts, stored folded or folded in the query, that contain the folded search
      text literally. */
  lemma FoldedSearchIsExact(nfkc: string -> string, low: char -> string, value: string, text: string)
    requires KeepsSpecials(low)
    ensures var pattern := Lower(low, EscapeSearchLike(nfkc, value));
            WellFormed(pattern) && (Like(text, pattern) <==> OccursIn(Lower(low, nfkc(value)), text))
  {
    var folded := (v: string) => Lower(low, nfkc(v));
    var t := nfkc(value);
    LowerEscaped(low, t);
    LowerConcat(low, [WILD] + Escaped(t), [WILD]);
    LowerConcat(low, [WILD], Escaped(t));
    LowerOne(low, WILD);
    assert EscapeSearchLike(folded, value) == Lower(low, EscapeSearchLike(nfkc, value));
    SearchIsExact(folded, value, text);
  }
}
