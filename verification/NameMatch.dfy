/** Directory name matching (src/server/scripts/audit-directory-baseline.ts). */
module NameMatch {
  import opened Ordering
  import opened Wrappers

  const THRESHOLD := 0.55

  function Max(x: nat, y: nat): nat { if x < y then y else x }
  function Min(x: nat, y: nat): nat { if x < y then x else y }

  /** Token lists carry no empty words: the source filters them out. */
  predicate Words(a: seq<string>) { forall k :: 0 <= k < |a| ==> a[k] != "" }

  /** Positions at which both words carry the same character. */
  function Common(token: string, candidate: string): nat {
    if token == "" || candidate == "" then 0
    else (if token[0] == candidate[0] then 1 else 0) + Common(token[1..], candidate[1..])
  }

  function Score(token: string, candidate: string): real
    requires token != ""
  {
    Common(token, candidate) as real / Max(|token|, |candidate|) as real
  }

  datatype Pick = Pick(best: int, score: real)

  /** The first index below n, outside `used`, with the highest positive score. */
  function BestBelow(token: string, b: seq<string>, used: set<int>, n: nat): Pick
    requires token != "" && n <= |b|
  {
    if n == 0 then Pick(-1, 0.0)
    else
      var p := BestBelow(token, b, used, n - 1);
      if n - 1 !in used && Score(token, b[n - 1]) > p.score then Pick(n - 1, Score(token, b[n - 1])) else p
  }

  datatype Progress = Progress(used: set<int>, matched: real)

  /** What the greedy pass has used and collected after the first n tokens. */
  function Greedy(a: seq<string>, b: seq<string>, n: nat): Progress
    requires n <= |a| && Words(a)
  {
    if n == 0 then Progress({}, 0.0)
    else
      var g := Greedy(a, b, n - 1);
      var p := BestBelow(a[n - 1], b, g.used, |b|);
      if p.best >= 0 && p.score >= THRESHOLD then Progress(g.used + {p.best}, g.matched + p.score) else g
  }

  function Similarity(a: seq<string>, b: seq<string>): real
    requires Words(a)
  {
    if a == [] || b == [] then 0.0
    else Greedy(a, b, |a|).matched / Max(|a|, |b|) as real
  }

  /** The nested loops over the token lists of two names. */
  method NameSimilarity(a: seq<string>, b: seq<string>) returns (similarity: real)
    requires Words(a) && Words(b)
    ensures similarity == Similarity(a, b)
  {
    if |a| == 0 || |b| == 0 { return 0.0; }
    var used: set<int> := {};
    var matched := 0.0;
    for position := 0 to |a|
      invariant Greedy(a, b, position) == Progress(used, matched)
    {
      var token := a[position];
      var best := -1;
      var bestScore := 0.0;
      for index := 0 to |b|
        invariant BestBelow(token, b, used, index) == Pick(best, bestScore)
      {
        if index in used { continue; }
        var score := Score(token, b[index]);
        if score > bestScore {
          best := index;
          bestScore := score;
        }
      }
      if best >= 0 && bestScore >= THRESHOLD {
        used := used + {best};
        matched := matched + bestScore;
      }
    }
    return matched / Max(|a|, |b|) as real;
  }

  // ---------------------------------------------------------------------
  // Scores of single words
  // ---------------------------------------------------------------------

  lemma {:induction false} CommonBound(t: string, c: string)
    ensures Common(t, c) <= Min(|t|, |c|)
    ensures Common(t, c) == Max(|t|, |c|) <==> t == c
  {
    if t != "" && c != "" {
      CommonBound(t[1..], c[1..]);
      assert t == [t[0]] + t[1..] && c == [c[0]] + c[1..];
    }
  }

  lemma ScoreBound(t: string, c: string)
    requires t != ""
    ensures 0.0 <= Score(t, c) <= 1.0
    ensures Score(t, c) == 1.0 <==> t == c
  {
    CommonBound(t, c);
    Ratio(Common(t, c), Max(|t|, |c|));
  }

  lemma Ratio(x: nat, y: nat)
    requires x <= y && y > 0
    ensures 0.0 <= x as real / y as real <= 1.0
    ensures x as real / y as real == 1.0 <==> x == y
  {
    var q := x as real / y as real;
    assert q * y as real == x as real;
    if q == 1.0 { assert q * y as real == y as real; }
  }

  lemma {:induction false} BestIsBest(token: string, b: seq<string>, used: set<int>, n: nat)
    requires token != "" && n <= |b|
    ensures var p := BestBelow(token, b, used, n);
            && -1 <= p.best < n && 0.0 <= p.score <= 1.0
            && (p.best >= 0 ==> p.best !in used && p.score == Score(token, b[p.best]))
            && (forall j :: 0 <= j < n && j !in used ==> Score(token, b[j]) <= p.score)
            && (p.best == -1 <==> p.score == 0.0)
  {
    if n > 0 {
      BestIsBest(token, b, used, n - 1);
      ScoreBound(token, b[n - 1]);
    }
  }

  lemma {:induction false} BestIsFirst(token: string, b: seq<string>, used: set<int>, n: nat)
    requires token != "" && n <= |b|
    ensures var p := BestBelow(token, b, used, n);
            p.best >= 0 ==> p.best < n && forall j :: 0 <= j < p.best && j !in used ==> Score(token, b[j]) < p.score
  {
    if n > 0 {
      BestIsFirst(token, b, used, n - 1);
      BestIsBest(token, b, used, n - 1);
    }
  }

  // ---------------------------------------------------------------------
  // The greedy pass
  // ---------------------------------------------------------------------

  function Indices(n: nat): (r: set<int>)
    ensures |r| == n
    ensures forall i :: i in r <==> 0 <= i < n
  {
    if n == 0 then {} else Indices(n - 1) + {n - 1}
  }

  lemma SubsetSize(xs: set<int>, n: nat)
    requires forall x :: x in xs ==> 0 <= x < n
    ensures |xs| <= n
    ensures |xs| == n ==> forall i :: 0 <= i < n ==> i in xs
  {
    var range := Indices(n);
    assert range == xs + (range - xs);
    assert |range| == |xs| + |range - xs|;
  }

  /** Used positions are within b and one per token at most; each adds at most one point. */
  lemma {:induction false} GreedyBound(a: seq<string>, b: seq<string>, n: nat)
    requires n <= |a| && Words(a)
    ensures var g := Greedy(a, b, n);
            && (forall x :: x in g.used ==> 0 <= x < |b|)
            && |g.used| <= n
            && 0.0 <= g.matched <= |g.used| as real
  {
    if n > 0 {
      GreedyBound(a, b, n - 1);
      BestIsBest(a[n - 1], b, Greedy(a, b, n - 1).used, |b|);
    }
  }

  /** The first of the best unused words for a token. */
  ghost predicate Choice(token: string, b: seq<string>, used: set<int>, j: int)
    requires token != ""
  {
    && 0 <= j < |b| && j !in used
    && forall k :: 0 <= k < |b| && k !in used ==>
         Score(token, b[k]) <= Score(token, b[j]) && (k < j ==> Score(token, b[k]) < Score(token, b[j]))
  }

  /** Each token takes the first of the best unused words if that scores at least 0.55, and nothing otherwise. */
  lemma GreedyTakesExactly(a: seq<string>, b: seq<string>, n: nat)
    requires 0 < n <= |a| && Words(a)
    ensures var g, h := Greedy(a, b, n - 1), Greedy(a, b, n);
            || (h == g && forall k :: 0 <= k < |b| && k !in g.used ==> Score(a[n - 1], b[k]) < 0.55)
            || exists j :: Choice(a[n - 1], b, g.used, j) && Score(a[n - 1], b[j]) >= 0.55
                           && h == Progress(g.used + {j}, g.matched + Score(a[n - 1], b[j]))
  {
    var g := Greedy(a, b, n - 1);
    var p := BestBelow(a[n - 1], b, g.used, |b|);
    BestIsBest(a[n - 1], b, g.used, |b|);
    BestIsFirst(a[n - 1], b, g.used, |b|);
    hide BestBelow, Score;
    if p.best >= 0 { assert Choice(a[n - 1], b, g.used, p.best); }
  }

  /** The similarity shares the matched points out over the longer name; an empty name is like nothing. */
  lemma SimilarityIs(a: seq<string>, b: seq<string>)
    requires Words(a)
    ensures a == [] || b == [] ==> Similarity(a, b) == 0.0
    ensures a != [] && b != [] ==>
              Similarity(a, b) * (if |a| < |b| then |b| else |a|) as real == Greedy(a, b, |a|).matched
    ensures Greedy(a, b, 0) == Progress({}, 0.0)
  {
    hide Greedy;
    if a != [] && b != [] {
      var y := Max(|a|, |b|) as real;
      assert Greedy(a, b, |a|).matched / y * y == Greedy(a, b, |a|).matched;
    }
    assert Greedy(a, b, 0) == Progress({}, 0.0) by { NothingYet(a, b); }
  }

  lemma NothingYet(a: seq<string>, b: seq<string>)
    requires Words(a)
    ensures Greedy(a, b, 0) == Progress({}, 0.0)
  {}

  /** A similarity is a proportion, bounded by the ratio of the two name lengths. */
  lemma SimilarityBound(a: seq<string>, b: seq<string>)
    requires Words(a)
    ensures 0.0 <= Similarity(a, b) <= 1.0
    ensures a != [] && b != [] ==>
              Similarity(a, b) <= if |a| < |b| then |a| as real / |b| as real else |b| as real / |a| as real
  {
    if a != [] && b != [] {
      GreedyBound(a, b, |a|);
      SubsetSize(Greedy(a, b, |a|).used, |b|);
      Ratio(Min(|a|, |b|), Max(|a|, |b|));
      Quotient(Greedy(a, b, |a|).matched, Min(|a|, |b|) as real, Max(|a|, |b|) as real);
    }
  }

  lemma Quotient(x: real, y: real, z: real)
    requires 0.0 <= x <= y && z > 0.0
    ensures 0.0 <= x / z <= y / z
  {
    assert (y - x) / z >= 0.0;
    assert y / z == x / z + (y - x) / z;
  }

  /** How often w occurs among the first n words. */
  function Tally(s: seq<string>, n: nat, w: string): nat
    requires n <= |s|
  {
    if n == 0 then 0 else Tally(s, n - 1, w) + (if s[n - 1] == w then 1 else 0)
  }

  /** How often w occurs among the unused words at the first n positions. */
  function Left(b: seq<string>, used: set<int>, n: nat, w: string): nat
    requires n <= |b|
  {
    if n == 0 then 0 else Left(b, used, n - 1, w) + (if b[n - 1] == w && n - 1 !in used then 1 else 0)
  }

  lemma {:induction false} TallyIsMultiplicity(s: seq<string>, n: nat, w: string)
    requires n <= |s|
    ensures Tally(s, n, w) == multiset(s[..n])[w]
  {
    if n > 0 {
      TallyIsMultiplicity(s, n - 1, w);
      assert s[..n] == s[..n - 1] + [s[n - 1]];
    }
  }

  ghost predicate Alike(a: seq<string>, b: seq<string>, w: string) {
    Tally(a, |a|, w) == Tally(b, |b|, w)
  }

  lemma AlikeIsMultiplicity(a: seq<string>, b: seq<string>, w: string)
    ensures Alike(a, b, w) <==> multiset(a)[w] == multiset(b)[w]
  {
    TallyIsMultiplicity(a, |a|, w);
    TallyIsMultiplicity(b, |b|, w);
    assert a[..|a|] == a && b[..|b|] == b;
  }

  lemma SameTallies(a: seq<string>, b: seq<string>)
    ensures multiset(a) == multiset(b) <==> forall w :: Alike(a, b, w)
  {
    hide Alike;
    if multiset(a) == multiset(b) {
      forall w ensures Alike(a, b, w) { AlikeIsMultiplicity(a, b, w); }
    }
    if forall w :: Alike(a, b, w) {
      forall w ensures multiset(a)[w] == multiset(b)[w] { AlikeIsMultiplicity(a, b, w); }
    }
  }

  lemma {:induction false} TallyGrows(s: seq<string>, m: nat, n: nat, w: string)
    requires m <= n <= |s|
    ensures Tally(s, m, w) <= Tally(s, n, w)
  {
    if m < n { TallyGrows(s, m, n - 1, w); }
  }

  lemma {:induction false} UseOne(b: seq<string>, used: set<int>, n: nat, k: int, w: string)
    requires n <= |b| && 0 <= k < |b| && k !in used
    ensures Left(b, used, n, w) == Left(b, used + {k}, n, w) + (if k < n && b[k] == w then 1 else 0)
  {
    if n > 0 { UseOne(b, used, n - 1, k, w); }
  }

  lemma {:induction false} NothingUsed(b: seq<string>, n: nat, w: string)
    requires n <= |b|
    ensures Left(b, {}, n, w) == Tally(b, n, w)
  {
    if n > 0 { NothingUsed(b, n - 1, w); }
  }

  lemma {:induction false} AllUsed(b: seq<string>, used: set<int>, n: nat, w: string)
    requires n <= |b| && forall i :: 0 <= i < n ==> i in used
    ensures Left(b, used, n, w) == 0
  {
    if n > 0 { AllUsed(b, used, n - 1, w); }
  }

  lemma {:induction false} LeftIndex(b: seq<string>, used: set<int>, n: nat, w: string) returns (k: int)
    requires n <= |b| && Left(b, used, n, w) > 0
    ensures 0 <= k < n && k !in used && b[k] == w
  {
    if n - 1 !in used && b[n - 1] == w { k := n - 1; } else { k := LeftIndex(b, used, n - 1, w); }
  }

  /** One step of the pass on the words that are left. */
  lemma StepUses(a: seq<string>, b: seq<string>, n: nat, w: string)
    requires 0 < n <= |a| && Words(a)
    ensures var g := Greedy(a, b, n - 1);
            var h := Greedy(a, b, n);
            && h.matched <= g.matched + 1.0
            && (h.matched == g.matched + 1.0 ==>
                  && |h.used| == |g.used| + 1
                  && Left(b, g.used, |b|, w) == Left(b, h.used, |b|, w) + (if a[n - 1] == w then 1 else 0))
            && (Left(b, g.used, |b|, a[n - 1]) > 0 ==> h.matched == g.matched + 1.0)
  {
    var g := Greedy(a, b, n - 1);
    var t := a[n - 1];
    var p := BestBelow(t, b, g.used, |b|);
    BestIsBest(t, b, g.used, |b|);
    if p.best >= 0 {
      ScoreBound(t, b[p.best]);
      UseOne(b, g.used, |b|, p.best, w);
    }
    if Left(b, g.used, |b|, t) > 0 {
      var k := LeftIndex(b, g.used, |b|, t);
      ScoreBound(t, b[k]);
    }
  }

  /** While every token so far scored one, the words taken from b are those tokens. */
  lemma {:induction false} PerfectPrefix(a: seq<string>, b: seq<string>, n: nat, w: string)
    requires n <= |a| && Words(a)
    ensures Greedy(a, b, n).matched <= n as real
    ensures Greedy(a, b, n).matched == n as real ==>
              && |Greedy(a, b, n).used| == n
              && Tally(b, |b|, w) == Left(b, Greedy(a, b, n).used, |b|, w) + Tally(a, n, w)
  {
    if n == 0 {
      NothingUsed(b, |b|, w);
    } else {
      PerfectPrefix(a, b, n - 1, w);
      StepUses(a, b, n, w);
    }
  }

  /** Words that are all still available are all matched perfectly, in whatever order they come. */
  lemma {:induction false} AvailableMatches(a: seq<string>, b: seq<string>, n: nat, w: string)
    requires n <= |a| && Words(a) && forall v :: Alike(a, b, v)
    ensures Greedy(a, b, n).matched == n as real
    ensures Left(b, Greedy(a, b, n).used, |b|, w) == Tally(a, |a|, w) - Tally(a, n, w)
  {
    if n == 0 {
      NothingUsed(b, |b|, w);
      assert Alike(a, b, w);
    } else {
      hide Greedy, Left, Alike, Words;
      AvailableMatches(a, b, n - 1, w);
      AvailableMatches(a, b, n - 1, a[n - 1]);
      TallyGrows(a, n, |a|, a[n - 1]);
      StepUses(a, b, n, w);
    }
  }

  lemma PerfectMeansSameWords(a: seq<string>, b: seq<string>, w: string)
    requires a != [] && b != [] && Words(a) && Words(b) && Similarity(a, b) == 1.0
    ensures Alike(a, b, w)
  {
    hide Greedy, Left;
    var g := Greedy(a, b, |a|);
    var m := Max(|a|, |b|);
    assert Similarity(a, b) * m as real == g.matched;
    GreedyBound(a, b, |a|);
    SubsetSize(g.used, |b|);
    assert g.matched == m as real;
    PerfectPrefix(a, b, |a|, w);
    AllUsed(b, g.used, |b|, w);
  }

  /** Full marks exactly for names made of the same words, each the same number of times. */
  lemma PerfectIffSameWords(a: seq<string>, b: seq<string>)
    requires a != [] && b != [] && Words(a) && Words(b)
    ensures Similarity(a, b) == 1.0 <==> multiset(a) == multiset(b)
  {
    hide Greedy, Alike;
    SameTallies(a, b);
    if multiset(a) == multiset(b) {
      AvailableMatches(a, b, |a|, "");
      assert |multiset(a)| == |a| && |multiset(b)| == |b|;
    }
    if Similarity(a, b) == 1.0 {
      forall w ensures Alike(a, b, w) { PerfectMeansSameWords(a, b, w); }
    }
  }

  /** The order of the words of a perfect match does not matter on either side. */
  lemma PerfectIsSymmetric(a: seq<string>, b: seq<string>)
    requires a != [] && b != [] && Words(a) && Words(b)
    ensures Similarity(a, b) == 1.0 <==> Similarity(b, a) == 1.0
  {
    PerfectIffSameWords(a, b);
    PerfectIffSameWords(b, a);
  }

  // ---------------------------------------------------------------------
  // Claiming directory users
  // ---------------------------------------------------------------------

  datatype BaselineRecord = BaselineRecord(employeeKey: string, nameKey: string)

  datatype Index = Index(byEmployeeId: map<string, seq<string>>, byName: map<string, seq<string>>,
                         nameCounts: map<string, nat>)

  function Lookup(m: map<string, seq<string>>, key: string): seq<string> {
    if key in m then m[key] else []
  }

  /** The single user a list holds, if nobody has claimed it. */
  function Sole(users: seq<string>, claimed: set<string>): Option<string> {
    if |users| == 1 && users[0] !in claimed then Some(users[0]) else None
  }

  function FirstMatch(record: BaselineRecord, index: Index, claimed: set<string>): Option<string> {
    var byId := Sole(Lookup(index.byEmployeeId, record.employeeKey), claimed);
    if byId.Some? then byId
    else if record.nameKey in index.nameCounts && index.nameCounts[record.nameKey] == 1
    then Sole(Lookup(index.byName, record.nameKey), claimed)
    else None
  }

  /** The record's employee number names this user alone. */
  predicate SoleById(index: Index, r: BaselineRecord, u: string) { Lookup(index.byEmployeeId, r.employeeKey) == [u] }

  /** The record's name occurs once in the baseline and names this user alone. */
  predicate SoleByName(index: Index, r: BaselineRecord, u: string) {
    && r.nameKey in index.nameCounts && index.nameCounts[r.nameKey] == 1
    && Lookup(index.byName, r.nameKey) == [u]
  }

  predicate SoleMatch(index: Index, r: BaselineRecord, u: string) { SoleById(index, r, u) || SoleByName(index, r, u) }

  /** No earlier record has claimed the user. */
  ghost predicate Free(matches: seq<Option<string>>, i: nat, u: string) {
    forall j :: 0 <= j < i && j < |matches| ==> matches[j] != Some(u)
  }

  /** A record gets its sole free match by number or, failing that, by name. */
  ghost predicate Claims(matches: seq<Option<string>>, i: nat, index: Index, r: BaselineRecord)
    requires i < |matches|
  {
    forall u :: matches[i] == Some(u) <==>
      && Free(matches, i, u)
      && (SoleById(index, r, u)
         || (SoleByName(index, r, u) && forall v :: SoleById(index, r, v) ==> !Free(matches, i, v)))
  }

  lemma SoleMatchIs(index: Index, r: BaselineRecord, u: string)
    ensures SoleById(index, r, u) <==> r.employeeKey in index.byEmployeeId && index.byEmployeeId[r.employeeKey] == [u]
    ensures SoleByName(index, r, u) <==>
            && r.nameKey in index.nameCounts && index.nameCounts[r.nameKey] == 1
            && r.nameKey in index.byName && index.byName[r.nameKey] == [u]
  {}

  lemma FirstMatchClaims(matches: seq<Option<string>>, claimed: set<string>, index: Index, r: BaselineRecord)
    requires forall u :: u in claimed <==> Some(u) in matches
    ensures Claims(matches + [FirstMatch(r, index, claimed)], |matches|, index, r)
  {
    var more := matches + [FirstMatch(r, index, claimed)];
    forall u ensures Free(more, |matches|, u) <==> u !in claimed {
      assert forall j :: 0 <= j < |matches| ==> more[j] == matches[j];
    }
    var ids, names := Lookup(index.byEmployeeId, r.employeeKey), Lookup(index.byName, r.nameKey);
    assert |ids| == 1 ==> SoleById(index, r, ids[0]);
    hide Free, Lookup;
  }

  lemma ClaimsExtend(matches: seq<Option<string>>, m: Option<string>, i: nat, index: Index, r: BaselineRecord)
    requires i < |matches| && Claims(matches, i, index, r)
    ensures Claims(matches + [m], i, index, r)
  {
    var more := matches + [m];
    forall u ensures Free(more, i, u) <==> Free(matches, i, u) {
      assert forall j :: 0 <= j < i ==> more[j] == matches[j];
    }
  }

  /** Nobody is claimed twice, and a record stays unmatched only when its sole matches were claimed before. */
  method ClaimUsers(baseline: seq<BaselineRecord>, index: Index) returns (matches: seq<Option<string>>)
    ensures |matches| == |baseline|
    ensures forall i :: 0 <= i < |matches| ==> Claims(matches, i, index, baseline[i])
    ensures forall i, j :: 0 <= i < j < |matches| && matches[i].Some? ==> matches[i] != matches[j]
    ensures forall i, u :: 0 <= i < |matches| && matches[i].None? && SoleMatch(index, baseline[i], u) ==>
              !Free(matches, i, u)
  {
    matches := [];
    var claimed: set<string> := {};
    for i := 0 to |baseline|
      invariant |matches| == i
      invariant forall u :: u in claimed <==> Some(u) in matches
      invariant forall k :: 0 <= k < i ==> Claims(matches, k, index, baseline[k])
    {
      var user := FirstMatch(baseline[i], index, claimed);
      FirstMatchClaims(matches, claimed, index, baseline[i]);
      forall k | 0 <= k < i ensures Claims(matches + [user], k, index, baseline[k]) {
        ClaimsExtend(matches, user, k, index, baseline[k]);
      }
      hide Claims, FirstMatch;
      if user.Some? { claimed := claimed + {user.value}; }
      matches := matches + [user];
    }
    forall i, j | 0 <= i < j < |matches| && matches[i].Some? ensures matches[i] != matches[j] {
      if matches[j].Some? {
        assert Claims(matches, j, index, baseline[j]);
        assert Free(matches, j, matches[j].value);
      }
    }
    forall i, u | 0 <= i < |matches| && matches[i].None? && SoleMatch(index, baseline[i], u)
      ensures !Free(matches, i, u)
    {
      assert Claims(matches, i, index, baseline[i]);
    }
  }
}
