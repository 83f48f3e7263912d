/** Scored evidence and the candidate assets it adds up to (src/server/services/cmdb-correlation.service.ts). */
module Candidates {
  import opened Ordering
  import opened Identifiers

  type AssetId = string

  datatype OsFamilyName = WINDOWS | LINUX | MACOS

  datatype Signal =
    | Matched(key: Key)
    | IpAddress(address: string)
    | OsFamily(family: OsFamilyName)
    | IndependentSource(types: nat)

  datatype Evidence = Evidence(signal: Signal, strength: Strength, asset: AssetId, score: nat)

  datatype Candidate = Candidate(asset: AssetId, score: nat, strong: nat, medium: nat, weak: nat,
                                 evidence: seq<Evidence>)

  function Of(es: seq<Evidence>, a: AssetId): seq<Evidence> {
    if es == [] then []
    else
      var front, last := Of(es[..|es| - 1], a), es[|es| - 1];
      if last.asset == a then front + [last] else front
  }

  /** The assets named by the evidence, in order of first appearance. */
  function Assets(es: seq<Evidence>): seq<AssetId> {
    if es == [] then []
    else
      var front, last := Assets(es[..|es| - 1]), es[|es| - 1];
      if last.asset in front then front else front + [last.asset]
  }

  function Score(es: seq<Evidence>): nat {
    if es == [] then 0 else Score(es[..|es| - 1]) + es[|es| - 1].score
  }

  function Count(es: seq<Evidence>, strength: Strength): nat {
    if es == [] then 0
    else Count(es[..|es| - 1], strength) + if es[|es| - 1].strength == strength then 1 else 0
  }

  function Summary(es: seq<Evidence>, a: AssetId): Candidate {
    var own := Of(es, a);
    Candidate(a, Score(own), Count(own, STRONG), Count(own, COMPOSITE), Count(own, WEAK), own)
  }

  function Summaries(es: seq<Evidence>): seq<Candidate> {
    seq(|Assets(es)|, i requires 0 <= i < |Assets(es)| => Summary(es, Assets(es)[i]))
  }

  /** Higher score first, then by asset. */
  predicate Ahead(lt: (string, string) -> bool, a: Candidate, b: Candidate) {
    a.score > b.score || (a.score == b.score && lt(a.asset, b.asset))
  }

  function ByScore(lt: (string, string) -> bool): (Candidate, Candidate) -> bool {
    (a: Candidate, b: Candidate) => Ahead(lt, a, b)
  }

  function CandidatesOf(lt: (string, string) -> bool, es: seq<Evidence>): seq<Candidate> {
    Sort(ByScore(lt), Summaries(es))
  }

  /** The position of an asset's candidate, or the length when it has none. */
  function Find(cs: seq<Candidate>, a: AssetId): (k: nat)
    ensures k <= |cs|
    ensures k < |cs| ==> cs[k].asset == a
    ensures forall i :: 0 <= i < k ==> cs[i].asset != a
  {
    if cs == [] || cs[0].asset == a then 0 else 1 + Find(cs[1..], a)
  }

  ghost predicate Mentions(es: seq<Evidence>, a: AssetId) { exists e :: e in es && e.asset == a }

  ghost predicate OnlyMentions(es: seq<Evidence>, a: AssetId) {
    Mentions(es, a) && forall b :: Mentions(es, b) ==> b == a
  }

  lemma {:induction false} AssetsAreDistinct(es: seq<Evidence>)
    ensures Distinct(Assets(es))
    ensures forall a :: a in Assets(es) <==> Mentions(es, a)
  {
    if es != [] {
      var front, last := es[..|es| - 1], es[|es| - 1];
      AssetsAreDistinct(front);
      assert es == front + [last];
      assert last in es;
    }
  }

  /** One more piece of evidence changes one summary or adds one. */
  lemma SummariesStep(es: seq<Evidence>, e: Evidence)
    ensures Summaries(es + [e]) == Absorb(Summaries(es), e)
  {
    var cs, k := Summaries(es), Find(Summaries(es), e.asset);
    assert (es + [e])[..|es|] == es;
    AssetsAreDistinct(es);
    SummaryGrows(es, e);
    forall a | a != e.asset ensures Summary(es + [e], a) == Summary(es, a) {}
    hide Summary, Of, Grown, Find;
    if k < |cs| {
      assert Assets(es)[k] == e.asset;
      assert Assets(es + [e]) == Assets(es);
    } else {
      forall i | 0 <= i < |cs| ensures Assets(es)[i] != e.asset { assert cs[i].asset != e.asset; }
      assert Assets(es + [e]) == Assets(es) + [e.asset];
      NoEvidence(es, e.asset);
    }
  }

  /** The candidates after one more piece of evidence. */
  function Absorb(cs: seq<Candidate>, e: Evidence): seq<Candidate> {
    var k := Find(cs, e.asset);
    if k < |cs| then cs[k := Grown(cs[k], e)] else cs + [Grown(Candidate(e.asset, 0, 0, 0, 0, []), e)]
  }

  function Grown(c: Candidate, e: Evidence): Candidate {
    Candidate(c.asset, c.score + e.score,
              c.strong + (if e.strength == STRONG then 1 else 0),
              c.medium + (if e.strength == COMPOSITE then 1 else 0),
              c.weak + (if e.strength == WEAK then 1 else 0), c.evidence + [e])
  }

  lemma SummaryGrows(es: seq<Evidence>, e: Evidence)
    ensures Summary(es + [e], e.asset) == Grown(Summary(es, e.asset), e)
  {
    assert (es + [e])[..|es|] == es;
    var own := Of(es, e.asset);
    assert Of(es + [e], e.asset) == own + [e];
    assert (own + [e])[..|own|] == own;
  }

  lemma {:induction false} NoEvidence(es: seq<Evidence>, a: AssetId)
    requires a !in Assets(es)
    ensures Summary(es, a) == Candidate(a, 0, 0, 0, 0, [])
  {
    if es != [] { NoEvidence(es[..|es| - 1], a); }
  }

  lemma NoSummaries()
    ensures Summaries([]) == []
  {}

  /** The counters of one candidate are updated in place; a new asset starts from zero. */
  method AddEvidence(candidates: seq<Candidate>, item: Evidence) returns (next: seq<Candidate>)
    ensures next == Absorb(candidates, item)
  {
    hide Find;
    var k := Find(candidates, item.asset);
    var candidate := if k < |candidates| then candidates[k] else Candidate(item.asset, 0, 0, 0, 0, []);
    candidate := candidate.(score := candidate.score + item.score);
    if item.strength == STRONG { candidate := candidate.(strong := candidate.strong + 1); }
    if item.strength == COMPOSITE { candidate := candidate.(medium := candidate.medium + 1); }
    if item.strength == WEAK { candidate := candidate.(weak := candidate.weak + 1); }
    candidate := candidate.(evidence := candidate.evidence + [item]);
    next := if k < |candidates| then candidates[k := candidate] else candidates + [candidate];
  }

  method CandidateMap(lt: (string, string) -> bool, evidence: seq<Evidence>) returns (sorted: seq<Candidate>)
    ensures sorted == CandidatesOf(lt, evidence)
  {
    hide Summaries, Sort, Absorb, ByScore;
    var candidates: seq<Candidate> := [];
    NoSummaries();
    assert evidence[..0] == [];
    for n := 0 to |evidence|
      invariant candidates == Summaries(evidence[..n])
    {
      SummariesStep(evidence[..n], evidence[n]);
      assert evidence[..n + 1] == evidence[..n] + [evidence[n]];
      candidates := AddEvidence(candidates, evidence[n]);
    }
    assert evidence[..|evidence|] == evidence;
    sorted := Sort(ByScore(lt), candidates);
  }

  // ---------------------------------------------------------------------
  // Evidence is conserved
  // ---------------------------------------------------------------------

  function TotalScore(cs: seq<Candidate>): nat {
    if cs == [] then 0 else cs[0].score + TotalScore(cs[1..])
  }

  function TotalEvidence(cs: seq<Candidate>): multiset<Evidence> {
    if cs == [] then multiset{} else multiset(cs[0].evidence) + TotalEvidence(cs[1..])
  }

  lemma {:induction false} TotalsAppend(cs: seq<Candidate>, ds: seq<Candidate>)
    ensures TotalScore(cs + ds) == TotalScore(cs) + TotalScore(ds)
    ensures TotalEvidence(cs + ds) == TotalEvidence(cs) + TotalEvidence(ds)
  {
    if cs == [] {
      assert cs + ds == ds;
    } else {
      assert (cs + ds)[1..] == cs[1..] + ds;
      TotalsAppend(cs[1..], ds);
    }
  }

  lemma {:induction false} TotalsInsert(lt: (Candidate, Candidate) -> bool, c: Candidate, cs: seq<Candidate>)
    ensures TotalScore(Insert(lt, c, cs)) == c.score + TotalScore(cs)
    ensures TotalEvidence(Insert(lt, c, cs)) == multiset(c.evidence) + TotalEvidence(cs)
  {
    if cs == [] || !lt(cs[0], c) {
      assert ([c] + cs)[1..] == cs;
    } else {
      TotalsInsert(lt, c, cs[1..]);
      var r := Insert(lt, c, cs[1..]);
      assert ([cs[0]] + r)[1..] == r;
    }
  }

  lemma {:induction false} TotalsSort(lt: (Candidate, Candidate) -> bool, cs: seq<Candidate>)
    ensures TotalScore(Sort(lt, cs)) == TotalScore(cs)
    ensures TotalEvidence(Sort(lt, cs)) == TotalEvidence(cs)
  {
    if cs != [] {
      TotalsSort(lt, cs[1..]);
      TotalsInsert(lt, cs[0], Sort(lt, cs[1..]));
    }
  }

  lemma TotalsGrow(cs: seq<Candidate>, k: nat, c: Candidate, e: Evidence)
    requires k < |cs| && c.score == cs[k].score + e.score && c.evidence == cs[k].evidence + [e]
    ensures TotalScore(cs[k := c]) == TotalScore(cs) + e.score
    ensures TotalEvidence(cs[k := c]) == TotalEvidence(cs) + multiset{e}
  {
    var a, b := cs[..k], cs[k + 1..];
    assert cs == a + ([cs[k]] + b);
    assert cs[k := c] == a + ([c] + b);
    TotalsAppend(a, [cs[k]] + b);
    TotalsAppend(a, [c] + b);
    assert ([cs[k]] + b)[1..] == b == ([c] + b)[1..];
  }

  lemma OneTotal(c: Candidate)
    ensures TotalScore([c]) == c.score && TotalEvidence([c]) == multiset(c.evidence)
  {
    assert [c][1..] == [];
  }

  ghost predicate Conserved(cs: seq<Candidate>, es: seq<Evidence>) {
    TotalScore(cs) == Score(es) && TotalEvidence(cs) == multiset(es)
  }

  lemma ScoreNext(es: seq<Evidence>, e: Evidence)
    ensures Score(es + [e]) == Score(es) + e.score && multiset(es + [e]) == multiset(es) + multiset{e}
  {
    assert (es + [e])[..|es|] == es;
  }

  lemma GrowthConserves(cs: seq<Candidate>, k: nat, es: seq<Evidence>, e: Evidence)
    requires k < |cs| && Conserved(cs, es)
    ensures Conserved(cs[k := Grown(cs[k], e)], es + [e])
  {
    hide TotalScore, TotalEvidence, Score;
    ScoreNext(es, e);
    TotalsGrow(cs, k, Grown(cs[k], e), e);
  }

  lemma AdditionConserves(cs: seq<Candidate>, es: seq<Evidence>, e: Evidence)
    requires Conserved(cs, es)
    ensures Conserved(cs + [Grown(Candidate(e.asset, 0, 0, 0, 0, []), e)], es + [e])
  {
    hide TotalScore, TotalEvidence, Score;
    var c := Grown(Candidate(e.asset, 0, 0, 0, 0, []), e);
    assert c.evidence == [e];
    ScoreNext(es, e);
    TotalsAppend(cs, [c]);
    OneTotal(c);
  }

  lemma {:induction false} SummariesConserve(es: seq<Evidence>)
    ensures Conserved(Summaries(es), es)
  {
    if es == [] {
      assert Summaries(es) == [];
    } else {
      var front, e := es[..|es| - 1], es[|es| - 1];
      assert es == front + [e];
      SummariesConserve(front);
      SummariesStep(front, e);
      hide Conserved, Summaries, Grown;
      var cs, k := Summaries(front), Find(Summaries(front), e.asset);
      if k < |cs| { GrowthConserves(cs, k, front, e); } else { AdditionConserves(cs, front, e); }
    }
  }

  lemma SummariesComparable(lt: (string, string) -> bool, es: seq<Evidence>)
    requires StrictTotal(lt)
    ensures StrictOrder(ByScore(lt)) && Comparable(ByScore(lt), Summaries(es))
  {
    AssetsAreDistinct(es);
    var cs := Summaries(es);
    forall i, j | 0 <= i < j < |cs| ensures ByScore(lt)(cs[i], cs[j]) || ByScore(lt)(cs[j], cs[i]) {
      assert cs[i].asset == Assets(es)[i] && cs[j].asset == Assets(es)[j];
    }
  }

  lemma SummariesHold(es: seq<Evidence>, c: Candidate)
    ensures c in Summaries(es) <==> c.asset in Assets(es) && c == Summary(es, c.asset)
  {
    if c.asset in Assets(es) && c == Summary(es, c.asset) {
      var i :| 0 <= i < |Assets(es)| && Assets(es)[i] == c.asset;
      assert Summaries(es)[i] == c;
    }
  }

  /** The candidates partition the evidence by asset, each with its exact score and counts, best first. */
  lemma EvidenceIsConserved(lt: (string, string) -> bool, es: seq<Evidence>)
    requires StrictTotal(lt)
    ensures var cs := CandidatesOf(lt, es);
            && StrictlySorted(ByScore(lt), cs)
            && (forall i, j :: 0 <= i < j < |cs| ==> cs[i].asset != cs[j].asset)
            && (forall c :: c in cs <==> Mentions(es, c.asset) && c == Summary(es, c.asset))
            && TotalEvidence(cs) == multiset(es) && TotalScore(cs) == Score(es)
  {
    SummariesComparable(lt, es);
    SortSorts(ByScore(lt), Summaries(es));
    SummariesConserve(es);
    TotalsSort(ByScore(lt), Summaries(es));
    var cs := CandidatesOf(lt, es);
    SortPermutes(ByScore(lt), Summaries(es));
    SameElements(cs, Summaries(es));
    AssetsAreDistinct(es);
    hide Assets, Summaries, Sort, TotalScore, TotalEvidence;
    forall c ensures c in cs <==> Mentions(es, c.asset) && c == Summary(es, c.asset) {
      SummariesHold(es, c);
    }
    forall i, j | 0 <= i < j < |cs| ensures cs[i].asset != cs[j].asset {
      assert cs[i] in cs && cs[j] in cs && ByScore(lt)(cs[i], cs[j]);
      assert cs[i] != cs[j];
    }
  }

  lemma {:induction false} OfKeeps(es: seq<Evidence>, a: AssetId)
    ensures forall e :: e in Of(es, a) <==> e in es && e.asset == a
  {
    if es != [] {
      var front, last := es[..|es| - 1], es[|es| - 1];
      OfKeeps(front, a);
      assert es == front + [last];
      assert Of(es, a) == if last.asset == a then Of(front, a) + [last] else Of(front, a);
    }
  }

  /** The scores the source gives: 100 for a strong match, 30 for a composite one, 5 or 10 for a weak one. */
  predicate Graded(e: Evidence) {
    match e.strength
    case STRONG => e.score == 100
    case COMPOSITE => e.score == 30
    case WEAK => e.score == 5 || e.score == 10
  }

  ghost predicate AllGraded(es: seq<Evidence>) { forall e :: e in es ==> Graded(e) }

  lemma {:induction false} ScoreBounds(es: seq<Evidence>)
    requires AllGraded(es)
    ensures var base := 100 * Count(es, STRONG) + 30 * Count(es, COMPOSITE);
            base + 5 * Count(es, WEAK) <= Score(es) <= base + 10 * Count(es, WEAK)
    ensures Count(es, STRONG) + Count(es, COMPOSITE) + Count(es, WEAK) == |es|
  {
    if es != [] {
      var front, last := es[..|es| - 1], es[|es| - 1];
      assert forall e :: e in front ==> e in es;
      assert last in es;
      ScoreBounds(front);
    }
  }

  lemma {:induction false} OfAppend(es: seq<Evidence>, more: seq<Evidence>, a: AssetId)
    ensures Of(es + more, a) == Of(es, a) + Of(more, a)
  {
    if more == [] {
      assert es + more == es;
    } else {
      assert (es + more)[..|es + more| - 1] == es + more[..|more| - 1];
      OfAppend(es, more[..|more| - 1], a);
    }
  }

  lemma {:induction false} CountAppend(es: seq<Evidence>, more: seq<Evidence>, strength: Strength)
    ensures Count(es + more, strength) == Count(es, strength) + Count(more, strength)
  {
    if more == [] {
      assert es + more == es;
    } else {
      assert (es + more)[..|es + more| - 1] == es + more[..|more| - 1];
      CountAppend(es, more[..|more| - 1], strength);
    }
  }

  /** How many pieces of evidence of the strength speak for the asset. */
  function CountFor(es: seq<Evidence>, a: AssetId, strength: Strength): nat { Count(Of(es, a), strength) }

  lemma CountForOne(e: Evidence, a: AssetId, strength: Strength)
    ensures CountFor([e], a, strength) == if e.asset == a && e.strength == strength then 1 else 0
  {
    assert [e][..0] == [];
    assert Count([], strength) == 0;
    assert Of([e], a) == if e.asset == a then [e] else [];
    assert Count([e], strength) == if e.strength == strength then 1 else 0;
  }

  lemma CountForAppend(es: seq<Evidence>, more: seq<Evidence>, a: AssetId, strength: Strength)
    ensures CountFor(es + more, a, strength) == CountFor(es, a, strength) + CountFor(more, a, strength)
  {
    OfAppend(es, more, a);
    CountAppend(Of(es, a), Of(more, a), strength);
  }

  lemma {:induction false} CountForNone(es: seq<Evidence>, a: AssetId, strength: Strength)
    requires forall e :: e in es && e.asset == a ==> e.strength != strength
    ensures CountFor(es, a, strength) == 0
  {
    if es != [] {
      var front, last := es[..|es| - 1], es[|es| - 1];
      assert es == front + [last];
      assert last in es;
      CountForNone(front, a, strength);
      CountForAppend(front, [last], a, strength);
    }
  }

  /** A single candidate means a single asset in the evidence. */
  lemma OneCandidate(lt: (string, string) -> bool, es: seq<Evidence>, a: AssetId)
    requires StrictTotal(lt)
    ensures var cs := CandidatesOf(lt, es);
            && (|cs| == 1 && cs[0].asset == a <==> OnlyMentions(es, a))
            && (|cs| == 1 ==> cs[0] == Summary(es, cs[0].asset))
            && (cs == [] <==> forall b :: !Mentions(es, b))
  {
    var cs := CandidatesOf(lt, es);
    EvidenceIsConserved(lt, es);
    assert cs == [] ==> forall b :: Mentions(es, b) ==> Summary(es, b) in cs;
    hide *;
    if cs != [] { assert cs[0] in cs; }
    if |cs| == 1 {
      forall b | Mentions(es, b) ensures b == cs[0].asset {
        assert Summary(es, b) in cs;
      }
    }
    if OnlyMentions(es, a) {
      ManyCandidates(es, cs, a);
    }
  }

  lemma FirstTwoDiffer(cs: seq<Candidate>)
    requires forall i, j :: 0 <= i < j < |cs| ==> cs[i].asset != cs[j].asset
    ensures |cs| > 1 ==> cs[0].asset != cs[1].asset
  {}

  lemma ManyCandidates(es: seq<Evidence>, cs: seq<Candidate>, a: AssetId)
    requires OnlyMentions(es, a)
    requires forall c :: c in cs <==> Mentions(es, c.asset) && c == Summary(es, c.asset)
    requires forall i, j :: 0 <= i < j < |cs| ==> cs[i].asset != cs[j].asset
    ensures |cs| == 1 && cs[0].asset == a
  {
    hide Mentions;
    assert Summary(es, a) in cs;
    forall k | 0 <= k < |cs| ensures cs[k].asset == a { assert cs[k] in cs; }
    FirstTwoDiffer(cs);
  }
}
