/** When the order of attribute offers matters, whatever state is stored
    (src/server/services/cmdb-precedence.service.ts). */
module Convergence {
  import opened Endings
  import opened Ordering
  import opened Precedence
  import opened Wrappers

  // ---------------------------------------------------------------------
  // Convergence of one path
  // ---------------------------------------------------------------------

  /** Refreshing this state leaves just what the offer would. */
  predicate Clean(hash: string -> string, s: AttributeState) {
    !s.manualLock && !s.manuallyManaged && s.effectiveHash == hash(s.effective)
  }

  predicate Rewritable(hash: string -> string, s: AttributeState, offers: seq<Offer>) {
    exists x :: x in offers && Rewrites(hash, Some(s), x)
  }

  predicate TopRewrites(hash: string -> string, s: AttributeState, offers: seq<Offer>) {
    exists x :: x in offers && IsTop(offers, x) && Rewrites(hash, Some(s), x)
  }

  /** The condition under which order is irrelevant: without stored state, the greatest offers agree. Where no offer
      rewrites the stored state, those that refresh it agree. Otherwise the greatest offers agree and, unless the stored
      state is one that offers leave, one of them rewrites it. */
  predicate Settles(hash: string -> string, s: Option<AttributeState>, offers: seq<Offer>) {
    match s
    case None => TopsAgree(hash, offers)
    case Some(cur) =>
      if Rewritable(hash, cur, offers)
      then TopsAgree(hash, offers) && (Clean(hash, cur) || TopRewrites(hash, cur, offers))
      else TopsAgree(hash, Refreshers(hash, cur, offers))
  }

  ghost predicate OrderIrrelevant(hash: string -> string, s: Option<AttributeState>, offers: seq<Offer>) {
    forall w: seq<Offer> :: multiset(w) == multiset(offers) ==> Fold(hash, s, w) == Fold(hash, s, offers)
  }

  lemma EmptyAlike(v: seq<Offer>, w: seq<Offer>)
    requires SameOffers(v, w)
    ensures v == [] <==> w == []
  {
    assert v != [] ==> v[0] in v;
    assert w != [] ==> w[0] in w;
  }

  lemma WinnersAgree(hash: string -> string, v: seq<Offer>, w: seq<Offer>)
    requires SameOffers(v, w) && TopsAgree(hash, v) && v != [] && w != []
    ensures StateOf(hash, v[Greatest(v)]) == StateOf(hash, w[Greatest(w)])
  {
    GreatestTops(v);
    GreatestTops(w);
    hide IsTop, TopsAgree, Greatest, StateOf;
    TopsAgreeOn(hash, v, v[Greatest(v)], w[Greatest(w)]);
  }

  lemma RefreshedAgrees(hash: string -> string, s: AttributeState, x: Offer, y: Offer)
    requires Injective(hash) && s.effectiveHash == hash(x.value) == hash(y.value)
    ensures StateOf(hash, x) == StateOf(hash, y) <==> Refreshed(s, x) == Refreshed(s, y)
  {}

  lemma CleanRefresh(hash: string -> string, s: AttributeState, x: Offer)
    requires Injective(hash) && s.effectiveHash == hash(x.value)
    ensures Clean(hash, s) <==> Refreshed(s, x) == StateOf(hash, x)
  {}

  /** A greatest offer that rewrites the stored state is counted in every order. */
  lemma RewriterIsCounted(hash: string -> string, s: AttributeState, w: seq<Offer>, t: Offer)
    requires IsTop(w, t) && Rewrites(hash, Some(s), t)
    ensures t in Counted(hash, Some(s), w)
  {
    hide Rewrites, Refreshes, Lower;
    assert t in w;
    var i :| 0 <= i < |w| && w[i] == t;
    assert Opens(hash, s, w, i);
    assert w[FirstOpen(hash, s, w)..][i - FirstOpen(hash, s, w)] == t;
  }

  /** When a greatest offer is counted, the path ends with a greatest offer. */
  lemma CountedTop(hash: string -> string, s: AttributeState, w: seq<Offer>, t: Offer) returns (x: Offer)
    requires IsTop(w, t) && t in Counted(hash, Some(s), w)
    ensures IsTop(w, x) && x in Counted(hash, Some(s), w) && Ending(hash, Some(s), w) == Some(StateOf(hash, x))
  {
    var c := Counted(hash, Some(s), w);
    GreatestTops(c);
    x := c[Greatest(c)];
    assert x in w;
    hide Lower, Counted;
    TiesTop(w, t, x);
  }

  lemma HeldTop(hash: string -> string, s: AttributeState, w: seq<Offer>, t: Offer) returns (y: Offer)
    requires IsTop(w, t) && Refreshes(hash, s, t)
    ensures IsTop(w, y) && Refreshes(hash, s, y) && Held(hash, s, w) == Refreshed(s, y)
  {
    var kept := Refreshers(hash, s, w);
    assert t in kept;
    GreatestTops(kept);
    y := kept[Greatest(kept)];
    assert y in kept;
    hide Refreshes, Lower;
    TiesTop(w, t, y);
  }

  /** Once an offer rewrites a state that offers leave, the path ends with a greatest offer. */
  lemma CleanEnds(hash: string -> string, s: AttributeState, w: seq<Offer>) returns (x: Offer)
    requires Injective(hash) && Clean(hash, s) && Rewritable(hash, s, w)
    ensures IsTop(w, x) && Ending(hash, Some(s), w) == Some(StateOf(hash, x))
  {
    var b :| b in w && Rewrites(hash, Some(s), b);
    var t := w[Greatest(w)];
    GreatestTops(w);
    hide Rewrites, Refreshes, Lower, Greatest, StateOf;
    var k := FirstOpen(hash, s, w);
    if Rewrites(hash, Some(s), t) {
      RewriterIsCounted(hash, s, w, t);
      x := CountedTop(hash, s, w, t);
    } else if k == |w| {
      x := HeldTop(hash, s, w, t);
      RefreshesSame(hash, s, x);
      CleanRefresh(hash, s, x);
      assert w[k..] == [];
    } else {
      var last := OpenedTop(hash, s, w, k, t);
      x := CountedTop(hash, s, w, last);
    }
  }

  lemma RefreshesSame(hash: string -> string, s: AttributeState, x: Offer)
    requires Refreshes(hash, s, x)
    ensures s.effectiveHash == hash(x.value)
  {}

  lemma OpenedTop(hash: string -> string, s: AttributeState, w: seq<Offer>, k: nat, t: Offer) returns (x: Offer)
    requires Opens(hash, s, w, k) && IsTop(w, t) && Refreshes(hash, s, t)
    ensures IsTop(w, x) && x in w[k..]
  {
    hide Rewrites, Refreshes, Lower;
    var i :| 0 <= i < |w| && w[i] == t;
    if i < k {
      TiesTop(w, t, w[k]);
      x := w[k];
      assert w[k..][0] == x;
    } else {
      x := t;
      assert w[k..][i - k] == t;
    }
  }

  lemma SettledRewritten(hash: string -> string, s: AttributeState, w: seq<Offer>) returns (x: Offer)
    requires Injective(hash) && Rewritable(hash, s, w) && (Clean(hash, s) || TopRewrites(hash, s, w))
    ensures IsTop(w, x) && Ending(hash, Some(s), w) == Some(StateOf(hash, x))
  {
    hide Rewrites, Clean, IsTop, StateOf;
    if Clean(hash, s) {
      x := CleanEnds(hash, s, w);
    } else {
      var t :| t in w && IsTop(w, t) && Rewrites(hash, Some(s), t);
      RewriterIsCounted(hash, s, w, t);
      x := CountedTop(hash, s, w, t);
    }
  }

  lemma NeverRewritten(hash: string -> string, s: AttributeState, w: seq<Offer>)
    requires !Rewritable(hash, s, w)
    ensures Ending(hash, Some(s), w) == Some(Held(hash, s, w))
  {
    hide Rewrites, Held;
    var k := FirstOpen(hash, s, w);
    assert forall i :: 0 <= i < |w| ==> !Rewrites(hash, Some(s), w[i]);
    assert w[k..] == [];
  }

  lemma HeldAlike(hash: string -> string, s: AttributeState, v: seq<Offer>, w: seq<Offer>)
    requires Injective(hash) && SameOffers(v, w) && TopsAgree(hash, Refreshers(hash, s, v))
    ensures Held(hash, s, v) == Held(hash, s, w)
  {
    var g, h := Refreshers(hash, s, v), Refreshers(hash, s, w);
    assert SameOffers(g, h);
    EmptyAlike(g, h);
    hide Refreshers, TopsAgree, StateOf, Refreshed, Greatest;
    if g != [] {
      WinnersAgree(hash, g, h);
      var x, y := g[Greatest(g)], h[Greatest(h)];
      assert x in g && y in h;
      RefreshesSame(hash, s, x);
      RefreshesSame(hash, s, y);
      RefreshedAgrees(hash, s, x, y);
    }
  }

  /** Where the condition holds, every order ends alike. */
  lemma SettledEnds(hash: string -> string, s: Option<AttributeState>, v: seq<Offer>, w: seq<Offer>)
    requires Injective(hash) && SameOffers(v, w) && Settles(hash, s, v)
    ensures Ending(hash, s, v) == Ending(hash, s, w)
  {
    EmptyAlike(v, w);
    if v == [] { return; }
    match s
    case None => WinnersAgree(hash, v, w);
    case Some(cur) =>
      hide Rewrites, Clean, StateOf, TopsAgree, Held;
      assert Rewritable(hash, cur, v) <==> Rewritable(hash, cur, w);
      if Rewritable(hash, cur, v) {
        forall x ensures IsTop(v, x) <==> IsTop(w, x) {}
        hide IsTop, Ending;
        var x := SettledRewritten(hash, cur, v);
        assert TopRewrites(hash, cur, v) ==> TopRewrites(hash, cur, w);
        var y := SettledRewritten(hash, cur, w);
        TopsAgreeOn(hash, v, x, y);
      } else {
        NeverRewritten(hash, cur, v);
        NeverRewritten(hash, cur, w);
        HeldAlike(hash, cur, v, w);
      }
  }

  // Orders that end differently.

  lemma LastWins(hash: string -> string, w: seq<Offer>)
    requires w != [] && IsTop(w, w[|w| - 1])
    ensures w[Greatest(w)] == w[|w| - 1]
  {
    TopByIndex(w, |w| - 1);
    WinnerIsUnique(w, Greatest(w), |w| - 1);
  }

  lemma CountedLastWins(hash: string -> string, s: Option<AttributeState>, w: seq<Offer>)
    requires w != [] && IsTop(w, w[|w| - 1]) && Counted(hash, s, w) != []
    ensures Ending(hash, s, w) == Some(StateOf(hash, w[|w| - 1]))
  {
    var c := Counted(hash, s, w);
    assert c[|c| - 1] == w[|w| - 1];
    assert forall x :: x in c ==> x in w;
    hide Lower, Greatest, StateOf, Counted;
    LastWins(hash, c);
  }

  function MoveLast(offers: seq<Offer>, i: nat): (w: seq<Offer>)
    requires i < |offers|
    ensures w != [] && w[|w| - 1] == offers[i]
  {
    RemoveAt(offers, i) + [offers[i]]
  }

  function MoveFirst(offers: seq<Offer>, i: nat): (w: seq<Offer>)
    requires i < |offers|
    ensures w != [] && w[0] == offers[i]
  {
    [offers[i]] + RemoveAt(offers, i)
  }

  lemma MovesPermute(offers: seq<Offer>, i: nat)
    requires i < |offers|
    ensures multiset(MoveLast(offers, i)) == multiset(offers) == multiset(MoveFirst(offers, i))
    ensures i < |offers| - 1 ==> MoveFirst(offers, i)[|offers| - 1] == offers[|offers| - 1]
  {
    RemoveAtMultiset(offers, i);
  }

  /** Where the stored state can be rewritten, each greatest offer wins in some order. */
  lemma TopCanWin(hash: string -> string, s: Option<AttributeState>, offers: seq<Offer>, i: nat) returns (w: seq<Offer>)
    requires i < |offers| && IsTop(offers, offers[i]) && (s.None? || Rewritable(hash, s.value, offers))
    ensures multiset(w) == multiset(offers) && Ending(hash, s, w) == Some(StateOf(hash, offers[i]))
  {
    var t := offers[i];
    var v := MoveLast(offers, i);
    MovesPermute(offers, i);
    SameElements(v, offers);
    assert s.Some? ==> (Rewritable(hash, s.value, v) <==> Rewritable(hash, s.value, offers));
    hide MoveLast, Rewrites, IsTop, StateOf, Rewritable;
    if s.None? {
      w := v;
    } else if Rewrites(hash, Some(s.value), t) {
      w := v;
      RewriterIsCounted(hash, s.value, w, t);
    } else {
      w := RewriterFirst(hash, s.value, v);
      SameElements(w, v);
    }
    CountedLastWins(hash, s, w);
  }

  /** Something that rewrites the stored state comes first, the last offer stays last. */
  lemma RewriterFirst(hash: string -> string, s: AttributeState, v: seq<Offer>) returns (w: seq<Offer>)
    requires v != [] && Rewritable(hash, s, v) && !Rewrites(hash, Some(s), v[|v| - 1])
    ensures multiset(w) == multiset(v) && w != [] && w[|w| - 1] == v[|v| - 1] && Counted(hash, Some(s), w) != []
  {
    hide Rewrites, Refreshes, Lower;
    var b :| b in v && Rewrites(hash, Some(s), b);
    var m :| 0 <= m < |v| && v[m] == b;
    assert m < |v| - 1;
    w := MoveFirst(v, m);
    MovesPermute(v, m);
    assert |w| == |v|;
    assert Opens(hash, s, w, 0);
  }

  lemma SameEndings(hash: string -> string, s: Option<AttributeState>, offers: seq<Offer>, w: seq<Offer>)
    requires Injective(hash) && OrderIrrelevant(hash, s, offers) && multiset(w) == multiset(offers)
    ensures Ending(hash, s, w) == Ending(hash, s, offers)
  {
    EndingHolds(hash, s, w);
    EndingHolds(hash, s, offers);
    hide Ending, Fold;
  }

  lemma RewrittenTopsAgree(hash: string -> string, s: Option<AttributeState>, offers: seq<Offer>)
    requires Injective(hash) && OrderIrrelevant(hash, s, offers)
    requires s.None? || Rewritable(hash, s.value, offers)
    ensures TopsAgree(hash, offers)
  {
    hide OrderIrrelevant, Ending, StateOf, Rewrites;
    forall i, j | 0 <= i < |offers| && 0 <= j < |offers| && Top(offers, i) && Top(offers, j)
      ensures StateOf(hash, offers[i]) == StateOf(hash, offers[j])
    {
      TopByIndex(offers, i);
      TopByIndex(offers, j);
      var v := TopCanWin(hash, s, offers, i);
      var w := TopCanWin(hash, s, offers, j);
      SameEndings(hash, s, offers, v);
      SameEndings(hash, s, offers, w);
    }
  }

  /** Where nothing rewrites the stored state, each of the greatest refreshers is kept in some order. */
  lemma RefresherCanStay(hash: string -> string, s: AttributeState, offers: seq<Offer>, y: Offer)
    returns (w: seq<Offer>)
    requires !Rewritable(hash, s, offers) && IsTop(Refreshers(hash, s, offers), y)
    ensures multiset(w) == multiset(offers) && Ending(hash, Some(s), w) == Some(Refreshed(s, y))
  {
    assert y in Refreshers(hash, s, offers);
    hide Rewrites, Refreshes, Refreshed;
    var i :| 0 <= i < |offers| && offers[i] == y;
    w := MoveLast(offers, i);
    MovesPermute(offers, i);
    SameElements(w, offers);
    NeverRewritten(hash, s, w);
    var kept := Refreshers(hash, s, w);
    RefreshersOneMore(hash, s, w);
    hide Refreshers, IsTop;
    LastWins(hash, kept);
  }

  lemma RefreshersMustAgree(hash: string -> string, s: AttributeState, offers: seq<Offer>)
    requires Injective(hash) && OrderIrrelevant(hash, Some(s), offers) && !Rewritable(hash, s, offers)
    ensures TopsAgree(hash, Refreshers(hash, s, offers))
  {
    var kept := Refreshers(hash, s, offers);
    hide OrderIrrelevant, Ending, StateOf, Rewrites, Refreshed, Refreshers;
    forall i, j | 0 <= i < |kept| && 0 <= j < |kept| && Top(kept, i) && Top(kept, j)
      ensures StateOf(hash, kept[i]) == StateOf(hash, kept[j])
    {
      TopByIndex(kept, i);
      TopByIndex(kept, j);
      var v := RefresherCanStay(hash, s, offers, kept[i]);
      var w := RefresherCanStay(hash, s, offers, kept[j]);
      SameEndings(hash, Some(s), offers, v);
      SameEndings(hash, Some(s), offers, w);
      assert kept[i] in kept && kept[j] in kept;
      RefreshesSame(hash, s, kept[i]);
      RefreshesSame(hash, s, kept[j]);
      RefreshedAgrees(hash, s, kept[i], kept[j]);
    }
  }

  lemma {:induction false} KeepCounts(p: Offer -> bool, offers: seq<Offer>, x: Offer)
    ensures multiset(Keep(p, offers))[x] == if p(x) then multiset(offers)[x] else 0
  {
    if offers != [] {
      var n := |offers| - 1;
      var front, o := offers[..n], offers[n];
      KeepCounts(p, front, x);
      assert offers == front + [o];
      var kept := Keep(p, front);
      assert Keep(p, offers) == if p(o) then kept + [o] else kept;
      hide Keep;
      CountSnoc(front, o, x);
      CountSnoc(kept, o, x);
    }
  }

  lemma KeepSplits(p: Offer -> bool, q: Offer -> bool, offers: seq<Offer>)
    requires forall x :: q(x) == !p(x)
    ensures multiset(Keep(p, offers) + Keep(q, offers)) == multiset(offers)
  {
    hide Keep;
    forall x ensures multiset(Keep(p, offers) + Keep(q, offers))[x] == multiset(offers)[x] {
      KeepCounts(p, offers, x);
      KeepCounts(q, offers, x);
    }
  }

  /** A state that no offer leaves stays recognisable however it is refreshed. */
  lemma HeldIsNoOffer(hash: string -> string, s: AttributeState, w: seq<Offer>, x: Offer)
    requires Injective(hash) && !Clean(hash, s)
    ensures Held(hash, s, w) != StateOf(hash, x)
  {
    hide Greatest, Refreshers;
  }

  lemma LowerIsOther(hash: string -> string, x: Offer, t: Offer)
    requires Lower(x, t)
    ensures StateOf(hash, x) != StateOf(hash, t)
  {}

  /** When none of the first offers rewrites the stored state, it is held or one of the others ends it. */
  lemma EndsBehind(hash: string -> string, s: AttributeState, front: seq<Offer>, rest: seq<Offer>) returns (x: Offer)
    requires forall y :: y in front ==> !Rewrites(hash, Some(s), y)
    ensures var e := Ending(hash, Some(s), front + rest);
            e == Some(Held(hash, s, front + rest)) || (x in rest && e == Some(StateOf(hash, x)))
  {
    hide Rewrites, Refreshes, Held, StateOf, Lower;
    var w := front + rest;
    var k := FirstOpen(hash, s, w);
    if k < |w| {
      assert k >= |front| by {
        assert forall m :: 0 <= m < |front| ==> w[m] == front[m] && front[m] in front;
      }
      var c := w[k..];
      x := c[Greatest(c)];
      assert x == rest[k + Greatest(c) - |front|];
    } else {
      assert w[k..] == [];
      x :| true;
    }
  }

  /** When no greatest offer rewrites such a state, the greatest ones can come first and change its value in vain. */
  lemma TopsFirst(hash: string -> string, s: AttributeState, offers: seq<Offer>, t: Offer) returns (w: seq<Offer>)
    requires Injective(hash) && IsTop(offers, t) && !Clean(hash, s) && !TopRewrites(hash, s, offers)
    ensures multiset(w) == multiset(offers) && Ending(hash, Some(s), w) != Some(StateOf(hash, t))
  {
    var p, q := (o: Offer) => !Lower(o, t), (o: Offer) => Lower(o, t);
    var tops, rest := Keep(p, offers), Keep(q, offers);
    w := tops + rest;
    KeepSplits(p, q, offers);
    hide Rewrites, Refreshes, Clean, Keep, Held, StateOf;
    forall x | x in tops ensures !Rewrites(hash, Some(s), x) { TiesTop(offers, t, x); }
    hide Lower, IsTop, Ending;
    var x := EndsBehind(hash, s, tops, rest);
    if Ending(hash, Some(s), w) == Some(Held(hash, s, w)) {
      HeldIsNoOffer(hash, s, w, t);
    } else {
      assert q(x);
      LowerIsOther(hash, x, t);
    }
  }

  lemma ConvergentSettles(hash: string -> string, s: Option<AttributeState>, offers: seq<Offer>)
    requires Injective(hash) && OrderIrrelevant(hash, s, offers)
    ensures Settles(hash, s, offers)
  {
    hide OrderIrrelevant, TopsAgree, Clean, TopRewrites, Rewrites, Ending, IsTop, Greatest, StateOf;
    if s.Some? && !Rewritable(hash, s.value, offers) {
      RefreshersMustAgree(hash, s.value, offers);
    } else {
      RewrittenTopsAgree(hash, s, offers);
      if s.Some? && !Clean(hash, s.value) && !TopRewrites(hash, s.value, offers) {
        var i := Greatest(offers);
        GreatestTops(offers);
        var v := TopCanWin(hash, s, offers, i);
        var w := TopsFirst(hash, s.value, offers, offers[i]);
        SameEndings(hash, s, offers, v);
        SameEndings(hash, s, offers, w);
      }
    }
  }

  /** The arrival order of the offers for one path does not matter exactly when they settle, whatever is stored. */
  lemma ConvergesExactly(hash: string -> string, s: Option<AttributeState>, offers: seq<Offer>)
    requires Injective(hash)
    ensures OrderIrrelevant(hash, s, offers) <==> Settles(hash, s, offers)
  {
    if Settles(hash, s, offers) {
      hide Settles, Fold, Ending;
      forall w: seq<Offer> | multiset(w) == multiset(offers) ensures Fold(hash, s, w) == Fold(hash, s, offers) {
        SameElements(w, offers);
        SettledEnds(hash, s, offers, w);
        EndingHolds(hash, s, w);
        EndingHolds(hash, s, offers);
      }
    }
    hide Settles, Fold, Ending;
    if OrderIrrelevant(hash, s, offers) { ConvergentSettles(hash, s, offers); }
  }

  /** Over the state that some offer left: the greatest offers agree, or all are below it. */
  lemma StoredOfferSettles(hash: string -> string, o: Offer, offers: seq<Offer>)
    requires Injective(hash)
    ensures Settles(hash, Some(StateOf(hash, o)), offers) <==>
            TopsAgree(hash, offers) || forall x :: x in offers ==> Lower(x, o)
  {
    var s := StateOf(hash, o);
    assert Clean(hash, s);
    forall x ensures Keeps(s, x) <==> Lower(x, o) {}
    var kept := Refreshers(hash, s, offers);
    hide Lower, Keeps, StateOf, Clean;
    if !Rewritable(hash, s, offers) {
      assert forall x :: x in kept <==> x in offers && !Lower(x, o);
      if forall x :: x in offers ==> Lower(x, o) {
        TopsAgreeByMembers(hash, kept);
      } else {
        var x :| x in offers && !Lower(x, o);
        SameTopsAgree(hash, offers, kept);
      }
    } else {
      var b :| b in offers && Rewrites(hash, Some(s), b);
    }
  }

  lemma SameTopsAgree(hash: string -> string, v: seq<Offer>, w: seq<Offer>)
    requires forall t :: IsTop(v, t) <==> IsTop(w, t)
    ensures TopsAgree(hash, v) <==> TopsAgree(hash, w)
  {
    TopsAgreeByMembers(hash, v);
    TopsAgreeByMembers(hash, w);
    hide IsTop, TopsAgree, StateOf;
  }

  lemma TopsAgreeByMembers(hash: string -> string, v: seq<Offer>)
    ensures TopsAgree(hash, v) <==>
            forall x, y :: IsTop(v, x) && IsTop(v, y) ==> StateOf(hash, x) == StateOf(hash, y)
  {
    hide StateOf, Lower;
    if TopsAgree(hash, v) {
      forall x, y | IsTop(v, x) && IsTop(v, y) ensures StateOf(hash, x) == StateOf(hash, y) {
        TopsAgreeOn(hash, v, x, y);
      }
    } else {
      var i, j :| 0 <= i < |v| && 0 <= j < |v| && Top(v, i) && Top(v, j) && StateOf(hash, v[i]) != StateOf(hash, v[j]);
      TopByIndex(v, i);
      TopByIndex(v, j);
    }
  }

  // ---------------------------------------------------------------------
  // Whole runs over interleaved paths
  // ---------------------------------------------------------------------

  /** The offers for the other paths, in order. */
  function Others(path: string, offers: seq<Offer>): seq<Offer> {
    if offers == [] then []
    else
      var n := |offers| - 1;
      Others(path, offers[..n]) + (if offers[n].path == path then [] else [offers[n]])
  }

  lemma {:induction false} ForConcat(path: string, a: seq<Offer>, b: seq<Offer>)
    ensures For(path, a + b) == For(path, a) + For(path, b)
  {
    if b == [] {
      assert a + b == a;
    } else {
      var n := |b| - 1;
      assert (a + b)[..|a + b| - 1] == a + b[..n];
      ForConcat(path, a, b[..n]);
    }
  }

  /** How often an offer for the path occurs in a run does not depend on the run's order. */
  lemma {:induction false} ForCounts(path: string, offers: seq<Offer>, x: Offer)
    ensures multiset(For(path, offers))[x] == if x.path == path then multiset(offers)[x] else 0
  {
    if offers != [] {
      var n := |offers| - 1;
      var front, o := offers[..n], offers[n];
      ForCounts(path, front, x);
      assert offers == front + [o];
      var f := For(path, front);
      assert For(path, offers) == if o.path == path then f + [o] else f;
      hide For;
      CountSnoc(front, o, x);
      CountSnoc(f, o, x);
    }
  }

  lemma {:induction false} OthersCount(path: string, offers: seq<Offer>, x: Offer)
    ensures multiset(Others(path, offers))[x] == if x.path == path then 0 else multiset(offers)[x]
  {
    if offers != [] {
      var n := |offers| - 1;
      var front, o := offers[..n], offers[n];
      OthersCount(path, front, x);
      assert offers == front + [o];
      var f := Others(path, front);
      assert Others(path, offers) == if o.path != path then f + [o] else f;
      hide Others;
      CountSnoc(front, o, x);
      CountSnoc(f, o, x);
    }
  }

  lemma {:induction false} ForOthers(path: string, offers: seq<Offer>)
    ensures For(path, Others(path, offers)) == []
  {
    if offers != [] {
      var n := |offers| - 1;
      ForOthers(path, offers[..n]);
      if offers[n].path != path {
        ForConcat(path, Others(path, offers[..n]), [offers[n]]);
      } else {
        assert Others(path, offers) == Others(path, offers[..n]);
      }
    }
  }

  lemma SplitByPath(path: string, offers: seq<Offer>)
    ensures multiset(offers) == multiset(Others(path, offers)) + multiset(For(path, offers))
  {
    hide For, Others;
    forall x ensures multiset(offers)[x] == (multiset(Others(path, offers)) + multiset(For(path, offers)))[x] {
      ForCounts(path, offers, x);
      OthersCount(path, offers, x);
    }
  }

  lemma ForHolds(path: string, offers: seq<Offer>)
    ensures forall x :: x in For(path, offers) <==> x in offers && x.path == path
  {
    hide For;
    forall x ensures x in For(path, offers) <==> x in offers && x.path == path {
      ForCounts(path, offers, x);
      assert x in For(path, offers) <==> x in multiset(For(path, offers));
      assert x in offers <==> x in multiset(offers);
    }
  }

  lemma ForPermutes(path: string, v: seq<Offer>, w: seq<Offer>)
    requires multiset(v) == multiset(w)
    ensures multiset(For(path, v)) == multiset(For(path, w))
  {
    forall x ensures multiset(For(path, v))[x] == multiset(For(path, w))[x] {
      ForCounts(path, v, x);
      ForCounts(path, w, x);
    }
  }

  ghost predicate PathsSettle(hash: string -> string, asset: Asset, offers: seq<Offer>) {
    forall path :: Settles(hash, Get(asset.state, path), For(path, offers))
  }

  /** After any run over any tables, each path holds the ending of its own offers. */
  lemma RunHoldsEndings(hash: string -> string, rec: bool, asset: Asset, offers: seq<Offer>, path: string)
    requires Injective(hash)
    ensures Get(ApplyAll(hash, rec, asset, offers).asset.state, path)
            == Ending(hash, Get(asset.state, path), For(path, offers))
  {
    PathsAreIndependent(hash, rec, asset, offers, path);
    EndingHolds(hash, Get(asset.state, path), For(path, offers));
  }

  ghost predicate RunsConverge(hash: string -> string, rec: bool, asset: Asset, offers: seq<Offer>) {
    forall w: seq<Offer> :: multiset(w) == multiset(offers) ==>
      ApplyAll(hash, rec, asset, w).asset.state == ApplyAll(hash, rec, asset, offers).asset.state
  }

  lemma SameGet(s: map<string, AttributeState>, t: map<string, AttributeState>)
    requires forall path :: Get(s, path) == Get(t, path)
    ensures s == t
  {
    forall p ensures p in s <==> p in t { assert Get(s, p) == Get(t, p); }
    forall p | p in s ensures s[p] == t[p] { assert Get(s, p) == Get(t, p); }
  }

  /** The offers of one path can be rearranged without touching the others. */
  lemma RearrangePath(path: string, offers: seq<Offer>, g: seq<Offer>) returns (w: seq<Offer>)
    requires multiset(g) == multiset(For(path, offers))
    ensures multiset(w) == multiset(offers) && For(path, w) == g
  {
    var others := Others(path, offers);
    w := others + g;
    SplitByPath(path, offers);
    ForHolds(path, offers);
    SameElements(g, For(path, offers));
    AllFor(g, path);
    ForOthers(path, offers);
    ForConcat(path, others, g);
    hide For, Others;
    assert [] + g == g;
  }

  lemma SettledPathConverges(hash: string -> string, rec: bool, asset: Asset, offers: seq<Offer>, w: seq<Offer>,
                             path: string)
    requires Injective(hash) && multiset(w) == multiset(offers)
    requires Settles(hash, Get(asset.state, path), For(path, offers))
    ensures Get(ApplyAll(hash, rec, asset, w).asset.state, path)
            == Get(ApplyAll(hash, rec, asset, offers).asset.state, path)
  {
    RunHoldsEndings(hash, rec, asset, w, path);
    RunHoldsEndings(hash, rec, asset, offers, path);
    ForPermutes(path, w, offers);
    hide ApplyAll, For, Settles, Ending;
    SameElements(For(path, offers), For(path, w));
    SettledEnds(hash, Get(asset.state, path), For(path, offers), For(path, w));
  }

  lemma ConvergentPathSettles(hash: string -> string, rec: bool, asset: Asset, offers: seq<Offer>, path: string)
    requires Injective(hash) && RunsConverge(hash, rec, asset, offers)
    ensures Settles(hash, Get(asset.state, path), For(path, offers))
  {
    var f, s := For(path, offers), Get(asset.state, path);
    hide For, Fold, ApplyAll, Settles;
    forall g: seq<Offer> | multiset(g) == multiset(f) ensures Fold(hash, s, g) == Fold(hash, s, f) {
      var w := RearrangePath(path, offers, g);
      PathsAreIndependent(hash, rec, asset, w, path);
      PathsAreIndependent(hash, rec, asset, offers, path);
    }
    ConvergentSettles(hash, s, f);
  }

  /** The order of a whole run, over interleaved paths and any stored states, does not matter exactly when the offers of
      each path settle. */
  lemma RunsConvergeExactly(hash: string -> string, rec: bool, asset: Asset, offers: seq<Offer>)
    requires Injective(hash)
    ensures RunsConverge(hash, rec, asset, offers) <==> PathsSettle(hash, asset, offers)
  {
    hide Settles;
    if PathsSettle(hash, asset, offers) {
      forall w: seq<Offer> | multiset(w) == multiset(offers)
        ensures ApplyAll(hash, rec, asset, w).asset.state == ApplyAll(hash, rec, asset, offers).asset.state
      {
        var s, t := ApplyAll(hash, rec, asset, w).asset.state, ApplyAll(hash, rec, asset, offers).asset.state;
        forall path ensures Get(s, path) == Get(t, path) {
          SettledPathConverges(hash, rec, asset, offers, w, path);
        }
        SameGet(s, t);
      }
    }
    if RunsConverge(hash, rec, asset, offers) {
      forall path ensures Settles(hash, Get(asset.state, path), For(path, offers)) {
        ConvergentPathSettles(hash, rec, asset, offers, path);
      }
    }
  }

  lemma {:induction false} AllFor(offers: seq<Offer>, path: string)
    requires forall k :: 0 <= k < |offers| ==> offers[k].path == path
    ensures For(path, offers) == offers
  {
    if offers != [] {
      var n := |offers| - 1;
      AllFor(offers[..n], path);
      assert offers == offers[..n] + [offers[n]];
    }
  }

  // ---------------------------------------------------------------------
  // Offers that never tie
  // ---------------------------------------------------------------------

  /** Offers for one path never tie. */
  predicate KeysDiffer(offers: seq<Offer>) {
    forall i, j :: 0 <= i < j < |offers| && offers[i].path == offers[j].path ==>
      Lower(offers[i], offers[j]) || Lower(offers[j], offers[i])
  }

  lemma MembersDiffer(offers: seq<Offer>, x: Offer, y: Offer)
    requires KeysDiffer(offers) && x in offers && y in offers && x.path == y.path
    ensures x == y || Lower(x, y) || Lower(y, x)
  {
    hide Lower;
    var i :| 0 <= i < |offers| && offers[i] == x;
    var j :| 0 <= j < |offers| && offers[j] == y;
  }

  lemma OnlyOneTop(hash: string -> string, path: string, offers: seq<Offer>, kept: seq<Offer>)
    requires KeysDiffer(offers) && forall x :: x in kept ==> x in offers && x.path == path
    ensures TopsAgree(hash, kept)
  {
    hide Lower, StateOf, KeysDiffer;
    forall x, y | IsTop(kept, x) && IsTop(kept, y) ensures x == y { MembersDiffer(offers, x, y); }
    TopsAgreeByMembers(hash, kept);
  }

  /** The path is open to its greatest offer: whatever could rewrite its stored state, that one does, unless the stored
      state is one that offers leave. */
  predicate OpenToTop(hash: string -> string, s: Option<AttributeState>, offers: seq<Offer>) {
    s.Some? && !Clean(hash, s.value) && Rewritable(hash, s.value, offers) ==> TopRewrites(hash, s.value, offers)
  }

  /** Offers with pairwise different keys per path: the order of a run does not matter exactly when each path is open
      to its greatest offer, so always over states that offers left; on a locked path it can. */
  lemma DistinctKeysConverge(hash: string -> string, rec: bool, asset: Asset, offers: seq<Offer>)
    requires Injective(hash) && KeysDiffer(offers)
    ensures RunsConverge(hash, rec, asset, offers) <==>
            forall path :: OpenToTop(hash, Get(asset.state, path), For(path, offers))
  {
    hide Clean, Rewritable, TopRewrites, TopsAgree, KeysDiffer, For, Refreshers, RunsConverge;
    forall path
      ensures Settles(hash, Get(asset.state, path), For(path, offers)) <==>
              OpenToTop(hash, Get(asset.state, path), For(path, offers))
    {
      var s, f := Get(asset.state, path), For(path, offers);
      ForHolds(path, offers);
      OnlyOneTop(hash, path, offers, f);
      if s.Some? { OnlyOneTop(hash, path, offers, Refreshers(hash, s.value, f)); }
    }
    hide Settles, OpenToTop;
    RunsConvergeExactly(hash, rec, asset, offers);
  }

  lemma OtherValueOtherState(hash: string -> string, x: Offer, y: Offer)
    requires x.value != y.value
    ensures StateOf(hash, x) != StateOf(hash, y)
  {}

  lemma ConvergentPair(hash: string -> string, rec: bool, asset: Asset, offers: seq<Offer>, w: seq<Offer>)
    requires RunsConverge(hash, rec, asset, offers) && multiset(w) == multiset(offers)
    ensures ApplyAll(hash, rec, asset, w).asset.state == ApplyAll(hash, rec, asset, offers).asset.state
  {}

  lemma TwoOffersDiverge(hash: string -> string, rec: bool, asset: Asset, x: Offer, y: Offer)
    requires Get(ApplyAll(hash, rec, asset, [x, y]).asset.state, x.path)
          != Get(ApplyAll(hash, rec, asset, [y, x]).asset.state, x.path)
    ensures !RunsConverge(hash, rec, asset, [x, y])
  {
    var xy: seq<Offer>, yx: seq<Offer> := [x, y], [y, x];
    assert multiset(yx) == multiset(xy);
    hide *;
    if RunsConverge(hash, rec, asset, xy) { ConvergentPair(hash, rec, asset, xy, yx); }
  }

  lemma TwoOffers(hash: string -> string, rec: bool, asset: Asset, x: Offer, y: Offer)
    requires x.path == y.path
    ensures Get(ApplyAll(hash, rec, asset, [x, y]).asset.state, x.path)
            == Some(NextState(hash, Some(NextState(hash, Get(asset.state, x.path), x)), y))
  {
    PathsAreIndependent(hash, rec, asset, [x, y], x.path);
    AllFor([x, y], x.path);
    var s := Get(asset.state, x.path);
    assert Fold(hash, s, []) == s;
    hide *;
    assert [] + [x] == [x] && [x] + [y] == [x, y];
  }

  /** Two sources that tie on precedence, time and confidence but differ in the value: the later one wins, in either
      order. */
  lemma TiedOffersDependOnOrder(hash: string -> string, rec: bool, asset: Asset)
    requires Injective(hash) && "identity.name" !in asset.state
    ensures var x := Offer("identity.name", "alpha", "c1", "s1", 50, false, 7, 90.0);
            var y := Offer("identity.name", "beta", "c2", "s2", 50, false, 7, 90.0);
            && Get(ApplyAll(hash, rec, asset, [x, y]).asset.state, "identity.name") == Some(StateOf(hash, y))
            && Get(ApplyAll(hash, rec, asset, [y, x]).asset.state, "identity.name") == Some(StateOf(hash, x))
            && !RunsConverge(hash, rec, asset, [x, y])
  {
    var x := Offer("identity.name", "alpha", "c1", "s1", 50, false, 7, 90.0);
    var y := Offer("identity.name", "beta", "c2", "s2", 50, false, 7, 90.0);
    TwoOffers(hash, rec, asset, x, y);
    TwoOffers(hash, rec, asset, y, x);
    assert !Lower(x, y) && !Lower(y, x);
    OtherValueOtherState(hash, x, y);
    hide ApplyAll, RunsConverge, StateOf, Lower;
    TwoOffersDiverge(hash, rec, asset, x, y);
  }

  /** A locked value and two offers with different keys, of which the greater may not override the lock: the one
      processed last wins, in either order. */
  lemma LockedPathDependsOnOrder(hash: string -> string, rec: bool, asset: Asset)
    requires Injective(hash) && "identity.name" in asset.state
    requires var s := asset.state["identity.name"];
             s.manualLock && s.precedence == 10 && s.effectiveHash != hash("beta")
    ensures var x := Offer("identity.name", "alpha", "c1", "s1", 30, false, 7, 90.0);
            var y := Offer("identity.name", "beta", "c2", "s2", 20, true, 7, 90.0);
            && Get(ApplyAll(hash, rec, asset, [x, y]).asset.state, "identity.name") == Some(StateOf(hash, y))
            && Get(ApplyAll(hash, rec, asset, [y, x]).asset.state, "identity.name") == Some(StateOf(hash, x))
            && KeysDiffer([x, y]) && !RunsConverge(hash, rec, asset, [x, y])
  {
    var x := Offer("identity.name", "alpha", "c1", "s1", 30, false, 7, 90.0);
    var y := Offer("identity.name", "beta", "c2", "s2", 20, true, 7, 90.0);
    TwoOffers(hash, rec, asset, x, y);
    TwoOffers(hash, rec, asset, y, x);
    var s := asset.state["identity.name"];
    assert NextState(hash, Some(s), x) == s && NextState(hash, Some(s), y) == StateOf(hash, y);
    assert Lower(y, x) && !Lower(x, y);
    OtherValueOtherState(hash, x, y);
    hide ApplyAll, RunsConverge, StateOf, Lower;
    TwoOffersDiverge(hash, rec, asset, x, y);
  }
}
