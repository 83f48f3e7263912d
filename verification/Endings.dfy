/** What a path holds after its attribute offers, whatever state was stored
    (src/server/services/cmdb-precedence.service.ts). */
module Endings {
  import opened Precedence
  import opened Wrappers

  // ---------------------------------------------------------------------
  // The greatest offer
  // ---------------------------------------------------------------------

  /** The lexicographic order of (precedence, observedAt, confidence). */
  predicate Lower(x: Offer, y: Offer) {
    || x.precedence < y.precedence
    || (x.precedence == y.precedence
        && (x.observedAt < y.observedAt || (x.observedAt == y.observedAt && x.confidence < y.confidence)))
  }

  predicate Top(offers: seq<Offer>, i: nat) {
    i < |offers| && forall j :: 0 <= j < |offers| ==> !Lower(offers[i], offers[j])
  }

  /** The greatest offer, the last one among ties. */
  predicate Winner(offers: seq<Offer>, i: nat) {
    Top(offers, i) && forall j :: i < j < |offers| ==> Lower(offers[j], offers[i])
  }

  function Greatest(offers: seq<Offer>): (i: nat)
    requires offers != []
    ensures Winner(offers, i)
  {
    var n := |offers| - 1;
    if n == 0 then 0
    else
      var front := offers[..n];
      var i := Greatest(front);
      if Lower(offers[n], offers[i]) then i else n
  }

  lemma NoLaterWinner(offers: seq<Offer>, i: nat, j: nat)
    requires Winner(offers, i) && Winner(offers, j)
    ensures j <= i
  {
    hide Lower;
    assert !Lower(offers[j], offers[i]);
    assert forall k :: i < k < |offers| ==> Lower(offers[k], offers[i]);
  }

  lemma WinnerIsUnique(offers: seq<Offer>, i: nat, j: nat)
    requires Winner(offers, i) && Winner(offers, j)
    ensures i == j
  {
    NoLaterWinner(offers, i, j);
    NoLaterWinner(offers, j, i);
  }

  lemma LowerIsWeak(x: Offer, y: Offer, z: Offer)
    requires Lower(x, z) && !Lower(y, z)
    ensures Lower(x, y)
  {}

  /** Any two greatest offers would leave the same state. */
  predicate TopsAgree(hash: string -> string, offers: seq<Offer>) {
    forall i, j :: 0 <= i < |offers| && 0 <= j < |offers| && Top(offers, i) && Top(offers, j)
                   ==> StateOf(hash, offers[i]) == StateOf(hash, offers[j])
  }

  ghost predicate SameOffers(v: seq<Offer>, w: seq<Offer>) { forall x :: x in v <==> x in w }

  /** No offer is greater than this one. */
  predicate IsTop(offers: seq<Offer>, x: Offer) { x in offers && forall y :: y in offers ==> !Lower(x, y) }

  lemma TopByIndex(offers: seq<Offer>, i: nat)
    requires i < |offers|
    ensures Top(offers, i) <==> IsTop(offers, offers[i])
  {
    hide Lower;
    if Top(offers, i) {
      forall y | y in offers ensures !Lower(offers[i], y) { var j :| 0 <= j < |offers| && offers[j] == y; }
    }
  }

  lemma TopsAgreeOn(hash: string -> string, offers: seq<Offer>, x: Offer, y: Offer)
    requires TopsAgree(hash, offers) && IsTop(offers, x) && IsTop(offers, y)
    ensures StateOf(hash, x) == StateOf(hash, y)
  {
    assert x in offers && y in offers;
    hide Lower, StateOf, Top, IsTop;
    var i :| 0 <= i < |offers| && offers[i] == x;
    var j :| 0 <= j < |offers| && offers[j] == y;
    TopByIndex(offers, i);
    TopByIndex(offers, j);
  }

  lemma GreatestTops(offers: seq<Offer>)
    requires offers != []
    ensures IsTop(offers, offers[Greatest(offers)])
  {
    TopByIndex(offers, Greatest(offers));
  }

  /** What is not below a greatest offer is one as well. */
  lemma TiesTop(offers: seq<Offer>, t: Offer, x: Offer)
    requires IsTop(offers, t) && x in offers && !Lower(x, t)
    ensures IsTop(offers, x)
  {
    forall y | y in offers ensures !Lower(x, y) { if Lower(x, y) { LowerIsWeak(x, t, y); } }
  }

  // ---------------------------------------------------------------------
  // What a path holds after its offers
  // ---------------------------------------------------------------------

  /** Accepted, with the value that is stored already. */
  predicate Refreshes(hash: string -> string, s: AttributeState, o: Offer) {
    !Keeps(s, o) && s.effectiveHash == hash(o.value)
  }

  function Keep(p: Offer -> bool, offers: seq<Offer>): (kept: seq<Offer>)
    ensures forall x :: x in kept <==> x in offers && p(x)
  {
    if offers == [] then []
    else
      var n := |offers| - 1;
      assert offers == offers[..n] + [offers[n]];
      Keep(p, offers[..n]) + (if p(offers[n]) then [offers[n]] else [])
  }

  function Refreshers(hash: string -> string, s: AttributeState, offers: seq<Offer>): (kept: seq<Offer>)
    ensures forall x :: x in kept <==> x in offers && Refreshes(hash, s, x)
  {
    Keep(o => Refreshes(hash, s, o), offers)
  }

  lemma RefreshersOneMore(hash: string -> string, s: AttributeState, offers: seq<Offer>)
    requires offers != []
    ensures var n := |offers| - 1;
            Refreshers(hash, s, offers)
            == Refreshers(hash, s, offers[..n]) + (if Refreshes(hash, s, offers[n]) then [offers[n]] else [])
  {}

  /** The i-th offer rewrites the stored value unless another did before: it reaches the stored state and everything
      that refreshed it. */
  predicate Opens(hash: string -> string, s: AttributeState, offers: seq<Offer>, i: nat) {
    && i < |offers| && Rewrites(hash, Some(s), offers[i])
    && forall j :: 0 <= j < i && Refreshes(hash, s, offers[j]) ==> !Lower(offers[i], offers[j])
  }

  function FirstOpen(hash: string -> string, s: AttributeState, offers: seq<Offer>): (k: nat)
    ensures k <= |offers| && (k < |offers| ==> Opens(hash, s, offers, k))
    ensures forall i: nat :: i < k ==> !Opens(hash, s, offers, i)
  {
    if offers == [] then 0
    else
      var n := |offers| - 1;
      var k := FirstOpen(hash, s, offers[..n]);
      assert forall i: nat :: i < n ==> (Opens(hash, s, offers[..n], i) <==> Opens(hash, s, offers, i));
      if k < n then k else if Opens(hash, s, offers, n) then n else n + 1
  }

  /** The offers from the first on that rewrites the stored value. */
  function Counted(hash: string -> string, s: Option<AttributeState>, offers: seq<Offer>): seq<Offer> {
    match s
    case None => offers
    case Some(cur) => offers[FirstOpen(hash, cur, offers)..]
  }

  /** The stored state with the greatest offer that refreshed it. */
  function Held(hash: string -> string, s: AttributeState, offers: seq<Offer>): AttributeState {
    var kept := Refreshers(hash, s, offers);
    if kept == [] then s else Refreshed(s, kept[Greatest(kept)])
  }

  /** What a path holds in the end: the greatest of the counted offers, or else what was stored, refreshed. */
  function Ending(hash: string -> string, s: Option<AttributeState>, offers: seq<Offer>): Option<AttributeState> {
    var counted := Counted(hash, s, offers);
    if counted != [] then Some(StateOf(hash, counted[Greatest(counted)]))
    else match s
      case None => None
      case Some(cur) => Some(Held(hash, cur, offers))
  }

  lemma OfferAgainstRefreshed(hash: string -> string, s: AttributeState, y: Offer, o: Offer)
    requires Refreshes(hash, s, y)
    ensures NextState(hash, Some(Refreshed(s, y)), o)
            == if Lower(o, y) then Refreshed(s, y)
               else if Refreshes(hash, s, o) then Refreshed(s, o)
               else if Rewrites(hash, Some(s), o) then StateOf(hash, o) else Refreshed(s, y)
  {}

  lemma GreatestOneMore(front: seq<Offer>, o: Offer)
    requires front != []
    ensures var f := front + [o];
            f[Greatest(f)] == if Lower(o, front[Greatest(front)]) then front[Greatest(front)] else o
  {
    assert (front + [o])[..|front|] == front;
    hide Lower;
  }

  /** Without stored state, the greatest offer wins, the last one among ties. */
  lemma {:induction false} GreatestHolds(hash: string -> string, offers: seq<Offer>)
    requires Injective(hash) && offers != []
    ensures Fold(hash, None, offers) == Some(StateOf(hash, offers[Greatest(offers)]))
  {
    var n := |offers| - 1;
    var front, o := offers[..n], offers[n];
    assert offers == front + [o];
    if n == 0 {
      assert Fold(hash, None, front) == None;
    } else {
      GreatestHolds(hash, front);
      hide Lower, StateOf, NextState, Greatest;
      GreatestOneMore(front, o);
    }
  }

  predicate NoneOpens(hash: string -> string, s: AttributeState, offers: seq<Offer>) {
    forall i: nat :: i < |offers| ==> !Opens(hash, s, offers, i)
  }

  lemma NoneOpensFront(hash: string -> string, s: AttributeState, offers: seq<Offer>, n: nat)
    requires n <= |offers| && forall i: nat :: i < n ==> !Opens(hash, s, offers, i)
    ensures NoneOpens(hash, s, offers[..n])
  {
    hide Refreshes, Rewrites, Lower;
    var front := offers[..n];
    forall i: nat | i < n ensures !Opens(hash, s, front, i) {
      assert !Opens(hash, s, offers, i);
      assert forall j :: 0 <= j <= i ==> front[j] == offers[j];
    }
  }

  /** As long as nothing rewrites it, a stored state is held. */
  lemma {:induction false} HeldHolds(hash: string -> string, s: AttributeState, offers: seq<Offer>)
    requires NoneOpens(hash, s, offers)
    ensures Fold(hash, Some(s), offers) == Some(Held(hash, s, offers))
  {
    if offers != [] {
      var n := |offers| - 1;
      var front, o := offers[..n], offers[n];
      NoneOpensFront(hash, s, offers, n);
      HeldHolds(hash, s, front);
      RefreshersOneMore(hash, s, offers);
      assert !Opens(hash, s, offers, n);
      assert offers == front + [o];
      hide Held, Opens, NextState;
      HeldStep(hash, s, front, o);
    }
  }

  /** An offer reaches past the greatest refresher when it reaches past each of them. */
  lemma OpensPast(hash: string -> string, s: AttributeState, front: seq<Offer>, o: Offer, y: Offer)
    requires Rewrites(hash, Some(s), o) && !Lower(o, y) && IsTop(Refreshers(hash, s, front), y)
    ensures Opens(hash, s, front + [o], |front|)
  {
    var f, kept := front + [o], Refreshers(hash, s, front);
    hide Rewrites, Refreshes, Lower, Refreshers;
    forall j | 0 <= j < |front| && Refreshes(hash, s, f[j]) ensures !Lower(o, f[j]) {
      assert f[j] in kept;
      if Lower(o, f[j]) { LowerIsWeak(o, y, f[j]); }
    }
  }

  lemma HeldFirst(hash: string -> string, s: AttributeState, front: seq<Offer>, o: Offer)
    requires !Opens(hash, s, front + [o], |front|) && Refreshers(hash, s, front) == []
    ensures NextState(hash, Some(s), o) == Held(hash, s, front + [o])
  {
    var f := front + [o];
    assert f[..|front|] == front;
    RefreshersOneMore(hash, s, f);
    hide Opens, Refreshers, Lower;
    assert [o][Greatest([o])] == o;
  }

  lemma HeldMore(hash: string -> string, s: AttributeState, front: seq<Offer>, o: Offer)
    requires !Opens(hash, s, front + [o], |front|) && Refreshers(hash, s, front) != []
    ensures NextState(hash, Some(Held(hash, s, front)), o) == Held(hash, s, front + [o])
  {
    hide Lower, Keeps, StateOf, Refreshed, Refreshes, Rewrites, NextState, Greatest, Opens, Refreshers, Keep;
    var f := front + [o];
    var kept := Refreshers(hash, s, front);
    var y := kept[Greatest(kept)];
    assert f[..|front|] == front;
    RefreshersOneMore(hash, s, f);
    assert kept + [] == kept && f[|front|] == o;
    GreatestTops(kept);
    assert y in kept;
    OfferAgainstRefreshed(hash, s, y, o);
    GreatestOneMore(kept, o);
    if Rewrites(hash, Some(s), o) && !Lower(o, y) { OpensPast(hash, s, front, o, y); }
  }

  lemma HeldStep(hash: string -> string, s: AttributeState, front: seq<Offer>, o: Offer)
    requires !Opens(hash, s, front + [o], |front|)
    ensures NextState(hash, Some(Held(hash, s, front)), o) == Held(hash, s, front + [o])
  {
    hide Lower, NextState, Opens, Refreshers, Greatest;
    if Refreshers(hash, s, front) == [] { HeldFirst(hash, s, front, o); } else { HeldMore(hash, s, front, o); }
  }

  lemma {:induction false} FoldSplit(hash: string -> string, s: Option<AttributeState>, a: seq<Offer>, b: seq<Offer>)
    ensures Fold(hash, s, a + b) == Fold(hash, Fold(hash, s, a), b)
  {
    if b == [] {
      assert a + b == a;
    } else {
      var n := |b| - 1;
      FoldSplit(hash, s, a, b[..n]);
      assert a + b == (a + b[..n]) + [b[n]] && b == b[..n] + [b[n]];
      hide Fold;
    }
  }

  /** The first offer that rewrites the stored value leaves its own state, whatever was stored. */
  lemma OpeningRewrites(hash: string -> string, s: AttributeState, offers: seq<Offer>, k: nat)
    requires k < |offers| && Opens(hash, s, offers, k)
    ensures NextState(hash, Some(Held(hash, s, offers[..k])), offers[k]) == StateOf(hash, offers[k])
  {
    var front, o := offers[..k], offers[k];
    var kept := Refreshers(hash, s, front);
    if kept != [] {
      var y := kept[Greatest(kept)];
      assert y in kept;
      var j :| 0 <= j < k && front[j] == y;
      assert offers[j] == y;
      OfferAgainstRefreshed(hash, s, y, o);
    }
  }

  lemma FoldFromFirst(hash: string -> string, s: Option<AttributeState>, offers: seq<Offer>)
    requires offers != [] && NextState(hash, s, offers[0]) == StateOf(hash, offers[0])
    ensures Fold(hash, s, offers) == Fold(hash, None, offers)
  {
    var first, rest := offers[..1], offers[1..];
    assert offers == first + rest;
    assert first == [] + [offers[0]];
    FoldSplit(hash, s, first, rest);
    FoldSplit(hash, None, first, rest);
  }

  /** After any offers, whatever was stored, locked or not, a path holds its ending. */
  lemma EndingHolds(hash: string -> string, s: Option<AttributeState>, offers: seq<Offer>)
    requires Injective(hash)
    ensures Fold(hash, s, offers) == Ending(hash, s, offers)
  {
    hide Held, NextState, StateOf, Opens, Greatest;
    match s
    case None =>
      if offers != [] { GreatestHolds(hash, offers); }
    case Some(cur) =>
      var k := FirstOpen(hash, cur, offers);
      NoneOpensFront(hash, cur, offers, k);
      HeldHolds(hash, cur, offers[..k]);
      assert offers == offers[..k] + offers[k..];
      FoldSplit(hash, s, offers[..k], offers[k..]);
      if k < |offers| {
        OpeningRewrites(hash, cur, offers, k);
        hide Fold;
        FoldFromFirst(hash, Some(Held(hash, cur, offers[..k])), offers[k..]);
        GreatestHolds(hash, offers[k..]);
      } else {
        assert offers[..k] == offers && offers[k..] == [];
      }
  }
}
