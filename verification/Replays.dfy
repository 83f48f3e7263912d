/** When a run of attribute offers can be replayed without effect, whatever state is stored
    (src/server/services/cmdb-precedence.service.ts). */
module Replays {
  import opened Convergence
  import opened Endings
  import opened Precedence
  import opened Wrappers

  /** Replaying any offers of a run, in any order and number, changes nothing and reports nothing. */
  ghost predicate ReplaysIdle(hash: string -> string, after: Asset, offers: seq<Offer>) {
    forall again: seq<Offer>, rec: bool :: (forall x :: x in again ==> x in offers) ==>
      ApplyAll(hash, rec, after, again) == Outcome(after, [])
  }

  /** The offer leaves this state as it is. */
  predicate Stands(hash: string -> string, r: AttributeState, x: Offer) {
    Keeps(r, x) || (r.effectiveHash == hash(x.value) && Refreshed(r, x) == r)
  }

  lemma StandsIsIdle(hash: string -> string, rec: bool, asset: Asset, x: Offer)
    ensures Apply(hash, rec, asset, x) == Applied(asset, None) <==>
            x.path in asset.state && Stands(hash, asset.state[x.path], x)
  {
    hide ColumnOf, Refreshed, StateOf;
    if x.path in asset.state {
      var r := asset.state[x.path];
      var n := NextState(hash, Some(r), x);
      assert asset.state[x.path := n] == asset.state <==> n == r by {
        assert asset.state[x.path := n][x.path] == n;
      }
    }
  }

  ghost predicate AllStand(hash: string -> string, after: Asset, offers: seq<Offer>) {
    forall x :: x in offers ==> x.path in after.state && Stands(hash, after.state[x.path], x)
  }

  lemma {:induction false} StandingStays(hash: string -> string, rec: bool, after: Asset, offers: seq<Offer>,
                                         again: seq<Offer>)
    requires AllStand(hash, after, offers) && forall x :: x in again ==> x in offers
    ensures ApplyAll(hash, rec, after, again) == Outcome(after, [])
  {
    if again != [] {
      var n := |again| - 1;
      assert again[n] in again;
      StandingStays(hash, rec, after, offers, again[..n]);
      StandsIsIdle(hash, rec, after, again[n]);
      hide Apply, Stands;
    }
  }

  lemma ReplaysStand(hash: string -> string, after: Asset, offers: seq<Offer>)
    ensures ReplaysIdle(hash, after, offers) <==> AllStand(hash, after, offers)
  {
    hide Stands, Apply, ApplyAll;
    if ReplaysIdle(hash, after, offers) {
      forall x | x in offers ensures x.path in after.state && Stands(hash, after.state[x.path], x) {
        assert ApplyAll(hash, false, after, [x]) == Outcome(after, []);
        ApplyOneMore(hash, false, after, [], x);
        assert [] + [x] == [x];
        StandsIsIdle(hash, false, after, x);
      }
    }
    if AllStand(hash, after, offers) {
      forall again: seq<Offer>, rec: bool | forall x :: x in again ==> x in offers
        ensures ApplyAll(hash, rec, after, again) == Outcome(after, [])
      {
        StandingStays(hash, rec, after, offers, again);
      }
    }
  }

  /** The condition under which replays are idle. When offers are counted, the greatest offers agree and one of them is
      counted. Otherwise those that refresh the stored state agree, and each offer that would rewrite it is below one
      of them. */
  predicate Rests(hash: string -> string, s: Option<AttributeState>, offers: seq<Offer>) {
    var counted := Counted(hash, s, offers);
    if counted != [] then TopsAgree(hash, offers) && exists x :: x in counted && IsTop(offers, x)
    else match s
      case None => true
      case Some(cur) =>
        && TopsAgree(hash, Refreshers(hash, cur, offers))
        && forall x :: x in offers && Rewrites(hash, Some(cur), x) ==>
                         exists y :: y in Refreshers(hash, cur, offers) && Lower(x, y)
  }

  lemma StandsAgainstOffer(hash: string -> string, w: Offer, x: Offer)
    requires Injective(hash)
    ensures Stands(hash, StateOf(hash, w), x) <==> Lower(x, w) || StateOf(hash, x) == StateOf(hash, w)
  {}

  /** What stands against all offers is a greatest one that the others agree with. */
  lemma TopStands(hash: string -> string, offers: seq<Offer>, w: Offer)
    requires w in offers
    ensures (forall x :: x in offers ==> Lower(x, w) || StateOf(hash, x) == StateOf(hash, w)) <==>
            IsTop(offers, w) && TopsAgree(hash, offers)
  {
    if forall x :: x in offers ==> Lower(x, w) || StateOf(hash, x) == StateOf(hash, w) {
      forall y | y in offers ensures !Lower(w, y) {
        if Lower(w, y) { LowerIsOther(hash, w, y); }
      }
      TopsAgreeByMembers(hash, offers);
    }
    if IsTop(offers, w) && TopsAgree(hash, offers) {
      forall x | x in offers ensures Lower(x, w) || StateOf(hash, x) == StateOf(hash, w) {
        if !Lower(x, w) {
          TiesTop(offers, w, x);
          TopsAgreeOn(hash, offers, x, w);
        }
      }
    }
  }

  ghost predicate AllStandOn(hash: string -> string, r: AttributeState, offers: seq<Offer>) {
    forall x :: x in offers ==> Stands(hash, r, x)
  }

  lemma CountedRests(hash: string -> string, s: Option<AttributeState>, offers: seq<Offer>)
    requires Injective(hash) && Counted(hash, s, offers) != []
    ensures AllStandOn(hash, Ending(hash, s, offers).value, offers) <==> Rests(hash, s, offers)
  {
    var c := Counted(hash, s, offers);
    var w := c[Greatest(c)];
    GreatestTops(c);
    assert forall x :: x in c ==> x in offers;
    forall x ensures Stands(hash, StateOf(hash, w), x) <==> Lower(x, w) || StateOf(hash, x) == StateOf(hash, w) {
      StandsAgainstOffer(hash, w, x);
    }
    hide Stands, Lower, StateOf, Counted, TopsAgree;
    TopStands(hash, offers, w);
    if x :| x in c && IsTop(offers, x) { TiesTop(offers, x, w); }
    assert IsTop(offers, w) <==> exists x :: x in c && IsTop(offers, x);
  }

  lemma UntouchedStands(hash: string -> string, s: AttributeState, offers: seq<Offer>)
    requires NoneOpens(hash, s, offers) && Refreshers(hash, s, offers) == []
    ensures forall x :: x in offers ==> !Rewrites(hash, Some(s), x) && Stands(hash, s, x)
  {
    forall x | x in offers ensures !Rewrites(hash, Some(s), x) && Keeps(s, x) {
      var i :| 0 <= i < |offers| && offers[i] == x;
      assert x !in Refreshers(hash, s, offers);
      hide Lower, Keeps;
      assert forall j :: 0 <= j < i ==> !Refreshes(hash, s, offers[j]) by {
        forall j | 0 <= j < i ensures !Refreshes(hash, s, offers[j]) {
          assert offers[j] !in Refreshers(hash, s, offers);
        }
      }
      assert !Opens(hash, s, offers, i);
    }
  }

  lemma RefreshedRests(hash: string -> string, s: AttributeState, offers: seq<Offer>)
    requires Injective(hash) && Refreshers(hash, s, offers) != []
    ensures AllStandOn(hash, Held(hash, s, offers), offers) <==>
            && TopsAgree(hash, Refreshers(hash, s, offers))
            && forall x :: x in offers && Rewrites(hash, Some(s), x) ==>
                             exists y :: y in Refreshers(hash, s, offers) && Lower(x, y)
  {
    var kept := Refreshers(hash, s, offers);
    var y := kept[Greatest(kept)];
    GreatestTops(kept);
    assert y in kept;
    hide Stands, Lower, StateOf, Refreshers, TopsAgree, Refreshes, Rewrites, Refreshed, Greatest;
    assert Held(hash, s, offers) == Refreshed(s, y);
    forall x
      ensures Rewrites(hash, Some(s), x) ==> (Stands(hash, Refreshed(s, y), x) <==> Lower(x, y))
      ensures Refreshes(hash, s, x) ==>
                (Stands(hash, Refreshed(s, y), x) <==> Lower(x, y) || StateOf(hash, x) == StateOf(hash, y))
      ensures !Rewrites(hash, Some(s), x) && !Refreshes(hash, s, x) ==> Stands(hash, Refreshed(s, y), x)
    {
    }
    TopStands(hash, kept, y);
    forall x, z | z in kept && Lower(x, z) ensures Lower(x, y) { LowerIsWeak(x, y, z); }
  }

  /** One path after its offers: all of them would leave it as it is exactly when it rests. */
  lemma RestsExactly(hash: string -> string, s: Option<AttributeState>, offers: seq<Offer>)
    requires Injective(hash) && offers != []
    ensures Ending(hash, s, offers).Some?
    ensures AllStandOn(hash, Ending(hash, s, offers).value, offers) <==> Rests(hash, s, offers)
  {
    hide Stands, StateOf, TopsAgree, Refreshers, Greatest, Lower, FirstOpen, Rewrites, IsTop;
    if Counted(hash, s, offers) != [] {
      CountedRests(hash, s, offers);
    } else {
      var cur := s.value;
      if Refreshers(hash, cur, offers) == [] {
        UntouchedStands(hash, cur, offers);
        NoTops(hash);
      } else {
        RefreshedRests(hash, cur, offers);
      }
    }
  }

  lemma NoTops(hash: string -> string)
    ensures TopsAgree(hash, [])
  {}

  ghost predicate PathsRest(hash: string -> string, asset: Asset, offers: seq<Offer>) {
    forall path :: For(path, offers) != [] ==> Rests(hash, Get(asset.state, path), For(path, offers))
  }

  lemma PathStands(hash: string -> string, rec: bool, asset: Asset, offers: seq<Offer>, path: string)
    requires Injective(hash) && For(path, offers) != []
    ensures var after := ApplyAll(hash, rec, asset, offers).asset;
            path in after.state
            && (AllStandOn(hash, after.state[path], For(path, offers)) <==>
                Rests(hash, Get(asset.state, path), For(path, offers)))
  {
    RunHoldsEndings(hash, rec, asset, offers, path);
    hide Ending, AllStandOn, Rests, For, ApplyAll;
    RestsExactly(hash, Get(asset.state, path), For(path, offers));
  }

  /** Every replay of a run, over any stored states, is idle exactly when each path rests. */
  lemma ReplayIsIdle(hash: string -> string, rec: bool, asset: Asset, offers: seq<Offer>)
    requires Injective(hash)
    ensures ReplaysIdle(hash, ApplyAll(hash, rec, asset, offers).asset, offers) <==> PathsRest(hash, asset, offers)
  {
    var after := ApplyAll(hash, rec, asset, offers).asset;
    ReplaysStand(hash, after, offers);
    hide ApplyAll, Rests, Stands, For, ReplaysIdle;
    if AllStand(hash, after, offers) {
      forall path | For(path, offers) != [] ensures Rests(hash, Get(asset.state, path), For(path, offers)) {
        ForHolds(path, offers);
        PathStands(hash, rec, asset, offers, path);
      }
    }
    if PathsRest(hash, asset, offers) {
      forall x | x in offers ensures x.path in after.state && Stands(hash, after.state[x.path], x) {
        ForHolds(x.path, offers);
        assert x in For(x.path, offers);
        PathStands(hash, rec, asset, offers, x.path);
      }
    }
  }

  lemma NeverCounted(hash: string -> string, s: AttributeState, w: seq<Offer>)
    requires !Rewritable(hash, s, w)
    ensures Counted(hash, Some(s), w) == []
  {
    hide Rewrites;
    var k := FirstOpen(hash, s, w);
    assert forall i :: 0 <= i < |w| ==> !Rewrites(hash, Some(s), w[i]);
    assert w[k..] == [];
  }

  /** Where order is irrelevant, replays are idle. */
  lemma SettledRests(hash: string -> string, s: Option<AttributeState>, offers: seq<Offer>)
    requires Injective(hash) && offers != [] && Settles(hash, s, offers)
    ensures Rests(hash, s, offers)
  {
    hide Stands, StateOf, TopsAgree, Rewrites, Clean, Greatest, Lower, IsTop, TopRewrites, Counted;
    if s.None? {
      GreatestTops(offers);
      assert Counted(hash, s, offers) == offers by { NothingStored(hash, offers); }
      assert offers[Greatest(offers)] in offers;
    } else if Rewritable(hash, s.value, offers) {
      var x := SettledRewritten(hash, s.value, offers);
      RestsExactly(hash, s, offers);
      hide Rests, Ending;
      TopStands(hash, offers, x) by { assert x in offers by { TopIsMember(offers, x); } }
      forall y | y in offers ensures Stands(hash, StateOf(hash, x), y) { StandsAgainstOffer(hash, x, y); }
    } else {
      NeverCounted(hash, s.value, offers);
    }
  }

  lemma TopIsMember(offers: seq<Offer>, x: Offer)
    requires IsTop(offers, x)
    ensures x in offers
  {}

  lemma NothingStored(hash: string -> string, offers: seq<Offer>)
    ensures Counted(hash, None, offers) == offers
  {}

  /** A run whose order is irrelevant can be replayed without effect. */
  lemma ConvergentRunsRest(hash: string -> string, rec: bool, asset: Asset, offers: seq<Offer>)
    requires Injective(hash) && RunsConverge(hash, rec, asset, offers)
    ensures ReplaysIdle(hash, ApplyAll(hash, rec, asset, offers).asset, offers)
  {
    RunsConvergeExactly(hash, rec, asset, offers);
    ReplayIsIdle(hash, rec, asset, offers);
    hide ApplyAll, Rests, For, ReplaysIdle, Settles, RunsConverge;
    forall path | For(path, offers) != [] ensures Rests(hash, Get(asset.state, path), For(path, offers)) {
      SettledRests(hash, Get(asset.state, path), For(path, offers));
    }
  }
}
