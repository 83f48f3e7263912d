/** From the rules and the attributes of one batch to the value that a path holds
    (src/server/services/cmdb-precedence.service.ts). */
module Batches {
  import opened Convergence
  import opened Endings
  import opened Precedence
  import opened Wrappers

  /** The first rule in the order of the query, if any applies: connector-specific before generic, then the higher
      precedence, then the newer version. */
  ghost predicate Governs(rules: seq<Rule>, path: string, connectorType: string, r: Option<Rule>) {
    var fits := (s: Rule) => s.path == path && s.connectorType in {None, Some(connectorType)};
    match r
    case None => forall s :: s in rules ==> !fits(s)
    case Some(r) =>
      && r in rules && fits(r)
      && forall s :: s in rules && fits(s) ==>
           && (s.connectorType.Some? ==> r.connectorType.Some?)
           && (s.connectorType.Some? == r.connectorType.Some? ==>
                 s.precedence < r.precedence || (s.precedence == r.precedence && s.version <= r.version))
  }

  function PrecedenceOf(r: Option<Rule>): int { if r.Some? then r.value.precedence else 50 }

  predicate MayOverride(r: Option<Rule>) { r.Some? && r.value.allowOverrideManual }

  /** The offer is the attribute with what the batch and the governing rule add to it. */
  ghost predicate Carries(rules: seq<Rule>, b: Batch, a: Attribute, r: Option<Rule>, o: Offer) {
    && Governs(rules, a.path, b.connectorType, r)
    && a.value.Some?
    && o == Offer(a.path, a.value.value, b.connectorId, b.sourceRecordId, PrecedenceOf(r), MayOverride(r), b.observedAt,
                  a.confidence)
  }

  ghost predicate Carried(rules: seq<Rule>, b: Batch, a: Attribute, o: Offer) {
    exists r :: Carries(rules, b, a, r, o)
  }

  lemma RuleGoverns(rules: seq<Rule>, path: string, connectorType: string)
    ensures Governs(rules, path, connectorType, RuleFor(rules, path, connectorType))
  {
    var r := RuleFor(rules, path, connectorType);
    assert forall s :: s in rules && Applies(s, path, connectorType) && r.Some? ==> !Prefer(s, r.value);
    hide RuleFor;
  }

  lemma OfferCarries(rules: seq<Rule>, b: Batch, a: Attribute)
    requires a.value.Some?
    ensures Carries(rules, b, a, RuleFor(rules, a.path, b.connectorType), OfferOf(rules, b, a))
  {
    RuleGoverns(rules, a.path, b.connectorType);
    hide RuleFor, Governs;
  }

  function Defined(attributes: seq<Attribute>): seq<Attribute> {
    if attributes == [] then []
    else
      var n := |attributes| - 1;
      Defined(attributes[..n]) + (if attributes[n].value.None? then [] else [attributes[n]])
  }

  /** A batch offers exactly its defined attributes, in order, each under the rule that governs it. */
  lemma {:induction false} OffersCarry(rules: seq<Rule>, b: Batch, n: nat)
    requires n <= |b.attributes|
    ensures var offers, defined := Offers(rules, b, n), Defined(b.attributes[..n]);
            && |offers| == |defined|
            && forall i :: 0 <= i < |offers| ==> Carried(rules, b, defined[i], offers[i])
  {
    if n > 0 {
      OffersCarry(rules, b, n - 1);
      var a := b.attributes[n - 1];
      assert b.attributes[..n][..n - 1] == b.attributes[..n - 1];
      if a.value.Some? {
        OfferCarries(rules, b, a);
        assert Carried(rules, b, a, OfferOf(rules, b, a));
      }
      hide Carried, OfferOf;
      assert Offers(rules, b, n - 1) + [] == Offers(rules, b, n - 1);
    }
  }

  // ---------------------------------------------------------------------
  // Offers that may all override a lock, or all may not
  // ---------------------------------------------------------------------

  lemma SuffixWinner(offers: seq<Offer>, k: nat)
    requires offers != [] && k <= Greatest(offers)
    ensures offers[k..] != [] && offers[k..][Greatest(offers[k..])] == offers[Greatest(offers)]
  {
    var i, tail := Greatest(offers), offers[k..];
    hide Lower;
    assert forall j :: 0 <= j < |tail| ==> tail[j] == offers[k + j];
    assert Winner(tail, i - k);
    WinnerIsUnique(tail, Greatest(tail), i - k);
  }

  lemma KeptAll(hash: string -> string, s: AttributeState, offers: seq<Offer>)
    requires forall x :: x in offers ==> Keeps(s, x)
    ensures Ending(hash, Some(s), offers) == Some(s)
  {
    hide Keeps;
    assert !Rewritable(hash, s, offers);
    NeverRewritten(hash, s, offers);
    var kept := Refreshers(hash, s, offers);
    assert kept == [] by { assert forall i :: 0 <= i < |kept| ==> kept[i] in kept; }
  }

  /** The state has the value of the offer, and its place in the order. */
  predicate Shows(hash: string -> string, r: AttributeState, o: Offer) {
    && r.effectiveHash == hash(o.value)
    && r.precedence == o.precedence && r.observedAt == o.observedAt && r.confidence == o.confidence
  }

  lemma RewriterShows(hash: string -> string, s: AttributeState, offers: seq<Offer>)
    requires offers != [] && FirstOpen(hash, s, offers) <= Greatest(offers)
    ensures Ending(hash, Some(s), offers) == Some(StateOf(hash, offers[Greatest(offers)]))
  {
    hide Opens, Winner, StateOf;
    SuffixWinner(offers, FirstOpen(hash, s, offers));
  }

  lemma OpensBefore(hash: string -> string, s: AttributeState, offers: seq<Offer>)
    requires offers != [] && !Keeps(s, offers[Greatest(offers)])
    requires FirstOpen(hash, s, offers) < |offers| || Rewrites(hash, Some(s), offers[Greatest(offers)])
    ensures FirstOpen(hash, s, offers) <= Greatest(offers)
  {
    var i, k := Greatest(offers), FirstOpen(hash, s, offers);
    hide Lower, Keeps;
    assert Rewrites(hash, Some(s), offers[i]) ==> Opens(hash, s, offers, i);
    assert Rewrites(hash, Some(s), offers[i]) || Refreshes(hash, s, offers[i]);
    assert forall m :: i < m < |offers| ==> Lower(offers[m], offers[i]);
  }

  lemma RefresherShows(hash: string -> string, s: AttributeState, offers: seq<Offer>)
    requires offers != [] && Refreshes(hash, s, offers[Greatest(offers)]) && FirstOpen(hash, s, offers) == |offers|
    ensures var e := Ending(hash, Some(s), offers); e.Some? && Shows(hash, e.value, offers[Greatest(offers)])
    ensures exists y :: y in offers && Ending(hash, Some(s), offers) == Some(Refreshed(s, y))
  {
    var g := offers[Greatest(offers)];
    GreatestTops(offers);
    var y := HeldTop(hash, s, offers, g);
    assert offers[FirstOpen(hash, s, offers)..] == [];
    assert !Lower(y, g) && !Lower(g, y);
    hide Held, Greatest, FirstOpen;
  }

  lemma GreatestDecides(hash: string -> string, s: AttributeState, offers: seq<Offer>)
    requires offers != [] && !Keeps(s, offers[Greatest(offers)])
    ensures var e := Ending(hash, Some(s), offers); e.Some? && Shows(hash, e.value, offers[Greatest(offers)])
    ensures exists y :: y in offers && Ending(hash, Some(s), offers) in {Some(Refreshed(s, y)), Some(StateOf(hash, y))}
  {
    var g := offers[Greatest(offers)];
    assert Rewrites(hash, Some(s), g) || Refreshes(hash, s, g);
    assert Shows(hash, StateOf(hash, g), g);
    hide Keeps, Rewrites, Refreshes, StateOf, Shows, Greatest, Refreshed, Ending, Opens;
    if Rewrites(hash, Some(s), g) || FirstOpen(hash, s, offers) < |offers| {
      OpensBefore(hash, s, offers);
      RewriterShows(hash, s, offers);
      assert g in offers;
    } else {
      RefresherShows(hash, s, offers);
    }
  }

  lemma GreatestKept(s: AttributeState, offers: seq<Offer>)
    requires offers != [] && Keeps(s, offers[Greatest(offers)])
    requires forall x, y :: x in offers && y in offers ==> x.allowOverrideManual == y.allowOverrideManual
    ensures forall x :: x in offers ==> Keeps(s, x)
  {
    GreatestTops(offers);
  }

  // ---------------------------------------------------------------------
  // One batch
  // ---------------------------------------------------------------------

  predicate On(a: Attribute, path: string) { a.path == path && a.value.Some? }

  lemma {:induction false} PathOffers(rules: seq<Rule>, b: Batch, n: nat, path: string, x: Offer)
    returns (i: nat)
    requires n <= |b.attributes| && x in For(path, Offers(rules, b, n))
    ensures i < n && On(b.attributes[i], path) && x == OfferOf(rules, b, b.attributes[i])
  {
    var a := b.attributes[n - 1];
    var before := Offers(rules, b, n - 1);
    if a.value.Some? { ForOneMore(path, before, OfferOf(rules, b, a)); }
    hide OfferOf, For;
    assert before + [] == before;
    if a.value.Some? { OfferHasPath(rules, b, a); }
    if On(a, path) && x == OfferOf(rules, b, a) {
      i := n - 1;
    } else {
      i := PathOffers(rules, b, n - 1, path, x);
    }
  }

  lemma ForOneMore(path: string, offers: seq<Offer>, o: Offer)
    ensures For(path, offers + [o]) == For(path, offers) + (if o.path == path then [o] else [])
  {
    assert (offers + [o])[..|offers|] == offers;
  }

  /** The most confident attribute of the path among the first n, the last one among ties. */
  ghost predicate Leading(b: Batch, n: nat, path: string, j: nat)
    requires n <= |b.attributes|
  {
    && j < n && On(b.attributes[j], path)
    && forall i :: 0 <= i < n && On(b.attributes[i], path) ==>
         && b.attributes[i].confidence <= b.attributes[j].confidence
         && (i > j ==> b.attributes[i].confidence < b.attributes[j].confidence)
  }

  lemma OffersAlike(rules: seq<Rule>, b: Batch, a: Attribute, c: Attribute)
    requires a.path == c.path && a.value.Some? && c.value.Some?
    ensures var x, y := OfferOf(rules, b, a), OfferOf(rules, b, c);
            x.allowOverrideManual == y.allowOverrideManual && (Lower(x, y) <==> a.confidence < c.confidence)
  {
    hide RuleFor;
  }

  /** The offers for a path after one more attribute. */
  lemma PathOneMore(rules: seq<Rule>, b: Batch, n: nat, path: string)
    requires 0 < n <= |b.attributes|
    ensures For(path, Offers(rules, b, n))
            == For(path, Offers(rules, b, n - 1))
               + (if On(b.attributes[n - 1], path) then [OfferOf(rules, b, b.attributes[n - 1])] else [])
  {
    var a := b.attributes[n - 1];
    var before := Offers(rules, b, n - 1);
    if a.value.Some? {
      ForOneMore(path, before, OfferOf(rules, b, a));
      OfferHasPath(rules, b, a);
    }
    hide OfferOf, For;
    assert before + [] == before && For(path, before) + [] == For(path, before);
  }

  lemma LatestLeads(rules: seq<Rule>, b: Batch, n: nat, path: string)
    requires 0 < n <= |b.attributes| && Leading(b, n, path, n - 1)
    ensures var f := For(path, Offers(rules, b, n)); f != [] && f[Greatest(f)] == OfferOf(rules, b, b.attributes[n - 1])
  {
    var o, f := OfferOf(rules, b, b.attributes[n - 1]), For(path, Offers(rules, b, n - 1));
    PathOneMore(rules, b, n, path);
    hide OfferOf, Lower, Greatest, For, Offers;
    if f == [] {
      assert f + [o] == [o];
      OnlyOffer(o);
    } else {
      var y := f[Greatest(f)];
      var i := PathOffers(rules, b, n - 1, path, y);
      OffersAlike(rules, b, b.attributes[n - 1], b.attributes[i]);
      GreatestOneMore(f, o);
    }
  }

  lemma {:induction false} LeaderIsGreatest(rules: seq<Rule>, b: Batch, n: nat, path: string, j: nat)
    requires n <= |b.attributes| && Leading(b, n, path, j)
    ensures var f := For(path, Offers(rules, b, n)); f != [] && f[Greatest(f)] == OfferOf(rules, b, b.attributes[j])
  {
    hide OfferOf, Lower, Greatest, For, Offers;
    if j == n - 1 {
      LatestLeads(rules, b, n, path);
    } else {
      var a, f := b.attributes[n - 1], For(path, Offers(rules, b, n - 1));
      PathOneMore(rules, b, n, path);
      LeaderIsGreatest(rules, b, n - 1, path, j);
      if On(a, path) {
        OffersAlike(rules, b, a, b.attributes[j]);
        GreatestOneMore(f, OfferOf(rules, b, a));
      } else {
        assert f + [] == f;
      }
    }
  }

  lemma OnlyOffer(o: Offer)
    ensures [o][Greatest([o])] == o
  {}

  lemma OfferHasPath(rules: seq<Rule>, b: Batch, a: Attribute)
    requires a.value.Some?
    ensures OfferOf(rules, b, a).path == a.path
  {}

  /** The stored state stands against an attribute under a rule: it is locked and the rule may not override it, or it is
      above it in precedence, then in time, then in confidence. */
  predicate Withstands(s: AttributeState, r: Option<Rule>, observedAt: int, confidence: real) {
    || (s.manualLock && !MayOverride(r))
    || s.precedence > PrecedenceOf(r)
    || (s.precedence == PrecedenceOf(r)
        && (s.observedAt > observedAt || (s.observedAt == observedAt && s.confidence > confidence)))
  }

  /** What the batch makes of the state of the path, given its leading attribute and the governing rule. */
  ghost predicate Decided(b: Batch, before: Option<AttributeState>, a: Attribute, r: Option<Rule>,
                          after: Option<AttributeState>)
    requires a.value.Some?
  {
    if before.Some? && Withstands(before.value, r, b.observedAt, a.confidence) then after == before
    else
      && after.Some? && after.value.effective == a.value.value
      && after.value.source == Discovery(b.connectorId, b.sourceRecordId) && after.value.precedence == PrecedenceOf(r)
      && after.value.observedAt == b.observedAt && after.value.confidence == a.confidence
  }

  lemma PathDecided(hash: string -> string, rules: seq<Rule>, b: Batch, before: Option<AttributeState>, f: seq<Offer>,
                    a: Attribute)
    requires Injective(hash) && a.value.Some?
    requires before.Some? ==> before.value.effectiveHash == hash(before.value.effective)
    requires f != [] && f[Greatest(f)] == OfferOf(rules, b, a)
    requires forall x :: x in f ==> x.connectorId == b.connectorId && x.sourceRecordId == b.sourceRecordId
                                    && x.allowOverrideManual == f[Greatest(f)].allowOverrideManual
    ensures Decided(b, before, a, RuleFor(rules, a.path, b.connectorType), Ending(hash, before, f))
  {
    var g, r := f[Greatest(f)], RuleFor(rules, a.path, b.connectorType);
    OfferCarries(rules, b, a);
    hide RuleFor, Governs, OfferOf, Greatest;
    assert g.precedence == PrecedenceOf(r) && g.allowOverrideManual == MayOverride(r);
    if before.Some? {
      assert Keeps(before.value, g) <==> Withstands(before.value, r, b.observedAt, a.confidence);
      if Keeps(before.value, g) {
        GreatestKept(before.value, f);
        KeptAll(hash, before.value, f);
      } else {
        GreatestDecides(hash, before.value, f);
        hide Ending, Keeps, Withstands;
      }
    }
  }

  /** End to end: after a batch, whatever was stored, a path with a leading attribute shows its value under the rule
      that governs it, unless the stored state withstands it. */
  lemma BatchDecides(hash: string -> string, rules: seq<Rule>, b: Batch, asset: Asset, path: string, j: nat)
    requires Injective(hash) && Consistent(hash, asset) && Leading(b, |b.attributes|, path, j)
    ensures exists r :: Governs(rules, path, b.connectorType, r)
                        && Decided(b, Get(asset.state, path), b.attributes[j], r,
                                   Get(ApplyAll(hash, b.recordChanges, asset,
                                                Offers(rules, b, |b.attributes|)).asset.state, path))
  {
    var n, a := |b.attributes|, b.attributes[j];
    var offers := Offers(rules, b, n);
    var f := For(path, offers);
    LeaderIsGreatest(rules, b, n, path, j);
    forall x | x in f
      ensures x.connectorId == b.connectorId && x.sourceRecordId == b.sourceRecordId
      ensures x.allowOverrideManual == f[Greatest(f)].allowOverrideManual
    {
      var i := PathOffers(rules, b, n, path, x);
      OffersAlike(rules, b, b.attributes[i], a);
    }
    hide Lower, Greatest, RuleFor, Ending, ApplyAll, OfferOf, For, Offers, Decided, Governs, ColumnOf;
    RuleGoverns(rules, path, b.connectorType);
    RunHoldsEndings(hash, b.recordChanges, asset, offers, path);
    PathDecided(hash, rules, b, Get(asset.state, path), f, a);
  }

  /** A path without a defined attribute in the batch keeps its state. */
  lemma BatchSpares(hash: string -> string, rules: seq<Rule>, b: Batch, asset: Asset, path: string)
    requires Injective(hash) && forall i :: 0 <= i < |b.attributes| ==> !On(b.attributes[i], path)
    ensures Get(ApplyAll(hash, b.recordChanges, asset, Offers(rules, b, |b.attributes|)).asset.state, path)
            == Get(asset.state, path)
  {
    var offers := Offers(rules, b, |b.attributes|);
    var f := For(path, offers);
    if f != [] {
      var i := PathOffers(rules, b, |b.attributes|, path, f[0]);
      assert false;
    }
    PathsAreIndependent(hash, b.recordChanges, asset, offers, path);
  }

  /** A rule raises a source above the stored state, whatever the default precedence is. */
  lemma RuleRaises(hash: string -> string, asset: Asset)
    requires Injective(hash) && Consistent(hash, asset) && "identity.hostname" in asset.state
    requires var s := asset.state["identity.hostname"];
             s.effective == "srv1" && s.precedence == 70 && s.observedAt == 100 && !s.manualLock
    ensures var rules := [Rule("identity.hostname", None, 90, false, 1)];
            var b := Batch("c1", "VCENTER", "s1", 200, [Attribute("identity.hostname", Some("srv2"), 90.0)], true);
            var after := ApplyAll(hash, true, asset, Offers(rules, b, 1)).asset.state;
            "identity.hostname" in after && after["identity.hostname"].effective == "srv2"
  {
    var rules := [Rule("identity.hostname", None, 90, false, 1)];
    var b := Batch("c1", "VCENTER", "s1", 200, [Attribute("identity.hostname", Some("srv2"), 90.0)], true);
    hide ApplyAll, Offers, Consistent;
    assert Leading(b, |b.attributes|, "identity.hostname", 0);
    BatchDecides(hash, rules, b, asset, "identity.hostname", 0);
    assert rules[0] in rules;
  }
}
