/** Attribute precedence between discovery sources and manual values
    (src/server/services/cmdb-precedence.service.ts). Values stand for their stable JSON text. */
module Precedence {
  import opened Ordering
  import opened Wrappers

  /** An active discovery rule; without a connector type it is generic. */
  datatype Rule = Rule(path: string, connectorType: Option<string>, precedence: int, allowOverrideManual: bool,
                       version: int)

  datatype Attribute = Attribute(path: string, value: Option<string>, confidence: real)

  datatype Batch = Batch(connectorId: string, connectorType: string, sourceRecordId: string, observedAt: int,
                         attributes: seq<Attribute>, recordChanges: bool)

  datatype Source = Manual | Discovery(connectorId: string, sourceRecordId: string)

  datatype AttributeState = AttributeState(
    effective: string, effectiveHash: string, source: Source, precedence: int, confidence: real,
    manuallyManaged: bool, manualLock: bool, observedAt: int)

  datatype Asset = Asset(state: map<string, AttributeState>, columns: map<string, string>, version: int)

  /** One attribute of one batch, with the rule that applies to it. */
  datatype Offer = Offer(path: string, value: string, connectorId: string, sourceRecordId: string,
                         precedence: int, allowOverrideManual: bool, observedAt: int, confidence: real)

  datatype Change = Change(path: string, before: Option<string>, after: string, recorded: bool)
  datatype Applied = Applied(asset: Asset, change: Option<Change>)
  datatype Outcome = Outcome(asset: Asset, changes: seq<Change>)

  const DEFAULT_PRECEDENCE := 50
  const MANUAL_PRECEDENCE := 1000

  // ---------------------------------------------------------------------
  // Rules
  // ---------------------------------------------------------------------

  predicate Applies(r: Rule, path: string, connectorType: string) {
    r.path == path && (r.connectorType.None? || r.connectorType == Some(connectorType))
  }

  /** Specific before generic, then higher precedence, then newer. */
  predicate Prefer(r: Rule, s: Rule) {
    if r.connectorType.Some? != s.connectorType.Some? then r.connectorType.Some?
    else if r.precedence != s.precedence then r.precedence > s.precedence
    else r.version > s.version
  }

  function RuleFor(rules: seq<Rule>, path: string, connectorType: string): (r: Option<Rule>)
    ensures r.Some? ==> r.value in rules && Applies(r.value, path, connectorType)
    ensures r.Some? ==> forall s :: s in rules && Applies(s, path, connectorType) ==> !Prefer(s, r.value)
    ensures r.None? ==> forall s :: s in rules ==> !Applies(s, path, connectorType)
  {
    if rules == [] then None
    else
      var rest := RuleFor(rules[1..], path, connectorType);
      if !Applies(rules[0], path, connectorType) then rest
      else if rest.Some? && Prefer(rest.value, rules[0]) then rest
      else Some(rules[0])
  }

  function OfferOf(rules: seq<Rule>, b: Batch, a: Attribute): Offer
    requires a.value.Some?
  {
    match RuleFor(rules, a.path, b.connectorType)
    case None =>
      Offer(a.path, a.value.value, b.connectorId, b.sourceRecordId,
            DEFAULT_PRECEDENCE, false, b.observedAt, a.confidence)
    case Some(r) =>
      Offer(a.path, a.value.value, b.connectorId, b.sourceRecordId,
            r.precedence, r.allowOverrideManual, b.observedAt, a.confidence)
  }

  /** The attributes a batch really offers: undefined values are skipped. */
  function Offers(rules: seq<Rule>, b: Batch, n: nat): seq<Offer>
    requires n <= |b.attributes|
  {
    if n == 0 then []
    else
      var a := b.attributes[n - 1];
      Offers(rules, b, n - 1) + (if a.value.Some? then [OfferOf(rules, b, a)] else [])
  }

  // ---------------------------------------------------------------------
  // Applying one offer
  // ---------------------------------------------------------------------

  /** The closed map from attribute paths to columns of the asset row. */
  function ColumnOf(path: string): Option<string> {
    match path
    case "identity.name" => Some("name")
    case "identity.hostname" => Some("hostname")
    case "identity.fqdn" => Some("fqdn")
    case "identity.serialNumber" => Some("serial_number")
    case "classification.environment" => Some("environment")
    case "technicalState" => Some("technical_status")
    case "compute.cpuCount" => Some("cpu_count")
    case "compute.memoryBytes" => Some("memory_bytes")
    case "operatingSystem.name" => Some("operating_system")
    case "operatingSystem.version" => Some("os_version")
    case _ => None
  }

  function Get(state: map<string, AttributeState>, path: string): Option<AttributeState> {
    if path in state then Some(state[path]) else None
  }

  /** Does the stored state stand against this offer? */
  predicate Keeps(s: AttributeState, o: Offer) {
    || (s.manualLock && !o.allowOverrideManual)
    || s.precedence > o.precedence
    || (s.precedence == o.precedence
        && (s.observedAt > o.observedAt || (s.observedAt == o.observedAt && s.confidence > o.confidence)))
  }

  function StateOf(hash: string -> string, o: Offer): AttributeState {
    AttributeState(o.value, hash(o.value), Discovery(o.connectorId, o.sourceRecordId), o.precedence, o.confidence,
                   false, false, o.observedAt)
  }

  /** The stored value stays, as the offer's. */
  function Refreshed(s: AttributeState, o: Offer): AttributeState {
    s.(source := Discovery(o.connectorId, o.sourceRecordId), precedence := o.precedence, confidence := o.confidence,
       observedAt := o.observedAt)
  }

  /** The new state of the offered path. */
  function NextState(hash: string -> string, s: Option<AttributeState>, o: Offer): AttributeState {
    match s
    case None => StateOf(hash, o)
    case Some(cur) =>
      if Keeps(cur, o) then cur
      else if cur.effectiveHash == hash(o.value) then Refreshed(cur, o)
      else StateOf(hash, o)
  }

  predicate Rewrites(hash: string -> string, s: Option<AttributeState>, o: Offer) {
    s.None? || (!Keeps(s.value, o) && s.value.effectiveHash != hash(o.value))
  }

  function Apply(hash: string -> string, recordChanges: bool, asset: Asset, o: Offer): Applied {
    var s := Get(asset.state, o.path);
    var state := asset.state[o.path := NextState(hash, s, o)];
    if Rewrites(hash, s, o) then
      var before := if s.Some? then Some(s.value.effective) else None;
      var column := ColumnOf(o.path);
      var columns := if column.Some? then asset.columns[column.value := o.value] else asset.columns;
      var version := if column.Some? then asset.version + 1 else asset.version;
      Applied(Asset(state, columns, version),
              Some(Change(o.path, before, o.value, recordChanges && before.Some? && before.value != o.value)))
    else Applied(asset.(state := state), None)
  }

  function ApplyAll(hash: string -> string, recordChanges: bool, asset: Asset, offers: seq<Offer>): Outcome {
    if offers == [] then Outcome(asset, [])
    else
      var n := |offers| - 1;
      var front := ApplyAll(hash, recordChanges, asset, offers[..n]);
      var last := Apply(hash, recordChanges, front.asset, offers[n]);
      Outcome(last.asset, front.changes + (if last.change.Some? then [last.change.value] else []))
  }

  // ---------------------------------------------------------------------
  // Protecting manual business fields
  // ---------------------------------------------------------------------

  datatype Governed = Governed(path: string, column: string)

  const GOVERNED: seq<Governed> := [
    Governed("business.ownerUserId", "owner_user_id"),
    Governed("business.technicalOwnerUserId", "technical_owner_user_id"),
    Governed("business.departmentId", "department_id"),
    Governed("business.criticality", "criticality"),
    Governed("business.businessCriticality", "business_criticality"),
    Governed("business.supportGroupId", "support_group_id")]

  function ManualState(hash: string -> string, value: string, updatedAt: int): AttributeState {
    AttributeState(value, hash(value), Manual, MANUAL_PRECEDENCE, 100.0, true, true, updatedAt)
  }

  predicate HasValue(asset: Asset, column: string) {
    column in asset.columns && asset.columns[column] != ""
  }

  function ProtectFirst(hash: string -> string, asset: Asset, updatedAt: int, n: nat): map<string, AttributeState>
    requires n <= |GOVERNED|
  {
    if n == 0 then asset.state
    else
      var state := ProtectFirst(hash, asset, updatedAt, n - 1);
      var f := GOVERNED[n - 1];
      if HasValue(asset, f.column) && f.path !in state
      then state[f.path := ManualState(hash, asset.columns[f.column], updatedAt)]
      else state
  }

  function Protect(hash: string -> string, asset: Asset, updatedAt: int): Asset {
    asset.(state := ProtectFirst(hash, asset, updatedAt, |GOVERNED|))
  }

  // ---------------------------------------------------------------------
  // The tables of one asset, updated step by step
  // ---------------------------------------------------------------------

  class AssetTables {
    var state: map<string, AttributeState>
    var columns: map<string, string>
    var version: int

    constructor (columns: map<string, string>)
      ensures View() == Asset(map[], columns, 1)
    {
      this.state := map[];
      this.columns := columns;
      this.version := 1;
    }

    function View(): Asset
      reads this
    {
      Asset(state, columns, version)
    }

    method ProtectExistingBusinessFields(hash: string -> string, updatedAt: int)
      modifies this`state
      ensures View() == Protect(hash, old(View()), updatedAt)
    {
      for n := 0 to |GOVERNED|
        invariant state == ProtectFirst(hash, old(View()), updatedAt, n)
      {
        var field := GOVERNED[n];
        if field.column !in columns || columns[field.column] == "" { continue; }
        if field.path !in state {
          state := state[field.path := ManualState(hash, columns[field.column], updatedAt)];
        }
      }
    }

    method WriteCanonicalField(path: string, value: string)
      modifies this`columns, this`version
      ensures ColumnOf(path).None? ==> columns == old(columns) && version == old(version)
      ensures ColumnOf(path).Some? ==>
                columns == old(columns)[ColumnOf(path).value := value] && version == old(version) + 1
    {
      var column := ColumnOf(path);
      if column.None? { return; }
      columns := columns[column.value := value];
      version := version + 1;
    }

    /** One attribute against the stored state of its path. */
    method ApplyOffer(hash: string -> string, recordChanges: bool, o: Offer) returns (change: Option<Change>)
      modifies this
      ensures Applied(View(), change) == Apply(hash, recordChanges, old(View()), o)
    {
      if o.path in state {
        var s := state[o.path];
        if Keeps(s, o) {
          assert state[o.path := s] == state;
          return None;
        }
        if s.effectiveHash == hash(o.value) {
          state := state[o.path := s.(source := Discovery(o.connectorId, o.sourceRecordId), precedence := o.precedence,
                                      confidence := o.confidence, observedAt := o.observedAt)];
          return None;
        }
      }
      var before := if o.path in state then Some(state[o.path].effective) else None;
      state := state[o.path := StateOf(hash, o)];
      WriteCanonicalField(o.path, o.value);
      return Some(Change(o.path, before, o.value, recordChanges && before.Some? && before.value != o.value));
    }

    /** Processes the attributes of a batch in order; the new tables and the reported changes
        are those of applying its offers one by one. */
    method ApplyDiscoveryAttributes(hash: string -> string, rules: seq<Rule>, batch: Batch)
      returns (changes: seq<Change>)
      modifies this
      ensures Outcome(View(), changes)
              == ApplyAll(hash, batch.recordChanges, old(View()), Offers(rules, batch, |batch.attributes|))
    {
      hide Apply;
      changes := [];
      for n := 0 to |batch.attributes|
        invariant Outcome(View(), changes) == ApplyAll(hash, batch.recordChanges, old(View()), Offers(rules, batch, n))
      {
        var attribute := batch.attributes[n];
        if attribute.value.None? {
          assert Offers(rules, batch, n + 1) == Offers(rules, batch, n);
          continue;
        }
        var o := OfferOf(rules, batch, attribute);
        ApplyOneMore(hash, batch.recordChanges, old(View()), Offers(rules, batch, n), o);
        var change := ApplyOffer(hash, batch.recordChanges, o);
        if change.Some? { changes := changes + [change.value]; }
      }
    }
  }

  lemma ApplyOneMore(hash: string -> string, recordChanges: bool, asset: Asset, offers: seq<Offer>, o: Offer)
    ensures var front := ApplyAll(hash, recordChanges, asset, offers);
            var last := Apply(hash, recordChanges, front.asset, o);
            ApplyAll(hash, recordChanges, asset, offers + [o])
            == Outcome(last.asset, if last.change.Some? then front.changes + [last.change.value] else front.changes)
  {
    assert (offers + [o])[..|offers|] == offers;
  }

  // ---------------------------------------------------------------------
  // Paths are independent
  // ---------------------------------------------------------------------

  /** The offers for one path, in order. */
  function For(path: string, offers: seq<Offer>): seq<Offer> {
    if offers == [] then []
    else
      var n := |offers| - 1;
      For(path, offers[..n]) + (if offers[n].path == path then [offers[n]] else [])
  }

  /** One path seen on its own. */
  function Fold(hash: string -> string, s: Option<AttributeState>, offers: seq<Offer>): Option<AttributeState> {
    if offers == [] then s
    else
      var n := |offers| - 1;
      Some(NextState(hash, Fold(hash, s, offers[..n]), offers[n]))
  }

  /** What a run does to a path depends only on the offers for that path. */
  lemma {:induction false} PathsAreIndependent(hash: string -> string, rec: bool, asset: Asset, offers: seq<Offer>,
                                               path: string)
    ensures Get(ApplyAll(hash, rec, asset, offers).asset.state, path)
            == Fold(hash, Get(asset.state, path), For(path, offers))
  {
    if offers != [] {
      var n := |offers| - 1;
      var front, o := offers[..n], offers[n];
      PathsAreIndependent(hash, rec, asset, front, path);
      var before, f := ApplyAll(hash, rec, asset, front).asset, For(path, front);
      assert ApplyAll(hash, rec, asset, offers).asset == Apply(hash, rec, before, o).asset;
      assert For(path, offers) == if o.path == path then f + [o] else f;
      hide *;
    }
  }

  // ---------------------------------------------------------------------
  // Locks
  // ---------------------------------------------------------------------

  /** No offer in the run may override the locked state of the path. */
  predicate NoOverride(path: string, precedence: int, offers: seq<Offer>) {
    forall k :: 0 <= k < |offers| && offers[k].path == path ==>
      !offers[k].allowOverrideManual || offers[k].precedence < precedence
  }

  lemma {:induction false} LockedPathIsFrozen(hash: string -> string, rec: bool, asset: Asset, offers: seq<Offer>,
                                           path: string)
    requires path in asset.state && asset.state[path].manualLock
    requires NoOverride(path, asset.state[path].precedence, offers)
    ensures path in ApplyAll(hash, rec, asset, offers).asset.state
    ensures ApplyAll(hash, rec, asset, offers).asset.state[path] == asset.state[path]
  {
    if offers != [] {
      var n := |offers| - 1;
      assert NoOverride(path, asset.state[path].precedence, offers[..n]) by {
        assert forall k :: 0 <= k < n ==> offers[..n][k] == offers[k];
      }
      LockedPathIsFrozen(hash, rec, asset, offers[..n], path);
    }
  }

  lemma {:induction false} ProtectAdds(hash: string -> string, asset: Asset, updatedAt: int, n: nat, k: nat)
    requires n <= |GOVERNED| && k < n && HasValue(asset, GOVERNED[k].column)
    ensures var f := GOVERNED[k];
            var state := ProtectFirst(hash, asset, updatedAt, n);
            && f.path in state
            && state[f.path] == if f.path in asset.state then asset.state[f.path]
                                else ManualState(hash, asset.columns[f.column], updatedAt)
  {
    if k < n - 1 {
      ProtectAdds(hash, asset, updatedAt, n - 1, k);
    } else {
      ProtectSkips(hash, asset, updatedAt, k, GOVERNED[k].path);
    }
  }

  lemma {:induction false} ProtectSkips(hash: string -> string, asset: Asset, updatedAt: int, n: nat, path: string)
    requires n <= |GOVERNED| && forall k :: 0 <= k < n ==> GOVERNED[k].path != path
    ensures Get(ProtectFirst(hash, asset, updatedAt, n), path) == Get(asset.state, path)
  {
    if n > 0 { ProtectSkips(hash, asset, updatedAt, n - 1, path); }
  }

  /** The governed path that a column belongs to, if any. */
  predicate GovernedBy(path: string, column: string) {
    (path, column) in {("business.ownerUserId", "owner_user_id"),
                       ("business.technicalOwnerUserId", "technical_owner_user_id"),
                       ("business.departmentId", "department_id"),
                       ("business.criticality", "criticality"),
                       ("business.businessCriticality", "business_criticality"),
                       ("business.supportGroupId", "support_group_id")}
  }

  lemma GovernedAre(path: string, column: string)
    ensures GovernedBy(path, column) <==> exists k :: 0 <= k < |GOVERNED| && GOVERNED[k] == Governed(path, column)
  {
    if GovernedBy(path, column) {
      assert GOVERNED[0] == Governed(path, column) || GOVERNED[1] == Governed(path, column)
          || GOVERNED[2] == Governed(path, column) || GOVERNED[3] == Governed(path, column)
          || GOVERNED[4] == Governed(path, column) || GOVERNED[5] == Governed(path, column);
    }
  }

  /** Exactly what is protected: a governed path without state whose column has a value gets that value, locked. */
  lemma ProtectsExactly(hash: string -> string, asset: Asset, updatedAt: int, path: string)
    ensures var before, after := Get(asset.state, path), Get(Protect(hash, asset, updatedAt).state, path);
            && Protect(hash, asset, updatedAt).columns == asset.columns
            && (before.Some? ==> after == before)
            && forall column :: GovernedBy(path, column) && before.None? ==>
                 after == if column in asset.columns && asset.columns[column] != ""
                          then Some(AttributeState(asset.columns[column], hash(asset.columns[column]), Manual, 1000,
                                                   100.0, true, true, updatedAt))
                          else None
    ensures (forall column :: !GovernedBy(path, column)) ==>
              Get(Protect(hash, asset, updatedAt).state, path) == Get(asset.state, path)
  {
    var n := |GOVERNED|;
    forall column { GovernedAre(path, column); }
    hide GovernedBy;
    if k :| 0 <= k < n && GOVERNED[k].path == path {
      if HasValue(asset, GOVERNED[k].column) {
        ProtectAdds(hash, asset, updatedAt, n, k);
      } else {
        ProtectLeaves(hash, asset, updatedAt, n, k);
      }
      assert GOVERNED[k] == Governed(path, GOVERNED[k].column);
    } else {
      ProtectSkips(hash, asset, updatedAt, n, path);
    }
  }

  lemma {:induction false} ProtectLeaves(hash: string -> string, asset: Asset, updatedAt: int, n: nat, k: nat)
    requires n <= |GOVERNED| && k < |GOVERNED| && !HasValue(asset, GOVERNED[k].column)
    ensures Get(ProtectFirst(hash, asset, updatedAt, n), GOVERNED[k].path) == Get(asset.state, GOVERNED[k].path)
  {
    if n > 0 { ProtectLeaves(hash, asset, updatedAt, n - 1, k); }
  }

  /** A business value present before discovery survives every run whose rules may not override it. */
  lemma BusinessFieldsSurvive(hash: string -> string, rec: bool, asset: Asset, updatedAt: int,
                             offers: seq<Offer>, k: nat)
    requires k < |GOVERNED| && HasValue(asset, GOVERNED[k].column) && GOVERNED[k].path !in asset.state
    requires NoOverride(GOVERNED[k].path, MANUAL_PRECEDENCE, offers)
    ensures var f := GOVERNED[k];
            var state := ApplyAll(hash, rec, Protect(hash, asset, updatedAt), offers).asset.state;
            f.path in state && state[f.path].effective == asset.columns[f.column] && state[f.path].manualLock
  {
    ProtectAdds(hash, asset, updatedAt, |GOVERNED|, k);
    LockedPathIsFrozen(hash, rec, Protect(hash, asset, updatedAt), offers, GOVERNED[k].path);
  }

  // ---------------------------------------------------------------------
  // The canonical columns and the change list
  // ---------------------------------------------------------------------

  ghost predicate Consistent(hash: string -> string, asset: Asset) {
    forall p :: p in asset.state ==>
      && asset.state[p].effectiveHash == hash(asset.state[p].effective)
      && (ColumnOf(p).Some? ==> ColumnOf(p).value in asset.columns
                                && asset.columns[ColumnOf(p).value] == asset.state[p].effective)
  }

  function PathOf(column: string): string {
    match column
    case "name" => "identity.name"
    case "hostname" => "identity.hostname"
    case "fqdn" => "identity.fqdn"
    case "serial_number" => "identity.serialNumber"
    case "environment" => "classification.environment"
    case "technical_status" => "technicalState"
    case "cpu_count" => "compute.cpuCount"
    case "memory_bytes" => "compute.memoryBytes"
    case "operating_system" => "operatingSystem.name"
    case _ => "operatingSystem.version"
  }

  lemma ColumnsAre(path: string, column: string)
    ensures ColumnOf(path) == Some(column) <==>
            (path, column) in {("identity.name", "name"), ("identity.hostname", "hostname"), ("identity.fqdn", "fqdn"),
                               ("identity.serialNumber", "serial_number"),
                               ("classification.environment", "environment"), ("technicalState", "technical_status"),
                               ("compute.cpuCount", "cpu_count"),
                               ("compute.memoryBytes", "memory_bytes"), ("operatingSystem.name", "operating_system"),
                               ("operatingSystem.version", "os_version")}
  {}

  lemma ColumnHasPath(p: string)
    requires ColumnOf(p).Some?
    ensures PathOf(ColumnOf(p).value) == p
  {}

  lemma ColumnsAreDistinct(p: string, q: string)
    requires ColumnOf(p).Some? && ColumnOf(p) == ColumnOf(q)
    ensures p == q
  {
    hide ColumnOf, PathOf;
    ColumnHasPath(p);
    ColumnHasPath(q);
  }

  function Values(asset: Asset): map<string, string> {
    map p | p in asset.state :: asset.state[p].effective
  }

  function Mapped(changes: seq<Change>): nat {
    if changes == [] then 0
    else Mapped(changes[..|changes| - 1]) + (if ColumnOf(changes[|changes| - 1].path).Some? then 1 else 0)
  }

  function Replay(values: map<string, string>, changes: seq<Change>): map<string, string> {
    if changes == [] then values
    else
      var n := |changes| - 1;
      Replay(values, changes[..n])[changes[n].path := changes[n].after]
  }

  lemma ApplyConsistent(hash: string -> string, rec: bool, asset: Asset, o: Offer)
    requires Injective(hash) && Consistent(hash, asset)
    ensures Consistent(hash, Apply(hash, rec, asset, o).asset)
  {
    var next := Apply(hash, rec, asset, o).asset;
    forall p | p in next.state
      ensures next.state[p].effectiveHash == hash(next.state[p].effective)
      ensures ColumnOf(p).Some? ==> ColumnOf(p).value in next.columns
                                    && next.columns[ColumnOf(p).value] == next.state[p].effective
    {
      if p != o.path && ColumnOf(p).Some? && ColumnOf(p) == ColumnOf(o.path) { ColumnsAreDistinct(p, o.path); }
    }
  }

  lemma ApplyReports(hash: string -> string, rec: bool, asset: Asset, o: Offer)
    requires Injective(hash) && Consistent(hash, asset)
    ensures var a := Apply(hash, rec, asset, o);
            match a.change
            case None => Values(a.asset) == Values(asset) && a.asset.version == asset.version
            case Some(c) =>
              && c.path == o.path && Values(a.asset) == Values(asset)[c.path := c.after]
              && c.before == (if c.path in asset.state then Some(Values(asset)[c.path]) else None)
              && c.before != Some(c.after)
              && (c.recorded <==> rec && c.before.Some?)
              && a.asset.version == asset.version + (if ColumnOf(c.path).Some? then 1 else 0)
  {
    hide ColumnOf, Keeps;
    var next := Apply(hash, rec, asset, o).asset;
    if Rewrites(hash, Get(asset.state, o.path), o) {
      assert Values(next) == Values(asset)[o.path := o.value];
    } else {
      assert next.state[o.path].effective == asset.state[o.path].effective;
      assert Values(next) == Values(asset);
    }
  }

  /** Over any run the columns mirror the effective values, the change list replays the old values into
      the new ones, and the version grows by the mapped changes. */
  lemma {:induction false} RunIsConsistent(hash: string -> string, rec: bool, asset: Asset, offers: seq<Offer>)
    requires Injective(hash) && Consistent(hash, asset)
    ensures var out := ApplyAll(hash, rec, asset, offers);
            && Consistent(hash, out.asset)
            && Values(out.asset) == Replay(Values(asset), out.changes)
            && out.asset.version == asset.version + Mapped(out.changes)
    decreases |offers|
  {
    if offers != [] {
      var n := |offers| - 1;
      RunIsConsistent(hash, rec, asset, offers[..n]);
      var front := ApplyAll(hash, rec, asset, offers[..n]);
      ApplyConsistent(hash, rec, front.asset, offers[n]);
      ApplyReports(hash, rec, front.asset, offers[n]);
      var last := Apply(hash, rec, front.asset, offers[n]);
      if last.change.Some? {
        assert (front.changes + [last.change.value])[..|front.changes|] == front.changes;
      } else {
        assert front.changes + [] == front.changes;
      }
    }
  }

  /** Every reported change is a real one: it starts from the value in force and moves to another. */
  lemma {:induction false} ChangesAreReal(hash: string -> string, rec: bool, asset: Asset, offers: seq<Offer>, k: nat)
    requires Injective(hash) && Consistent(hash, asset)
    requires k < |ApplyAll(hash, rec, asset, offers).changes|
    ensures var changes := ApplyAll(hash, rec, asset, offers).changes;
            var values := Replay(Values(asset), changes[..k]);
            && changes[k].before == (if changes[k].path in values then Some(values[changes[k].path]) else None)
            && changes[k].before != Some(changes[k].after)
            && (changes[k].recorded <==> rec && changes[k].path in values)
    decreases |offers|
  {
    var n := |offers| - 1;
    var front := ApplyAll(hash, rec, asset, offers[..n]);
    RunIsConsistent(hash, rec, asset, offers[..n]);
    if k < |front.changes| {
      ChangesAreReal(hash, rec, asset, offers[..n], k);
      assert ApplyAll(hash, rec, asset, offers).changes[..k] == front.changes[..k];
    } else {
      ApplyReports(hash, rec, front.asset, offers[n]);
      assert ApplyAll(hash, rec, asset, offers).changes[..k] == front.changes;
    }
  }

  /** Protecting the business fields keeps the columns in agreement: no governed path is mapped. */
  lemma {:induction false} ProtectConsistent(hash: string -> string, asset: Asset, updatedAt: int, n: nat)
    requires Consistent(hash, asset) && n <= |GOVERNED|
    ensures Consistent(hash, asset.(state := ProtectFirst(hash, asset, updatedAt, n)))
  {
    if n > 0 {
      ProtectConsistent(hash, asset, updatedAt, n - 1);
      assert ColumnOf(GOVERNED[n - 1].path).None?;
    }
  }
}
