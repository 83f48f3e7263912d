/** Identifiers of a discovered asset (src/server/services/cmdb-correlation.service.ts). Normalisation of values
    stays a parameter that fails on values it refuses. */
module Identifiers {
  import opened Ordering
  import opened Wrappers

  datatype Strength = STRONG | COMPOSITE | WEAK

  type Kind = string

  type Normalizer = (Kind, string) -> Option<string>

  const STRONG_KINDS: set<Kind> := {"SERIAL_NUMBER", "BIOS_UUID", "VMWARE_INSTANCE_UUID", "CLOUD_INSTANCE_ID",
    "AGENT_ID", "EDR_DEVICE_ID", "CORTEX_ASSET_ID", "SCCM_RESOURCE_ID", "AD_OBJECT_GUID"}

  function StrengthOf(kind: Kind): Strength {
    if kind in STRONG_KINDS then STRONG
    else if kind == "FQDN" || kind == "MAC_ADDRESS" then COMPOSITE
    else WEAK
  }

  lemma StrengthIs(kind: Kind)
    ensures StrengthOf(kind) == STRONG <==>
            kind in {"AD_OBJECT_GUID", "AGENT_ID", "BIOS_UUID", "CLOUD_INSTANCE_ID", "CORTEX_ASSET_ID", "EDR_DEVICE_ID",
                     "SCCM_RESOURCE_ID", "SERIAL_NUMBER", "VMWARE_INSTANCE_UUID"}
    ensures StrengthOf(kind) == COMPOSITE <==> kind in {"FQDN", "MAC_ADDRESS"}
  {}

  /** An identifier as a source reports it; an absent namespace is the empty string. */
  datatype Report = Report(kind: Kind, namespace: string, value: string, confidence: real, primary: bool)

  datatype Key = Key(kind: Kind, namespace: string, normalized: string)

  datatype Identifier = Identifier(key: Key, value: string, confidence: real, primary: bool)

  datatype Nic = Nic(macs: seq<string>, addresses: seq<string>)

  /** The part of an observation that identity correlation reads; absent texts are empty. */
  datatype Dto = Dto(reports: seq<Report>, hostname: string, fqdn: string, serialNumber: string, nics: seq<Nic>,
                     reportedOs: string, configuredOs: string, connector: string)

  function KeyOf(norm: Normalizer, r: Report): Option<Key> {
    match norm(r.kind, r.value)
    case None => None
    case Some(v) => Some(Key(r.kind, if r.namespace == "" then "GLOBAL" else r.namespace, v))
  }

  function Made(norm: Normalizer, r: Report): Identifier
    requires KeyOf(norm, r).Some?
  {
    Identifier(KeyOf(norm, r).value, r.value, r.confidence, r.primary)
  }

  /** When a later identifier takes the place of an earlier one with the same key. */
  predicate Replaces(candidate: Identifier, existing: Identifier) {
    candidate.confidence > existing.confidence || (candidate.primary && !existing.primary)
  }

  /** The position of a key, or the length when the key is absent. */
  function Find(entries: seq<Identifier>, key: Key): (k: nat)
    ensures k <= |entries|
    ensures k < |entries| ==> entries[k].key == key
    ensures forall i :: 0 <= i < k ==> entries[i].key != key
  {
    if entries == [] || entries[0].key == key then 0 else 1 + Find(entries[1..], key)
  }

  function Put(entries: seq<Identifier>, c: Identifier): seq<Identifier> {
    if entries == [] then [c]
    else if entries[0].key == c.key then (if Replaces(c, entries[0]) then [c] else [entries[0]]) + entries[1..]
    else [entries[0]] + Put(entries[1..], c)
  }

  function PutAll(norm: Normalizer, rs: seq<Report>): Option<seq<Identifier>> {
    if rs == [] then Some([])
    else
      var last := rs[|rs| - 1];
      match PutAll(norm, rs[..|rs| - 1])
      case None => None
      case Some(es) => if KeyOf(norm, last).None? then None else Some(Put(es, Made(norm, last)))
  }

  /** The insertion-ordered table of identifiers that the extraction fills. */
  class IdentifierMap {
    var entries: seq<Identifier>

    constructor ()
      ensures entries == []
    {
      entries := [];
    }

    /** A value that does not normalise raises and leaves the table alone. */
    method AddIdentifier(norm: Normalizer, value: Report) returns (added: bool)
      modifies this
      ensures added == KeyOf(norm, value).Some?
      ensures entries == if added then Put(old(entries), Made(norm, value)) else old(entries)
    {
      var key := KeyOf(norm, value);
      if key.None? { return false; }
      var candidate := Made(norm, value);
      var k := Find(entries, key.value);
      PutAtFind(entries, candidate);
      if k == |entries| {
        entries := entries + [candidate];
      } else if Replaces(candidate, entries[k]) {
        entries := entries[k := candidate];
      }
      added := true;
    }

    /** Adds the reports in turn and stops at the first that does not normalise. */
    method AddAll(norm: Normalizer, values: seq<Report>, ghost before: seq<Report>) returns (added: bool)
      requires PutAll(norm, before) == Some(entries)
      modifies this
      ensures PutAll(norm, before + values) == if added then Some(entries) else None
    {
      hide PutAll, Put, Made;
      assert before + values[..0] == before;
      for i := 0 to |values|
        invariant PutAll(norm, before + values[..i]) == Some(entries)
      {
        PutAllNext(norm, before + values[..i], values[i]);
        assert before + values[..i + 1] == before + values[..i] + [values[i]];
        added := AddIdentifier(norm, values[i]);
        if !added {
          AppendFails(norm, before + values[..i + 1], values[i + 1..]);
          assert before + values == before + values[..i + 1] + values[i + 1..];
          return;
        }
      }
      assert values[..|values|] == values;
      added := true;
    }
  }

  lemma {:induction false} PutAtFind(entries: seq<Identifier>, c: Identifier)
    ensures var k := Find(entries, c.key);
            Put(entries, c) == if k == |entries| then entries + [c]
                               else if Replaces(c, entries[k]) then entries[k := c] else entries
  {
    if entries != [] && entries[0].key != c.key {
      var rest := entries[1..];
      PutAtFind(rest, c);
      hide Replaces;
      assert entries == [entries[0]] + rest;
    }
  }

  // ---------------------------------------------------------------------
  // Extraction
  // ---------------------------------------------------------------------

  function Named(dto: Dto): seq<Report> {
    (if dto.hostname == "" then [] else [Report("HOSTNAME", "GLOBAL", dto.hostname, 60.0, true)])
    + (if dto.fqdn == "" then [] else [Report("FQDN", "DNS", dto.fqdn, 75.0, true)])
    + (if dto.serialNumber == "" then [] else [Report("SERIAL_NUMBER", "GLOBAL", dto.serialNumber, 90.0, true)])
  }

  function MacReport(mac: string): Report { Report("MAC_ADDRESS", "GLOBAL", mac, 65.0, false) }

  function MacReports(macs: seq<string>): seq<Report> { seq(|macs|, i requires 0 <= i < |macs| => MacReport(macs[i])) }

  function NicReports(nics: seq<Nic>): seq<Report> {
    if nics == [] then [] else NicReports(nics[..|nics| - 1]) + MacReports(nics[|nics| - 1].macs)
  }

  function Reports(dto: Dto): seq<Report> { dto.reports + Named(dto) + NicReports(dto.nics) }

  predicate KeyBefore(lt: (string, string) -> bool, a: Key, b: Key) {
    lt(a.kind, b.kind) || (a.kind == b.kind && (lt(a.namespace, b.namespace)
                                                || (a.namespace == b.namespace && lt(a.normalized, b.normalized))))
  }

  function KeyOrder(lt: (string, string) -> bool): (Key, Key) -> bool { (a, b) => KeyBefore(lt, a, b) }

  function ByKey(lt: (string, string) -> bool): (Identifier, Identifier) -> bool {
    (a: Identifier, b: Identifier) => KeyBefore(lt, a.key, b.key)
  }

  function Extract(lt: (string, string) -> bool, norm: Normalizer, dto: Dto): Option<seq<Identifier>> {
    match PutAll(norm, Reports(dto))
    case None => None
    case Some(es) => Some(Sort(ByKey(lt), es))
  }

  /** One report that does not normalise makes the whole extraction fail, wherever it stands. */
  lemma {:induction false} FailsExactly(norm: Normalizer, rs: seq<Report>)
    ensures PutAll(norm, rs).None? <==> exists r :: r in rs && KeyOf(norm, r).None?
  {
    if rs != [] {
      var front, last := rs[..|rs| - 1], rs[|rs| - 1];
      FailsExactly(norm, front);
      assert rs == front + [last];
      assert last in rs;
    }
  }

  lemma PutAllNext(norm: Normalizer, front: seq<Report>, r: Report)
    ensures PutAll(norm, front + [r]) ==
              if PutAll(norm, front).None? || KeyOf(norm, r).None? then None
              else Some(Put(PutAll(norm, front).value, Made(norm, r)))
  {
    assert (front + [r])[..|front|] == front;
  }

  lemma EmptyTable(norm: Normalizer)
    ensures PutAll(norm, []) == Some([])
  {}

  lemma AppendFails(norm: Normalizer, rs: seq<Report>, more: seq<Report>)
    requires PutAll(norm, rs).None?
    ensures PutAll(norm, rs + more).None?
  {
    FailsExactly(norm, rs);
    FailsExactly(norm, rs + more);
    var r :| r in rs && KeyOf(norm, r).None?;
    assert r in rs + more;
  }

  lemma {:induction false} NicsFail(norm: Normalizer, before: seq<Report>, nics: seq<Nic>, n: nat)
    requires n <= |nics| && PutAll(norm, before + NicReports(nics[..n])).None?
    ensures PutAll(norm, before + NicReports(nics)).None?
    decreases |nics|
  {
    if n == |nics| {
      assert nics[..n] == nics;
    } else {
      var front, added := nics[..|nics| - 1], MacReports(nics[|nics| - 1].macs);
      assert front[..n] == nics[..n];
      NicsFail(norm, before, front, n);
      AppendFails(norm, before + NicReports(front), added);
      assert before + NicReports(nics) == before + NicReports(front) + added;
    }
  }

  method ExtractDiscoveryIdentifiers(lt: (string, string) -> bool, norm: Normalizer, dto: Dto)
    returns (r: Option<seq<Identifier>>)
    ensures r == Extract(lt, norm, dto)
  {
    hide PutAll, Named, Sort;
    var target := new IdentifierMap();
    EmptyTable(norm);
    ghost var named := dto.reports + Named(dto);
    assert [] + dto.reports == dto.reports;
    assert Reports(dto) == named + NicReports(dto.nics);
    var added := target.AddAll(norm, dto.reports, []);
    if !added {
      assert Reports(dto) == dto.reports + (Named(dto) + NicReports(dto.nics));
      AppendFails(norm, dto.reports, Named(dto) + NicReports(dto.nics));
      return None;
    }
    added := target.AddAll(norm, Named(dto), dto.reports);
    if !added {
      AppendFails(norm, named, NicReports(dto.nics));
      return None;
    }
    assert named + NicReports(dto.nics[..0]) == named;
    for i := 0 to |dto.nics|
      invariant PutAll(norm, named + NicReports(dto.nics[..i])) == Some(target.entries)
    {
      ghost var before := named + NicReports(dto.nics[..i]);
      var macs := MacReports(dto.nics[i].macs);
      assert dto.nics[..i + 1][..i] == dto.nics[..i];
      assert named + NicReports(dto.nics[..i + 1]) == before + macs;
      added := target.AddAll(norm, macs, before);
      if !added {
        NicsFail(norm, named, dto.nics, i + 1);
        return None;
      }
    }
    assert dto.nics[..|dto.nics|] == dto.nics;
    r := Some(Sort(ByKey(lt), target.entries));
  }

  // ---------------------------------------------------------------------
  // The keys do not depend on the order of arrival
  // ---------------------------------------------------------------------

  ghost predicate HasKey(ids: seq<Identifier>, key: Key) { exists k :: 0 <= k < |ids| && ids[k].key == key }

  ghost predicate Reported(norm: Normalizer, rs: seq<Report>, key: Key) {
    exists r :: r in rs && KeyOf(norm, r) == Some(key)
  }

  ghost predicate DistinctKeys(ids: seq<Identifier>) {
    forall i, j :: 0 <= i < j < |ids| ==> ids[i].key != ids[j].key
  }

  lemma PutKeys(es: seq<Identifier>, c: Identifier, key: Key)
    ensures HasKey(Put(es, c), key) <==> HasKey(es, key) || key == c.key
    ensures DistinctKeys(es) ==> DistinctKeys(Put(es, c))
  {
    PutAtFind(es, c);
    var k := Find(es, c.key);
    var r := Put(es, c);
    hide Put;
    if k == |es| {
      assert r[k].key == c.key;
      assert forall i :: 0 <= i < k ==> r[i] == es[i];
    } else {
      assert forall i :: 0 <= i < |es| ==> r[i].key == es[i].key;
    }
  }

  lemma {:induction false} TableKeys(norm: Normalizer, rs: seq<Report>, key: Key)
    requires PutAll(norm, rs).Some?
    ensures DistinctKeys(PutAll(norm, rs).value)
    ensures HasKey(PutAll(norm, rs).value, key) <==> Reported(norm, rs, key)
  {
    hide HasKey, DistinctKeys, Put;
    if rs == [] {
      NoKeys(key);
    } else {
      var front, last := rs[..|rs| - 1], rs[|rs| - 1];
      TableKeys(norm, front, key);
      PutKeys(PutAll(norm, front).value, Made(norm, last), key);
      assert rs == front + [last];
      assert last in rs;
    }
  }

  lemma NoKeys(key: Key)
    ensures !HasKey([], key) && DistinctKeys([])
  {}

  lemma KeyOrderIsStrict(lt: (string, string) -> bool)
    requires StrictTotal(lt)
    ensures StrictTotal(KeyOrder(lt)) && StrictOrder(ByKey(lt))
  {}

  function Keys(ids: seq<Identifier>): seq<Key> { seq(|ids|, i requires 0 <= i < |ids| => ids[i].key) }

  /** The extraction fails exactly when some report does not normalise; otherwise it lists every reported key once,
      in ascending order. */
  lemma ExtractIsExact(lt: (string, string) -> bool, norm: Normalizer, dto: Dto)
    requires StrictTotal(lt)
    ensures Extract(lt, norm, dto).None? <==> exists r :: r in Reports(dto) && KeyOf(norm, r).None?
    ensures Extract(lt, norm, dto).Some? ==>
              var keys := Keys(Extract(lt, norm, dto).value);
              StrictlySorted(KeyOrder(lt), keys) && forall k: Key :: k in keys <==> Reported(norm, Reports(dto), k)
  {
    var rs := Reports(dto);
    FailsExactly(norm, rs);
    hide Reports;
    if PutAll(norm, rs).Some? {
      SortedTableKeys(lt, norm, rs);
    }
  }

  /** The fields that an observation reports besides its list of identifiers, with their confidence. */
  lemma FieldsAreReported(dto: Dto, r: Report)
    ensures r in Named(dto) + NicReports(dto.nics) <==>
            || (dto.hostname != "" && r == Report("HOSTNAME", "GLOBAL", dto.hostname, 60.0, true))
            || (dto.fqdn != "" && r == Report("FQDN", "DNS", dto.fqdn, 75.0, true))
            || (dto.serialNumber != "" && r == Report("SERIAL_NUMBER", "GLOBAL", dto.serialNumber, 90.0, true))
            || exists nic, mac :: nic in dto.nics && mac in nic.macs
                                  && r == Report("MAC_ADDRESS", "GLOBAL", mac, 65.0, false)
  {
    NicsAreReported(dto.nics, r);
    hide NicReports;
  }

  lemma {:induction false} NicsAreReported(nics: seq<Nic>, r: Report)
    ensures r in NicReports(nics) <==>
            exists nic, mac :: nic in nics && mac in nic.macs && r == Report("MAC_ADDRESS", "GLOBAL", mac, 65.0, false)
  {
    if nics != [] {
      var front, last := nics[..|nics| - 1], nics[|nics| - 1];
      NicsAreReported(front, r);
      assert nics == front + [last];
      assert last in nics;
      if mac :| mac in last.macs && r == Report("MAC_ADDRESS", "GLOBAL", mac, 65.0, false) {
        var i :| 0 <= i < |last.macs| && last.macs[i] == mac;
        assert MacReports(last.macs)[i] == r;
      }
    }
  }

  /** The value under the kind and namespace normalises to the key. */
  predicate Yields(norm: Normalizer, kind: Kind, namespace: string, value: string, k: Key) {
    k.kind == kind && k.namespace == namespace && norm(kind, value) == Some(k.normalized)
  }

  /** End to end: which keys an observation has. */
  lemma ExtractedKeysAre(lt: (string, string) -> bool, norm: Normalizer, dto: Dto, k: Key)
    requires StrictTotal(lt) && Extract(lt, norm, dto).Some?
    ensures k in Keys(Extract(lt, norm, dto).value) <==>
            || (exists r :: r in dto.reports
                            && Yields(norm, r.kind, if r.namespace == "" then "GLOBAL" else r.namespace, r.value, k))
            || (dto.hostname != "" && Yields(norm, "HOSTNAME", "GLOBAL", dto.hostname, k))
            || (dto.fqdn != "" && Yields(norm, "FQDN", "DNS", dto.fqdn, k))
            || (dto.serialNumber != "" && Yields(norm, "SERIAL_NUMBER", "GLOBAL", dto.serialNumber, k))
            || exists nic, mac :: nic in dto.nics && mac in nic.macs && Yields(norm, "MAC_ADDRESS", "GLOBAL", mac, k)
  {
    ExtractIsExact(lt, norm, dto);
    forall r
      ensures KeyOf(norm, r) == Some(k) <==>
              Yields(norm, r.kind, if r.namespace == "" then "GLOBAL" else r.namespace, r.value, k) {}
    forall r { FieldsAreReported(dto, r); }
    hide Extract, Keys, Named, NicReports, KeyOf, Yields;
    assert forall r :: r in Reports(dto) <==> r in dto.reports || r in Named(dto) + NicReports(dto.nics);
    hide Reports;
    var host := Report("HOSTNAME", "GLOBAL", dto.hostname, 60.0, true);
    var name := Report("FQDN", "DNS", dto.fqdn, 75.0, true);
    var serial := Report("SERIAL_NUMBER", "GLOBAL", dto.serialNumber, 90.0, true);
    assert KeyOf(norm, host) == Some(k) <==> Yields(norm, "HOSTNAME", "GLOBAL", dto.hostname, k);
    assert KeyOf(norm, name) == Some(k) <==> Yields(norm, "FQDN", "DNS", dto.fqdn, k);
    assert KeyOf(norm, serial) == Some(k) <==> Yields(norm, "SERIAL_NUMBER", "GLOBAL", dto.serialNumber, k);
    if nic, mac :| nic in dto.nics && mac in nic.macs && Yields(norm, "MAC_ADDRESS", "GLOBAL", mac, k) {
      var r := Report("MAC_ADDRESS", "GLOBAL", mac, 65.0, false);
      assert r in Named(dto) + NicReports(dto.nics) && KeyOf(norm, r) == Some(k);
    }
  }

  lemma SortedTableKeys(lt: (string, string) -> bool, norm: Normalizer, rs: seq<Report>)
    requires StrictTotal(lt) && PutAll(norm, rs).Some?
    ensures var keys := Keys(Sort(ByKey(lt), PutAll(norm, rs).value));
            StrictlySorted(KeyOrder(lt), keys) && forall k: Key :: k in keys <==> Reported(norm, rs, k)
  {
    var es := PutAll(norm, rs).value;
    var ids := Sort(ByKey(lt), es);
    KeyOrderIsStrict(lt);
    TableKeys(norm, rs, Key("", "", ""));
    SortSorts(ByKey(lt), es);
    SortPermutes(ByKey(lt), es);
    SameElements(ids, es);
    hide *;
    forall k ensures k in Keys(ids) <==> Reported(norm, rs, k) {
      TableKeys(norm, rs, k);
      SameKeys(ids, es, k);
    }
  }

  lemma SameKeys(ids: seq<Identifier>, es: seq<Identifier>, key: Key)
    requires forall x :: x in ids <==> x in es
    ensures key in Keys(ids) <==> HasKey(es, key)
  {
    if key in Keys(ids) {
      var i :| 0 <= i < |ids| && Keys(ids)[i] == key;
      assert ids[i] in es;
    }
    if HasKey(es, key) {
      var i :| 0 <= i < |es| && es[i].key == key;
      assert es[i] in ids;
      var j :| 0 <= j < |ids| && ids[j] == es[i];
      assert Keys(ids)[j] == key;
    }
  }

  /** The same identity facts, however ordered or repeated. */
  ghost predicate SameIdentity(d: Dto, e: Dto) {
    && (forall r :: r in d.reports <==> r in e.reports)
    && d.hostname == e.hostname && d.fqdn == e.fqdn && d.serialNumber == e.serialNumber
    && (forall r :: r in NicReports(d.nics) <==> r in NicReports(e.nics))
  }

  /** Two observations of the same facts yield the same sorted keys, or both fail. */
  lemma KeysForgetOrder(lt: (string, string) -> bool, norm: Normalizer, d: Dto, e: Dto)
    requires StrictTotal(lt) && SameIdentity(d, e)
    ensures Extract(lt, norm, d).None? <==> Extract(lt, norm, e).None?
    ensures Extract(lt, norm, d).Some? ==> Keys(Extract(lt, norm, d).value) == Keys(Extract(lt, norm, e).value)
  {
    ExtractIsExact(lt, norm, d);
    ExtractIsExact(lt, norm, e);
    forall r ensures r in Reports(d) <==> r in Reports(e) {}
    KeyOrderIsStrict(lt);
    var x, y := Extract(lt, norm, d), Extract(lt, norm, e);
    hide *;
    if x.Some? && y.Some? {
      forall k ensures k in Keys(x.value) <==> k in Keys(y.value) {
      }
      SortedUnique(KeyOrder(lt), Keys(x.value), Keys(y.value));
    }
  }

  // ---------------------------------------------------------------------
  // Which confidence and primary flag survive
  // ---------------------------------------------------------------------

  function Lookup(entries: seq<Identifier>, key: Key): Option<Identifier> {
    var k := Find(entries, key);
    if k < |entries| then Some(entries[k]) else None
  }

  /** The identifier the table holds for a key after the reports. */
  function Survivor(norm: Normalizer, rs: seq<Report>, key: Key): Option<Identifier> {
    match PutAll(norm, rs)
    case None => None
    case Some(es) => Lookup(es, key)
  }

  /** At least as confident, primary where the other is, and better in one of the two. */
  predicate Dominates(a: Identifier, b: Identifier) {
    && a.confidence >= b.confidence && (b.primary ==> a.primary)
    && (a.confidence > b.confidence || a.primary != b.primary)
  }

  ghost predicate AllNormalize(norm: Normalizer, rs: seq<Report>) { forall r :: r in rs ==> KeyOf(norm, r).Some? }

  /** Reported under the key, and dominating every different identifier reported under it. */
  ghost predicate Champion(norm: Normalizer, rs: seq<Report>, key: Key, s: Identifier)
    requires AllNormalize(norm, rs)
  {
    && (exists r :: r in rs && Made(norm, r) == s)
    && s.key == key
    && forall r :: r in rs && Made(norm, r).key == key && Made(norm, r) != s ==> Dominates(s, Made(norm, r))
  }

  lemma SurvivorAfter(norm: Normalizer, front: seq<Report>, r: Report, key: Key)
    requires PutAll(norm, front).Some? && KeyOf(norm, r).Some?
    ensures var c := Made(norm, r);
            var was := Survivor(norm, front, key);
            Survivor(norm, front + [r], key) ==
              if c.key != key then was
              else if was.None? || Replaces(c, was.value) then Some(c) else was
  {
    PutAllNext(norm, front, r);
    var es, c := PutAll(norm, front).value, Made(norm, r);
    hide PutAll;
    LookupAfterPut(es, c, key);
  }

  lemma {:induction false} LookupAfterPut(es: seq<Identifier>, c: Identifier, key: Key)
    ensures var was := Lookup(es, key);
            Lookup(Put(es, c), key) ==
              if c.key != key then was
              else if was.None? || Replaces(c, was.value) then Some(c) else was
  {
    if es != [] {
      var h, rest := es[0], es[1..];
      assert es == [h] + rest;
      LookupCons(h, rest, key);
      if h.key != c.key {
        LookupAfterPut(rest, c, key);
        LookupCons(h, Put(rest, c), key);
      } else {
        LookupCons(if Replaces(c, h) then c else h, rest, key);
      }
      hide Lookup, Replaces;
    } else {
      LookupCons(c, [], key);
      assert [c] + [] == [c];
    }
  }

  lemma LookupCons(h: Identifier, rest: seq<Identifier>, key: Key)
    ensures Lookup([h] + rest, key) == if h.key == key then Some(h) else Lookup(rest, key)
  {
    assert ([h] + rest)[1..] == rest;
  }

  /** Each report either leaves the survivor alone or takes its place. */
  lemma {:induction false} SurvivorWasReported(norm: Normalizer, rs: seq<Report>, key: Key)
    requires AllNormalize(norm, rs)
    ensures PutAll(norm, rs).Some?
    ensures Survivor(norm, rs, key).Some? <==> Reported(norm, rs, key)
    ensures Survivor(norm, rs, key).Some? ==>
              exists r :: r in rs && KeyOf(norm, r) == Some(key) && Survivor(norm, rs, key) == Some(Made(norm, r))
  {
    if rs != [] {
      var front, last := rs[..|rs| - 1], rs[|rs| - 1];
      assert rs == front + [last];
      SurvivorWasReported(norm, front, key);
      SurvivorAfter(norm, front, last, key);
      assert last in rs;
    }
  }

  /** A champion survives whatever the order. */
  lemma {:induction false} ChampionSurvives(norm: Normalizer, rs: seq<Report>, key: Key, s: Identifier)
    requires AllNormalize(norm, rs) && Champion(norm, rs, key, s)
    ensures Survivor(norm, rs, key) == Some(s)
  {
    var front, last := rs[..|rs| - 1], rs[|rs| - 1];
    assert rs == front + [last];
    SurvivorWasReported(norm, front, key);
    SurvivorAfter(norm, front, last, key);
    if exists r :: r in front && Made(norm, r) == s {
      ChampionSurvives(norm, front, key, s);
    }
  }

  /** With a report moved to the front: nothing that fails to replace it can displace it. */
  lemma {:induction false} UnbeatenStays(norm: Normalizer, x: Report, rest: seq<Report>, key: Key)
    requires AllNormalize(norm, [x] + rest) && KeyOf(norm, x) == Some(key)
    requires forall r :: r in rest && KeyOf(norm, r) == Some(key) ==> !Replaces(Made(norm, r), Made(norm, x))
    ensures Survivor(norm, [x] + rest, key) == Some(Made(norm, x))
  {
    if rest == [] {
      EmptyTable(norm);
      PutAllNext(norm, [], x);
      assert [] + [x] == [x] == [x] + rest;
    } else {
      var front, last := rest[..|rest| - 1], rest[|rest| - 1];
      assert rest == front + [last];
      assert [x] + rest == [x] + front + [last];
      UnbeatenStays(norm, x, front, key);
      SurvivorAfter(norm, [x] + front, last, key);
    }
  }

  ghost predicate OrderIrrelevant(norm: Normalizer, rs: seq<Report>, key: Key) {
    forall ts :: multiset(ts) == multiset(rs) ==> Survivor(norm, ts, key) == Survivor(norm, rs, key)
  }

  lemma MovedIsSame(rs: seq<Report>, k: nat)
    requires k < |rs|
    ensures multiset([rs[k]] + RemoveAt(rs, k)) == multiset(rs) == multiset(RemoveAt(rs, k) + [rs[k]])
    ensures forall r :: r in rs <==> r == rs[k] || r in RemoveAt(rs, k)
  {
    RemoveAtMultiset(rs, k);
    assert multiset([rs[k]] + RemoveAt(rs, k)) == multiset(rs);
    SameElements([rs[k]] + RemoveAt(rs, k), rs);
  }

  /** Moving a rival to the end shows that it cannot replace the survivor. */
  lemma RivalLoses(norm: Normalizer, rs: seq<Report>, key: Key, s: Identifier, k: nat)
    requires AllNormalize(norm, rs) && OrderIrrelevant(norm, rs, key) && Survivor(norm, rs, key) == Some(s)
    requires k < |rs| && KeyOf(norm, rs[k]) == Some(key) && Made(norm, rs[k]) != s
    ensures !Replaces(Made(norm, rs[k]), s)
  {
    MovedIsSame(rs, k);
    var rest := RemoveAt(rs, k);
    SurvivorWasReported(norm, rest, key);
    SurvivorAfter(norm, rest, rs[k], key);
    assert Survivor(norm, rest + [rs[k]], key) == Some(s);
  }

  /** Moving a rival to the front shows that the survivor is better in one of the two. */
  lemma RivalIsDominated(norm: Normalizer, rs: seq<Report>, key: Key, s: Identifier, k: nat)
    requires AllNormalize(norm, rs) && OrderIrrelevant(norm, rs, key) && Survivor(norm, rs, key) == Some(s)
    requires k < |rs| && KeyOf(norm, rs[k]) == Some(key) && Made(norm, rs[k]) != s
    requires forall r :: r in rs && KeyOf(norm, r) == Some(key) ==> !Replaces(Made(norm, r), s)
    ensures Dominates(s, Made(norm, rs[k]))
  {
    var x := Made(norm, rs[k]);
    assert rs[k] in rs;
    MovedIsSame(rs, k);
    var rest := RemoveAt(rs, k);
    if x.confidence == s.confidence && x.primary == s.primary {
      UnbeatenStays(norm, rs[k], rest, key);
    }
  }

  /** The surviving confidence and primary flag are the same in every order exactly when one reported identifier
      dominates the others; the source keeps whichever came last where two replace each other, and whichever came
      first where neither does. */
  lemma SurvivorForgetsOrderExactly(norm: Normalizer, rs: seq<Report>, key: Key)
    requires AllNormalize(norm, rs) && Reported(norm, rs, key)
    ensures OrderIrrelevant(norm, rs, key) <==> exists s :: Champion(norm, rs, key, s)
  {
    SurvivorWasReported(norm, rs, key);
    if OrderIrrelevant(norm, rs, key) {
      var s := Survivor(norm, rs, key).value;
      forall r | r in rs && KeyOf(norm, r) == Some(key) ensures !Replaces(Made(norm, r), s) {
        var k :| 0 <= k < |rs| && rs[k] == r;
        if Made(norm, r) != s { RivalLoses(norm, rs, key, s, k); }
      }
      forall r | r in rs && KeyOf(norm, r) == Some(key) && Made(norm, r) != s ensures Dominates(s, Made(norm, r)) {
        var k :| 0 <= k < |rs| && rs[k] == r;
        RivalIsDominated(norm, rs, key, s, k);
      }
      assert Champion(norm, rs, key, s);
    }
    if s :| Champion(norm, rs, key, s) {
      forall ts | multiset(ts) == multiset(rs) ensures Survivor(norm, ts, key) == Survivor(norm, rs, key) {
        SameElements(ts, rs);
        ChampionSurvives(norm, rs, key, s);
        ChampionSurvives(norm, ts, key, s);
      }
    }
  }

  /** Two reports of one serial number, one more confident and one primary: the later one survives. */
  lemma SurvivorCanDependOnOrder()
    ensures var sure := Report("SERIAL_NUMBER", "GLOBAL", "A1", 90.0, false);
            var primary := Report("SERIAL_NUMBER", "GLOBAL", "A1", 50.0, true);
            var norm := (kind: Kind, value: string) => Some(value);
            var key := Key("SERIAL_NUMBER", "GLOBAL", "A1");
            && Survivor(norm, [sure, primary], key) == Some(Made(norm, primary))
            && Survivor(norm, [primary, sure], key) == Some(Made(norm, sure))
  {
    var sure := Report("SERIAL_NUMBER", "GLOBAL", "A1", 90.0, false);
    var primary := Report("SERIAL_NUMBER", "GLOBAL", "A1", 50.0, true);
    var norm := (kind: Kind, value: string) => Some(value);
    var key := Key("SERIAL_NUMBER", "GLOBAL", "A1");
    assert KeyOf(norm, sure) == Some(key) == KeyOf(norm, primary);
    EmptyTable(norm);
    assert [] + [sure] == [sure] && [] + [primary] == [primary];
    SurvivorAfter(norm, [], sure, key);
    SurvivorAfter(norm, [], primary, key);
    assert [sure] + [primary] == [sure, primary] && [primary] + [sure] == [primary, sure];
    SurvivorAfter(norm, [sure], primary, key);
    SurvivorAfter(norm, [primary], sure, key);
  }
}
