/** Deciding whether a discovered asset is an existing one (src/server/services/cmdb-correlation.service.ts). The
    database is a snapshot; the collations, address parsing and lower-casing are parameters. */
module Correlation {
  import opened Ordering
  import opened Wrappers
  import opened Identifiers
  import opened Candidates

  /** An identifier row that is not retired. */
  datatype Holding = Holding(asset: AssetId, key: Key)

  datatype OsRow = OsRow(asset: AssetId, path: string, text: string)

  datatype SourceRow = SourceRow(asset: Option<AssetId>, active: bool, connector: string)

  datatype Override = Override(active: bool, asset: Option<AssetId>)

  datatype Db = Db(
    holdings: set<Holding>,
    linkedHoldings: set<Holding>,
    strongKinds: set<Kind>,
    addresses: set<(AssetId, string)>,
    osRows: seq<OsRow>,
    sources: seq<SourceRow>,
    connectorTypes: map<string, string>,
    overrides: map<string, Override>)

  datatype Env = Env(
    locale: (string, string) -> bool,
    units: (string, string) -> bool,
    rows: (string, string) -> bool,
    inet: string -> string,
    lower: string -> string)

  ghost predicate Sound(env: Env) { StrictTotal(env.locale) && StrictTotal(env.units) && StrictTotal(env.rows) }

  datatype SourceRecord = SourceRecord(id: string, asset: Option<AssetId>)

  datatype Outcome = AUTO_LINK | REVIEW_REQUIRED | CREATE_NEW | IDENTITY_CONFLICT

  datatype Resolution = Resolution(outcome: Outcome, asset: Option<AssetId>, confidence: nat,
                                   candidates: seq<Candidate>, evidence: seq<Evidence>)

  // ---------------------------------------------------------------------
  // Evidence
  // ---------------------------------------------------------------------

  function SignalScore(strength: Strength): nat {
    match strength
    case STRONG => 100
    case COMPOSITE => 30
    case WEAK => 10
  }

  function KeyEvidence(k: Key, a: AssetId): Evidence {
    Evidence(Matched(k), StrengthOf(k.kind), a, SignalScore(StrengthOf(k.kind)))
  }

  function HolderSet(db: Db, k: Key): set<AssetId> { set h | h in db.holdings && h.key == k :: h.asset }

  function KeyMatches(k: Key, holders: seq<AssetId>): seq<Evidence> {
    seq(|holders|, i requires 0 <= i < |holders| => KeyEvidence(k, holders[i]))
  }

  function KeysEvidence(env: Env, db: Db, keys: seq<Key>): seq<Evidence>
    requires Sound(env)
  {
    if keys == [] then []
    else
      var last := keys[|keys| - 1];
      KeysEvidence(env, db, keys[..|keys| - 1]) + KeyMatches(last, SetToSeq(env.rows, HolderSet(db, last)))
  }

  function AddressSet(nics: seq<Nic>): set<string> { set n, ip | n in nics && ip in n.addresses :: ip }

  function AddressHolders(env: Env, db: Db, ip: string): set<AssetId> {
    set p | p in db.addresses && p.1 == env.inet(ip) :: p.0
  }

  function IpEvidence(ip: string, a: AssetId): Evidence { Evidence(IpAddress(ip), WEAK, a, 5) }

  function IpMatches(ip: string, holders: seq<AssetId>): seq<Evidence> {
    seq(|holders|, i requires 0 <= i < |holders| => IpEvidence(ip, holders[i]))
  }

  function IpsEvidence(env: Env, db: Db, ips: seq<string>): seq<Evidence>
    requires Sound(env)
  {
    if ips == [] then []
    else
      var last := ips[|ips| - 1];
      IpsEvidence(env, db, ips[..|ips| - 1]) + IpMatches(last, SetToSeq(env.rows, AddressHolders(env, db, last)))
  }

  predicate IsFqdn(s: Signal) { s.Matched? && s.key.kind == "FQDN" }

  function FqdnAssets(es: seq<Evidence>): set<AssetId> { set e | e in es && IsFqdn(e.signal) :: e.asset }

  predicate Contains(s: string, part: string) {
    exists i :: 0 <= i <= |s| - |part| && StartsAt(s, part, i)
  }

  predicate StartsAt(s: string, part: string, i: nat) {
    i + |part| <= |s| && s[i..i + |part|] == part
  }

  const LINUX_NAMES: seq<string> := ["linux", "ubuntu", "debian", "rhel", "centos", "suse", "fedora"]
  const MAC_NAMES: seq<string> := ["mac os", "macos", "darwin"]
  const OS_PATHS: seq<string> := ["operatingSystem.name", "operatingSystem.reported", "operatingSystem.configured"]

  function FamilyOf(env: Env, text: string): Option<OsFamilyName> {
    var s := env.lower(text);
    if Contains(s, "windows") then Some(WINDOWS)
    else if exists i :: 0 <= i < |LINUX_NAMES| && Contains(s, LINUX_NAMES[i]) then Some(LINUX)
    else if exists i :: 0 <= i < |MAC_NAMES| && Contains(s, MAC_NAMES[i]) then Some(MACOS)
    else None
  }

  function IncomingFamily(env: Env, dto: Dto): Option<OsFamilyName> {
    FamilyOf(env, if dto.reportedOs != "" then dto.reportedOs else dto.configuredOs)
  }

  function FamilyEvidence(family: OsFamilyName, a: AssetId): Evidence { Evidence(OsFamily(family), WEAK, a, 10) }

  predicate RowAgrees(env: Env, row: OsRow, family: OsFamilyName, fqdn: set<AssetId>) {
    row.asset in fqdn && row.path in OS_PATHS && FamilyOf(env, row.text) == Some(family)
  }

  function RowsEvidence(env: Env, rows: seq<OsRow>, family: OsFamilyName, fqdn: set<AssetId>): seq<Evidence> {
    if rows == [] then []
    else
      var front, last := RowsEvidence(env, rows[..|rows| - 1], family, fqdn), rows[|rows| - 1];
      if RowAgrees(env, last, family, fqdn) then front + [FamilyEvidence(family, last.asset)] else front
  }

  function OsEvidence(env: Env, db: Db, dto: Dto, fqdn: set<AssetId>): seq<Evidence> {
    var incoming := IncomingFamily(env, dto);
    if incoming.None? || fqdn == {} then [] else RowsEvidence(env, db.osRows, incoming.value, fqdn)
  }

  predicate ReportedElsewhere(r: SourceRow, connector: string, a: AssetId) {
    r.asset == Some(a) && r.active && r.connector != connector
  }

  /** The types of the other connectors that actively report the asset. */
  function OtherTypes(db: Db, connector: string, a: AssetId): set<string> {
    set r | r in db.sources && ReportedElsewhere(r, connector, a) && r.connector in db.connectorTypes
      :: db.connectorTypes[r.connector]
  }

  function SourceEvidence(db: Db, connector: string, a: AssetId): Evidence {
    Evidence(IndependentSource(|OtherTypes(db, connector, a)|), WEAK, a, 10)
  }

  function SourcesEvidence(db: Db, connector: string, assets: seq<AssetId>): seq<Evidence> {
    if assets == [] then []
    else
      var front, last := SourcesEvidence(db, connector, assets[..|assets| - 1]), assets[|assets| - 1];
      if |OtherTypes(db, connector, last)| > 0 then front + [SourceEvidence(db, connector, last)] else front
  }

  function Direct(env: Env, db: Db, dto: Dto, keys: seq<Key>): seq<Evidence>
    requires Sound(env)
  {
    KeysEvidence(env, db, keys) + IpsEvidence(env, db, SetToSeq(env.units, AddressSet(dto.nics)))
  }

  function Gathered(env: Env, db: Db, dto: Dto, keys: seq<Key>): seq<Evidence>
    requires Sound(env)
  {
    var direct := Direct(env, db, dto, keys);
    var fqdn := FqdnAssets(direct);
    direct + OsEvidence(env, db, dto, fqdn) + SourcesEvidence(db, dto.connector, SetToSeq(env.rows, fqdn))
  }

  method GatherMatches(env: Env, db: Db, ids: seq<Identifier>) returns (evidence: seq<Evidence>)
    requires Sound(env)
    ensures evidence == KeysEvidence(env, db, Keys(ids))
  {
    evidence := [];
    ghost var keys := Keys(ids);
    for n := 0 to |ids|
      invariant evidence == KeysEvidence(env, db, keys[..n])
    {
      assert keys[..n + 1][..n] == keys[..n];
      evidence := evidence + KeyMatches(ids[n].key, SetToSeq(env.rows, HolderSet(db, ids[n].key)));
    }
    assert keys[..|ids|] == keys;
  }

  method GatherAddresses(env: Env, db: Db, ips: seq<string>) returns (evidence: seq<Evidence>)
    requires Sound(env)
    ensures evidence == IpsEvidence(env, db, ips)
  {
    evidence := [];
    for n := 0 to |ips|
      invariant evidence == IpsEvidence(env, db, ips[..n])
    {
      assert ips[..n + 1][..n] == ips[..n];
      evidence := evidence + IpMatches(ips[n], SetToSeq(env.rows, AddressHolders(env, db, ips[n])));
    }
    assert ips[..|ips|] == ips;
  }

  method GatherFamily(env: Env, db: Db, dto: Dto, fqdn: set<AssetId>) returns (evidence: seq<Evidence>)
    ensures evidence == OsEvidence(env, db, dto, fqdn)
  {
    evidence := [];
    var incoming := IncomingFamily(env, dto);
    if incoming.None? || fqdn == {} { return; }
    hide FamilyOf, RowAgrees;
    for n := 0 to |db.osRows|
      invariant evidence == RowsEvidence(env, db.osRows[..n], incoming.value, fqdn)
    {
      assert db.osRows[..n + 1][..n] == db.osRows[..n];
      if RowAgrees(env, db.osRows[n], incoming.value, fqdn) {
        evidence := evidence + [FamilyEvidence(incoming.value, db.osRows[n].asset)];
      }
    }
    assert db.osRows[..|db.osRows|] == db.osRows;
  }

  method GatherSources(db: Db, connector: string, assets: seq<AssetId>) returns (evidence: seq<Evidence>)
    ensures evidence == SourcesEvidence(db, connector, assets)
  {
    evidence := [];
    hide OtherTypes;
    for n := 0 to |assets|
      invariant evidence == SourcesEvidence(db, connector, assets[..n])
    {
      assert assets[..n + 1][..n] == assets[..n];
      if |OtherTypes(db, connector, assets[n])| > 0 {
        evidence := evidence + [SourceEvidence(db, connector, assets[n])];
      }
    }
    assert assets[..|assets|] == assets;
  }

  // ---------------------------------------------------------------------
  // The decision
  // ---------------------------------------------------------------------

  function StrongAssets(es: seq<Evidence>): set<AssetId> { set e | e in es && e.strength == STRONG :: e.asset }

  predicate IsStrong(k: Key) { StrengthOf(k.kind) == STRONG }

  predicate AnyStrong(keys: seq<Key>) { exists k :: k in keys && IsStrong(k) }

  /** The asset already has another value for one of the incoming strong identifiers. */
  predicate Contradicts(db: Db, keys: seq<Key>, a: AssetId) {
    exists k, h :: k in keys && h in db.linkedHoldings && IsStrong(k) && h.asset == a && h.key.kind in db.strongKinds
                   && h.key.kind == k.kind && h.key.namespace == k.namespace && h.key.normalized != k.normalized
  }

  function OverrideFor(db: Db, record: SourceRecord): Option<AssetId> {
    if record.id in db.overrides && db.overrides[record.id].active then db.overrides[record.id].asset else None
  }

  predicate Corroborated(c: Candidate) {
    && (exists e :: e in c.evidence && IsFqdn(e.signal))
    && (exists e :: e in c.evidence && e.signal.OsFamily?)
    && (exists e :: e in c.evidence && e.signal.IndependentSource?)
  }

  function Decision(db: Db, record: SourceRecord, keys: seq<Key>, es: seq<Evidence>, cs: seq<Candidate>): Resolution {
    var linked := OverrideFor(db, record);
    if linked.Some? then Resolution(AUTO_LINK, linked, 100, cs, es)
    else if record.asset.Some? then
      if Contradicts(db, keys, record.asset.value) || (exists a :: a in StrongAssets(es) && a != record.asset.value)
      then Resolution(IDENTITY_CONFLICT, None, 0, cs, es)
      else Resolution(AUTO_LINK, record.asset, 100, cs, es)
    else FreshDecision(keys, StrongAssets(es), es, cs)
  }

  /** A candidate that weak evidence suffices for. */
  predicate Sufficient(cs: seq<Candidate>) { |cs| == 1 && (cs[0].medium >= 2 || Corroborated(cs[0])) }

  /** The decision for a source record that is not linked yet. */
  function FreshDecision(keys: seq<Key>, strong: set<AssetId>, es: seq<Evidence>, cs: seq<Candidate>): Resolution {
    if |strong| == 1 then Resolution(AUTO_LINK, Some(TheOnly(strong)), 100, cs, es)
    else if |strong| > 1 then Resolution(IDENTITY_CONFLICT, None, 0, cs, es)
    else if |cs| == 1 && cs[0].medium >= 2 then Resolution(AUTO_LINK, Some(cs[0].asset), 85, cs, es)
    else if |cs| == 1 && Corroborated(cs[0]) then Resolution(AUTO_LINK, Some(cs[0].asset), 80, cs, es)
    else if AnyStrong(keys) then Resolution(CREATE_NEW, None, 100, cs, es)
    else if cs == [] then Resolution(CREATE_NEW, None, 100, cs, es)
    else Resolution(REVIEW_REQUIRED, None, if cs[0].score < 79 then cs[0].score else 79, cs, es)
  }

  lemma OneElement(s: set<AssetId>, a: AssetId)
    requires |s| == 1 && a in s
    ensures s == {a}
  {
    assert |s - {a}| == 0;
  }

  function TheOnly(s: set<AssetId>): (a: AssetId)
    requires |s| == 1
    ensures s == {a}
  {
    assert s != {};
    assert forall x, y :: x in s && y in s ==> x == y by {
      forall x, y | x in s && y in s ensures x == y { OneElement(s, x); }
    }
    var a :| a in s;
    OneElement(s, a);
    a
  }

  function Resolved(env: Env, db: Db, record: SourceRecord, dto: Dto, keys: seq<Key>): Resolution
    requires Sound(env)
  {
    var es := Gathered(env, db, dto, keys);
    Decision(db, record, keys, es, CandidatesOf(env.locale, es))
  }

  method Resolve(env: Env, db: Db, record: SourceRecord, dto: Dto, identifiers: seq<Identifier>) returns (r: Resolution)
    requires Sound(env)
    ensures r == Resolved(env, db, record, dto, Keys(identifiers))
  {
    var matches := GatherMatches(env, db, identifiers);
    var ips := GatherAddresses(env, db, SetToSeq(env.units, AddressSet(dto.nics)));
    var fqdn := FqdnAssets(matches + ips);
    var family := GatherFamily(env, db, dto, fqdn);
    var sources := GatherSources(db, dto.connector, SetToSeq(env.rows, fqdn));
    var evidence := matches + ips + family + sources;
    assert evidence == Gathered(env, db, dto, Keys(identifiers));
    hide *;
    var candidates := CandidateMap(env.locale, evidence);
    r := Decision(db, record, Keys(identifiers), evidence, candidates);
  }

  lemma FreshLinks(keys: seq<Key>, strong: set<AssetId>, es: seq<Evidence>, cs: seq<Candidate>, a: AssetId)
    ensures var r := FreshDecision(keys, strong, es, cs);
            r.outcome == AUTO_LINK && r.asset == Some(a) <==>
              strong == {a} || (|strong| == 0 && Sufficient(cs) && cs[0].asset == a)
  {
    hide Corroborated, AnyStrong;
  }

  lemma FreshCreates(keys: seq<Key>, strong: set<AssetId>, es: seq<Evidence>, cs: seq<Candidate>)
    ensures var r := FreshDecision(keys, strong, es, cs);
            && (r.outcome == CREATE_NEW <==> |strong| == 0 && !Sufficient(cs) && (AnyStrong(keys) || cs == []))
            && (r.outcome == IDENTITY_CONFLICT <==> |strong| > 1)
  {
    hide Corroborated, AnyStrong;
  }

  // ---------------------------------------------------------------------
  // What the evidence says about the database
  // ---------------------------------------------------------------------

  predicate Holds(db: Db, a: AssetId, k: Key) { Holding(a, k) in db.holdings }

  lemma MatchesAre(k: Key, holders: seq<AssetId>, e: Evidence)
    ensures e in KeyMatches(k, holders) <==> e.asset in holders && e == KeyEvidence(k, e.asset)
  {
    if e.asset in holders && e == KeyEvidence(k, e.asset) {
      var i :| 0 <= i < |holders| && holders[i] == e.asset;
      assert KeyMatches(k, holders)[i] == e;
    }
  }

  lemma {:induction false} KeysEvidenceIs(env: Env, db: Db, keys: seq<Key>, e: Evidence)
    requires Sound(env)
    ensures e in KeysEvidence(env, db, keys) <==>
            e.signal.Matched? && e.signal.key in keys && Holds(db, e.asset, e.signal.key)
            && e == KeyEvidence(e.signal.key, e.asset)
  {
    if keys != [] {
      var front, last := keys[..|keys| - 1], keys[|keys| - 1];
      assert keys == front + [last];
      KeysEvidenceIs(env, db, front, e);
      MatchesAre(last, SetToSeq(env.rows, HolderSet(db, last)), e);
    }
  }

  lemma IpMatchesAre(ip: string, holders: seq<AssetId>, e: Evidence)
    ensures e in IpMatches(ip, holders) <==> e.asset in holders && e == IpEvidence(ip, e.asset)
  {
    if e.asset in holders && e == IpEvidence(ip, e.asset) {
      var i :| 0 <= i < |holders| && holders[i] == e.asset;
      assert IpMatches(ip, holders)[i] == e;
    }
  }

  predicate HasAddress(env: Env, db: Db, a: AssetId, ip: string) { (a, env.inet(ip)) in db.addresses }

  lemma {:induction false} IpsEvidenceIs(env: Env, db: Db, ips: seq<string>, e: Evidence)
    requires Sound(env)
    ensures e in IpsEvidence(env, db, ips) <==>
            e.signal.IpAddress? && e.signal.address in ips && HasAddress(env, db, e.asset, e.signal.address)
            && e == IpEvidence(e.signal.address, e.asset)
  {
    if ips != [] {
      var front, last := ips[..|ips| - 1], ips[|ips| - 1];
      assert ips == front + [last];
      IpsEvidenceIs(env, db, front, e);
      IpMatchesAre(last, SetToSeq(env.rows, AddressHolders(env, db, last)), e);
    }
  }

  lemma {:induction false} RowsEvidenceIs(env: Env, rows: seq<OsRow>, family: OsFamilyName, fqdn: set<AssetId>,
                                          e: Evidence)
    ensures e in RowsEvidence(env, rows, family, fqdn) <==>
            e == FamilyEvidence(family, e.asset)
            && exists row :: row in rows && row.asset == e.asset && RowAgrees(env, row, family, fqdn)
  {
    if rows != [] {
      var front, last := rows[..|rows| - 1], rows[|rows| - 1];
      assert rows == front + [last];
      assert last in rows;
      RowsEvidenceIs(env, front, family, fqdn, e);
      hide RowAgrees;
    }
  }

  lemma {:induction false} SourcesEvidenceIs(db: Db, connector: string, assets: seq<AssetId>, e: Evidence)
    ensures e in SourcesEvidence(db, connector, assets) <==>
            e.asset in assets && |OtherTypes(db, connector, e.asset)| > 0 && e == SourceEvidence(db, connector, e.asset)
  {
    hide OtherTypes;
    if assets != [] {
      var front, last := assets[..|assets| - 1], assets[|assets| - 1];
      assert assets == front + [last];
      SourcesEvidenceIs(db, connector, front, e);
    }
  }

  predicate FqdnHolder(db: Db, keys: seq<Key>, a: AssetId) {
    exists k :: k in keys && k.kind == "FQDN" && Holds(db, a, k)
  }

  predicate AddressHolder(env: Env, db: Db, dto: Dto, a: AssetId) {
    exists ip :: ip in AddressSet(dto.nics) && HasAddress(env, db, a, ip)
  }

  /** The asset holds an incoming identifier or an incoming address. */
  predicate Touched(env: Env, db: Db, dto: Dto, keys: seq<Key>, a: AssetId) {
    (exists k :: k in keys && Holds(db, a, k)) || AddressHolder(env, db, dto, a)
  }

  predicate StrongHolder(db: Db, keys: seq<Key>, a: AssetId) {
    exists k :: k in keys && IsStrong(k) && Holds(db, a, k)
  }

  /** The incoming operating system is of the family recorded for the asset. */
  predicate FamilyAgrees(env: Env, db: Db, dto: Dto, a: AssetId) {
    IncomingFamily(env, dto).Some?
    && exists row :: row in db.osRows && row.asset == a && row.path in OS_PATHS
                     && FamilyOf(env, row.text) == IncomingFamily(env, dto)
  }

  predicate OtherSource(db: Db, connector: string, a: AssetId) {
    exists r :: r in db.sources && ReportedElsewhere(r, connector, a) && r.connector in db.connectorTypes
  }

  /** How many of the incoming identifiers of the strength the asset holds. */
  function Hits(db: Db, keys: seq<Key>, a: AssetId, strength: Strength): nat {
    if keys == [] then 0
    else
      var last := keys[|keys| - 1];
      Hits(db, keys[..|keys| - 1], a, strength)
      + if StrengthOf(last.kind) == strength && Holds(db, a, last) then 1 else 0
  }

  lemma DirectIs(env: Env, db: Db, dto: Dto, keys: seq<Key>, e: Evidence)
    requires Sound(env)
    ensures e in Direct(env, db, dto, keys) <==>
            || (e.signal.Matched? && e.signal.key in keys && Holds(db, e.asset, e.signal.key)
                && e == KeyEvidence(e.signal.key, e.asset))
            || (e.signal.IpAddress? && e.signal.address in AddressSet(dto.nics)
                && HasAddress(env, db, e.asset, e.signal.address)
                && e == IpEvidence(e.signal.address, e.asset))
  {
    KeysEvidenceIs(env, db, keys, e);
    IpsEvidenceIs(env, db, SetToSeq(env.units, AddressSet(dto.nics)), e);
  }

  lemma FqdnAssetsAre(env: Env, db: Db, dto: Dto, keys: seq<Key>, a: AssetId)
    requires Sound(env)
    ensures a in FqdnAssets(Direct(env, db, dto, keys)) <==> FqdnHolder(db, keys, a)
  {
    var es := Direct(env, db, dto, keys);
    if a in FqdnAssets(es) {
      var e :| e in es && IsFqdn(e.signal) && e.asset == a;
      DirectIs(env, db, dto, keys, e);
    }
    if k :| k in keys && k.kind == "FQDN" && Holds(db, a, k) {
      DirectIs(env, db, dto, keys, KeyEvidence(k, a));
    }
  }

  lemma OtherTypesCount(db: Db, connector: string, a: AssetId)
    ensures |OtherTypes(db, connector, a)| > 0 <==> OtherSource(db, connector, a)
  {
    var types := OtherTypes(db, connector, a);
    if r :| r in db.sources && ReportedElsewhere(r, connector, a) && r.connector in db.connectorTypes {
      assert db.connectorTypes[r.connector] in types;
    }
    if |types| > 0 {
      assert types != {};
      var t :| t in types;
    }
  }

  ghost predicate IsFamily(env: Env, db: Db, dto: Dto, keys: seq<Key>, e: Evidence) {
    FqdnHolder(db, keys, e.asset) && FamilyAgrees(env, db, dto, e.asset)
    && e == FamilyEvidence(IncomingFamily(env, dto).value, e.asset)
  }

  ghost predicate IsSource(db: Db, dto: Dto, keys: seq<Key>, e: Evidence) {
    FqdnHolder(db, keys, e.asset) && OtherSource(db, dto.connector, e.asset)
    && e == SourceEvidence(db, dto.connector, e.asset)
  }

  lemma OsEvidenceIs(env: Env, db: Db, dto: Dto, keys: seq<Key>, fqdn: set<AssetId>, e: Evidence)
    requires forall a :: a in fqdn <==> FqdnHolder(db, keys, a)
    ensures e in OsEvidence(env, db, dto, fqdn) <==> IsFamily(env, db, dto, keys, e)
  {
    var incoming := IncomingFamily(env, dto);
    hide FqdnHolder, FamilyOf, IncomingFamily;
    if incoming.Some? {
      RowsEvidenceIs(env, db.osRows, incoming.value, fqdn, e);
    }
  }

  /** Every piece of evidence, in terms of the rows behind it. */
  lemma GatheredIs(env: Env, db: Db, dto: Dto, keys: seq<Key>, e: Evidence)
    requires Sound(env)
    ensures e in Gathered(env, db, dto, keys) <==>
            e in Direct(env, db, dto, keys) || IsFamily(env, db, dto, keys, e) || IsSource(db, dto, keys, e)
  {
    var direct := Direct(env, db, dto, keys);
    var fqdn := FqdnAssets(direct);
    forall a ensures a in fqdn <==> FqdnHolder(db, keys, a) { FqdnAssetsAre(env, db, dto, keys, a); }
    OsEvidenceIs(env, db, dto, keys, fqdn, e);
    SourcesEvidenceIs(db, dto.connector, SetToSeq(env.rows, fqdn), e);
    OtherTypesCount(db, dto.connector, e.asset);
  }

  // The same in terms of the columns alone.

  ghost predicate Within(part: string, s: string) { exists p, q :: s == p + part + q }

  lemma ContainsIs(s: string, part: string)
    ensures Contains(s, part) <==> Within(part, s)
  {
    if Contains(s, part) {
      var i :| 0 <= i <= |s| - |part| && StartsAt(s, part, i);
      assert s == s[..i] + part + s[i + |part|..];
    }
    if p, q :| s == p + part + q { assert StartsAt(s, part, |p|); }
  }

  ghost predicate AnyWithin(parts: set<string>, s: string) { exists part :: part in parts && Within(part, s) }

  lemma AnyIsWithin(names: seq<string>, parts: set<string>, s: string)
    requires forall x :: x in parts <==> x in names
    ensures (exists i :: 0 <= i < |names| && Contains(s, names[i])) <==> AnyWithin(parts, s)
  {
    forall part ensures Contains(s, part) <==> Within(part, s) { ContainsIs(s, part); }
    hide Contains, Within;
  }

  /** Windows is recognised first, then the Linux distributions, then macOS. */
  lemma FamilyIs(env: Env, text: string)
    ensures var s, f := env.lower(text), FamilyOf(env, text);
            var windows := Within("windows", s);
            var linux := AnyWithin({"linux", "ubuntu", "debian", "rhel", "centos", "suse", "fedora"}, s);
            var mac := AnyWithin({"mac os", "macos", "darwin"}, s);
            && (f == Some(WINDOWS) <==> windows)
            && (f == Some(LINUX) <==> !windows && linux)
            && (f == Some(MACOS) <==> !windows && !linux && mac)
            && (f == None <==> !windows && !linux && !mac)
  {
    var s := env.lower(text);
    ContainsIs(s, "windows");
    var linux := {"linux", "ubuntu", "debian", "rhel", "centos", "suse", "fedora"};
    var mac := {"mac os", "macos", "darwin"};
    assert (forall x :: x in linux <==> x in LINUX_NAMES) && forall x :: x in mac <==> x in MAC_NAMES;
    hide LINUX_NAMES, MAC_NAMES, Contains, Within, AnyWithin;
    AnyIsWithin(LINUX_NAMES, linux, s);
    AnyIsWithin(MAC_NAMES, mac, s);
  }

  /** The asset holds an incoming name, so supporting evidence may speak for it. */
  ghost predicate NameHolder(db: Db, keys: seq<Key>, a: AssetId) {
    exists k :: k in keys && k.kind == "FQDN" && Holding(a, k) in db.holdings
  }

  /** The types of connectors, other than this one, with an active record of the asset. */
  ghost function TypesElsewhere(db: Db, connector: string, a: AssetId): set<string> {
    set r | r in db.sources && r.active && r.connector != connector && r.asset == Some(a)
            && r.connector in db.connectorTypes :: db.connectorTypes[r.connector]
  }

  /** The rows of the database behind a piece of evidence, and its grade. */
  ghost predicate Backed(env: Env, db: Db, dto: Dto, keys: seq<Key>, e: Evidence) {
    match e.signal
    case Matched(k) =>
      && k in keys && Holding(e.asset, k) in db.holdings && e.strength == StrengthOf(k.kind)
      && e.score == (match e.strength case STRONG => 100 case COMPOSITE => 30 case WEAK => 10)
    case IpAddress(ip) =>
      && (exists nic :: nic in dto.nics && ip in nic.addresses) && (e.asset, env.inet(ip)) in db.addresses
      && e.strength == WEAK && e.score == 5
    case OsFamily(f) =>
      && NameHolder(db, keys, e.asset)
      && FamilyOf(env, if dto.reportedOs != "" then dto.reportedOs else dto.configuredOs) == Some(f)
      && (exists row ::
            && row in db.osRows && row.asset == e.asset && FamilyOf(env, row.text) == Some(f)
            && row.path in {"operatingSystem.name", "operatingSystem.reported", "operatingSystem.configured"})
      && e.strength == WEAK && e.score == 10
    case IndependentSource(n) =>
      && NameHolder(db, keys, e.asset) && n == |TypesElsewhere(db, dto.connector, e.asset)| > 0
      && e.strength == WEAK && e.score == 10
  }

  lemma FamilyIsBacked(env: Env, db: Db, dto: Dto, keys: seq<Key>, e: Evidence)
    ensures IsFamily(env, db, dto, keys, e) <==> e.signal.OsFamily? && Backed(env, db, dto, keys, e)
  {
    hide FamilyOf;
    assert forall p :: p in OS_PATHS <==>
                       p in {"operatingSystem.name", "operatingSystem.reported", "operatingSystem.configured"};
    hide OS_PATHS;
    assert FqdnHolder(db, keys, e.asset) <==> NameHolder(db, keys, e.asset);
  }

  lemma SourceIsBacked(env: Env, db: Db, dto: Dto, keys: seq<Key>, e: Evidence)
    ensures IsSource(db, dto, keys, e) <==> e.signal.IndependentSource? && Backed(env, db, dto, keys, e)
  {
    OtherTypesCount(db, dto.connector, e.asset);
    assert OtherTypes(db, dto.connector, e.asset) == TypesElsewhere(db, dto.connector, e.asset);
    assert FqdnHolder(db, keys, e.asset) <==> NameHolder(db, keys, e.asset);
    hide OtherSource, OtherTypes, TypesElsewhere, FqdnHolder, NameHolder;
  }

  /** A piece of evidence is gathered exactly when the rows behind it are there. */
  lemma EvidenceExactly(env: Env, db: Db, dto: Dto, keys: seq<Key>, e: Evidence)
    requires Sound(env)
    ensures e in Gathered(env, db, dto, keys) <==> Backed(env, db, dto, keys, e)
  {
    GatheredIs(env, db, dto, keys, e);
    DirectIs(env, db, dto, keys, e);
    FamilyIsBacked(env, db, dto, keys, e);
    SourceIsBacked(env, db, dto, keys, e);
    assert IsFamily(env, db, dto, keys, e) ==> e.signal.OsFamily?;
    assert IsSource(db, dto, keys, e) ==> e.signal.IndependentSource?;
    hide Gathered, Direct, IsFamily, IsSource, FamilyOf, NameHolder, TypesElsewhere, StrengthOf;
    if e.signal.IpAddress? {
      assert e.signal.address in AddressSet(dto.nics) <==>
             exists nic :: nic in dto.nics && e.signal.address in nic.addresses;
    }
  }

  /** Supporting evidence names no asset that identifiers and addresses do not. */
  lemma AssetsAreTouched(env: Env, db: Db, dto: Dto, keys: seq<Key>, a: AssetId)
    requires Sound(env)
    ensures Mentions(Gathered(env, db, dto, keys), a) <==> Touched(env, db, dto, keys, a)
  {
    hide IsFamily, IsSource, Gathered, Direct;
    if e :| e in Gathered(env, db, dto, keys) && e.asset == a {
      GatheredIs(env, db, dto, keys, e);
      DirectIs(env, db, dto, keys, e);
      if IsFamily(env, db, dto, keys, e) || IsSource(db, dto, keys, e) { SupportNeedsFqdn(env, db, dto, keys, e); }
    }
    if k :| k in keys && Holds(db, a, k) {
      var e := KeyEvidence(k, a);
      DirectIs(env, db, dto, keys, e);
      GatheredIs(env, db, dto, keys, e);
    }
    if ip :| ip in AddressSet(dto.nics) && HasAddress(env, db, a, ip) {
      var e := IpEvidence(ip, a);
      DirectIs(env, db, dto, keys, e);
      GatheredIs(env, db, dto, keys, e);
    }
  }

  lemma SupportNeedsFqdn(env: Env, db: Db, dto: Dto, keys: seq<Key>, e: Evidence)
    requires IsFamily(env, db, dto, keys, e) || IsSource(db, dto, keys, e)
    ensures exists k :: k in keys && Holds(db, e.asset, k)
    ensures e.strength == WEAK && !e.signal.Matched?
  {}

  lemma StrongAssetsAre(env: Env, db: Db, dto: Dto, keys: seq<Key>, a: AssetId)
    requires Sound(env)
    ensures a in StrongAssets(Gathered(env, db, dto, keys)) <==> StrongHolder(db, keys, a)
  {
    hide IsFamily, IsSource, Gathered, Direct;
    var es := Gathered(env, db, dto, keys);
    if a in StrongAssets(es) {
      var e :| e in es && e.strength == STRONG && e.asset == a;
      GatheredIs(env, db, dto, keys, e);
      DirectIs(env, db, dto, keys, e);
      if IsFamily(env, db, dto, keys, e) || IsSource(db, dto, keys, e) { SupportNeedsFqdn(env, db, dto, keys, e); }
    }
    if k :| k in keys && IsStrong(k) && Holds(db, a, k) {
      DirectIs(env, db, dto, keys, KeyEvidence(k, a));
      GatheredIs(env, db, dto, keys, KeyEvidence(k, a));
    }
  }

  lemma {:induction false} MatchesCount(k: Key, holders: seq<AssetId>, a: AssetId, strength: Strength)
    requires Distinct(holders)
    ensures CountFor(KeyMatches(k, holders), a, strength) ==
            if StrengthOf(k.kind) == strength && a in holders then 1 else 0
  {
    hide StrengthOf;
    if holders == [] {
      assert KeyMatches(k, holders) == [];
    } else {
      var front, last := holders[..|holders| - 1], holders[|holders| - 1];
      assert holders == front + [last];
      MatchesCount(k, front, a, strength);
      assert last !in front;
      var e := KeyEvidence(k, last);
      assert KeyMatches(k, holders) == KeyMatches(k, front) + [e];
      CountForAppend(KeyMatches(k, front), [e], a, strength);
      CountForOne(e, a, strength);
    }
  }

  lemma {:induction false} KeysEvidenceCount(env: Env, db: Db, keys: seq<Key>, a: AssetId, strength: Strength)
    requires Sound(env)
    ensures CountFor(KeysEvidence(env, db, keys), a, strength) == Hits(db, keys, a, strength)
  {
    if keys != [] {
      var front, last := keys[..|keys| - 1], keys[|keys| - 1];
      KeysEvidenceCount(env, db, front, a, strength);
      var holders := SetToSeq(env.rows, HolderSet(db, last));
      MatchesCount(last, holders, a, strength);
      CountForAppend(KeysEvidence(env, db, front), KeyMatches(last, holders), a, strength);
    }
  }

  /** The evidence that does not come from identifiers. */
  function Others(env: Env, db: Db, dto: Dto, keys: seq<Key>): seq<Evidence>
    requires Sound(env)
  {
    var fqdn := FqdnAssets(Direct(env, db, dto, keys));
    IpsEvidence(env, db, SetToSeq(env.units, AddressSet(dto.nics))) + OsEvidence(env, db, dto, fqdn)
    + SourcesEvidence(db, dto.connector, SetToSeq(env.rows, fqdn))
  }

  lemma GatheredSplits(env: Env, db: Db, dto: Dto, keys: seq<Key>)
    requires Sound(env)
    ensures Gathered(env, db, dto, keys) == KeysEvidence(env, db, keys) + Others(env, db, dto, keys)
  {
    hide KeysEvidence, IpsEvidence, OsEvidence, SourcesEvidence, FqdnAssets;
  }

  lemma OthersAreWeak(env: Env, db: Db, dto: Dto, keys: seq<Key>, e: Evidence)
    requires Sound(env) && e in Others(env, db, dto, keys)
    ensures e.strength == WEAK
  {
    var ips, fqdn := SetToSeq(env.units, AddressSet(dto.nics)), FqdnAssets(Direct(env, db, dto, keys));
    IpsEvidenceIs(env, db, ips, e);
    if e in OsEvidence(env, db, dto, fqdn) { RowsEvidenceIs(env, db.osRows, IncomingFamily(env, dto).value, fqdn, e); }
    SourcesEvidenceIs(db, dto.connector, SetToSeq(env.rows, fqdn), e);
  }

  /** Only identifiers give evidence that is not weak. */
  lemma CountIsHits(env: Env, db: Db, dto: Dto, keys: seq<Key>, a: AssetId, strength: Strength)
    requires Sound(env) && strength != WEAK
    ensures CountFor(Gathered(env, db, dto, keys), a, strength) == Hits(db, keys, a, strength)
  {
    var matches := KeysEvidence(env, db, keys);
    var others := Others(env, db, dto, keys);
    GatheredSplits(env, db, dto, keys);
    hide *;
    forall e | e in others && e.asset == a ensures e.strength != strength { OthersAreWeak(env, db, dto, keys, e); }
    CountForNone(others, a, strength);
    CountForAppend(matches, others, a, strength);
    KeysEvidenceCount(env, db, keys, a, strength);
  }

  /** An exact FQDN, the same OS family and another active connector. */
  predicate Corroboration(env: Env, db: Db, dto: Dto, keys: seq<Key>, a: AssetId) {
    FqdnHolder(db, keys, a) && FamilyAgrees(env, db, dto, a) && OtherSource(db, dto.connector, a)
  }

  lemma CorroboratedExactly(env: Env, db: Db, dto: Dto, keys: seq<Key>, a: AssetId)
    requires Sound(env)
    ensures Corroborated(Summary(Gathered(env, db, dto, keys), a)) <==> Corroboration(env, db, dto, keys, a)
  {
    hide Gathered, Direct, FqdnHolder, FamilyAgrees, OtherSource;
    var es := Gathered(env, db, dto, keys);
    OfKeeps(es, a);
    forall e: Evidence
      ensures e in es <==>
              e in Direct(env, db, dto, keys) || IsFamily(env, db, dto, keys, e) || IsSource(db, dto, keys, e)
    {
      GatheredIs(env, db, dto, keys, e);
    }
    forall e: Evidence | e in Direct(env, db, dto, keys)
      ensures !e.signal.OsFamily? && !e.signal.IndependentSource?
      ensures IsFqdn(e.signal) ==> FqdnHolder(db, keys, e.asset)
    {
      DirectIs(env, db, dto, keys, e);
      if IsFqdn(e.signal) { HolderByKey(db, keys, e.asset, e.signal.key); }
    }
    if Corroboration(env, db, dto, keys, a) {
      var k := FqdnKey(db, keys, a);
      var named := KeyEvidence(k, a);
      DirectIs(env, db, dto, keys, named);
      assert named in Of(es, a) && IsFqdn(named.signal);
      FamilyNeedsIncoming(env, db, dto, a);
      var family := FamilyEvidence(IncomingFamily(env, dto).value, a);
      assert family in Of(es, a);
      var source := SourceEvidence(db, dto.connector, a);
      assert source in Of(es, a);
    }
  }

  lemma HolderByKey(db: Db, keys: seq<Key>, a: AssetId, k: Key)
    requires k in keys && k.kind == "FQDN" && Holds(db, a, k)
    ensures FqdnHolder(db, keys, a)
  {}

  lemma FqdnKey(db: Db, keys: seq<Key>, a: AssetId) returns (k: Key)
    requires FqdnHolder(db, keys, a)
    ensures k in keys && k.kind == "FQDN" && Holds(db, a, k)
  {
    k :| k in keys && k.kind == "FQDN" && Holds(db, a, k);
  }

  lemma FamilyNeedsIncoming(env: Env, db: Db, dto: Dto, a: AssetId)
    requires FamilyAgrees(env, db, dto, a)
    ensures IncomingFamily(env, dto).Some?
  {}

  // ---------------------------------------------------------------------
  // The outcome in terms of the database
  // ---------------------------------------------------------------------

  ghost predicate NoStrongHolder(db: Db, keys: seq<Key>) { forall a :: !StrongHolder(db, keys, a) }

  ghost predicate OnlyStrongHolder(db: Db, keys: seq<Key>, a: AssetId) {
    StrongHolder(db, keys, a) && forall b :: StrongHolder(db, keys, b) ==> b == a
  }

  ghost predicate OnlyTouched(env: Env, db: Db, dto: Dto, keys: seq<Key>, a: AssetId) {
    Touched(env, db, dto, keys, a) && forall b :: Touched(env, db, dto, keys, b) ==> b == a
  }

  /** Without strong evidence, an asset is linked only when nothing else matches and it carries two composite
      identifiers or a corroborated name. */
  ghost predicate WeakLink(env: Env, db: Db, dto: Dto, keys: seq<Key>, a: AssetId) {
    && NoStrongHolder(db, keys) && OnlyTouched(env, db, dto, keys, a)
    && (Hits(db, keys, a, COMPOSITE) >= 2 || Corroboration(env, db, dto, keys, a))
  }

  ghost predicate Unlinked(db: Db, record: SourceRecord) { OverrideFor(db, record).None? && record.asset.None? }

  lemma StrongCount(env: Env, db: Db, dto: Dto, keys: seq<Key>)
    requires Sound(env)
    ensures var strong := StrongAssets(Gathered(env, db, dto, keys));
            && (|strong| == 0 <==> NoStrongHolder(db, keys))
            && (forall a :: strong == {a} <==> OnlyStrongHolder(db, keys, a))
  {
    var strong := StrongAssets(Gathered(env, db, dto, keys));
    forall a ensures a in strong <==> StrongHolder(db, keys, a) { StrongAssetsAre(env, db, dto, keys, a); }
    hide StrongAssets, Gathered, StrongHolder;
    if |strong| > 0 {
      assert strong != {};
      var a :| a in strong;
    }
  }

  lemma NothingTouched(env: Env, db: Db, dto: Dto, keys: seq<Key>)
    requires Sound(env)
    ensures CandidatesOf(env.locale, Gathered(env, db, dto, keys)) == [] <==>
            forall b :: !Touched(env, db, dto, keys, b)
  {
    var es := Gathered(env, db, dto, keys);
    OneCandidate(env.locale, es, "");
    forall b ensures Mentions(es, b) <==> Touched(env, db, dto, keys, b) {
      AssetsAreTouched(env, db, dto, keys, b);
    }
    hide Gathered, CandidatesOf, Touched, Mentions;
  }

  lemma OneTouched(env: Env, db: Db, dto: Dto, keys: seq<Key>, a: AssetId)
    requires Sound(env)
    ensures var cs := CandidatesOf(env.locale, Gathered(env, db, dto, keys));
            |cs| == 1 && cs[0].asset == a <==> OnlyTouched(env, db, dto, keys, a)
  {
    var es := Gathered(env, db, dto, keys);
    OneCandidate(env.locale, es, a);
    forall b ensures Mentions(es, b) <==> Touched(env, db, dto, keys, b) {
      AssetsAreTouched(env, db, dto, keys, b);
    }
    hide Gathered, CandidatesOf, Touched, Mentions;
  }

  lemma WeakLinkExactly(env: Env, db: Db, dto: Dto, keys: seq<Key>, a: AssetId)
    requires Sound(env) && NoStrongHolder(db, keys)
    ensures var cs := CandidatesOf(env.locale, Gathered(env, db, dto, keys));
            Sufficient(cs) && cs[0].asset == a <==> WeakLink(env, db, dto, keys, a)
  {
    var es := Gathered(env, db, dto, keys);
    OneTouched(env, db, dto, keys, a);
    OneCandidate(env.locale, es, a);
    CountIsHits(env, db, dto, keys, a, COMPOSITE);
    CorroboratedExactly(env, db, dto, keys, a);
    hide Gathered, CandidatesOf, OnlyTouched, Corroboration, Corroborated, NoStrongHolder;
  }

  /** A new source record is linked to an asset exactly when that asset alone holds strong identifiers of it, or
      nobody does and the weak evidence is sufficient for it. */
  lemma LinksExactly(env: Env, db: Db, record: SourceRecord, dto: Dto, keys: seq<Key>, a: AssetId)
    requires Sound(env) && Unlinked(db, record)
    ensures var r := Resolved(env, db, record, dto, keys);
            r.outcome == AUTO_LINK && r.asset == Some(a) <==>
              OnlyStrongHolder(db, keys, a) || WeakLink(env, db, dto, keys, a)
  {
    StrongCount(env, db, dto, keys);
    var es := Gathered(env, db, dto, keys);
    if NoStrongHolder(db, keys) {
      WeakLinkExactly(env, db, dto, keys, a);
    } else {
      assert !WeakLink(env, db, dto, keys, a);
    }
    FreshLinks(keys, StrongAssets(es), es, CandidatesOf(env.locale, es), a);
    hide Gathered, CandidatesOf, WeakLink, NoStrongHolder, OnlyStrongHolder, Sufficient, StrongAssets, FreshDecision;
  }

  /** Strong identifiers held by two assets are a conflict, and a new source record knows no other. */
  lemma ConflictsExactly(env: Env, db: Db, record: SourceRecord, dto: Dto, keys: seq<Key>)
    requires Sound(env) && Unlinked(db, record)
    ensures Resolved(env, db, record, dto, keys).outcome == IDENTITY_CONFLICT <==>
            exists a, b :: a != b && StrongHolder(db, keys, a) && StrongHolder(db, keys, b)
  {
    var es := Gathered(env, db, dto, keys);
    var strong := StrongAssets(es);
    forall a ensures a in strong <==> StrongHolder(db, keys, a) { StrongAssetsAre(env, db, dto, keys, a); }
    FreshCreates(keys, strong, es, CandidatesOf(env.locale, es));
    hide Gathered, CandidatesOf, StrongHolder, StrongAssets, FreshDecision, Sufficient;
    TwoElements(strong);
  }

  lemma TwoElements(s: set<AssetId>)
    ensures |s| > 1 <==> exists a, b :: a != b && a in s && b in s
  {
    if a, b :| a != b && a in s && b in s {
      assert {a, b} <= s;
      assert |{a, b}| == 2;
      SubsetSize({a, b}, s);
    }
    if |s| > 1 {
      var a :| a in s;
      assert |s - {a}| > 0;
      assert s - {a} != {};
      var b :| b in s - {a};
    }
  }

  lemma {:induction false} SubsetSize(s: set<AssetId>, t: set<AssetId>)
    requires s <= t
    ensures |s| <= |t|
  {
    if s != {} {
      var x :| x in s;
      SubsetSize(s - {x}, t - {x});
    }
  }

  /** A new asset is created exactly when no link and no conflict is found and either a strong identifier came in or
      nothing matched at all; what remains is left to a human review. */
  lemma CreatesExactly(env: Env, db: Db, record: SourceRecord, dto: Dto, keys: seq<Key>)
    requires Sound(env) && Unlinked(db, record)
    ensures Resolved(env, db, record, dto, keys).outcome == CREATE_NEW <==>
            && NoStrongHolder(db, keys)
            && (forall a :: !WeakLink(env, db, dto, keys, a))
            && (AnyStrong(keys) || forall a :: !Touched(env, db, dto, keys, a))
  {
    var es := Gathered(env, db, dto, keys);
    var cs := CandidatesOf(env.locale, es);
    StrongCount(env, db, dto, keys);
    NothingTouched(env, db, dto, keys);
    FreshCreates(keys, StrongAssets(es), es, cs);
    if NoStrongHolder(db, keys) {
      forall a ensures Sufficient(cs) && cs[0].asset == a <==> WeakLink(env, db, dto, keys, a) {
        WeakLinkExactly(env, db, dto, keys, a);
      }
      hide Gathered, CandidatesOf, WeakLink, StrongAssets, Corroborated, FreshDecision;
      assert Sufficient(cs) ==> WeakLink(env, db, dto, keys, cs[0].asset);
    }
    hide Gathered, CandidatesOf, WeakLink, NoStrongHolder, OnlyStrongHolder, Sufficient, StrongAssets, Touched,
      FreshDecision, AnyStrong;
  }

  /** An active manual override that names an asset decides, whatever the evidence says. */
  lemma OverrideWins(env: Env, db: Db, record: SourceRecord, dto: Dto, keys: seq<Key>, a: AssetId)
    requires Sound(env) && record.id in db.overrides && db.overrides[record.id] == Override(true, Some(a))
    ensures var r := Resolved(env, db, record, dto, keys);
            r.outcome == AUTO_LINK && r.asset == Some(a) && r.confidence == 100
  {
    hide Gathered, CandidatesOf, StrongAssets, Contradicts, FreshDecision;
  }

  lemma OverrideForIs(db: Db, record: SourceRecord, a: AssetId)
    ensures OverrideFor(db, record) == Some(a) <==>
            record.id in db.overrides && db.overrides[record.id] == Override(true, Some(a))
  {}

  /** Another asset holds one of the incoming strong identifiers. */
  ghost predicate HeldElsewhere(db: Db, keys: seq<Key>, a: AssetId) {
    exists b, k :: b != a && k in keys && StrengthOf(k.kind) == STRONG && Holding(b, k) in db.holdings
  }

  /** The asset has another value for one of the incoming strong identifiers. */
  ghost predicate HasOtherValue(db: Db, keys: seq<Key>, a: AssetId) {
    exists k, v :: k in keys && StrengthOf(k.kind) == STRONG && k.kind in db.strongKinds && v != k.normalized
                   && Holding(a, Key(k.kind, k.namespace, v)) in db.linkedHoldings
  }

  lemma HeldElsewhereIs(db: Db, keys: seq<Key>, a: AssetId)
    ensures HeldElsewhere(db, keys, a) <==> exists b :: b != a && StrongHolder(db, keys, b)
  {
    hide StrengthOf;
    if HeldElsewhere(db, keys, a) {
      var b, k :| b != a && k in keys && StrengthOf(k.kind) == STRONG && Holding(b, k) in db.holdings;
      assert IsStrong(k) && Holds(db, b, k);
      assert StrongHolder(db, keys, b);
    }
    if b :| b != a && StrongHolder(db, keys, b) {
      var k :| k in keys && IsStrong(k) && Holds(db, b, k);
      assert Holding(b, k) in db.holdings;
    }
  }

  lemma ContradictsIs(db: Db, keys: seq<Key>, a: AssetId)
    ensures Contradicts(db, keys, a) <==> HasOtherValue(db, keys, a)
  {
    hide StrengthOf;
    if Contradicts(db, keys, a) {
      var k, h :| k in keys && h in db.linkedHoldings && IsStrong(k) && h.asset == a && h.key.kind in db.strongKinds
                  && h.key.kind == k.kind && h.key.namespace == k.namespace && h.key.normalized != k.normalized;
      assert h == Holding(a, Key(k.kind, k.namespace, h.key.normalized));
    }
    if HasOtherValue(db, keys, a) {
      var k, v :| k in keys && StrengthOf(k.kind) == STRONG && k.kind in db.strongKinds && v != k.normalized
                  && Holding(a, Key(k.kind, k.namespace, v)) in db.linkedHoldings;
      var h := Holding(a, Key(k.kind, k.namespace, v));
      assert h in db.linkedHoldings && IsStrong(k) && h.key.normalized != k.normalized;
    }
  }

  lemma LinkedDecision(env: Env, db: Db, record: SourceRecord, dto: Dto, keys: seq<Key>)
    requires Sound(env) && OverrideFor(db, record).None? && record.asset.Some?
    ensures var r := Resolved(env, db, record, dto, keys);
            var stays := !Contradicts(db, keys, record.asset.value)
                         && forall b :: StrongHolder(db, keys, b) ==> b == record.asset.value;
            && r.outcome == (if stays then AUTO_LINK else IDENTITY_CONFLICT)
            && r.asset == (if stays then record.asset else None)
            && r.confidence == (if stays then 100 else 0)
  {
    var strong := StrongAssets(Gathered(env, db, dto, keys));
    forall a ensures a in strong <==> StrongHolder(db, keys, a) { StrongAssetsAre(env, db, dto, keys, a); }
    hide Gathered, CandidatesOf, StrongHolder, Contradicts, StrongAssets;
  }

  /** A record that is already linked becomes a conflict exactly when another asset holds one of its strong identifiers
      or its own asset has another value for one of them; otherwise it stays linked. */
  lemma RelinksExactly(env: Env, db: Db, record: SourceRecord, dto: Dto, keys: seq<Key>)
    requires Sound(env) && OverrideFor(db, record).None? && record.asset.Some?
    ensures var r, a := Resolved(env, db, record, dto, keys), record.asset.value;
            if HeldElsewhere(db, keys, a) || HasOtherValue(db, keys, a)
            then r.outcome == IDENTITY_CONFLICT && r.asset == None && r.confidence == 0
            else r.outcome == AUTO_LINK && r.asset == Some(a) && r.confidence == 100
  {
    hide *;
    LinkedDecision(env, db, record, dto, keys);
    HeldElsewhereIs(db, keys, record.asset.value);
    ContradictsIs(db, keys, record.asset.value);
  }

  /** The record brings exactly the strong identifiers that its asset has, and nobody else has any of them. */
  ghost predicate Rescan(db: Db, keys: seq<Key>, a: AssetId) {
    && (forall k: Key :: StrengthOf(k.kind) == STRONG ==> (k in keys <==> Holding(a, k) in db.linkedHoldings))
    && (forall b, k :: k in keys && StrengthOf(k.kind) == STRONG && Holding(b, k) in db.holdings ==> b == a)
  }

  /** No two strong identifiers differ in the value alone. */
  ghost predicate OneValueEach(db: Db, keys: seq<Key>) {
    forall j, k :: j in keys && k in keys && StrengthOf(k.kind) == STRONG && k.kind in db.strongKinds ==>
      j.kind == k.kind && j.namespace == k.namespace ==> j.normalized == k.normalized
  }

  /** Seeing a linked record again with just the identifiers of its asset relinks it exactly when no two of its strong
      identifiers differ in the value alone. */
  lemma RescanRelinksExactly(env: Env, db: Db, record: SourceRecord, dto: Dto, keys: seq<Key>)
    requires Sound(env) && OverrideFor(db, record).None? && record.asset.Some?
    requires Rescan(db, keys, record.asset.value)
    ensures Resolved(env, db, record, dto, keys).outcome == AUTO_LINK <==> OneValueEach(db, keys)
  {
    RelinksExactly(env, db, record, dto, keys);
    hide Resolved, StrengthOf;
    var a := record.asset.value;
    forall j, k | j in keys && k in keys && StrengthOf(k.kind) == STRONG && k.kind in db.strongKinds
                  && j.kind == k.kind && j.namespace == k.namespace && j.normalized != k.normalized
      ensures Resolved(env, db, record, dto, keys).outcome == IDENTITY_CONFLICT
    {
      assert j == Key(k.kind, k.namespace, j.normalized);
      assert Holding(a, Key(k.kind, k.namespace, j.normalized)) in db.linkedHoldings;
    }
  }

  /** An asset with two serial numbers, seen again with both: a conflict, although nothing has changed. */
  lemma RescanCanConflict(env: Env, dto: Dto)
    requires Sound(env)
    ensures var s1, s2 := Key("SERIAL_NUMBER", "GLOBAL", "S1"), Key("SERIAL_NUMBER", "GLOBAL", "S2");
            var rows := {Holding("a1", s1), Holding("a1", s2)};
            var db := Db(rows, rows, {"SERIAL_NUMBER"}, {}, [], [], map[], map[]);
            && Rescan(db, [s1, s2], "a1")
            && Resolved(env, db, SourceRecord("r1", Some("a1")), dto, [s1, s2]).outcome == IDENTITY_CONFLICT
  {
    var s1, s2 := Key("SERIAL_NUMBER", "GLOBAL", "S1"), Key("SERIAL_NUMBER", "GLOBAL", "S2");
    var rows := {Holding("a1", s1), Holding("a1", s2)};
    var db := Db(rows, rows, {"SERIAL_NUMBER"}, {}, [], [], map[], map[]);
    var keys := [s1, s2];
    hide Resolved;
    assert keys[0] == s1 && keys[1] == s2;
    assert StrengthOf(s1.kind) == STRONG && s1.kind in db.strongKinds;
    hide StrengthOf;
    assert HasOtherValue(db, keys, "a1") by { assert Holding("a1", Key(s1.kind, s1.namespace, "S2")) in rows; }
    assert Rescan(db, keys, "a1");
    assert OverrideFor(db, SourceRecord("r1", Some("a1"))).None?;
    hide HasOtherValue, Rescan, OverrideFor;
    RelinksExactly(env, db, SourceRecord("r1", Some("a1")), dto, keys);
  }

  /** The same asset with one serial number is recognised. */
  lemma RescanCanRelink(env: Env, dto: Dto)
    requires Sound(env)
    ensures var s1 := Key("SERIAL_NUMBER", "GLOBAL", "S1");
            var rows := {Holding("a1", s1)};
            var db := Db(rows, rows, {"SERIAL_NUMBER"}, {}, [], [], map[], map[]);
            && Rescan(db, [s1], "a1")
            && Resolved(env, db, SourceRecord("r1", Some("a1")), dto, [s1]).outcome == AUTO_LINK
  {
    var s1 := Key("SERIAL_NUMBER", "GLOBAL", "S1");
    var rows := {Holding("a1", s1)};
    var db := Db(rows, rows, {"SERIAL_NUMBER"}, {}, [], [], map[], map[]);
    hide Resolved;
    assert [s1][0] == s1;
    assert StrengthOf(s1.kind) == STRONG;
    hide StrengthOf;
    assert Rescan(db, [s1], "a1") && OneValueEach(db, [s1]);
    assert OverrideFor(db, SourceRecord("r1", Some("a1"))).None?;
    hide OneValueEach, Rescan, OverrideFor;
    RescanRelinksExactly(env, db, SourceRecord("r1", Some("a1")), dto, [s1]);
  }

  /** Without a manual override, attaching the incoming identifiers to the chosen asset leaves each strong one of
      them with that asset alone. */
  lemma ChosenAssetIsSoleHolder(env: Env, db: Db, record: SourceRecord, dto: Dto, keys: seq<Key>, b: AssetId)
    requires Sound(env) && OverrideFor(db, record).None? && StrongHolder(db, keys, b)
    ensures var r := Resolved(env, db, record, dto, keys);
            && (r.outcome == AUTO_LINK ==> r.asset == Some(b))
            && r.outcome != CREATE_NEW
  {
    hide Resolved, StrongHolder, Contradicts;
    var r := Resolved(env, db, record, dto, keys);
    if record.asset.Some? {
      LinkedDecision(env, db, record, dto, keys);
    } else {
      CreatesExactly(env, db, record, dto, keys);
      if r.outcome == AUTO_LINK {
        AutoLinkNames(env, db, record, dto, keys);
        LinksExactly(env, db, record, dto, keys, r.asset.value);
      }
    }
  }

  lemma AutoLinkNames(env: Env, db: Db, record: SourceRecord, dto: Dto, keys: seq<Key>)
    requires Sound(env)
    ensures var r := Resolved(env, db, record, dto, keys); r.outcome == AUTO_LINK <==> r.asset.Some?
  {
    hide Gathered, CandidatesOf;
  }

  /** Weak evidence alone never merges: one hostname, address, FQDN or MAC address match does not link a new record. */
  lemma WeakEvidenceNeverMerges(env: Env, db: Db, record: SourceRecord, dto: Dto, keys: seq<Key>)
    requires Sound(env) && Unlinked(db, record) && NoStrongHolder(db, keys)
    requires forall a :: Hits(db, keys, a, COMPOSITE) <= 1
    requires forall a :: !FqdnHolder(db, keys, a) || !FamilyAgrees(env, db, dto, a)
                       || !OtherSource(db, dto.connector, a)
    ensures Resolved(env, db, record, dto, keys).outcome in {CREATE_NEW, REVIEW_REQUIRED}
  {
    hide Resolved, FqdnHolder, FamilyAgrees, OtherSource, StrongHolder, OnlyTouched;
    var r := Resolved(env, db, record, dto, keys);
    ConflictsExactly(env, db, record, dto, keys);
    AutoLinkNames(env, db, record, dto, keys);
    if r.outcome == AUTO_LINK { LinksExactly(env, db, record, dto, keys, r.asset.value); }
  }

  /** The same facts in another order resolve to the same outcome, asset, candidates and evidence. */
  lemma ResolveForgetsOrder(env: Env, norm: Normalizer, db: Db, record: SourceRecord, d: Dto, e: Dto)
    requires Sound(env) && SameIdentity(d, e) && AddressSet(d.nics) == AddressSet(e.nics)
    requires d.reportedOs == e.reportedOs && d.configuredOs == e.configuredOs && d.connector == e.connector
    requires Extract(env.locale, norm, d).Some?
    ensures Extract(env.locale, norm, e).Some?
    ensures Resolved(env, db, record, d, Keys(Extract(env.locale, norm, d).value))
         == Resolved(env, db, record, e, Keys(Extract(env.locale, norm, e).value))
  {
    KeysForgetOrder(env.locale, norm, d, e);
    hide Extract, SameIdentity, Keys;
  }

  lemma EvidenceIsGraded(env: Env, db: Db, dto: Dto, keys: seq<Key>, e: Evidence)
    requires Sound(env) && e in Gathered(env, db, dto, keys)
    ensures Graded(e)
  {
    GatheredIs(env, db, dto, keys, e);
    DirectIs(env, db, dto, keys, e);
    hide FqdnHolder, FamilyAgrees, OtherSource, StrengthOf, Gathered, Direct;
  }

  lemma GatheredIsGraded(env: Env, db: Db, dto: Dto, keys: seq<Key>)
    requires Sound(env)
    ensures AllGraded(Gathered(env, db, dto, keys))
  {
    forall e | e in Gathered(env, db, dto, keys) ensures Graded(e) { EvidenceIsGraded(env, db, dto, keys, e); }
  }

  lemma SummaryScores(lt: (string, string) -> bool, es: seq<Evidence>, c: Candidate)
    requires StrictTotal(lt) && c in CandidatesOf(lt, es) && AllGraded(es)
    ensures c == Summary(es, c.asset) && Mentions(es, c.asset)
    ensures 100 * c.strong + 30 * c.medium + 5 * c.weak <= c.score <= 100 * c.strong + 30 * c.medium + 10 * c.weak
  {
    EvidenceIsConserved(lt, es);
    OfKeeps(es, c.asset);
    hide CandidatesOf, Graded, StrictTotal, Of, Count, Score, TotalEvidence, TotalScore;
    ScoreBounds(Of(es, c.asset));
  }

  lemma CandidatesAre(env: Env, db: Db, record: SourceRecord, dto: Dto, keys: seq<Key>)
    requires Sound(env)
    ensures Resolved(env, db, record, dto, keys).candidates == CandidatesOf(env.locale, Gathered(env, db, dto, keys))
  {
    hide Gathered, CandidatesOf;
  }

  /** Every candidate scores 100 for each strong match, 30 for each composite one and from 5 to 10 for each weak one. */
  lemma CandidateScores(env: Env, db: Db, record: SourceRecord, dto: Dto, keys: seq<Key>, c: Candidate)
    requires Sound(env) && c in Resolved(env, db, record, dto, keys).candidates
    ensures 100 * c.strong + 30 * c.medium + 5 * c.weak <= c.score <= 100 * c.strong + 30 * c.medium + 10 * c.weak
    ensures c.strong == Hits(db, keys, c.asset, STRONG) && c.medium == Hits(db, keys, c.asset, COMPOSITE)
    ensures Touched(env, db, dto, keys, c.asset)
  {
    CandidatesAre(env, db, record, dto, keys);
    hide *;
    var es := Gathered(env, db, dto, keys);
    GatheredIsGraded(env, db, dto, keys);
    SummaryScores(env.locale, es, c);
    AssetsAreTouched(env, db, dto, keys, c.asset);
    CountIsHits(env, db, dto, keys, c.asset, STRONG);
    CountIsHits(env, db, dto, keys, c.asset, COMPOSITE);
  }

  lemma BestCandidate(lt: (string, string) -> bool, es: seq<Evidence>, c: Candidate)
    requires StrictTotal(lt) && AllGraded(es) && c in CandidatesOf(lt, es)
    ensures 5 <= c.score <= CandidatesOf(lt, es)[0].score
  {
    var cs := CandidatesOf(lt, es);
    EvidenceIsConserved(lt, es);
    SummaryScores(lt, es, c);
    OfKeeps(es, c.asset);
    hide CandidatesOf, Of, Count, Score, TotalEvidence, TotalScore, Graded, StrictTotal;
    ScoreBounds(Of(es, c.asset));
    var k :| 0 <= k < |cs| && cs[k] == c;
    if k > 0 { assert ByScore(lt)(cs[0], cs[k]); }
  }

  /** What the confidence of a decision about a new record says: 100 for strong or new identity, 85 for two composite
      identifiers, 80 for a corroborated name, 0 for a conflict, and the best score below 80 for a review. */
  ghost predicate Graduated(db: Db, keys: seq<Key>, r: Resolution) {
    match r.outcome
    case AUTO_LINK =>
      r.asset.Some? && r.confidence == if StrongHolder(db, keys, r.asset.value) then 100
                                       else if Hits(db, keys, r.asset.value, COMPOSITE) >= 2 then 85 else 80
    case CREATE_NEW => r.confidence == 100
    case IDENTITY_CONFLICT => r.confidence == 0
    case REVIEW_REQUIRED =>
      && 5 <= r.confidence <= 79 && r.candidates != []
      && r.confidence == (if r.candidates[0].score < 79 then r.candidates[0].score else 79)
      && forall c :: c in r.candidates ==> c.score <= r.candidates[0].score
  }

  lemma BestIsFirst(lt: (string, string) -> bool, es: seq<Evidence>)
    requires StrictTotal(lt) && AllGraded(es)
    ensures var cs := CandidatesOf(lt, es);
            && (cs != [] ==> 5 <= cs[0].score)
            && forall c :: c in cs ==> c.score <= cs[0].score
  {
    hide *;
    var cs := CandidatesOf(lt, es);
    forall c | c in cs ensures c.score <= cs[0].score { BestCandidate(lt, es, c); }
    if cs != [] { BestCandidate(lt, es, cs[0]); }
  }

  lemma FreshConfidence(keys: seq<Key>, strong: set<AssetId>, es: seq<Evidence>, cs: seq<Candidate>)
    ensures var r := FreshDecision(keys, strong, es, cs);
            && r.candidates == cs
            && (r.outcome == AUTO_LINK ==>
                  && r.asset.Some?
                  && ((strong == {r.asset.value} && r.confidence == 100)
                      || (|strong| == 0 && |cs| == 1 && cs[0].asset == r.asset.value
                          && r.confidence == if cs[0].medium >= 2 then 85 else 80)))
            && (r.outcome == CREATE_NEW ==> r.confidence == 100)
            && (r.outcome == IDENTITY_CONFLICT ==> r.confidence == 0)
            && (r.outcome == REVIEW_REQUIRED ==>
                  cs != [] && r.confidence == if cs[0].score < 79 then cs[0].score else 79)
  {
    hide Corroborated, AnyStrong;
  }

  lemma LinkConfidence(env: Env, db: Db, record: SourceRecord, dto: Dto, keys: seq<Key>)
    requires Sound(env) && Unlinked(db, record) && Resolved(env, db, record, dto, keys).outcome == AUTO_LINK
    ensures Graduated(db, keys, Resolved(env, db, record, dto, keys))
  {
    var es := Gathered(env, db, dto, keys);
    var cs := CandidatesOf(env.locale, es);
    FreshConfidence(keys, StrongAssets(es), es, cs);
    var a := FreshDecision(keys, StrongAssets(es), es, cs).asset.value;
    StrongAssetsAre(env, db, dto, keys, a);
    CountIsHits(env, db, dto, keys, a, COMPOSITE);
    OneCandidate(env.locale, es, a);
    hide Gathered, CandidatesOf, StrongHolder, Hits, FreshDecision, Sound, Mentions, OnlyMentions,
      StrongAssets, Summary,
      CountFor;
  }

  lemma ReviewConfidence(env: Env, db: Db, record: SourceRecord, dto: Dto, keys: seq<Key>)
    requires Sound(env) && Unlinked(db, record) && Resolved(env, db, record, dto, keys).outcome != AUTO_LINK
    ensures Graduated(db, keys, Resolved(env, db, record, dto, keys))
  {
    var es := Gathered(env, db, dto, keys);
    var cs := CandidatesOf(env.locale, es);
    FreshConfidence(keys, StrongAssets(es), es, cs);
    GatheredIsGraded(env, db, dto, keys);
    BestIsFirst(env.locale, es);
    hide Gathered, CandidatesOf, FreshDecision, Sound, AllGraded, StrongAssets, StrongHolder, Hits;
  }

  lemma ConfidenceExactly(env: Env, db: Db, record: SourceRecord, dto: Dto, keys: seq<Key>)
    requires Sound(env) && Unlinked(db, record)
    ensures Graduated(db, keys, Resolved(env, db, record, dto, keys))
  {
    hide *;
    if Resolved(env, db, record, dto, keys).outcome == AUTO_LINK {
      LinkConfidence(env, db, record, dto, keys);
    } else {
      ReviewConfidence(env, db, record, dto, keys);
    }
  }

  /** An active override decides alone, whatever the evidence and an earlier link say. */
  lemma OverrideIsFinal(env: Env, db: Db, record: SourceRecord, dto: Dto, keys: seq<Key>)
    requires Sound(env) && OverrideFor(db, record).Some?
    ensures var r := Resolved(env, db, record, dto, keys);
            r.outcome == AUTO_LINK && r.asset == OverrideFor(db, record) && r.confidence == 100
  {
    hide Gathered, CandidatesOf;
  }
}
