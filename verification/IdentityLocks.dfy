/** Concurrent ingestions that lock their strong identifiers, resolve and attach
    (src/server/services/cmdb-correlation.service.ts, src/server/services/discovery-ingestion.service.ts). */
module IdentityLocks {
  import opened Ordering
  import opened Wrappers
  import opened Identifiers
  import opened Candidates
  import opened Correlation

  type TxId = nat

  /** What one ingestion works on. */
  datatype Work = Work(record: SourceRecord, dto: Dto, keys: seq<Key>)

  /** `next` counts the lock keys already asked for, `held` the advisory locks granted; `read` counts the identifiers
      already looked up, each by a query of its own, and `found` collects their rows. */
  datatype Tx = Tx(work: Work, next: nat, held: set<int>, read: nat, found: set<Holding>, choice: Option<Resolution>)

  datatype World = World(holdings: set<Holding>, open: map<TxId, Tx>)

  /** The 64-bit hash behind the advisory locks is a parameter. */
  datatype Protocol = Protocol(env: Env, hash: string -> int)

  datatype Step =
    | Begin(t: TxId, work: Work)
    | Acquire(t: TxId)
    | Read(t: TxId)
    | Decide(t: TxId, seen: Db)
    | Commit(t: TxId, created: AssetId)
    | Abort(t: TxId)
    | Retire(holding: Holding)

  function LockName(k: Key): string { "cmdb:identity:" + k.kind + ":" + k.namespace + ":" + k.normalized }

  function StrongNames(keys: seq<Key>): seq<string> {
    if keys == [] then []
    else
      var front, last := StrongNames(keys[..|keys| - 1]), keys[|keys| - 1];
      if IsStrong(last) then front + [LockName(last)] else front
  }

  /** The lock keys in the order in which they are asked for. */
  function LockKeys(lt: (string, string) -> bool, keys: seq<Key>): seq<string> { Sort(lt, StrongNames(keys)) }

  function Locks(p: Protocol, tx: Tx): seq<string> { LockKeys(p.env.units, tx.work.keys) }

  function Hashes(hash: string -> int, names: seq<string>): set<int> { set n | n in names :: hash(n) }

  predicate Acquiring(p: Protocol, tx: Tx) { tx.next < |Locks(p, tx)| }

  function Wanted(p: Protocol, tx: Tx): string
    requires Acquiring(p, tx)
  {
    Locks(p, tx)[tx.next]
  }

  /** Transaction t asks for a lock that u holds; a lock can be taken again by its own holder. */
  ghost predicate Waits(p: Protocol, w: World, t: TxId, u: TxId) {
    t in w.open && u in w.open && t != u && Acquiring(p, w.open[t]) && p.hash(Wanted(p, w.open[t])) in w.open[u].held
  }

  ghost predicate Blocked(p: Protocol, w: World, t: TxId) { exists u :: Waits(p, w, t, u) }

  /** Has every identifier been looked up? */
  predicate AllRead(p: Protocol, tx: Tx) { !Acquiring(p, tx) && tx.read == |tx.work.keys| }

  /** The reading has the rows collected for the incoming identifiers; every other table and row may have been read at
      any time. */
  ghost predicate Collected(tx: Tx, seen: Db) {
    forall h: Holding :: h.key in tx.work.keys ==> (h in seen.holdings <==> h in tx.found)
  }

  /** The reading has every present holder of the strong identifiers. */
  ghost predicate SeesHolders(holdings: set<Holding>, keys: seq<Key>, seen: Db) {
    forall h :: h in holdings && h.key in keys && IsStrong(h.key) ==> h in seen.holdings
  }

  /** No manual override is active for the record, or it names the one asset that holds its strong identifiers. */
  ghost predicate OverrideAgrees(holdings: set<Holding>, work: Work, seen: Db) {
    var linked := OverrideFor(seen, work.record);
    linked.Some? ==> forall h :: h in holdings && h.key in work.keys && IsStrong(h.key) ==> h.asset == linked.value
  }

  ghost predicate Enabled(p: Protocol, w: World, s: Step) {
    match s
    case Begin(t, _) => t !in w.open
    case Acquire(t) => t in w.open && Acquiring(p, w.open[t]) && !Blocked(p, w, t)
    case Read(t) => t in w.open && !Acquiring(p, w.open[t]) && w.open[t].read < |w.open[t].work.keys|
    case Decide(t, seen) =>
      && t in w.open && AllRead(p, w.open[t]) && w.open[t].choice.None?
      && Collected(w.open[t], seen) && OverrideAgrees(w.holdings, w.open[t].work, seen)
    case Commit(t, created) =>
      t in w.open && w.open[t].choice.Some? && forall h :: h in w.holdings ==> h.asset != created
    case Abort(t) => t in w.open
    case Retire(_) => true
  }

  function HoldersOf(holdings: set<Holding>, k: Key): set<Holding> { set h | h in holdings && h.key == k }

  function AllOf(keys: seq<Key>, a: AssetId): set<Holding> { set k | k in keys :: Holding(a, k) }

  /** The identifiers a committed ingestion attaches: all of them, to the linked or the created asset. */
  function Attached(tx: Tx, created: AssetId): set<Holding>
    requires tx.choice.Some?
  {
    var r := tx.choice.value;
    if r.outcome == CREATE_NEW then AllOf(tx.work.keys, created)
    else if r.outcome == AUTO_LINK && r.asset.Some? then AllOf(tx.work.keys, r.asset.value)
    else {}
  }

  function Opened(work: Work): Tx { Tx(work, 0, {}, 0, {}, None) }

  ghost function Next(p: Protocol, w: World, s: Step): World
    requires Sound(p.env) && Enabled(p, w, s)
  {
    match s
    case Begin(t, work) => w.(open := w.open[t := Opened(work)])
    case Acquire(t) =>
      var tx := w.open[t];
      w.(open := w.open[t := tx.(next := tx.next + 1, held := tx.held + {p.hash(Wanted(p, tx))})])
    case Read(t) =>
      var tx := w.open[t];
      var rows := HoldersOf(w.holdings, tx.work.keys[tx.read]);
      w.(open := w.open[t := tx.(read := tx.read + 1, found := tx.found + rows)])
    case Decide(t, seen) =>
      var tx := w.open[t];
      w.(open := w.open[t := tx.(choice := Some(Resolved(p.env, seen, tx.work.record, tx.work.dto, tx.work.keys)))])
    case Commit(t, created) => World(w.holdings + Attached(w.open[t], created), w.open - {t})
    case Abort(t) => w.(open := w.open - {t})
    case Retire(h) => w.(holdings := w.holdings - {h})
  }

  // ---------------------------------------------------------------------
  // The invariant
  // ---------------------------------------------------------------------

  /** No strong identifier is held by two assets. */
  ghost predicate Functional(holdings: set<Holding>) {
    forall g, h :: g in holdings && h in holdings && g.key == h.key && IsStrong(g.key) ==> g.asset == h.asset
  }

  /** Attaching the keys as decided leaves every strong one with one asset. */
  ghost predicate Safe(holdings: set<Holding>, keys: seq<Key>, r: Resolution) {
    forall h :: h in holdings && h.key in keys && IsStrong(h.key) ==>
      (r.outcome == AUTO_LINK ==> r.asset == Some(h.asset)) && r.outcome != CREATE_NEW
  }

  /** Every present holder of a strong identifier looked up so far was found. */
  ghost predicate Covers(holdings: set<Holding>, tx: Tx)
    requires tx.read <= |tx.work.keys|
  {
    forall h :: h in holdings && h.key in tx.work.keys[..tx.read] && IsStrong(h.key) ==> h in tx.found
  }

  /** A transaction holds exactly the locks of a prefix of its sorted list, and all of them once it reads; what it has
      read of its strong identifiers still has their holders. */
  ghost predicate TxOk(p: Protocol, holdings: set<Holding>, tx: Tx) {
    && tx.next <= |Locks(p, tx)|
    && tx.held == Hashes(p.hash, Locks(p, tx)[..tx.next])
    && tx.read <= |tx.work.keys| && Covers(holdings, tx)
    && (tx.read > 0 || tx.choice.Some? ==> tx.next == |Locks(p, tx)|)
    && (tx.choice.Some? ==> Safe(holdings, tx.work.keys, tx.choice.value))
  }

  ghost predicate Exclusive(w: World) {
    forall t, u :: t in w.open && u in w.open && t != u ==> w.open[t].held !! w.open[u].held
  }

  ghost predicate Inv(p: Protocol, w: World) {
    Functional(w.holdings) && Exclusive(w) && forall t :: t in w.open ==> TxOk(p, w.holdings, w.open[t])
  }

  lemma {:induction false} StrongNamesHold(keys: seq<Key>, k: Key)
    requires k in keys && IsStrong(k)
    ensures LockName(k) in StrongNames(keys)
  {
    var front, last := keys[..|keys| - 1], keys[|keys| - 1];
    assert keys == front + [last];
    if k in front { StrongNamesHold(front, k); }
  }

  /** A transaction with all its locks holds the lock of each of its strong identifiers. */
  lemma HoldsStrongLocks(p: Protocol, holdings: set<Holding>, tx: Tx, k: Key)
    requires TxOk(p, holdings, tx) && !Acquiring(p, tx) && k in tx.work.keys && IsStrong(k)
    ensures p.hash(LockName(k)) in tx.held
  {
    hide IsStrong, LockName, Safe, Covers;
    StrongNamesHold(tx.work.keys, k);
    SortPermutes(p.env.units, StrongNames(tx.work.keys));
    SameElements(Locks(p, tx), StrongNames(tx.work.keys));
    assert Locks(p, tx)[..tx.next] == Locks(p, tx);
  }

  lemma AcquireKeeps(p: Protocol, w: World, t: TxId)
    requires Sound(p.env) && Inv(p, w) && Enabled(p, w, Acquire(t))
    ensures Inv(p, Next(p, w, Acquire(t)))
  {
    hide Functional, Safe, Locks, Covers;
    var v := Next(p, w, Acquire(t));
    var tx, got := w.open[t], v.open[t];
    var list := Locks(p, tx);
    assert TxOk(p, w.holdings, tx);
    assert Locks(p, got) == list by { SameWork(p, tx, got); }
    assert list[..got.next] == list[..tx.next] + [list[tx.next]];
    assert Covers(w.holdings, got) by { NothingToCover(w.holdings, got); }
    assert TxOk(p, v.holdings, got);
    forall x, y | x in v.open && y in v.open && x != y ensures v.open[x].held !! v.open[y].held {
      assert w.open[x].held !! w.open[y].held;
      if x == t { assert !Waits(p, w, t, y); }
      if y == t { assert !Waits(p, w, t, x); }
    }
    forall u | u in v.open ensures TxOk(p, v.holdings, v.open[u]) {
      if u != t { assert TxOk(p, w.holdings, w.open[u]); }
    }
  }

  lemma NothingToCover(holdings: set<Holding>, tx: Tx)
    requires tx.read == 0
    ensures Covers(holdings, tx)
  {
    assert tx.work.keys[..0] == [];
  }

  lemma ReadKeeps(p: Protocol, w: World, t: TxId)
    requires Sound(p.env) && Inv(p, w) && Enabled(p, w, Read(t))
    ensures Inv(p, Next(p, w, Read(t)))
  {
    hide Functional, Safe, Locks, IsStrong;
    var v := Next(p, w, Read(t));
    var tx, got := w.open[t], v.open[t];
    assert TxOk(p, w.holdings, tx);
    SameWork(p, tx, got);
    assert tx.work.keys[..got.read] == tx.work.keys[..tx.read] + [tx.work.keys[tx.read]];
    assert Covers(v.holdings, got);
    hide Covers;
    forall u | u in v.open ensures TxOk(p, v.holdings, v.open[u]) { assert TxOk(p, w.holdings, w.open[u]); }
  }

  /** When all identifiers have been looked up, each at its own time, the reading has every present holder of the strong
      ones, whatever other transactions did in between. */
  lemma ReadingHasHolders(p: Protocol, w: World, t: TxId, seen: Db)
    requires Inv(p, w) && t in w.open && AllRead(p, w.open[t]) && Collected(w.open[t], seen)
    ensures SeesHolders(w.holdings, w.open[t].work.keys, seen)
  {
    var tx := w.open[t];
    hide Locks, Safe, IsStrong, Functional;
    assert TxOk(p, w.holdings, tx);
    assert tx.work.keys[..tx.read] == tx.work.keys;
  }

  lemma SameWork(p: Protocol, tx: Tx, got: Tx)
    requires tx.work == got.work
    ensures Locks(p, tx) == Locks(p, got)
  {}

  /** Attaching what a manual override decided keeps every strong identifier with one asset if and only if the override
      names the holder of every incoming strong identifier that is held. */
  lemma OverrideIsSafeExactly(p: Protocol, holdings: set<Holding>, tx: Tx, seen: Db, created: AssetId)
    requires Sound(p.env) && OverrideFor(seen, tx.work.record).Some? && Functional(holdings)
    requires tx.choice == Some(Resolved(p.env, seen, tx.work.record, tx.work.dto, tx.work.keys))
    ensures Functional(holdings + Attached(tx, created)) <==> OverrideAgrees(holdings, tx.work, seen)
  {
    hide Resolved, IsStrong, OverrideFor;
    var keys := tx.work.keys;
    OverrideIsFinal(p.env, seen, tx.work.record, tx.work.dto, keys);
    var a := OverrideFor(seen, tx.work.record).value;
    var all := AllOf(keys, a);
    assert Attached(tx, created) == all;
    if Functional(holdings + all) {
      forall h | h in holdings && h.key in keys && IsStrong(h.key) ensures h.asset == a {
        assert Holding(a, h.key) in all;
      }
    }
  }

  /** Deciding by an override that agrees is safe. */
  lemma OverrideIsSafe(p: Protocol, holdings: set<Holding>, work: Work, seen: Db)
    requires Sound(p.env) && OverrideFor(seen, work.record).Some? && OverrideAgrees(holdings, work, seen)
    ensures Safe(holdings, work.keys, Resolved(p.env, seen, work.record, work.dto, work.keys))
  {
    hide Resolved, IsStrong;
    OverrideIsFinal(p.env, seen, work.record, work.dto, work.keys);
  }

  /** What is decided from a reading that has the locked holders is safe for the present ones. */
  lemma DecisionIsSafe(p: Protocol, holdings: set<Holding>, work: Work, seen: Db)
    requires Sound(p.env) && SeesHolders(holdings, work.keys, seen)
    requires OverrideAgrees(holdings, work, seen)
    ensures Safe(holdings, work.keys, Resolved(p.env, seen, work.record, work.dto, work.keys))
  {
    hide Resolved, IsStrong, OverrideFor;
    if OverrideFor(seen, work.record).Some? {
      OverrideIsSafe(p, holdings, work, seen);
      return;
    }
    forall h | h in holdings && h.key in work.keys && IsStrong(h.key)
      ensures var r := Resolved(p.env, seen, work.record, work.dto, work.keys);
              (r.outcome == AUTO_LINK ==> r.asset == Some(h.asset)) && r.outcome != CREATE_NEW
    {
      assert h == Holding(h.asset, h.key);
      assert Holds(seen, h.asset, h.key);
      assert StrongHolder(seen, work.keys, h.asset);
      ChosenAssetIsSoleHolder(p.env, seen, work.record, work.dto, work.keys, h.asset);
    }
  }

  lemma DecideKeeps(p: Protocol, w: World, t: TxId, seen: Db)
    requires Sound(p.env) && Inv(p, w) && Enabled(p, w, Decide(t, seen))
    ensures Inv(p, Next(p, w, Decide(t, seen)))
  {
    hide Functional, Safe, Resolved, Locks, SeesHolders, OverrideAgrees, Collected;
    ReadingHasHolders(p, w, t, seen);
    DecisionIsSafe(p, w.holdings, w.open[t].work, seen);
    var v := Next(p, w, Decide(t, seen));
    SameWork(p, w.open[t], v.open[t]);
    forall u | u in v.open ensures TxOk(p, v.holdings, v.open[u]) { assert TxOk(p, w.holdings, w.open[u]); }
  }

  /** Two transactions that have all their locks have no strong identifier in common. */
  lemma LockedAreApart(p: Protocol, w: World, t: TxId, u: TxId, k: Key)
    requires Inv(p, w) && t in w.open && u in w.open && t != u
    requires !Acquiring(p, w.open[t]) && !Acquiring(p, w.open[u])
    requires IsStrong(k) && k in w.open[t].work.keys
    ensures k !in w.open[u].work.keys
  {
    hide IsStrong, LockName, Locks, Safe, Functional, Covers, Acquiring;
    assert TxOk(p, w.holdings, w.open[t]) && TxOk(p, w.holdings, w.open[u]);
    HoldsStrongLocks(p, w.holdings, w.open[t], k);
    if k in w.open[u].work.keys {
      HoldsStrongLocks(p, w.holdings, w.open[u], k);
      assert false;
    }
  }

  lemma CommitIsFunctional(p: Protocol, w: World, t: TxId, created: AssetId)
    requires Inv(p, w) && Enabled(p, w, Commit(t, created))
    ensures Functional(w.holdings + Attached(w.open[t], created))
  {
    var tx := w.open[t];
    assert TxOk(p, w.holdings, tx);
    hide Attached, IsStrong, Locks, Covers;
    var added := Attached(tx, created);
    forall h | h in added
      ensures h.key in tx.work.keys
      ensures forall g :: g in added ==> g.asset == h.asset
      ensures forall g :: g in w.holdings && g.key == h.key && IsStrong(g.key) ==> g.asset == h.asset
    {
      forall g | g in added ensures g.asset == h.asset {}
    }
  }

  /** A commit gives every incoming identifier to the linked or the created asset, and adds nothing else. */
  lemma CommitAttachesExactly(p: Protocol, w: World, t: TxId, created: AssetId)
    requires Sound(p.env) && Enabled(p, w, Commit(t, created))
    ensures var r, keys := w.open[t].choice.value, w.open[t].work.keys;
            forall h :: h in Next(p, w, Commit(t, created)).holdings <==>
              || h in w.holdings
              || (h.key in keys && r.outcome == CREATE_NEW && h.asset == created)
              || (h.key in keys && r.outcome == AUTO_LINK && r.asset == Some(h.asset))
  {
    var keys := w.open[t].work.keys;
    forall a, h ensures h in AllOf(keys, a) <==> h.asset == a && h.key in keys {
      assert h == Holding(h.asset, h.key);
    }
    hide AllOf;
  }

  lemma CommitKeeps(p: Protocol, w: World, t: TxId, created: AssetId)
    requires Sound(p.env) && Inv(p, w) && Enabled(p, w, Commit(t, created))
    ensures Inv(p, Next(p, w, Commit(t, created)))
  {
    CommitIsFunctional(p, w, t, created);
    var v := Next(p, w, Commit(t, created));
    var tx := w.open[t];
    forall u | u in v.open ensures TxOk(p, v.holdings, v.open[u]) {
      var other := w.open[u];
      assert TxOk(p, w.holdings, other);
      if other.read > 0 || other.choice.Some? {
        forall h | h in Attached(tx, created) && IsStrong(h.key) ensures h.key !in other.work.keys {
          LockedAreApart(p, w, t, u, h.key);
        }
        hide Attached, IsStrong, Locks;
        assert Covers(v.holdings, other);
        assert other.choice.Some? ==> Safe(v.holdings, other.work.keys, other.choice.value);
      } else {
        NothingToCover(v.holdings, other);
      }
    }
  }

  lemma QuietKeeps(p: Protocol, w: World, s: Step)
    requires Sound(p.env) && Inv(p, w) && Enabled(p, w, s) && (s.Begin? || s.Abort? || s.Retire?)
    ensures Inv(p, Next(p, w, s))
  {
    hide Locks, IsStrong;
    var v := Next(p, w, s);
    forall u | u in v.open ensures TxOk(p, v.holdings, v.open[u]) {
      if u in w.open && v.open[u] == w.open[u] {
      }
    }
    hide TxOk;
  }

  lemma StepKeepsInv(p: Protocol, w: World, s: Step)
    requires Sound(p.env) && Inv(p, w) && Enabled(p, w, s)
    ensures Inv(p, Next(p, w, s))
  {
    hide Inv, Enabled, Next;
    match s
    case Acquire(t) => AcquireKeeps(p, w, t);
    case Read(t) => ReadKeeps(p, w, t);
    case Decide(t, seen) => DecideKeeps(p, w, t, seen);
    case Commit(t, created) => CommitKeeps(p, w, t, created);
    case _ => QuietKeeps(p, w, s);
  }

  // ---------------------------------------------------------------------
  // Whole runs
  // ---------------------------------------------------------------------

  ghost predicate Initial(w: World) { Functional(w.holdings) && w.open == map[] }

  ghost predicate Leads(p: Protocol, w: World, steps: seq<Step>, v: World)
    requires Sound(p.env)
    decreases |steps|
  {
    if steps == [] then w == v else Enabled(p, w, steps[0]) && Leads(p, Next(p, w, steps[0]), steps[1..], v)
  }

  lemma {:induction false} RunKeepsInv(p: Protocol, w: World, steps: seq<Step>, v: World)
    requires Sound(p.env) && Inv(p, w) && Leads(p, w, steps, v)
    ensures Inv(p, v)
    decreases |steps|
  {
    if steps != [] {
      hide Inv;
      StepKeepsInv(p, w, steps[0]);
      RunKeepsInv(p, Next(p, w, steps[0]), steps[1..], v);
    }
  }

  /** However ingestions interleave, no active strong identifier is ever held by two assets. */
  lemma StrongIdentityStaysFunctional(p: Protocol, w: World, steps: seq<Step>, v: World)
    requires Sound(p.env) && Initial(w) && Leads(p, w, steps, v)
    ensures Functional(v.holdings)
  {
    RunKeepsInv(p, w, steps, v);
  }

  // ---------------------------------------------------------------------
  // An ingestion alone gets through
  // ---------------------------------------------------------------------

  lemma LeadsCons(p: Protocol, w: World, s: Step, rest: seq<Step>, v: World)
    requires Sound(p.env) && Enabled(p, w, s) && Leads(p, Next(p, w, s), rest, v)
    ensures Leads(p, w, [s] + rest, v)
  {
    hide Enabled, Next;
    assert ([s] + rest)[1..] == rest;
  }

  lemma AcquireAll(p: Protocol, w: World, t: TxId) returns (steps: seq<Step>, v: World)
    requires Sound(p.env) && w.open.Keys == {t} && w.open[t].next <= |Locks(p, w.open[t])|
    ensures Leads(p, w, steps, v) && v.holdings == w.holdings && v.open.Keys == {t}
    ensures !Acquiring(p, v.open[t])
    ensures v.open[t] == w.open[t].(next := v.open[t].next, held := v.open[t].held)
    decreases |Locks(p, w.open[t])| - w.open[t].next
  {
    var tx := w.open[t];
    if Acquiring(p, tx) {
      var s := Acquire(t);
      assert !Blocked(p, w, t);
      var next := Next(p, w, s);
      SameWork(p, tx, next.open[t]);
      hide Locks;
      steps, v := AcquireAll(p, next, t);
      LeadsCons(p, w, s, steps, v);
      steps := [s] + steps;
    } else {
      steps, v := [], w;
    }
  }

  /** Reading adds exactly the present rows of the next identifier. */
  lemma ReadFindsExactly(p: Protocol, w: World, t: TxId)
    requires Sound(p.env) && Enabled(p, w, Read(t))
    ensures var tx, got := w.open[t], Next(p, w, Read(t)).open[t];
            && got.read == tx.read + 1
            && forall h :: h in got.found <==> h in tx.found || (h in w.holdings && h.key == tx.work.keys[tx.read])
  {
    hide Locks;
  }

  lemma ReadAll(p: Protocol, w: World, t: TxId) returns (steps: seq<Step>, v: World)
    requires Sound(p.env) && w.open.Keys == {t} && !Acquiring(p, w.open[t])
    requires w.open[t].read <= |w.open[t].work.keys|
    ensures Leads(p, w, steps, v) && v.holdings == w.holdings && v.open.Keys == {t}
    ensures AllRead(p, v.open[t])
    ensures v.open[t] == w.open[t].(read := v.open[t].read, found := v.open[t].found)
    ensures forall h :: h in v.open[t].found <==>
                          h in w.open[t].found
                          || (h in w.holdings && h.key in w.open[t].work.keys[w.open[t].read..])
    decreases |w.open[t].work.keys| - w.open[t].read
  {
    var tx := w.open[t];
    if tx.read < |tx.work.keys| {
      var s := Read(t);
      var next := Next(p, w, s);
      ReadFindsExactly(p, w, t);
      SameWork(p, tx, next.open[t]);
      assert tx.work.keys[tx.read..] == [tx.work.keys[tx.read]] + tx.work.keys[tx.read + 1..];
      hide Locks, HoldersOf;
      steps, v := ReadAll(p, next, t);
      LeadsCons(p, w, s, steps, v);
      steps := [s] + steps;
    } else {
      assert tx.work.keys[tx.read..] == [];
      steps, v := [], w;
    }
  }

  /** What the decided ingestion attaches. */
  function Called(p: Protocol, work: Work, db: Db): Resolution
    requires Sound(p.env)
  {
    Resolved(p.env, db, work.record, work.dto, work.keys)
  }

  /** From any world without open transactions an ingestion can lock, read, decide on just what the database holds, and
      commit: the decision is the one that the database calls for, and its identifiers are attached. */
  lemma IngestionCanCommit(p: Protocol, w: World, t: TxId, work: Work, db: Db, created: AssetId)
    returns (steps: seq<Step>, v: World)
    requires Sound(p.env) && w.open == map[] && db.holdings == w.holdings && OverrideAgrees(w.holdings, work, db)
    requires forall h :: h in w.holdings ==> h.asset != created
    ensures Leads(p, w, steps, v) && v.open == map[]
    ensures forall h :: h in v.holdings <==>
                          || h in w.holdings
                          || (h.key in work.keys && Called(p, work, db).outcome == CREATE_NEW && h.asset == created)
                          || (h.key in work.keys && Called(p, work, db).outcome == AUTO_LINK
                              && Called(p, work, db).asset == Some(h.asset))
  {
    hide Locks, Resolved, OverrideAgrees, AllOf, Leads;
    var w1 := Next(p, w, Begin(t, work));
    assert w1.open == map[t := Opened(work)];
    var s2, w2 := AcquireAll(p, w1, t);
    var s3, w3 := ReadAll(p, w2, t);
    var tx := w3.open[t];
    assert tx.work == work && tx.choice.None? && work.keys[0..] == work.keys;
    assert Collected(tx, db);
    var w4 := Next(p, w3, Decide(t, db));
    assert w4.open.Keys == {t};
    CommitAttachesExactly(p, w4, t, created);
    v := Next(p, w4, Commit(t, created));
    assert v.open == map[];
    LeadsNothing(p, v);
    LeadsCons(p, w4, Commit(t, created), [], v);
    LeadsCons(p, w3, Decide(t, db), [Commit(t, created)] + [], v);
    var end := [Decide(t, db)] + ([Commit(t, created)] + []);
    LeadsOn(p, w2, s3, w3, end, v);
    LeadsOn(p, w1, s2, w2, s3 + end, v);
    LeadsCons(p, w, Begin(t, work), s2 + (s3 + end), v);
    steps := [Begin(t, work)] + (s2 + (s3 + end));
  }

  lemma LeadsNothing(p: Protocol, w: World)
    requires Sound(p.env)
    ensures Leads(p, w, [], w)
  {}

  lemma {:induction false} LeadsOn(p: Protocol, w: World, a: seq<Step>, u: World, b: seq<Step>, v: World)
    requires Sound(p.env) && Leads(p, w, a, u) && Leads(p, u, b, v)
    ensures Leads(p, w, a + b, v)
    decreases |a|
  {
    hide Enabled, Next;
    if a == [] {
      assert a + b == b;
    } else {
      LeadsOn(p, Next(p, w, a[0]), a[1..], u, b, v);
      LeadsCons(p, w, a[0], a[1..] + b, v);
      assert a + b == [a[0]] + (a[1..] + b);
    }
  }

  /** How transactions begin and end, and how other writers retire an identifier: a new transaction holds and has read
      nothing, one that ends releases its locks, and only a decided one commits, to an asset that is new if it says
      so. */
  lemma EndsAndBegins(p: Protocol, w: World, t: TxId, work: Work, created: AssetId, holding: Holding)
    requires Sound(p.env)
    ensures Enabled(p, w, Begin(t, work)) <==> t !in w.open
    ensures t !in w.open ==>
              Next(p, w, Begin(t, work)) == w.(open := w.open[t := Tx(work, 0, {}, 0, {}, None)])
    ensures Enabled(p, w, Abort(t)) <==> t in w.open
    ensures t in w.open ==> Next(p, w, Abort(t)) == w.(open := w.open - {t})
    ensures Enabled(p, w, Commit(t, created)) <==>
            t in w.open && w.open[t].choice.Some? && !exists h :: h in w.holdings && h.asset == created
    ensures Enabled(p, w, Commit(t, created)) ==> Next(p, w, Commit(t, created)).open == w.open - {t}
    ensures Enabled(p, w, Retire(holding)) && Next(p, w, Retire(holding)) == w.(holdings := w.holdings - {holding})
  {}

  predicate NoColon(s: string) { forall i :: 0 <= i < |s| ==> s[i] != ':' }

  lemma ColonSplits(a: string, b: string, u: string, v: string)
    requires NoColon(a) && NoColon(b) && a + ":" + u == b + ":" + v
    ensures a == b && u == v
  {
    var x, y := a + ":" + u, b + ":" + v;
    assert x[|a|] == ':' && y[|b|] == ':';
    assert forall i :: 0 <= i < |a| ==> x[i] == a[i];
    assert forall i :: 0 <= i < |b| ==> y[i] == b[i];
    assert |a| == |b|;
    assert a == x[..|a|] == y[..|b|] == b;
    assert u == x[|a| + 1..] == y[|b| + 1..] == v;
  }

  /** Identifiers whose kinds and namespaces carry no colon have lock keys of their own. */
  lemma LockNamesDiffer(j: Key, k: Key)
    requires NoColon(j.kind) && NoColon(j.namespace) && NoColon(k.kind) && NoColon(k.namespace)
    requires LockName(j) == LockName(k)
    ensures j == k
  {
    var prefix := "cmdb:identity:";
    var u, v := j.namespace + ":" + j.normalized, k.namespace + ":" + k.normalized;
    assert LockName(j) == prefix + (j.kind + ":" + u) && LockName(k) == prefix + (k.kind + ":" + v);
    assert j.kind + ":" + u == LockName(j)[|prefix|..] == LockName(k)[|prefix|..] == k.kind + ":" + v;
    ColonSplits(j.kind, k.kind, u, v);
    ColonSplits(j.namespace, k.namespace, j.normalized, k.normalized);
  }

  // ---------------------------------------------------------------------
  // No deadlock
  // ---------------------------------------------------------------------

  /** The hash confuses the outer two of three ascending lock keys, but not the middle one. */
  ghost predicate Straddles(p: Protocol, a: Key, b: Key, c: Key) {
    && IsStrong(a) && IsStrong(b) && IsStrong(c)
    && p.env.units(LockName(a), LockName(b)) && p.env.units(LockName(b), LockName(c))
    && p.hash(LockName(a)) == p.hash(LockName(c)) != p.hash(LockName(b))
  }

  /** Does the hash keep equal locks together in the order of the lock keys? */
  ghost predicate Convex(p: Protocol) { forall a, b, c :: !Straddles(p, a, b, c) }

  lemma {:induction false} NameHasKey(keys: seq<Key>, n: string) returns (k: Key)
    requires n in StrongNames(keys)
    ensures k in keys && IsStrong(k) && LockName(k) == n
  {
    var front, last := keys[..|keys| - 1], keys[|keys| - 1];
    if n in StrongNames(front) { k := NameHasKey(front, n); } else { k := last; }
  }

  lemma LockHasKey(p: Protocol, tx: Tx, i: nat) returns (k: Key)
    requires i < |Locks(p, tx)|
    ensures IsStrong(k) && LockName(k) == Locks(p, tx)[i]
  {
    SortPermutes(p.env.units, StrongNames(tx.work.keys));
    SameElements(Locks(p, tx), StrongNames(tx.work.keys));
    assert Locks(p, tx)[i] in Locks(p, tx);
    k := NameHasKey(tx.work.keys, Locks(p, tx)[i]);
  }

  /** Both transactions ask for a lock, the second for a later one. */
  ghost predicate Later(p: Protocol, w: World, t: TxId, u: TxId) {
    && t in w.open && u in w.open && Acquiring(p, w.open[t]) && Acquiring(p, w.open[u])
    && p.env.units(Wanted(p, w.open[t]), Wanted(p, w.open[u]))
  }

  /** Whoever is waited for and waits itself waits for a later lock. */
  lemma WaitsClimb(p: Protocol, w: World, t: TxId, u: TxId, v: TxId)
    requires Sound(p.env) && Convex(p) && Inv(p, w) && Waits(p, w, t, u) && Waits(p, w, u, v)
    ensures Later(p, w, t, u)
  {
    var mine, theirs := Wanted(p, w.open[t]), Wanted(p, w.open[u]);
    var list, next := Locks(p, w.open[u]), w.open[u].next;
    assert TxOk(p, w.holdings, w.open[u]);
    assert w.open[u].held !! w.open[v].held;
    SortAscends(p.env.units, StrongNames(w.open[u].work.keys));
    assert Ascending(p.env.units, list);
    var c := LockHasKey(p, w.open[t], w.open[t].next);
    hide Locks, Safe, IsStrong, LockName, Ascending;
    var n :| n in list[..next] && p.hash(n) == p.hash(mine);
    var i :| 0 <= i < next && list[i] == n;
    assert p.hash(theirs) != p.hash(mine);
    var a := LockHasKey(p, w.open[u], i);
    var b := LockHasKey(p, w.open[u], next);
    assert p.env.units(n, theirs);
    assert !Straddles(p, a, b, c);
  }

  lemma LaterTrans(p: Protocol, w: World, t: TxId, u: TxId, v: TxId)
    requires Sound(p.env) && Later(p, w, t, u) && Later(p, w, u, v)
    ensures Later(p, w, t, v)
  {
    hide Acquiring, Wanted;
    Transitive(p.env.units, Wanted(p, w.open[t]), Wanted(p, w.open[u]), Wanted(p, w.open[v]));
  }

  lemma NotLater(p: Protocol, w: World, t: TxId)
    requires Sound(p.env)
    ensures !Later(p, w, t, t)
  {
    hide Acquiring, Wanted;
  }

  ghost predicate WaitPath(p: Protocol, w: World, path: seq<TxId>) {
    forall i, j :: 0 <= i < |path| && j == i + 1 && j < |path| ==> Waits(p, w, path[i], path[j])
  }

  /** Along a chain of waiting transactions the wanted locks ascend strictly. */
  lemma {:induction false} PathClimbs(p: Protocol, w: World, path: seq<TxId>)
    requires Sound(p.env) && Convex(p) && Inv(p, w) && |path| >= 3 && WaitPath(p, w, path)
    ensures Later(p, w, path[0], path[|path| - 2])
  {
    hide Inv, Later, Waits;
    var n := |path|;
    assert Waits(p, w, path[n - 3], path[n - 2]) && Waits(p, w, path[n - 2], path[n - 1]);
    WaitsClimb(p, w, path[n - 3], path[n - 2], path[n - 1]);
    if n > 3 {
      PathClimbs(p, w, path[..n - 1]);
      LaterTrans(p, w, path[0], path[n - 3], path[n - 2]);
    }
  }

  /** Unless the hash straddles, the wait-for graph has no cycle. */
  lemma NoWaitCycle(p: Protocol, w: World, path: seq<TxId>)
    requires Sound(p.env) && Convex(p) && Inv(p, w) && |path| >= 2 && WaitPath(p, w, path)
    ensures path[0] != path[|path| - 1]
  {
    assert Waits(p, w, path[0], path[1]);
    NotLater(p, w, path[0]);
    hide Inv, Later, Waits;
    if path[0] == path[|path| - 1] {
      var longer := path + [path[1]];
      assert WaitPath(p, w, longer);
      hide Convex;
      PathClimbs(p, w, longer);
    }
  }

  function Flip(lt: (string, string) -> bool): (string, string) -> bool { (a: string, b: string) => lt(b, a) }

  /** Some open transaction asks for the last of the wanted locks. */
  lemma LastWanted(p: Protocol, w: World, t: TxId) returns (last: TxId)
    requires Sound(p.env) && t in w.open && Acquiring(p, w.open[t])
    ensures last in w.open && Acquiring(p, w.open[last])
    ensures forall u :: !Later(p, w, last, u)
  {
    hide Acquiring, Wanted;
    var names := set u | u in w.open && Acquiring(p, w.open[u]) :: Wanted(p, w.open[u]);
    var after := Flip(p.env.units);
    assert Wanted(p, w.open[t]) in names;
    LeastExists(after, names);
    var n :| IsLeast(after, names, n);
    last :| last in w.open && Acquiring(p, w.open[last]) && Wanted(p, w.open[last]) == n;
    forall u ensures !Later(p, w, last, u) {
      if u in w.open && Acquiring(p, w.open[u]) {
        var m := Wanted(p, w.open[u]);
        assert m in names;
        if m != n { assert after(n, m); }
      }
    }
  }

  /** Unless the hash straddles, some open transaction can always go on. */
  lemma SomeoneGoesOn(p: Protocol, w: World)
    requires Sound(p.env) && Convex(p) && Inv(p, w) && w.open != map[]
    ensures exists t :: t in w.open && !Blocked(p, w, t)
  {
    var t :| t in w.open;
    if Blocked(p, w, t) {
      var t1 :| Waits(p, w, t, t1);
      var last := LastWanted(p, w, t);
      if Blocked(p, w, last) {
        var u :| Waits(p, w, last, u);
        if Blocked(p, w, u) {
          var v :| Waits(p, w, u, v);
          WaitsClimb(p, w, last, u, v);
        }
      }
    }
  }

  /** In every reachable state each transaction holds exactly the locks of a prefix of its sorted list, no locks are
      shared, no wait-for cycle exists and someone can go on. */
  lemma IngestionsNeverDeadlock(p: Protocol, w: World, steps: seq<Step>, v: World)
    requires Sound(p.env) && Convex(p) && Initial(w) && Leads(p, w, steps, v)
    ensures forall t :: t in v.open ==> TxOk(p, v.holdings, v.open[t])
    ensures Exclusive(v)
    ensures forall path :: |path| >= 2 && WaitPath(p, v, path) ==> path[0] != path[|path| - 1]
    ensures v.open != map[] ==> exists t :: t in v.open && !Blocked(p, v, t)
  {
    RunKeepsInv(p, w, steps, v);
    forall path | |path| >= 2 && WaitPath(p, v, path) ensures path[0] != path[|path| - 1] {
      NoWaitCycle(p, v, path);
    }
    if v.open != map[] { SomeoneGoesOn(p, v); }
  }

  lemma TwoLocks(lt: (string, string) -> bool, a: Key, b: Key)
    requires StrictTotal(lt) && IsStrong(a) && IsStrong(b) && lt(LockName(a), LockName(b))
    ensures LockKeys(lt, [a, b]) == [LockName(a), LockName(b)]
  {
    hide IsStrong, LockName;
    assert [a, b][..1] == [a] && [a][..0] == [];
    assert StrongNames([]) == [];
    assert StrongNames([a]) == [LockName(a)];
    var names := [LockName(a), LockName(b)];
    assert StrongNames([a, b]) == names;
    assert names[1..] == [LockName(b)] && [LockName(b)][1..] == [];
    assert Sort(lt, [LockName(b)]) == [LockName(b)];
  }

  /** One collision between the first and the last of three lock keys is enough for two ingestions to wait for each
      other. */
  lemma CollisionDeadlocks(p: Protocol, a: Key, b: Key, c: Key, record: SourceRecord, dto: Dto)
    returns (steps: seq<Step>, v: World)
    requires Sound(p.env) && Straddles(p, a, b, c)
    ensures Leads(p, World({}, map[]), steps, v)
    ensures WaitPath(p, v, [0, 1, 0])
  {
    hide IsStrong, LockName, LockKeys;
    TwoLocks(p.env.units, a, b);
    TwoLocks(p.env.units, b, c);
    var first, second := Opened(Work(record, dto, [a, b])), Opened(Work(record, dto, [b, c]));
    var w0 := World({}, map[]);
    var w1 := World({}, w0.open[0 := first]);
    var w2 := World({}, w1.open[1 := second]);
    var w3 := World({}, w2.open[0 := first.(next := 1, held := first.held + {p.hash(LockName(a))})]);
    v := World({}, w3.open[1 := second.(next := 1, held := second.held + {p.hash(LockName(b))})]);
    steps := [Begin(0, first.work), Begin(1, second.work), Acquire(0), Acquire(1)];
    assert Locks(p, first) == [LockName(a), LockName(b)] && Locks(p, second) == [LockName(b), LockName(c)];
    assert Locks(p, v.open[0]) == Locks(p, first) && Locks(p, v.open[1]) == Locks(p, second);
    assert Enabled(p, w0, steps[0]) && Next(p, w0, steps[0]) == w1;
    assert Enabled(p, w1, steps[1]) && Next(p, w1, steps[1]) == w2;
    assert Enabled(p, w2, steps[2]) && Next(p, w2, steps[2]) == w3;
    assert Enabled(p, w3, steps[3]) && Next(p, w3, steps[3]) == v;
    hide *;
    FourSteps(p, w0, w1, w2, w3, v, steps);
  }

  lemma FourSteps(p: Protocol, w0: World, w1: World, w2: World, w3: World, v: World, steps: seq<Step>)
    requires Sound(p.env) && |steps| == 4
    requires Enabled(p, w0, steps[0]) && Next(p, w0, steps[0]) == w1
    requires Enabled(p, w1, steps[1]) && Next(p, w1, steps[1]) == w2
    requires Enabled(p, w2, steps[2]) && Next(p, w2, steps[2]) == w3
    requires Enabled(p, w3, steps[3]) && Next(p, w3, steps[3]) == v
    ensures Leads(p, w0, steps, v)
  {
    hide Enabled, Next;
    assert Leads(p, v, steps[4..], v);
    assert steps[3..][1..] == steps[4..];
    assert Leads(p, w3, steps[3..], v);
    assert steps[2..][1..] == steps[3..];
    assert Leads(p, w2, steps[2..], v);
    assert steps[1..][1..] == steps[2..];
    assert Leads(p, w1, steps[1..], v);
  }

  /** Can a run reach a state in which transactions wait for each other in a circle? */
  ghost predicate CanDeadlock(p: Protocol)
    requires Sound(p.env)
  {
    exists w, steps, v, path :: Deadlocks(p, w, steps, v, path)
  }

  ghost predicate Deadlocks(p: Protocol, w: World, steps: seq<Step>, v: World, path: seq<TxId>)
    requires Sound(p.env)
  {
    Initial(w) && Leads(p, w, steps, v) && |path| >= 2 && WaitPath(p, v, path) && path[0] == path[|path| - 1]
  }

  lemma InjectiveIsConvex(p: Protocol)
    requires Sound(p.env) && Injective(p.hash)
    ensures Convex(p)
  {
    forall a, b, c ensures !Straddles(p, a, b, c) {
      hide IsStrong, LockName;
      if Straddles(p, a, b, c) { Transitive(p.env.units, LockName(a), LockName(b), LockName(c)); }
    }
  }

  /** Ingestions can deadlock if and only if the lock hash confuses the outer two, but not the middle one, of three
      ascending lock keys of strong identifiers. */
  lemma DeadlocksExactly(p: Protocol)
    requires Sound(p.env)
    ensures CanDeadlock(p) <==> exists a, b, c :: Straddles(p, a, b, c)
  {
    if a, b, c :| Straddles(p, a, b, c) {
      var none := Dto([], "", "", "", [], "", "", "");
      var steps, v := CollisionDeadlocks(p, a, b, c, SourceRecord("", None), none);
      assert Deadlocks(p, World({}, map[]), steps, v, [0, 1, 0]);
    } else {
      assert Convex(p);
      forall w, steps, v, path ensures !Deadlocks(p, w, steps, v, path) {
        hide Straddles, WaitPath, Leads;
        if Deadlocks(p, w, steps, v, path) {
          RunKeepsInv(p, w, steps, v);
          NoWaitCycle(p, v, path);
        }
      }
    }
  }
}
