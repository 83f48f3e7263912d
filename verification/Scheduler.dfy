/** Scheduling of inventory runs by any number of concurrent schedulers
    (src/server/services/cortex-inventory-scheduler.service.ts). */
module Scheduler {
  import opened Wrappers

  type Connector = string

  datatype RunType = FULL | RECONCILIATION | OTHER
  datatype RunState = QUEUED | RUNNING | SUCCEEDED | PARTIAL | FAILED

  /** `asOf` is the time the scheduler worked with; a run started by hand has none. */
  datatype SyncRun = SyncRun(connector: Connector, runType: RunType, state: RunState, asOf: Option<nat>,
                             completedAt: nat)

  /** Only enabled, undeleted connectors of the scheduled type take part. */
  datatype Profile = Profile(eligible: bool, scheduleMinutes: nat, lastSyncAt: Option<nat>)

  const DAY: nat := 1440

  function DayOf(minute: nat): nat { minute / DAY }

  predicate Active(r: SyncRun) { r.state == QUEUED || r.state == RUNNING }

  predicate Busy(runs: seq<SyncRun>, c: Connector) {
    exists k :: 0 <= k < |runs| && runs[k].connector == c && Active(runs[k])
  }

  /** Has a reconciliation of the connector succeeded since the start of the day of `now`? */
  predicate Reconciled(runs: seq<SyncRun>, c: Connector, now: nat) {
    exists k :: 0 <= k < |runs| && runs[k].connector == c && runs[k].runType == RECONCILIATION
                && runs[k].state == SUCCEEDED && runs[k].completedAt >= DayOf(now) * DAY
  }

  predicate Due(p: Profile, now: nat) {
    p.eligible && p.scheduleMinutes > 0 && (p.lastSyncAt.None? || p.lastSyncAt.value + p.scheduleMinutes <= now)
  }

  /** What the scheduler inserts for one locked connector, given the runs it can see. */
  function Plan(runs: seq<SyncRun>, c: Connector, now: nat): seq<SyncRun> {
    if Busy(runs, c) then []
    else [SyncRun(c, if Reconciled(runs, c, now) then FULL else RECONCILIATION, QUEUED, Some(now), 0)]
  }

  function PlanAll(runs: seq<SyncRun>, connectors: seq<Connector>, n: nat, now: nat): seq<SyncRun>
    requires n <= |connectors|
  {
    if n == 0 then []
    else
      var front := PlanAll(runs, connectors, n - 1, now);
      front + Plan(runs + front, connectors[n - 1], now)
  }

  predicate Apart(connectors: seq<Connector>) {
    forall i, j :: 0 <= i < j < |connectors| ==> connectors[i] != connectors[j]
  }

  /** The connectors without a queued or running run, in order. */
  function IdleOnes(runs: seq<SyncRun>, connectors: seq<Connector>): seq<Connector> {
    if connectors == [] then []
    else
      var n := |connectors| - 1;
      IdleOnes(runs, connectors[..n])
      + (if forall r :: r in runs && r.connector == connectors[n] ==> r.state !in {QUEUED, RUNNING}
         then [connectors[n]] else [])
  }

  /** One run for each idle connector, in order: a reconciliation unless one of its connector has succeeded since
      midnight. */
  ghost predicate Enqueued(runs: seq<SyncRun>, connectors: seq<Connector>, now: nat, plan: seq<SyncRun>) {
    var idle := IdleOnes(runs, connectors);
    && |plan| == |idle|
    && forall i :: 0 <= i < |plan| ==>
         && plan[i].connector == idle[i] && plan[i].state == QUEUED && plan[i].asOf == Some(now)
         && (plan[i].runType == if exists r :: r in runs && r.connector == idle[i] && r.runType == RECONCILIATION
                                               && r.state == SUCCEEDED && r.completedAt >= now - now % 1440
                                then FULL else RECONCILIATION)
  }

  lemma BusyIs(runs: seq<SyncRun>, c: Connector)
    ensures !Busy(runs, c) <==> forall r :: r in runs && r.connector == c ==> r.state !in {QUEUED, RUNNING}
  {
    if Busy(runs, c) {
      var k :| 0 <= k < |runs| && runs[k].connector == c && Active(runs[k]);
      assert runs[k] in runs;
    }
  }

  lemma ReconciledIs(runs: seq<SyncRun>, c: Connector, now: nat)
    ensures Reconciled(runs, c, now) <==>
            exists r :: r in runs && r.connector == c && r.runType == RECONCILIATION && r.state == SUCCEEDED
                        && r.completedAt >= now - now % 1440
  {
    assert DayOf(now) * DAY == now - now % 1440;
    if Reconciled(runs, c, now) {
      var k :| 0 <= k < |runs| && runs[k].connector == c && runs[k].runType == RECONCILIATION
               && runs[k].state == SUCCEEDED && runs[k].completedAt >= DayOf(now) * DAY;
      assert runs[k] in runs;
    }
  }

  /** Runs of other connectors do not matter to the plan of one. */
  lemma OtherRuns(runs: seq<SyncRun>, more: seq<SyncRun>, c: Connector, now: nat)
    requires forall r :: r in more ==> r.connector != c
    ensures Plan(runs + more, c, now) == Plan(runs, c, now)
  {
    BusyIs(runs, c);
    BusyIs(runs + more, c);
    ReconciledIs(runs, c, now);
    ReconciledIs(runs + more, c, now);
    assert forall r :: r in runs + more <==> r in runs || r in more;
    hide Busy, Reconciled;
  }

  lemma {:induction false} PlansOwnConnectors(runs: seq<SyncRun>, connectors: seq<Connector>, n: nat, now: nat)
    requires n <= |connectors|
    ensures forall r :: r in PlanAll(runs, connectors, n, now) ==> r.connector in connectors[..n]
  {
    if n > 0 {
      PlansOwnConnectors(runs, connectors, n - 1, now);
      hide Busy, Reconciled;
      assert connectors[..n] == connectors[..n - 1] + [connectors[n - 1]];
    }
  }

  lemma PlanOneMore(runs: seq<SyncRun>, connectors: seq<Connector>, now: nat, front: seq<SyncRun>)
    requires connectors != []
    requires Enqueued(runs, connectors[..|connectors| - 1], now, front)
    ensures Enqueued(runs, connectors, now, front + Plan(runs, connectors[|connectors| - 1], now))
  {
    var c := connectors[|connectors| - 1];
    BusyIs(runs, c);
    ReconciledIs(runs, c, now);
    hide Busy, Reconciled;
  }

  /** Over distinct connectors the loop enqueues exactly what is wanted. */
  lemma {:induction false} PlanAllExactly(runs: seq<SyncRun>, connectors: seq<Connector>, now: nat)
    requires Apart(connectors)
    ensures Enqueued(runs, connectors, now, PlanAll(runs, connectors, |connectors|, now))
  {
    if connectors != [] {
      var n := |connectors| - 1;
      var rest, c := connectors[..n], connectors[n];
      PlanAllExactly(runs, rest, now);
      SamePlans(runs, connectors, rest, n, now);
      var front := PlanAll(runs, rest, n, now);
      PlansOwnConnectors(runs, rest, n, now);
      assert rest[..n] == rest;
      hide Busy, Reconciled, Enqueued, Plan;
      OtherRuns(runs, front, c, now);
      PlanOneMore(runs, connectors, now, front);
    }
  }

  lemma {:induction false} SamePlans(runs: seq<SyncRun>, v: seq<Connector>, w: seq<Connector>, n: nat, now: nat)
    requires n <= |v| && n <= |w| && v[..n] == w[..n]
    ensures PlanAll(runs, v, n, now) == PlanAll(runs, w, n, now)
  {
    if n > 0 {
      assert v[..n - 1] == v[..n][..n - 1] == w[..n - 1];
      assert v[n - 1] == v[..n][n - 1] == w[n - 1];
      hide Plan;
      SamePlans(runs, v, w, n - 1, now);
    }
  }

  /** The body of one scheduling transaction over the connectors it has locked: each inserted run has its event,
      named by the position of the run, and the count reports the insertions. */
  class RunTables {
    var runs: seq<SyncRun>
    var outbox: seq<nat>

    constructor ()
      ensures runs == [] && outbox == []
    {
      runs, outbox := [], [];
    }

    method EnqueueLocked(connectors: seq<Connector>, now: nat) returns (count: nat)
      modifies this
      ensures runs == old(runs) + PlanAll(old(runs), connectors, |connectors|, now)
      ensures count == |runs| - |old(runs)|
      ensures outbox == old(outbox) + seq(count, k => |old(runs)| + k)
      ensures Apart(connectors) ==> Enqueued(old(runs), connectors, now, runs[|old(runs)|..])
    {
      if Apart(connectors) { PlanAllExactly(runs, connectors, now); }
      hide Busy, Reconciled, Enqueued, Apart;
      count := 0;
      for n := 0 to |connectors|
        invariant runs == old(runs) + PlanAll(old(runs), connectors, n, now)
        invariant count == |runs| - |old(runs)|
        invariant outbox == old(outbox) + seq(count, k => |old(runs)| + k)
      {
        var connector := connectors[n];
        if Busy(runs, connector) { continue; }
        var runType := if Reconciled(runs, connector, now) then FULL else RECONCILIATION;
        outbox := outbox + [|runs|];
        runs := runs + [SyncRun(connector, runType, QUEUED, Some(now), 0)];
        count := count + 1;
      }
    }
  }

  // ---------------------------------------------------------------------
  // Concurrent transactions
  // ---------------------------------------------------------------------

  type TxId = nat

  /** An open transaction: its time, the rows it has locked, the connectors still to visit, and its own insertions. */
  datatype Tx = Tx(now: nat, locked: set<Connector>, todo: set<Connector>, inserted: seq<SyncRun>)

  /** `events` names the run of each outbox event by position. */
  datatype World = World(clock: nat, profiles: map<Connector, Profile>, runs: seq<SyncRun>, events: seq<nat>,
                         open: map<TxId, Tx>)

  datatype Step =
    | Tick
    | Begin(t: TxId, now: nat)
    | Visit(t: TxId, c: Connector)
    | Commit(t: TxId)
    | Abort(t: TxId)
    | Manual(c: Connector, runType: RunType)
    | Start(run: nat)
    | Complete(run: nat, state: RunState)
    | Configure(c: Connector, p: Profile)

  ghost predicate LockedByOther(w: World, c: Connector, t: TxId) {
    exists u :: u in w.open && u != t && c in w.open[u].locked
  }

  ghost predicate Locked(w: World, c: Connector) { exists u :: u in w.open && c in w.open[u].locked }

  /** A step is allowed as the database would allow it: SKIP LOCKED leaves locked rows alone, a run started by hand
      needs the connector row and the unique index on active runs, statements see committed runs and their own. */
  ghost predicate Enabled(w: World, s: Step) {
    match s
    case Tick => true
    case Begin(t, now) => t !in w.open && now <= w.clock
    case Visit(t, c) => t in w.open && c in w.open[t].todo
    case Commit(t) => t in w.open && w.open[t].todo == {}
    case Abort(t) => t in w.open
    case Manual(c, _) => !Locked(w, c) && !Busy(w.runs, c)
    case Start(k) => k < |w.runs| && w.runs[k].state == QUEUED
    case Complete(k, state) => k < |w.runs| && Active(w.runs[k]) && state in {SUCCEEDED, PARTIAL, FAILED}
    case Configure(_, _) => true
  }

  ghost function LockSet(w: World, t: TxId, now: nat): set<Connector> {
    set c | c in w.profiles && Due(w.profiles[c], now) && !LockedByOther(w, c, t)
  }

  function Positions(from: nat, n: nat): seq<nat> { seq(n, k => from + k) }

  ghost function Next(w: World, s: Step): World
    requires Enabled(w, s)
  {
    match s
    case Tick => w.(clock := w.clock + 1)
    case Begin(t, now) =>
      var locked := LockSet(w, t, now);
      w.(open := w.open[t := Tx(now, locked, locked, [])])
    case Visit(t, c) =>
      var tx := w.open[t];
      w.(open := w.open[t := tx.(todo := tx.todo - {c},
                                    inserted := tx.inserted + Plan(w.runs + tx.inserted, c, tx.now))])
    case Commit(t) =>
      var tx := w.open[t];
      w.(runs := w.runs + tx.inserted, events := w.events + Positions(|w.runs|, |tx.inserted|), open := w.open - {t})
    case Abort(t) => w.(open := w.open - {t})
    case Manual(c, runType) =>
      w.(runs := w.runs + [SyncRun(c, runType, QUEUED, None, 0)], events := w.events + [|w.runs|])
    case Start(k) => w.(runs := w.runs[k := w.runs[k].(state := RUNNING)])
    case Complete(k, state) =>
      var c := w.runs[k].connector;
      w.(runs := w.runs[k := w.runs[k].(state := state, completedAt := w.clock)],
         profiles := if state != FAILED && c in w.profiles
                     then w.profiles[c := w.profiles[c].(lastSyncAt := Some(w.clock))] else w.profiles)
    case Configure(c, p) => w.(profiles := w.profiles[c := p])
  }

  // ---------------------------------------------------------------------
  // The invariant
  // ---------------------------------------------------------------------

  /** A connector has at most one queued or running run. */
  ghost predicate OneActive(runs: seq<SyncRun>) {
    forall i, j :: 0 <= i < j < |runs| && Active(runs[i]) && Active(runs[j]) ==> runs[i].connector != runs[j].connector
  }

  predicate Scheduled(r: SyncRun) { r.asOf.Some? && r.runType == RECONCILIATION }

  /** While a scheduled reconciliation is active, every reconciliation that has succeeded did so before its day. */
  ghost predicate FreshDay(done: SyncRun, r: SyncRun) {
    Scheduled(r) && done.connector == r.connector && done.runType == RECONCILIATION && done.state == SUCCEEDED
    ==> done.completedAt < DayOf(r.asOf.value) * DAY
  }

  ghost predicate ActiveAreFresh(runs: seq<SyncRun>) {
    forall i, j :: 0 <= i < |runs| && 0 <= j < |runs| && Active(runs[j]) ==> FreshDay(runs[i], runs[j])
  }

  ghost predicate TimesPassed(w: World) {
    && (forall k :: 0 <= k < |w.runs| && w.runs[k].asOf.Some? ==> w.runs[k].asOf.value <= w.clock)
    && (forall k :: 0 <= k < |w.runs| ==> w.runs[k].completedAt <= w.clock)
  }

  /** Two scheduled reconciliations of a connector never succeed on the same day. */
  ghost predicate OncePerDay(runs: seq<SyncRun>) {
    forall i, j :: 0 <= i < j < |runs| && Scheduled(runs[i]) && Scheduled(runs[j])
                   && runs[i].connector == runs[j].connector && runs[i].state == SUCCEEDED && runs[j].state == SUCCEEDED
                   ==> DayOf(runs[i].completedAt) != DayOf(runs[j].completedAt)
  }

  /** What an open transaction has inserted belongs to rows it holds and has visited, and nobody else runs there. */
  ghost predicate TxOk(w: World, tx: Tx) {
    && tx.now <= w.clock && tx.todo <= tx.locked
    && (forall k :: 0 <= k < |tx.inserted| ==>
          var r := tx.inserted[k];
          && r.state == QUEUED && r.asOf == Some(tx.now) && r.completedAt == 0
          && r.connector in tx.locked && r.connector !in tx.todo && !Busy(w.runs, r.connector)
          && forall i :: 0 <= i < |w.runs| ==> FreshDay(w.runs[i], r))
    && (forall i, j :: 0 <= i < j < |tx.inserted| ==> tx.inserted[i].connector != tx.inserted[j].connector)
  }

  ghost predicate Disjoint(w: World) {
    forall t, u :: t in w.open && u in w.open && t != u ==> w.open[t].locked !! w.open[u].locked
  }

  ghost predicate Inv(w: World) {
    && OneActive(w.runs) && ActiveAreFresh(w.runs) && OncePerDay(w.runs) && TimesPassed(w)
    && Disjoint(w)
    && (forall t :: t in w.open ==> TxOk(w, w.open[t]))
    && w.events == Positions(0, |w.runs|)
  }

  lemma DayStart(m: nat, n: nat)
    requires m <= n
    ensures DayOf(m) <= DayOf(n) && DayOf(m) * DAY <= DayOf(n) * DAY <= n
    ensures m < DayOf(n) * DAY ==> DayOf(m) != DayOf(n)
  {}

  // ---------------------------------------------------------------------
  // Every step keeps the invariant
  // ---------------------------------------------------------------------

  lemma BeginKeeps(w: World, t: TxId, now: nat)
    requires Inv(w) && Enabled(w, Begin(t, now))
    ensures Inv(Next(w, Begin(t, now)))
  {
    var v := Next(w, Begin(t, now));
    forall u | u in v.open ensures TxOk(v, v.open[u]) {
      if u != t { assert TxOk(w, w.open[u]); }
    }
    assert Disjoint(v) by {
      forall x, y | x in v.open && y in v.open && x != y ensures v.open[x].locked !! v.open[y].locked {
        if x == t { LockSetIsFree(w, t, now, y); }
        if y == t { LockSetIsFree(w, t, now, x); }
      }
    }
  }

  lemma LockSetIsFree(w: World, t: TxId, now: nat, u: TxId)
    requires u in w.open && u != t
    ensures LockSet(w, t, now) !! w.open[u].locked
  {
    forall c | c in LockSet(w, t, now) ensures c !in w.open[u].locked {
      assert !LockedByOther(w, c, t);
    }
  }

  /** A transaction locks exactly the eligible connectors with a schedule whose last synchronisation, if any, is at
      least that long ago, and which no other open transaction has locked. */
  lemma LocksExactly(w: World, t: TxId, now: nat, c: Connector)
    requires Enabled(w, Begin(t, now))
    ensures c in Next(w, Begin(t, now)).open[t].locked <==>
            && c in w.profiles && w.profiles[c].eligible && w.profiles[c].scheduleMinutes > 0
            && (w.profiles[c].lastSyncAt.Some? ==>
                  now - w.profiles[c].lastSyncAt.value >= w.profiles[c].scheduleMinutes)
            && forall u :: u in w.open ==> c !in w.open[u].locked
  {
    assert LockedByOther(w, c, t) <==> exists u :: u in w.open && c in w.open[u].locked;
  }

  /** A planned run finds its connector idle and, as a reconciliation, opens a fresh day. */
  lemma PlanIsSafe(runs: seq<SyncRun>, own: seq<SyncRun>, c: Connector, now: nat)
    ensures |Plan(runs + own, c, now)| <= 1
    ensures forall r :: r in Plan(runs + own, c, now) ==>
              && r.connector == c && r.state == QUEUED && r.asOf == Some(now) && r.completedAt == 0
              && !Busy(runs, c)
              && forall i :: 0 <= i < |runs| ==> FreshDay(runs[i], r)
  {
    var all := runs + own;
    assert forall i :: 0 <= i < |runs| ==> all[i] == runs[i];
    if !Busy(all, c) {
      assert !Busy(runs, c);
      var r := SyncRun(c, if Reconciled(all, c, now) then FULL else RECONCILIATION, QUEUED, Some(now), 0);
      forall i | 0 <= i < |runs| ensures FreshDay(runs[i], r) {
        if !Reconciled(all, c, now) { assert all[i] == runs[i]; }
      }
    }
  }

  lemma VisitKeepsTx(w: World, t: TxId, c: Connector)
    requires Inv(w) && Enabled(w, Visit(t, c))
    ensures TxOk(w, Next(w, Visit(t, c)).open[t])
  {
    var tx := w.open[t];
    assert TxOk(w, tx);
    var plan := Plan(w.runs + tx.inserted, c, tx.now);
    PlanIsSafe(w.runs, tx.inserted, c, tx.now);
    hide Plan, Busy;
    var next := Next(w, Visit(t, c)).open[t];
    assert next.inserted == tx.inserted + plan;
    forall k | 0 <= k < |next.inserted|
      ensures var r := next.inserted[k];
              && r.state == QUEUED && r.asOf == Some(tx.now) && r.completedAt == 0
              && r.connector in tx.locked && r.connector !in next.todo && !Busy(w.runs, r.connector)
              && forall i :: 0 <= i < |w.runs| ==> FreshDay(w.runs[i], r)
    {
      if k < |tx.inserted| {
        assert next.inserted[k] == tx.inserted[k];
      } else {
        assert next.inserted[k] in plan;
      }
    }
    forall i, j | 0 <= i < j < |next.inserted| ensures next.inserted[i].connector != next.inserted[j].connector {
      assert next.inserted[i] == tx.inserted[i];
      if j >= |tx.inserted| { assert next.inserted[j] in plan; }
    }
  }

  lemma VisitKeeps(w: World, t: TxId, c: Connector)
    requires Inv(w) && Enabled(w, Visit(t, c))
    ensures Inv(Next(w, Visit(t, c)))
  {
    VisitKeepsTx(w, t, c);
    var v := Next(w, Visit(t, c));
    forall u | u in v.open ensures TxOk(v, v.open[u]) {
      if u != t { assert TxOk(w, w.open[u]); }
    }
  }

  lemma BusyAppend(runs: seq<SyncRun>, more: seq<SyncRun>, c: Connector)
    requires !Busy(runs, c) && forall k :: 0 <= k < |more| ==> more[k].connector != c
    ensures !Busy(runs + more, c)
  {}

  lemma CommitKeepsOthers(w: World, t: TxId, u: TxId)
    requires Inv(w) && Enabled(w, Commit(t)) && u in w.open && u != t
    ensures TxOk(Next(w, Commit(t)), w.open[u])
  {
    var tx, other := w.open[t], w.open[u];
    assert TxOk(w, tx) && TxOk(w, other);
    var runs := w.runs + tx.inserted;
    forall k | 0 <= k < |other.inserted|
      ensures !Busy(runs, other.inserted[k].connector)
      ensures forall i :: 0 <= i < |runs| ==> FreshDay(runs[i], other.inserted[k])
    {
      BusyAppend(w.runs, tx.inserted, other.inserted[k].connector);
    }
  }

  lemma CommitKeeps(w: World, t: TxId)
    requires Inv(w) && Enabled(w, Commit(t))
    ensures Inv(Next(w, Commit(t)))
  {
    var tx := w.open[t];
    var v := Next(w, Commit(t));
    assert TxOk(w, tx);
    forall u | u in v.open ensures TxOk(v, v.open[u]) { CommitKeepsOthers(w, t, u); }
    assert v.events == Positions(0, |v.runs|);
  }

  lemma ManualKeeps(w: World, c: Connector, runType: RunType)
    requires Inv(w) && Enabled(w, Manual(c, runType))
    ensures Inv(Next(w, Manual(c, runType)))
  {
    var r := SyncRun(c, runType, QUEUED, None, 0);
    var v := Next(w, Manual(c, runType));
    forall u | u in v.open ensures TxOk(v, v.open[u]) {
      var tx := w.open[u];
      assert TxOk(w, tx) && c !in tx.locked;
      forall k | 0 <= k < |tx.inserted|
        ensures !Busy(v.runs, tx.inserted[k].connector)
        ensures forall i :: 0 <= i < |v.runs| ==> FreshDay(v.runs[i], tx.inserted[k])
      {
        BusyAppend(w.runs, [r], tx.inserted[k].connector);
      }
    }
    assert v.events == Positions(0, |v.runs|);
  }

  /** Changing the state of one active run leaves every other connector alone. */
  lemma UpdateKeepsTx(w: World, k: nat, r: SyncRun, tx: Tx)
    requires TxOk(w, tx) && k < |w.runs| && Active(w.runs[k]) && r.connector == w.runs[k].connector
    ensures var runs := w.runs[k := r];
            forall i :: 0 <= i < |tx.inserted| ==>
              && !Busy(runs, tx.inserted[i].connector)
              && forall j :: 0 <= j < |runs| ==> FreshDay(runs[j], tx.inserted[i])
  {
    var runs := w.runs[k := r];
    forall i | 0 <= i < |tx.inserted|
      ensures !Busy(runs, tx.inserted[i].connector)
      ensures forall j :: 0 <= j < |w.runs| ==> FreshDay(runs[j], tx.inserted[i])
    {
      assert !Busy(w.runs, tx.inserted[i].connector);
      assert tx.inserted[i].connector != r.connector;
      assert forall j :: 0 <= j < |runs| && j != k ==> runs[j] == w.runs[j];
    }
  }

  lemma StartKeeps(w: World, k: nat)
    requires Inv(w) && Enabled(w, Start(k))
    ensures Inv(Next(w, Start(k)))
  {
    var r := w.runs[k].(state := RUNNING);
    var v := Next(w, Start(k));
    forall u | u in v.open ensures TxOk(v, v.open[u]) {
      assert TxOk(w, w.open[u]);
      UpdateKeepsTx(w, k, r, w.open[u]);
    }
    forall i, j | 0 <= i < |v.runs| && 0 <= j < |v.runs| && Active(v.runs[j]) ensures FreshDay(v.runs[i], v.runs[j]) {
      assert FreshDay(w.runs[i], w.runs[j]);
    }
  }

  /** A scheduled reconciliation that succeeds is the first of its connector on that day. */
  lemma CompleteKeepsDays(w: World, k: nat, state: RunState)
    requires Inv(w) && Enabled(w, Complete(k, state))
    ensures OncePerDay(Next(w, Complete(k, state)).runs)
  {
    var v := Next(w, Complete(k, state));
    forall i, j | 0 <= i < j < |v.runs| && Scheduled(v.runs[i]) && Scheduled(v.runs[j])
                  && v.runs[i].connector == v.runs[j].connector
                  && v.runs[i].state == SUCCEEDED && v.runs[j].state == SUCCEEDED
      ensures DayOf(v.runs[i].completedAt) != DayOf(v.runs[j].completedAt)
    {
      if i == k || j == k {
        var other := if i == k then j else i;
        assert v.runs[other] == w.runs[other];
        assert FreshDay(w.runs[other], w.runs[k]);
        DayStart(w.runs[k].asOf.value, w.clock);
        DayStart(w.runs[other].completedAt, w.clock);
      } else {
        assert v.runs[i] == w.runs[i] && v.runs[j] == w.runs[j];
      }
    }
  }

  lemma CompleteKeeps(w: World, k: nat, state: RunState)
    requires Inv(w) && Enabled(w, Complete(k, state))
    ensures Inv(Next(w, Complete(k, state)))
  {
    var v := Next(w, Complete(k, state));
    CompleteKeepsDays(w, k, state);
    forall u | u in v.open ensures TxOk(v, v.open[u]) {
      assert TxOk(w, w.open[u]);
      UpdateKeepsTx(w, k, v.runs[k], w.open[u]);
    }
    forall i, j | 0 <= i < |v.runs| && 0 <= j < |v.runs| && Active(v.runs[j]) ensures FreshDay(v.runs[i], v.runs[j]) {
      assert v.runs[j] == w.runs[j] && Active(w.runs[j]);
      if i == k { assert w.runs[k].connector != w.runs[j].connector; } else { assert v.runs[i] == w.runs[i]; }
    }
  }

  lemma QuietKeeps(w: World, s: Step)
    requires Inv(w) && Enabled(w, s) && (s.Tick? || s.Abort? || s.Configure?)
    ensures Inv(Next(w, s))
  {
    var v := Next(w, s);
    forall u | u in v.open ensures TxOk(v, v.open[u]) { assert TxOk(w, w.open[u]); }
  }

  lemma StepKeepsInv(w: World, s: Step)
    requires Inv(w) && Enabled(w, s)
    ensures Inv(Next(w, s))
  {
    hide Inv, Enabled, Next;
    match s
    case Begin(t, now) => BeginKeeps(w, t, now);
    case Visit(t, c) => VisitKeeps(w, t, c);
    case Commit(t) => CommitKeeps(w, t);
    case Manual(c, runType) => ManualKeeps(w, c, runType);
    case Start(k) => StartKeeps(w, k);
    case Complete(k, state) => CompleteKeeps(w, k, state);
    case _ => QuietKeeps(w, s);
  }

  // ---------------------------------------------------------------------
  // Whole runs
  // ---------------------------------------------------------------------

  ghost predicate Initial(w: World) { w.runs == [] && w.events == [] && w.open == map[] }

  /** The worlds reached by a sequence of allowed steps. */
  ghost predicate Leads(w: World, steps: seq<Step>, v: World)
    decreases |steps|
  {
    if steps == [] then w == v else Enabled(w, steps[0]) && Leads(Next(w, steps[0]), steps[1..], v)
  }

  lemma {:induction false} RunKeepsInv(w: World, steps: seq<Step>, v: World)
    requires Inv(w) && Leads(w, steps, v)
    ensures Inv(v)
    decreases |steps|
  {
    if steps != [] {
      hide Inv;
      StepKeepsInv(w, steps[0]);
      RunKeepsInv(Next(w, steps[0]), steps[1..], v);
    }
  }

  /** However many schedulers, workers and manual requests interleave: one active run per connector, exactly one
      event per run, and at most one scheduled reconciliation succeeding per connector and day. */
  lemma SchedulingIsSafe(w: World, steps: seq<Step>, v: World)
    requires Initial(w) && Leads(w, steps, v)
    ensures forall i, j ::
              && 0 <= i < j < |v.runs|
              && v.runs[i].state in {QUEUED, RUNNING} && v.runs[j].state in {QUEUED, RUNNING}
              ==> v.runs[i].connector != v.runs[j].connector
    ensures forall i, j ::
              && 0 <= i < j < |v.runs| && v.runs[i].connector == v.runs[j].connector
              && v.runs[i].asOf.Some? && v.runs[i].runType == RECONCILIATION && v.runs[i].state == SUCCEEDED
              && v.runs[j].asOf.Some? && v.runs[j].runType == RECONCILIATION && v.runs[j].state == SUCCEEDED
              ==> v.runs[i].completedAt / 1440 != v.runs[j].completedAt / 1440
    ensures |v.events| == |v.runs| && forall k :: 0 <= k < |v.runs| ==> v.events[k] == k
  {
    assert w.events == Positions(0, |w.runs|);
    RunKeepsInv(w, steps, v);
    hide Leads, ActiveAreFresh, TxOk, TimesPassed;
  }

  lemma {:induction false} LeadsOneMore(w: World, steps: seq<Step>, v: World, s: Step)
    requires Leads(w, steps, v) && Enabled(v, s)
    ensures Leads(w, steps + [s], Next(v, s))
    decreases |steps|
  {
    if steps == [] {
      assert [s][1..] == [];
      assert steps + [s] == [s];
    } else {
      hide Enabled, Next;
      assert (steps + [s])[1..] == steps[1..] + [s];
      LeadsOneMore(Next(w, steps[0]), steps[1..], v, s);
    }
  }

  /** Visiting the locked connectors without interruption inserts exactly what the loop of the source inserts. */
  lemma {:induction false} LoopIsVisits(w: World, t: TxId, connectors: seq<Connector>, n: nat)
    returns (steps: seq<Step>, v: World)
    requires n <= |connectors| && t in w.open && w.open[t].inserted == []
    requires forall i :: 0 <= i < |connectors| ==> connectors[i] in w.open[t].todo
    requires forall i, j :: 0 <= i < j < |connectors| ==> connectors[i] != connectors[j]
    ensures Leads(w, steps, v) && |steps| == n
    ensures t in v.open && v.runs == w.runs
    ensures v.open[t].inserted == PlanAll(w.runs, connectors, n, w.open[t].now) && v.open[t].now == w.open[t].now
    ensures forall i :: n <= i < |connectors| ==> connectors[i] in v.open[t].todo
    ensures v == w.(open := w.open[t := v.open[t]])
    ensures forall c :: c in v.open[t].todo <==> c in w.open[t].todo && c !in connectors[..n]
  {
    if n == 0 {
      steps, v := [], w;
      assert connectors[..0] == [];
    } else {
      hide Plan;
      steps, v := LoopIsVisits(w, t, connectors, n - 1);
      var s := Visit(t, connectors[n - 1]);
      LeadsOneMore(w, steps, v, s);
      steps, v := steps + [s], Next(v, s);
      assert connectors[..n] == connectors[..n - 1] + [connectors[n - 1]];
    }
  }

  lemma {:induction false} LeadsCons(w: World, s: Step, rest: seq<Step>, v: World)
    requires Enabled(w, s) && Leads(Next(w, s), rest, v)
    ensures Leads(w, [s] + rest, v)
  {
    hide Enabled, Next;
    assert ([s] + rest)[1..] == rest;
  }

  /** In any world a new scheduling transaction can begin, visit the connectors it locked and commit: it leaves exactly
      the wanted runs, each with its event, and nothing else. */
  lemma SchedulingCanRun(w: World, t: TxId, connectors: seq<Connector>) returns (steps: seq<Step>, v: World)
    requires t !in w.open && Apart(connectors)
    requires forall c :: c in connectors <==> c in Next(w, Begin(t, w.clock)).open[t].locked
    ensures Leads(w, steps, v) && w.runs <= v.runs
    ensures Enqueued(w.runs, connectors, w.clock, v.runs[|w.runs|..])
    ensures v == w.(runs := v.runs, events := w.events + Positions(|w.runs|, |v.runs| - |w.runs|))
  {
    var w1 := Next(w, Begin(t, w.clock));
    assert w1.open[t].inserted == [] && w1.runs == w.runs && w1.open[t].now == w.clock;
    var visits, w2 := LoopIsVisits(w1, t, connectors, |connectors|);
    assert connectors[..|connectors|] == connectors;
    assert w2.open[t].todo == {};
    PlanAllExactly(w.runs, connectors, w.clock);
    hide PlanAll, Enqueued, LockSet, Apart;
    LeadsOneMore(w1, visits, w2, Commit(t));
    v := Next(w2, Commit(t));
    LeadsCons(w, Begin(t, w.clock), visits + [Commit(t)], v);
    steps := [Begin(t, w.clock)] + (visits + [Commit(t)]);
    assert v.runs[|w.runs|..] == PlanAll(w.runs, connectors, |connectors|, w.clock);
    assert v.open == w.open;
  }

  /** What workers do to a run: a queued one can start, and an active one can end, now, in any final state. */
  lemma WorkerSteps(w: World, k: nat, state: RunState)
    requires k < |w.runs|
    ensures Enabled(w, Start(k)) <==> w.runs[k].state == QUEUED
    ensures Enabled(w, Start(k)) ==> Next(w, Start(k)) == w.(runs := w.runs[k := w.runs[k].(state := RUNNING)])
    ensures Enabled(w, Complete(k, state)) <==>
            w.runs[k].state in {QUEUED, RUNNING} && state !in {QUEUED, RUNNING}
    ensures Enabled(w, Complete(k, state)) ==>
              var v := Next(w, Complete(k, state));
              v == w.(runs := w.runs[k := w.runs[k].(state := state, completedAt := w.clock)], profiles := v.profiles)
    ensures Next(w, Tick) == w.(clock := w.clock + 1)
  {}

  /** A run that succeeds, even in part, puts its connector off until its schedule has elapsed; a failed one does
      not. */
  lemma CompletionPostpones(w: World, k: nat, state: RunState, t: TxId, now: nat)
    requires Enabled(w, Complete(k, state)) && w.runs[k].connector in w.profiles
    ensures var v, c := Next(w, Complete(k, state)), w.runs[k].connector;
            && (state == FAILED ==> v.profiles == w.profiles)
            && (state != FAILED && now < w.clock + w.profiles[c].scheduleMinutes ==> c !in LockSet(v, t, now))
            && forall d :: d != c ==> (d in v.profiles <==> d in w.profiles)
                                      && (d in w.profiles ==> v.profiles[d] == w.profiles[d])
  {
    hide LockedByOther;
  }

  /** What people do: a manual run needs an idle connector that no transaction has locked; a connector can be
      configured at any time. */
  lemma ManualSteps(w: World, c: Connector, runType: RunType, t: TxId)
    ensures Enabled(w, Manual(c, runType)) <==>
            && (forall u :: u in w.open ==> c !in w.open[u].locked)
            && forall r :: r in w.runs && r.connector == c ==> r.state !in {QUEUED, RUNNING}
    ensures Enabled(w, Manual(c, runType)) ==>
              Next(w, Manual(c, runType)) == w.(runs := w.runs + [SyncRun(c, runType, QUEUED, None, 0)],
                                                events := w.events + [|w.runs|])
    ensures Enabled(w, Abort(t)) <==> t in w.open
    ensures t in w.open ==> Next(w, Abort(t)) == w.(open := w.open - {t})
    ensures forall p :: Enabled(w, Configure(c, p)) && Next(w, Configure(c, p)) == w.(profiles := w.profiles[c := p])
  {
    BusyIs(w.runs, c);
    hide Busy;
  }
}
