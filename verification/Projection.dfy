/** The in-memory projection, its ordered write queue and the transactional outbox
    (src/server/db/database.ts, src/server/services/outbox.service.ts). */
module Projection {
  import opened ProjectionMerge
  import opened Wrappers

  /** A queued write: the snapshot and the outbox events pending when it was queued. */
  datatype Job = Job(snapshot: Data, events: set<string>)

  /** `jobs` is the promise chain, of which the first `completed` links have been resolved;
      `durable` and `durableEvents` are what the database holds. Events are named by their unique ids. */
  datatype Store = Store(
    data: Data,
    pending: set<string>,
    jobs: seq<Job>,
    completed: nat,
    lastError: Option<string>,
    queuedChecksum: Option<string>,
    durable: Data,
    durableEvents: set<string>)

  datatype Step =
    | Mutate(data: Data)
    | Enqueue(event: string)
    | Persist
    | WriteOk
    | WriteFail(error: string)
    | Rollback(data: Data, checkpoint: set<string>)
    | Publish(before: Data, committed: Data)

  function PersistStep(sum: Data -> string, s: Store): Store {
    if s.queuedChecksum == Some(sum(s.data)) && s.pending == {} then s
    else s.(jobs := s.jobs + [Job(s.data, s.pending)], queuedChecksum := Some(sum(s.data)))
  }

  /** The committed projection is merged into the live one. */
  function Published(s: Store, before: Data, committed: Data): Store {
    s.(data := MergeAll(before, committed, s.data), queuedChecksum := None)
  }

  /** One step of a run; a completion without an open job cannot happen and changes nothing. */
  function Next(sum: Data -> string, s: Store, step: Step): Store {
    match step
    case Mutate(d) => s.(data := d)
    case Enqueue(e) => s.(pending := s.pending + {e})
    case Persist => PersistStep(sum, s)
    case WriteOk =>
      if s.completed < |s.jobs| then
        var job := s.jobs[s.completed];
        s.(completed := s.completed + 1, durable := job.snapshot, durableEvents := s.durableEvents + job.events,
           pending := s.pending - job.events, lastError := None)
      else s
    case WriteFail(e) =>
      if s.completed < |s.jobs| then s.(completed := s.completed + 1, lastError := Some(e), queuedChecksum := None)
      else s
    case Rollback(d, checkpoint) => s.(data := d, pending := s.pending * checkpoint)
    case Publish(before, committed) => Published(s, before, committed)
  }

  function Run(sum: Data -> string, s: Store, steps: seq<Step>): Store
    decreases |steps|
  {
    if steps == [] then s else Run(sum, Next(sum, s, steps[0]), steps[1..])
  }

  // ---------------------------------------------------------------------
  // Transactions
  // ---------------------------------------------------------------------

  /** What a synchronous operation may do to the store. */
  datatype Op = SetData(data: Data) | Emit(event: string) | PersistNow

  function StepOf(op: Op): Step {
    match op case SetData(d) => Mutate(d) case Emit(e) => Enqueue(e) case PersistNow => Persist
  }

  function Perform(sum: Data -> string, s: Store, ops: seq<Op>): Store
    decreases |ops|
  {
    if ops == [] then s else Perform(sum, Next(sum, s, StepOf(ops[0])), ops[1..])
  }

  function Transaction(sum: Data -> string, s: Store, ops: seq<Op>, throws: bool, persist: bool): Store {
    var after := Perform(sum, s, ops);
    if throws then Next(sum, after, Rollback(s.data, s.pending))
    else if persist then Next(sum, after, Persist)
    else after
  }

  /** The store right after hydration: the stored snapshot counts as queued. */
  function Hydrated(sum: Data -> string, hydrated: Data): Store {
    Store(hydrated, {}, [], 0, None, Some(sum(hydrated)), hydrated, {})
  }

  /** What a flush waits for: a number of links, and what must be stored once they have resolved. */
  datatype Ticket = Ticket(target: nat, data: Data, events: set<string>)

  ghost predicate Owes(s: Store, t: Ticket) {
    && t.target <= |s.jobs|
    && (s.completed < t.target ==> s.jobs[t.target - 1].snapshot == t.data && t.events <= s.jobs[t.target - 1].events)
    && (s.completed == t.target && s.lastError.None? ==> s.durable == t.data && t.events <= s.durableEvents)
  }

  /** A transaction of its own, outside the queue, commits a projection. */
  function CommittedOutside(s: Store, committed: Data): Store { s.(durable := committed) }

  class Database {
    var currentData: Data
    var pendingEvents: set<string>
    var postgresWriteQueue: seq<Job>
    var completed: nat
    var postgresLastWriteError: Option<string>
    var postgresQueuedSnapshotChecksum: Option<string>
    var durable: Data
    var durableEvents: set<string>

    constructor (sum: Data -> string, hydrated: Data)
      ensures View() == Hydrated(sum, hydrated)
      ensures Inv(sum, View())
    {
      currentData, pendingEvents, postgresWriteQueue, completed := hydrated, {}, [], 0;
      postgresLastWriteError, postgresQueuedSnapshotChecksum := None, Some(sum(hydrated));
      durable, durableEvents := hydrated, {};
    }

    function View(): Store
      reads this
    {
      Store(currentData, pendingEvents, postgresWriteQueue, completed, postgresLastWriteError,
            postgresQueuedSnapshotChecksum, durable, durableEvents)
    }

    /** Inside a staged projection this does nothing; otherwise it queues the snapshot unless an equal one is
        queued already. */
    method PersistData(sum: Data -> string, isolated: bool)
      modifies this
      ensures View() == if isolated then old(View()) else Next(sum, old(View()), Persist)
    {
      if isolated { return; }
      var checksum := sum(currentData);
      if postgresQueuedSnapshotChecksum == Some(checksum) && pendingEvents == {} { return; }
      postgresQueuedSnapshotChecksum := Some(checksum);
      postgresWriteQueue := postgresWriteQueue + [Job(currentData, pendingEvents)];
    }

    /** The oldest open write commits: its events stop being pending. */
    method WriteSucceeded()
      requires completed < |postgresWriteQueue|
      modifies this
      ensures forall sum: Data -> string :: View() == Next(sum, old(View()), WriteOk)
    {
      var job := postgresWriteQueue[completed];
      durable, durableEvents := job.snapshot, durableEvents + job.events;
      pendingEvents := pendingEvents - job.events;
      postgresLastWriteError := None;
      completed := completed + 1;
    }

    /** The oldest open write fails: the next persist must not be skipped. */
    method WriteFailed(error: string)
      requires completed < |postgresWriteQueue|
      modifies this
      ensures forall sum: Data -> string :: View() == Next(sum, old(View()), WriteFail(error))
    {
      postgresLastWriteError := Some(error);
      postgresQueuedSnapshotChecksum := None;
      completed := completed + 1;
    }

    /** A flush waits for the links queued when it starts, so for everything that is owed. */
    method FlushStart(ghost owed: Ticket) returns (target: nat)
      requires Owes(View(), owed)
      ensures owed.target <= target == |postgresWriteQueue|
    {
      return |postgresWriteQueue|;
    }

    /** It resumes when the last of them resolves: either it throws the last write error, or what was owed when it
        started is in the database. */
    method FlushEnd(ghost owed: Ticket) returns (failure: Option<string>)
      requires Owes(View(), owed) && completed == owed.target
      ensures failure == postgresLastWriteError
      ensures failure.None? ==> durable == owed.data && owed.events <= durableEvents
    {
      return postgresLastWriteError;
    }

    /** Persists, then starts the flush that its caller awaits: the flush is owed the data and events of this call. */
    method PersistAsync(sum: Data -> string) returns (target: nat, ghost owed: Ticket)
      requires Injective(sum) && Inv(sum, View())
      modifies this
      ensures View() == Next(sum, old(View()), Persist)
      ensures owed == Ticket(target, old(currentData), old(pendingEvents)) && Owes(View(), owed)
    {
      PersistOwes(sum, View());
      owed := Ticket(|Next(sum, View(), Persist).jobs|, currentData, pendingEvents);
      PersistData(sum, false);
      target := FlushStart(owed);
    }

    method RunTransaction(sum: Data -> string, ops: seq<Op>, throws: bool, persist: bool)
      modifies this
      ensures View() == Transaction(sum, old(View()), ops, throws, persist)
    {
      var snapshot := currentData;
      var checkpoint := pendingEvents;
      var k := 0;
      while k < |ops|
        invariant 0 <= k <= |ops|
        invariant Perform(sum, View(), ops[k..]) == Perform(sum, old(View()), ops)
      {
        ghost var before := View();
        assert ops[k..][1..] == ops[k + 1..];
        match ops[k] {
          case SetData(d) => currentData := d;
          case Emit(e) => pendingEvents := pendingEvents + {e};
          case PersistNow => PersistData(sum, false);
        }
        assert View() == Next(sum, before, StepOf(ops[k]));
        k := k + 1;
      }
      assert ops[|ops|..] == [];
      if throws {
        currentData := snapshot;
        pendingEvents := pendingEvents * checkpoint;
      } else if persist {
        PersistData(sum, false);
      }
    }

    /** Merges committed data into the live projection, collection by collection. */
    method PublishCommittedProjection(before: Data, committed: Data)
      modifies this`currentData, this`postgresQueuedSnapshotChecksum
      ensures View() == Published(old(View()), before, committed)
    {
      MergedEnds(before, committed, currentData);
      hide Merge, MergedBut, MergeAll;
      var todo := committed.Keys;
      while todo != {}
        invariant todo <= committed.Keys
        invariant currentData == MergedBut(before, committed, old(currentData), todo)
        decreases |todo|
      {
        var collection :| collection in todo;
        MergedStep(before, committed, old(currentData), todo, collection);
        todo := todo - {collection};
        if collection !in before || collection !in currentData { continue; }
        var retained := MergeItems(before[collection], committed[collection], currentData[collection]);
        currentData := currentData[collection := retained];
      }
      postgresQueuedSnapshotChecksum := None;
    }
  }

  // ---------------------------------------------------------------------
  // Flushed means durable
  // ---------------------------------------------------------------------

  /** A remembered checksum is that of the last open write or, when none is open, of the durable snapshot. */
  ghost predicate Inv(sum: Data -> string, s: Store) {
    && s.completed <= |s.jobs|
    && (s.queuedChecksum.Some? ==>
          if s.completed < |s.jobs| then s.queuedChecksum.value == sum(s.jobs[|s.jobs| - 1].snapshot)
          else s.queuedChecksum.value == sum(s.durable) && s.lastError.None?)
  }

  lemma {:induction false} RunKeepsInv(sum: Data -> string, s: Store, steps: seq<Step>)
    requires Inv(sum, s)
    ensures Inv(sum, Run(sum, s, steps))
    decreases |steps|
  {
    if steps != [] { RunKeepsInv(sum, Next(sum, s, steps[0]), steps[1..]); }
  }

  /** Right after a persist, skipped or not, the chain owes the persisted data and the events pending then. */
  lemma PersistOwes(sum: Data -> string, s: Store)
    requires Injective(sum) && Inv(sum, s)
    ensures Owes(Next(sum, s, Persist), Ticket(|Next(sum, s, Persist).jobs|, s.data, s.pending))
  {}

  lemma {:induction false} RunKeepsOwing(sum: Data -> string, s: Store, steps: seq<Step>, t: Ticket)
    requires Owes(s, t)
    ensures Owes(Run(sum, s, steps), t)
    decreases |steps|
  {
    if steps != [] { RunKeepsOwing(sum, Next(sum, s, steps[0]), steps[1..], t); }
  }

  lemma {:induction false} QueueGrowsByPersist(sum: Data -> string, s: Store, steps: seq<Step>)
    requires forall k :: 0 <= k < |steps| ==> steps[k] != Persist
    ensures Run(sum, s, steps).jobs == s.jobs
    decreases |steps|
  {
    if steps != [] {
      assert steps[0] != Persist;
      QueueGrowsByPersist(sum, Next(sum, s, steps[0]), steps[1..]);
    }
  }

  /** A flush that starts after a persist and resumes without an error finds the data of that persist and every
      event then pending in the database, however writes, failures, rollbacks and later persists interleave. */
  lemma FlushMeansDurable(sum: Data -> string, s: Store, untilFlush: seq<Step>, untilResume: seq<Step>)
    requires Injective(sum) && Inv(sum, s)
    requires forall k :: 0 <= k < |untilFlush| ==> untilFlush[k] != Persist
    ensures var started := Run(sum, Next(sum, s, Persist), untilFlush);
            var resumed := Run(sum, started, untilResume);
            resumed.completed == |started.jobs| && resumed.lastError.None? ==>
              resumed.durable == s.data && s.pending <= resumed.durableEvents
  {
    var persisted := Next(sum, s, Persist);
    var t := Ticket(|persisted.jobs|, s.data, s.pending);
    PersistOwes(sum, s);
    RunKeepsOwing(sum, persisted, untilFlush, t);
    QueueGrowsByPersist(sum, persisted, untilFlush);
    RunKeepsOwing(sum, Run(sum, persisted, untilFlush), untilResume, t);
  }

  /** What was hydrated counts as stored: persisting it unchanged queues nothing. */
  lemma HydrationIsQueued(sum: Data -> string, hydrated: Data)
    ensures Next(sum, Hydrated(sum, hydrated), Persist) == Hydrated(sum, hydrated)
    ensures Hydrated(sum, hydrated).data == hydrated == Hydrated(sum, hydrated).durable
  {}

  /** From hydration on, in every run: whatever the last persist before a flush was given is in the database when the
      flush returns normally. */
  lemma FlushFromHydration(sum: Data -> string, hydrated: Data, before: seq<Step>,
                          untilFlush: seq<Step>, untilResume: seq<Step>)
    requires Injective(sum)
    requires forall k :: 0 <= k < |untilFlush| ==> untilFlush[k] != Persist
    ensures var s := Run(sum, Hydrated(sum, hydrated), before);
            var started := Run(sum, Next(sum, s, Persist), untilFlush);
            var resumed := Run(sum, started, untilResume);
            resumed.completed == |started.jobs| && resumed.lastError.None? ==>
              resumed.durable == s.data && s.pending <= resumed.durableEvents
  {
    RunKeepsInv(sum, Hydrated(sum, hydrated), before);
    hide Inv, Next;
    FlushMeansDurable(sum, Run(sum, Hydrated(sum, hydrated), before), untilFlush, untilResume);
  }

  /** Outside rollbacks no event is lost: it is pending or in the database. */
  lemma {:induction false} NoEventLost(sum: Data -> string, s: Store, steps: seq<Step>)
    requires forall k :: 0 <= k < |steps| ==> !steps[k].Rollback?
    ensures var r := Run(sum, s, steps); s.pending + s.durableEvents <= r.pending + r.durableEvents
    decreases |steps|
  {
    if steps != [] {
      assert !steps[0].Rollback?;
      NoEventLost(sum, Next(sum, s, steps[0]), steps[1..]);
    }
  }

  // ---------------------------------------------------------------------
  // Failed transactions
  // ---------------------------------------------------------------------

  lemma {:induction false} PerformExtends(sum: Data -> string, s: Store, ops: seq<Op>)
    ensures var r := Perform(sum, s, ops);
            && s.pending <= r.pending && s.jobs <= r.jobs
            && r.completed == s.completed && r.lastError == s.lastError
            && r.durable == s.durable && r.durableEvents == s.durableEvents
            && (Inv(sum, s) ==> Inv(sum, r))
    decreases |ops|
  {
    if ops != [] {
      PerformExtends(sum, Next(sum, s, StepOf(ops[0])), ops[1..]);
    }
  }

  /** In memory a failed transaction leaves no trace: data and pending events are as before. */
  lemma FailedTransactionRestores(sum: Data -> string, s: Store, ops: seq<Op>, persist: bool)
    ensures var r := Transaction(sum, s, ops, true, persist);
            && r.data == s.data && r.pending == s.pending
            && r.durable == s.durable && r.durableEvents == s.durableEvents && r.lastError == s.lastError
            && (Inv(sum, s) ==> Inv(sum, r))
  {
    PerformExtends(sum, s, ops);
    var after := Perform(sum, s, ops);
    assert after.pending * s.pending == s.pending;
  }

  // What the operations before a point have left, read off the operations alone.

  function DataAfter(s: Store, ops: seq<Op>): Data {
    if ops == [] then s.data
    else match ops[|ops| - 1]
      case SetData(d) => d
      case _ => DataAfter(s, ops[..|ops| - 1])
  }

  function EventsAfter(s: Store, ops: seq<Op>): set<string> {
    if ops == [] then s.pending
    else match ops[|ops| - 1]
      case Emit(e) => EventsAfter(s, ops[..|ops| - 1]) + {e}
      case _ => EventsAfter(s, ops[..|ops| - 1])
  }

  /** The checksum of the data at the last persist. */
  function ChecksumAfter(sum: Data -> string, s: Store, ops: seq<Op>): Option<string> {
    if ops == [] then s.queuedChecksum
    else if ops[|ops| - 1].PersistNow? then Some(sum(DataAfter(s, ops[..|ops| - 1])))
    else ChecksumAfter(sum, s, ops[..|ops| - 1])
  }

  /** The k-th operation is a persist that is not skipped: the data differ from those of the last persist, or events
      are pending. */
  predicate Takes(sum: Data -> string, s: Store, ops: seq<Op>, k: nat) {
    && k < |ops| && ops[k].PersistNow?
    && (ChecksumAfter(sum, s, ops[..k]) != Some(sum(DataAfter(s, ops[..k]))) || EventsAfter(s, ops[..k]) != {})
  }

  function JobAt(s: Store, ops: seq<Op>, k: nat): Job
    requires k <= |ops|
  {
    Job(DataAfter(s, ops[..k]), EventsAfter(s, ops[..k]))
  }

  /** The snapshots queued by the first n operations. */
  function Taken(sum: Data -> string, s: Store, ops: seq<Op>, n: nat): seq<Job>
    requires n <= |ops|
  {
    if n == 0 then []
    else Taken(sum, s, ops, n - 1) + (if Takes(sum, s, ops, n - 1) then [JobAt(s, ops, n - 1)] else [])
  }

  lemma {:induction false} PerformOneMore(sum: Data -> string, s: Store, ops: seq<Op>, op: Op)
    ensures Perform(sum, s, ops + [op]) == Next(sum, Perform(sum, s, ops), StepOf(op))
    decreases |ops|
  {
    if ops == [] {
      assert ([] + [op])[1..] == [];
    } else {
      assert (ops + [op])[1..] == ops[1..] + [op];
      hide Next;
      PerformOneMore(sum, Next(sum, s, StepOf(ops[0])), ops[1..], op);
    }
  }

  lemma PrefixStep(sum: Data -> string, s: Store, ops: seq<Op>, n: nat)
    requires 0 < n <= |ops|
    ensures ops[..n][..n - 1] == ops[..n - 1]
    ensures Perform(sum, s, ops[..n]) == Next(sum, Perform(sum, s, ops[..n - 1]), StepOf(ops[n - 1]))
  {
    assert ops[..n] == ops[..n - 1] + [ops[n - 1]];
    PerformOneMore(sum, s, ops[..n - 1], ops[n - 1]);
  }

  lemma {:induction false} PerformReads(sum: Data -> string, s: Store, ops: seq<Op>, n: nat)
    requires n <= |ops|
    ensures var r := Perform(sum, s, ops[..n]);
            && r.data == DataAfter(s, ops[..n]) && r.pending == EventsAfter(s, ops[..n])
            && r.queuedChecksum == ChecksumAfter(sum, s, ops[..n])
  {
    if n == 0 {
      assert ops[..0] == [];
    } else {
      PerformReads(sum, s, ops, n - 1);
      PrefixStep(sum, s, ops, n);
      hide Perform;
    }
  }

  /** An operation leaves the data, events and checksum that can be read off its steps, and queues one snapshot for
      each persist that is not skipped. */
  lemma {:induction false} PerformQueues(sum: Data -> string, s: Store, ops: seq<Op>, n: nat)
    requires n <= |ops|
    ensures var r := Perform(sum, s, ops[..n]);
            && r.data == DataAfter(s, ops[..n]) && r.pending == EventsAfter(s, ops[..n])
            && r.queuedChecksum == ChecksumAfter(sum, s, ops[..n])
            && r.jobs == s.jobs + Taken(sum, s, ops, n)
  {
    PerformReads(sum, s, ops, n);
    if n == 0 {
      assert ops[..0] == [];
    } else {
      PerformQueues(sum, s, ops, n - 1);
      PrefixStep(sum, s, ops, n);
      hide Perform, DataAfter, EventsAfter, ChecksumAfter;
    }
  }

  /** A successful transaction leaves in memory what its operations left, and queues their snapshots and, when it is to
      persist and the data differ from those of the last persist or events are pending, the final one; nothing else. */
  lemma SuccessfulTransactionQueues(sum: Data -> string, s: Store, ops: seq<Op>, persist: bool)
    ensures var r := Transaction(sum, s, ops, false, persist);
            && r.data == DataAfter(s, ops) && r.pending == EventsAfter(s, ops)
            && r.jobs == s.jobs + Taken(sum, s, ops, |ops|)
                         + (if persist && (ChecksumAfter(sum, s, ops) != Some(sum(DataAfter(s, ops)))
                                           || EventsAfter(s, ops) != {})
                            then [Job(DataAfter(s, ops), EventsAfter(s, ops))] else [])
            && r.queuedChecksum == (if persist then Some(sum(DataAfter(s, ops))) else ChecksumAfter(sum, s, ops))
            && r.completed == s.completed && r.lastError == s.lastError
            && r.durable == s.durable && r.durableEvents == s.durableEvents
  {
    PerformExtends(sum, s, ops);
    PerformQueues(sum, s, ops, |ops|);
    assert ops[..|ops|] == ops;
    hide Perform, Taken, DataAfter, EventsAfter, ChecksumAfter;
    var jobs := s.jobs + Taken(sum, s, ops, |ops|);
    assert jobs + [] == jobs;
  }

  /** A flush after a successful transaction that persists, when it resumes without an error, finds what the operations
      left in the database, data and events, whatever happens in between. */
  lemma CommittedTransactionIsDurable(sum: Data -> string, s: Store, ops: seq<Op>,
                                      untilFlush: seq<Step>, untilResume: seq<Step>)
    requires Injective(sum) && Inv(sum, s)
    requires forall k :: 0 <= k < |untilFlush| ==> untilFlush[k] != Persist
    ensures var started := Run(sum, Transaction(sum, s, ops, false, true), untilFlush);
            var resumed := Run(sum, started, untilResume);
            resumed.completed == |started.jobs| && resumed.lastError.None? ==>
              resumed.durable == DataAfter(s, ops) && EventsAfter(s, ops) <= resumed.durableEvents
  {
    PerformExtends(sum, s, ops);
    PerformReads(sum, s, ops, |ops|);
    assert ops[..|ops|] == ops;
    hide Inv, Next, Perform, Run, DataAfter, EventsAfter;
    FlushMeansDurable(sum, Perform(sum, s, ops), untilFlush, untilResume);
  }

  lemma {:induction false} TakenHolds(sum: Data -> string, s: Store, ops: seq<Op>, n: nat, job: Job)
    requires n <= |ops|
    ensures job in Taken(sum, s, ops, n) <==> exists k: nat :: k < n && Takes(sum, s, ops, k) && job == JobAt(s, ops, k)
  {
    if n > 0 {
      hide Takes, JobAt;
      TakenHolds(sum, s, ops, n - 1, job);
    }
  }

  /** What a failing transaction appends to the queue. */
  function Appended(sum: Data -> string, s: Store, ops: seq<Op>, persist: bool): seq<Job> {
    var jobs := Transaction(sum, s, ops, true, persist).jobs;
    if |s.jobs| <= |jobs| then jobs[|s.jobs|..] else []
  }

  lemma AppendedIs(sum: Data -> string, s: Store, ops: seq<Op>, persist: bool)
    ensures Transaction(sum, s, ops, true, persist).jobs == s.jobs + Appended(sum, s, ops, persist)
    ensures Appended(sum, s, ops, persist) == Taken(sum, s, ops, |ops|)
  {
    PerformQueues(sum, s, ops, |ops|);
    assert ops[..|ops|] == ops;
  }

  /** A failed transaction leaves no trace in the write queue exactly when every persist inside it was skipped. */
  lemma FailedTransactionQueues(sum: Data -> string, s: Store, ops: seq<Op>, persist: bool)
    ensures Transaction(sum, s, ops, true, persist).jobs == s.jobs <==> forall k: nat :: !Takes(sum, s, ops, k)
  {
    AppendedIs(sum, s, ops, persist);
    var taken := Taken(sum, s, ops, |ops|);
    if k: nat :| Takes(sum, s, ops, k) {
      TakenHolds(sum, s, ops, |ops|, JobAt(s, ops, k));
    } else if taken != [] {
      TakenHolds(sum, s, ops, |ops|, taken[0]);
    }
  }

  /** A snapshot with data or events that the failed transaction has taken back. */
  predicate RolledBack(s: Store, job: Job) { job.snapshot != s.data || !(job.events <= s.pending) }

  /** A failed transaction has queued something it took back if and only if, at some persist that was not skipped, the
      operations before it had left other data than at the start or had emitted an event. */
  lemma FailedTransactionLeaksExactly(sum: Data -> string, s: Store, ops: seq<Op>, persist: bool)
    ensures (exists job :: job in Appended(sum, s, ops, persist) && RolledBack(s, job)) <==>
            exists k: nat :: Takes(sum, s, ops, k)
                             && (DataAfter(s, ops[..k]) != s.data || !(EventsAfter(s, ops[..k]) <= s.pending))
  {
    AppendedIs(sum, s, ops, persist);
    var taken := Taken(sum, s, ops, |ops|);
    hide Taken, Appended;
    if job :| job in taken && RolledBack(s, job) {
      TakenHolds(sum, s, ops, |ops|, job);
    }
    if k: nat :| Takes(sum, s, ops, k)
                    && (DataAfter(s, ops[..k]) != s.data || !(EventsAfter(s, ops[..k]) <= s.pending)) {
      TakenHolds(sum, s, ops, |ops|, JobAt(s, ops, k));
      assert RolledBack(s, JobAt(s, ops, k));
    }
  }

  function OpenJobs(s: Store): nat { if s.completed < |s.jobs| then |s.jobs| - s.completed else 0 }

  function Successes(n: nat): seq<Step> { seq(n, _ => WriteOk) }

  /** When the writes up to a job succeed, its snapshot and its events are in the database. */
  lemma {:induction false} WritesLand(sum: Data -> string, s: Store, n: nat)
    requires 0 < n && s.completed + n <= |s.jobs|
    ensures var r := Run(sum, s, Successes(n));
            && r.jobs == s.jobs && r.completed == s.completed + n && r.lastError.None?
            && r.durable == s.jobs[s.completed + n - 1].snapshot
            && s.durableEvents <= r.durableEvents
            && forall i :: s.completed <= i < s.completed + n ==> s.jobs[i].events <= r.durableEvents
    decreases n
  {
    var next := Next(sum, s, WriteOk);
    assert Successes(n)[1..] == Successes(n - 1);
    if n > 1 {
      WritesLand(sum, next, n - 1);
    } else {
      assert Successes(0) == [];
    }
  }

  /** Whatever failed before, a persist after which all open writes succeed leaves its data and every event then
      pending in the database, without an error: a failed write is never taken for a stored one. */
  lemma FailureIsRetried(sum: Data -> string, s: Store)
    requires Injective(sum) && Inv(sum, s)
    ensures var p := Next(sum, s, Persist);
            var r := Run(sum, p, Successes(OpenJobs(p)));
            && r.durable == s.data && s.pending <= r.durableEvents
            && r.completed == |r.jobs| && r.lastError.None?
  {
    var p := Next(sum, s, Persist);
    PersistOwes(sum, s);
    if p.completed < |p.jobs| {
      WritesLand(sum, p, |p.jobs| - p.completed);
    } else {
      assert Successes(0) == [];
    }
  }

  /** Some successful writes make data durable that the failed transaction has taken back. */
  ghost predicate DataLands(sum: Data -> string, s: Store, r: Store) {
    exists n: nat :: |s.jobs| < r.completed + n <= |r.jobs| && Run(sum, r, Successes(n)).durable != s.data
  }

  lemma DataLandsFromQueue(sum: Data -> string, s: Store, r: Store, added: seq<Job>)
    requires r.jobs == s.jobs + added && r.completed <= |s.jobs|
    ensures DataLands(sum, s, r) <==> exists job :: job in added && job.snapshot != s.data
  {
    hide Run;
    if n: nat :| |s.jobs| < r.completed + n <= |r.jobs| && Run(sum, r, Successes(n)).durable != s.data {
      WritesLand(sum, r, n);
      assert added[r.completed + n - 1 - |s.jobs|].snapshot != s.data;
    }
    if job :| job in added && job.snapshot != s.data {
      var i :| 0 <= i < |added| && added[i] == job;
      var n := |s.jobs| + i + 1 - r.completed;
      assert r.jobs[r.completed + n - 1] == job;
      WritesLand(sum, r, n);
      assert |s.jobs| < r.completed + n <= |r.jobs|;
    }
  }

  /** Data taken back in memory can become durable if and only if a persist that was not skipped saw other data. */
  lemma DataLandsExactly(sum: Data -> string, s: Store, ops: seq<Op>, persist: bool)
    requires s.completed <= |s.jobs|
    ensures DataLands(sum, s, Transaction(sum, s, ops, true, persist)) <==>
            exists k: nat :: Takes(sum, s, ops, k) && DataAfter(s, ops[..k]) != s.data
  {
    var taken := Taken(sum, s, ops, |ops|);
    AppendedIs(sum, s, ops, persist);
    FailedTransactionRestores(sum, s, ops, persist);
    PerformExtends(sum, s, ops);
    assert Transaction(sum, s, ops, true, persist).completed == s.completed;
    hide Taken, Appended, Transaction, Takes, DataLands, Perform;
    DataLandsFromQueue(sum, s, Transaction(sum, s, ops, true, persist), taken);
    if job :| job in taken && job.snapshot != s.data {
      TakenHolds(sum, s, ops, |ops|, job);
    }
    if k: nat :| Takes(sum, s, ops, k) && DataAfter(s, ops[..k]) != s.data {
      TakenHolds(sum, s, ops, |ops|, JobAt(s, ops, k));
    }
  }

  /** Some successful writes bring an event into the database. */
  ghost predicate EventLands(sum: Data -> string, r: Store, event: string) {
    exists n: nat :: r.completed + n <= |r.jobs| && event in Run(sum, r, Successes(n)).durableEvents
  }

  /** The event is new: neither pending, queued nor stored. */
  predicate Unseen(s: Store, event: string) {
    event !in s.pending && event !in s.durableEvents && forall i :: 0 <= i < |s.jobs| ==> event !in s.jobs[i].events
  }

  /** Only the jobs written bring events into the database. */
  lemma {:induction false} WritesBring(sum: Data -> string, s: Store, n: nat, event: string)
    requires s.completed + n <= |s.jobs|
    ensures event in Run(sum, s, Successes(n)).durableEvents <==>
            event in s.durableEvents || exists i :: s.completed <= i < s.completed + n && event in s.jobs[i].events
    decreases n
  {
    if n == 0 {
      assert Successes(0) == [];
    } else {
      var next := Next(sum, s, WriteOk);
      assert Successes(n)[1..] == Successes(n - 1);
      WritesBring(sum, next, n - 1, event);
      hide Next, Run;
      assert next.jobs == s.jobs && next.completed == s.completed + 1;
    }
  }

  lemma EventLandsFromQueue(sum: Data -> string, s: Store, r: Store, added: seq<Job>, event: string)
    requires r.jobs == s.jobs + added && r.completed <= |s.jobs|
    requires r.durableEvents == s.durableEvents && Unseen(s, event)
    ensures EventLands(sum, r, event) <==> exists job :: job in added && event in job.events
  {
    hide Run;
    assert forall i :: 0 <= i < |s.jobs| ==> r.jobs[i] == s.jobs[i];
    if n: nat :| r.completed + n <= |r.jobs| && event in Run(sum, r, Successes(n)).durableEvents {
      WritesBring(sum, r, n, event);
      var i :| r.completed <= i < r.completed + n && event in r.jobs[i].events;
      assert i >= |s.jobs|;
      assert r.jobs[i] == added[i - |s.jobs|];
    }
    if job :| job in added && event in job.events {
      var i :| 0 <= i < |added| && added[i] == job;
      var n := |s.jobs| + i + 1 - r.completed;
      assert event in r.jobs[|s.jobs| + i].events;
      WritesBring(sum, r, n, event);
    }
  }

  /** An event emitted by a failing transaction, and no longer pending after it, can reach the database if and only if
      a persist that was not skipped came after it. */
  lemma EventLandsExactly(sum: Data -> string, s: Store, ops: seq<Op>, persist: bool, event: string)
    requires s.completed <= |s.jobs| && Unseen(s, event)
    ensures event !in Transaction(sum, s, ops, true, persist).pending
    ensures EventLands(sum, Transaction(sum, s, ops, true, persist), event) <==>
            exists k: nat :: Takes(sum, s, ops, k) && event in EventsAfter(s, ops[..k])
  {
    var taken := Taken(sum, s, ops, |ops|);
    AppendedIs(sum, s, ops, persist);
    FailedTransactionRestores(sum, s, ops, persist);
    PerformExtends(sum, s, ops);
    assert Transaction(sum, s, ops, true, persist).completed == s.completed;
    hide Taken, Appended, Transaction, Takes, EventLands, Perform;
    EventLandsFromQueue(sum, s, Transaction(sum, s, ops, true, persist), taken, event);
    if job :| job in taken && event in job.events {
      TakenHolds(sum, s, ops, |ops|, job);
    }
    if k: nat :| Takes(sum, s, ops, k) && event in EventsAfter(s, ops[..k]) {
      TakenHolds(sum, s, ops, |ops|, JobAt(s, ops, k));
    }
  }

  /** A persist nested in a failing operation can make data durable that was rolled back in memory. */
  lemma PartialSnapshotCanLand(sum: Data -> string, s: Store, partial: Data)
    requires Injective(sum) && Inv(sum, s) && s.completed == |s.jobs| && s.pending == {}
    requires s.data == s.durable && partial != s.data && s.queuedChecksum != Some(sum(partial))
    ensures var failed := Transaction(sum, s, [SetData(partial), PersistNow], true, true);
            failed.data == s.data && Next(sum, failed, WriteOk).durable == partial
  {
    var ops := [SetData(partial), PersistNow];
    var one := Next(sum, s, Mutate(partial));
    var two := Next(sum, one, Persist);
    assert ops[1..] == [PersistNow] && ops[1..][1..] == [];
    assert Perform(sum, two, []) == two;
    assert Perform(sum, one, [PersistNow]) == two by { assert [PersistNow][1..] == []; }
    assert Perform(sum, s, ops) == two;
  }

  /** An event emitted before the nested persist reaches the database although the transaction failed. */
  lemma EventCanLand(sum: Data -> string, s: Store, event: string)
    requires s.completed == |s.jobs| && event !in s.pending
    ensures var failed := Transaction(sum, s, [Emit(event), PersistNow], true, true);
            failed.pending == s.pending && event in Next(sum, failed, WriteOk).durableEvents
  {
    var ops := [Emit(event), PersistNow];
    var one := Next(sum, s, Enqueue(event));
    var two := Next(sum, one, Persist);
    assert ops[1..] == [PersistNow] && ops[1..][1..] == [];
    assert Perform(sum, two, []) == two;
    assert Perform(sum, one, [PersistNow]) == two by { assert [PersistNow][1..] == []; }
    assert Perform(sum, s, ops) == two;
    assert one.pending * s.pending == s.pending;
  }

  // ---------------------------------------------------------------------
  // Commits outside the queue
  // ---------------------------------------------------------------------

  predicate Completes(step: Step) { step.WriteOk? || step.WriteFail? }

  function Completions(steps: seq<Step>): nat {
    if steps == [] then 0 else (if Completes(steps[0]) then 1 else 0) + Completions(steps[1..])
  }

  /** Which of the completions is the last successful one? */
  function LastOk(steps: seq<Step>): (i: Option<nat>)
    ensures i.Some? ==> i.value < Completions(steps)
  {
    if steps == [] then None
    else match LastOk(steps[1..])
      case Some(i) => Some(if Completes(steps[0]) then i + 1 else i)
      case None => if steps[0].WriteOk? then Some(0) else None
  }

  /** Over any run, what is durable is the snapshot of the last write that succeeded or, when none did, what was. */
  lemma {:induction false} LastWriteStands(sum: Data -> string, s: Store, steps: seq<Step>)
    requires s.completed + Completions(steps) <= |s.jobs|
    ensures Run(sum, s, steps).durable
            == if LastOk(steps).None? then s.durable else s.jobs[s.completed + LastOk(steps).value].snapshot
    decreases |steps|
  {
    if steps != [] {
      var next := Next(sum, s, steps[0]);
      NextKeepsJobs(sum, s, steps[0]);
      LastWriteStands(sum, next, steps[1..]);
      hide Next;
    }
  }

  lemma NextKeepsJobs(sum: Data -> string, s: Store, step: Step)
    ensures var next := Next(sum, s, step);
            && s.jobs <= next.jobs
            && (s.completed < |s.jobs| ==> next.completed == s.completed + (if Completes(step) then 1 else 0))
            && (s.completed <= |s.jobs| ==> next.completed <= |next.jobs|)
            && next.durable == (if step.WriteOk? && s.completed < |s.jobs| then s.jobs[s.completed].snapshot
                                else s.durable)
            && (!Completes(step) ==> next.completed == s.completed)
  {
    hide MergeAll;
  }

  lemma OutsideCommitIs(s: Store, committed: Data)
    ensures var c := CommittedOutside(s, committed);
            c.jobs == s.jobs && c.completed == s.completed && c.durable == committed
  {}

  /** After a commit outside the queue, while only writes queued before it complete, the committed data are still there
      exactly when none of those succeeds or the last that does has them for its snapshot: whatever else happens in
      between, wherever the commit is published. */
  lemma OlderWriteUndoesExactly(sum: Data -> string, s: Store, committed: Data, steps: seq<Step>)
    requires s.completed + Completions(steps) <= |s.jobs|
    ensures Run(sum, CommittedOutside(s, committed), steps).durable == committed <==>
            LastOk(steps).None? || s.jobs[s.completed + LastOk(steps).value].snapshot == committed
  {
    hide *;
    OutsideCommitIs(s, committed);
    LastWriteStands(sum, CommittedOutside(s, committed), steps);
  }

  /** Between the commit and its publication, a persist whose writes succeed leaves the live data in the database unless
      it is skipped over an empty queue: then the committed data stay, which the live ones are not. */
  lemma WindowPersistExactly(sum: Data -> string, s: Store, committed: Data)
    requires Injective(sum) && Inv(sum, s)
    ensures var p := Next(sum, CommittedOutside(s, committed), Persist);
            Run(sum, p, Successes(OpenJobs(p))).durable == s.data <==>
            || committed == s.data || OpenJobs(s) > 0 || s.pending != {} || s.queuedChecksum != Some(sum(s.data))
  {
    var p := Next(sum, CommittedOutside(s, committed), Persist);
    if OpenJobs(p) > 0 {
      WritesLand(sum, p, OpenJobs(p));
    } else {
      assert Successes(0) == [];
    }
  }

  predicate Quiet(step: Step) { !step.Mutate? && !step.Rollback? && !step.Publish? }

  lemma {:induction false} QuietKeepsData(sum: Data -> string, s: Store, steps: seq<Step>)
    requires forall k :: 0 <= k < |steps| ==> Quiet(steps[k])
    ensures Run(sum, s, steps).data == s.data
    decreases |steps|
  {
    if steps != [] {
      assert Quiet(steps[0]);
      QuietKeepsData(sum, Next(sum, s, steps[0]), steps[1..]);
    }
  }

  lemma {:induction false} RunKeepsBound(sum: Data -> string, s: Store, steps: seq<Step>)
    requires s.completed <= |s.jobs|
    ensures Run(sum, s, steps).completed <= |Run(sum, s, steps).jobs|
    decreases |steps|
  {
    if steps != [] {
      NextKeepsJobs(sum, s, steps[0]);
      RunKeepsBound(sum, Next(sum, s, steps[0]), steps[1..]);
      hide Next;
    }
  }

  /** Whatever happens between the commit and its publication, and whatever writes, failures and persists come after it,
      the next persist whose writes succeed brings the merged data back: every id that was not edited locally has its
      committed outcome in the database. */
  lemma OutsideCommitIsRestored(sum: Data -> string, s: Store, before: Data, committed: Data, window: seq<Step>,
                                between: seq<Step>, c: string, id: string)
    requires Injective(sum) && s.completed <= |s.jobs| && forall k :: 0 <= k < |between| ==> Quiet(between[k])
    requires var live := Run(sum, CommittedOutside(s, committed), window).data;
             c in before && c in committed && c in live && UniqueIds(live[c]) && id != ""
    ensures var late := Run(sum, CommittedOutside(s, committed), window);
            var p := Next(sum, Run(sum, Next(sum, late, Publish(before, committed)), between), Persist);
            var r := Run(sum, p, Successes(OpenJobs(p)));
            && r.durable == MergeAll(before, committed, late.data)
            && Find(r.durable[c], id) == if Find(late.data[c], id) != Find(before[c], id) then Find(late.data[c], id)
                                         else Find(committed[c], id)
  {
    var late := Run(sum, CommittedOutside(s, committed), window);
    RunKeepsBound(sum, CommittedOutside(s, committed), window);
    var a := Next(sum, late, Publish(before, committed));
    assert Inv(sum, a) && a.data == MergeAll(before, committed, late.data);
    RunKeepsInv(sum, a, between);
    QuietKeepsData(sum, a, between);
    FailureIsRetried(sum, Run(sum, a, between));
    MergeIsThreeWay(before[c], committed[c], late.data[c], id);
    hide Inv, Next, Run, Find, Merge;
  }
}
