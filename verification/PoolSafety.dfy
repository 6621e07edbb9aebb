/** What every interleaving of the worker pool keeps. */
module PoolSafety {
  import opened DeploymentStatus
  import opened Bags
  import opened WorkerPool

  function CallerHolds(c: Caller): multiset<nat> {
    if c.Inserted? then multiset{c.job} else multiset{}
  }

  function BusyHolds(w: Worker): multiset<nat> {
    if IsBusy(w) then multiset{w.job} else multiset{}
  }

  /** How many places a deployment object is in: about to be sent, queued, with a worker, run, refused. */
  ghost function Places(s: Pool, j: nat): nat {
    BagOf(CallerHolds, s.callers)[j] + multiset(s.queue)[j] + BagOf(Holds, s.workers)[j]
    + multiset(s.ran)[j] + multiset(s.refused)[j]
  }

  /** Each deployment object created so far is in exactly one place, once. */
  ghost predicate Conserved(s: Pool) {
    forall j: nat :: Places(s, j) == if j < |s.jobs| then 1 else 0
  }

  /** What has started executing is what a lock holder has and what has run. */
  ghost predicate StartsAccounted(s: Pool) {
    forall j: nat :: multiset(s.started)[j] == BagOf(BusyHolds, s.workers)[j] + multiset(s.ran)[j]
  }

  ghost predicate StatusFits(s: Pool, w: Worker) {
    match w
    case Waiting(j) => j < |s.jobs| && s.jobs[j].status == Queued
    case Executing(j) => j < |s.jobs| && IsActive(s.jobs[j].status)
    case Settled(j) => j < |s.jobs| && IsTerminal(s.jobs[j].status)
    case Recorded(j) => j < |s.jobs| && IsTerminal(s.jobs[j].status)
    case _ => true
  }

  ghost predicate StatusesFit(s: Pool) {
    && (forall j :: j in s.queue ==> j < |s.jobs| && s.jobs[j].status == Queued)
    && (forall c :: 0 <= c < |s.callers| && s.callers[c].Inserted? ==>
         s.callers[c].job < |s.jobs| && s.jobs[s.callers[c].job].status == Queued)
    && (forall w :: 0 <= w < |s.workers| ==> StatusFits(s, s.workers[w]))
    && (forall j :: j in s.ran || j in s.refused ==> j < |s.jobs| && IsTerminal(s.jobs[j].status))
  }

  ghost predicate BusyWith(s: Pool, w: nat, app: string) {
    && w < |s.workers| && IsBusy(s.workers[w])
    && s.workers[w].job < |s.jobs| && s.jobs[s.workers[w].job].app == app
  }

  /** A lock is held exactly by the one worker that is busy with the application. */
  ghost predicate LocksExact(s: Pool) {
    && (forall w :: 0 <= w < |s.workers| && IsBusy(s.workers[w]) ==>
         s.workers[w].job < |s.jobs| && s.jobs[s.workers[w].job].app in s.held)
    && (forall a :: a in s.held ==> exists w: nat :: BusyWith(s, w, a))
    && (forall v: nat, w: nat, a :: BusyWith(s, v, a) && BusyWith(s, w, a) ==> v == w)
  }

  ghost predicate Tidy(s: Pool) {
    && |s.queue| <= QUEUE_CAPACITY
    && (forall k :: k in s.records ==> s.records[k] < |s.jobs|)
    && (forall w :: 0 <= w < |s.workers| && s.workers[w].Stopped? ==> s.shutdown)
  }

  ghost predicate Inv(s: Pool) {
    Conserved(s) && StartsAccounted(s) && StatusesFit(s) && LocksExact(s) && Tidy(s)
  }

  lemma {:induction false} EmptyBag<T>(f: T -> multiset<nat>, s: seq<T>)
    requires forall i :: 0 <= i < |s| ==> f(s[i]) == multiset{}
    ensures BagOf(f, s) == multiset{}
  {
    if s != [] {
      EmptyBag(f, s[..|s| - 1]);
    }
  }

  lemma InitialInv(s: Pool)
    requires Initial(s)
    ensures Inv(s)
  {
    EmptyBag(CallerHolds, s.callers);
    EmptyBag(Holds, s.workers);
    EmptyBag(BusyHolds, s.workers);
  }

  /* ---- conservation ---- */

  predicate CallerEvent(e: Event) {
    e.Check? || e.Name? || e.Insert? || e.Send?
  }

  lemma CallerStepCounts(keying: Keying, s: Pool, e: Event, j: nat)
    requires Enabled(s, e) && CallerEvent(e)
    ensures var t := Next(keying, s, e);
      && Places(t, j) == Places(s, j) + (if |s.jobs| <= j < |t.jobs| then 1 else 0)
      && |s.jobs| <= |t.jobs| <= |s.jobs| + 1
      && t.workers == s.workers && t.started == s.started && t.ran == s.ran
  {
    hide IsNextID, HasActiveRecord, KeyOf, Places;
    var t := Next(keying, s, e);
    match e
    case Check(c, kind, app) => CallerCounts(s, t, c, Checked(kind, app), j);
    case Name(c, id) => CallerCounts(s, t, c, Named(s.callers[c].kind, s.callers[c].app, id), j);
    case Insert(c, persisted) => CallerCounts(s, t, c, t.callers[c], j);
    case Send(c) => SendCounts(s, t, c, j);
  }

  /** Events that pass a job on; the others only rewrite a slot or touch no slot at all. */
  predicate HandOver(e: Event) {
    e.Take? || e.Acquire? || e.Release?
  }

  ghost predicate CountsKept(s: Pool, t: Pool, j: nat) {
    && Places(t, j) == Places(s, j) && |t.jobs| == |s.jobs|
    && multiset(t.started)[j] + BagOf(BusyHolds, s.workers)[j] + multiset(s.ran)[j]
       == multiset(s.started)[j] + BagOf(BusyHolds, t.workers)[j] + multiset(t.ran)[j]
  }

  lemma HandOverCounts(keying: Keying, s: Pool, e: Event, j: nat)
    requires Enabled(s, e) && HandOver(e)
    ensures CountsKept(s, Next(keying, s, e), j)
  {
    hide Places;
    var t := Next(keying, s, e);
    match e
    case Take(w) => TakeCounts(s, t, w, j);
    case Acquire(w) => AcquireCounts(s, t, w, j);
    case Release(w) => ReleaseCounts(s, t, w, j);
  }

  /** A slot is rewritten but keeps its job and its business. */
  lemma SlotRewritten(s: Pool, t: Pool, w: nat, x: Worker, j: nat)
    requires w < |s.workers| && t.workers == s.workers[w := x]
    requires Holds(x) == Holds(s.workers[w]) && BusyHolds(x) == BusyHolds(s.workers[w])
    requires t.callers == s.callers && t.queue == s.queue && t.ran == s.ran && t.refused == s.refused
    requires t.started == s.started && |t.jobs| == |s.jobs|
    ensures CountsKept(s, t, j)
  {
    hide Places, Holds, BusyHolds;
    WorkerCounts(s, t, w, x, j);
  }

  lemma SettleCounts(keying: Keying, s: Pool, w: nat, st: Status, j: nat)
    requires Enabled(s, Settle(w, st))
    ensures CountsKept(s, Next(keying, s, Settle(w, st)), j)
  {
    hide CountsKept;
    SlotRewritten(s, Next(keying, s, Settle(w, st)), w, Settled(s.workers[w].job), j);
  }

  lemma RecordCounts(keying: Keying, s: Pool, w: nat, j: nat)
    requires Enabled(s, Record(w))
    ensures CountsKept(s, Next(keying, s, Record(w)), j)
  {
    hide CountsKept, KeyOf;
    SlotRewritten(s, Next(keying, s, Record(w)), w, Recorded(s.workers[w].job), j);
  }

  lemma StopCounts(keying: Keying, s: Pool, w: nat, j: nat)
    requires Enabled(s, Stop(w))
    ensures CountsKept(s, Next(keying, s, Stop(w)), j)
  {
    hide CountsKept;
    SlotRewritten(s, Next(keying, s, Stop(w)), w, Stopped, j);
  }

  lemma OtherCounts(keying: Keying, s: Pool, e: Event, j: nat)
    requires Enabled(s, e) && (e.Begin? || e.Advance? || e.Drop? || e.Shutdown?)
    ensures CountsKept(s, Next(keying, s, e), j)
  {
    hide Places, KeyOf;
    SameCounts(s, Next(keying, s, e), j);
  }

  lemma WorkerStepCounts(keying: Keying, s: Pool, e: Event, j: nat)
    requires Enabled(s, e) && !CallerEvent(e)
    ensures CountsKept(s, Next(keying, s, e), j)
  {
    hide Enabled, Next, CountsKept;
    if HandOver(e) {
      HandOverCounts(keying, s, e, j);
    } else if e.Settle? {
      SettleCounts(keying, s, e.w, e.status, j);
    } else if e.Record? {
      RecordCounts(keying, s, e.w, j);
    } else if e.Stop? {
      StopCounts(keying, s, e.w, j);
    } else {
      OtherCounts(keying, s, e, j);
    }
  }

  lemma StepConserves(keying: Keying, s: Pool, e: Event)
    requires Enabled(s, e) && Conserved(s) && StartsAccounted(s)
    ensures Conserved(Next(keying, s, e)) && StartsAccounted(Next(keying, s, e))
  {
    hide Enabled, Next, Places;
    var t := Next(keying, s, e);
    forall j: nat
      ensures Places(t, j) == if j < |t.jobs| then 1 else 0
      ensures multiset(t.started)[j] == BagOf(BusyHolds, t.workers)[j] + multiset(t.ran)[j]
    {
      assert Places(s, j) == if j < |s.jobs| then 1 else 0;
      if CallerEvent(e) {
        CallerStepCounts(keying, s, e, j);
      } else {
        WorkerStepCounts(keying, s, e, j);
      }
    }
  }

  lemma SameCounts(s: Pool, t: Pool, j: nat)
    requires t.callers == s.callers && t.queue == s.queue && t.workers == s.workers
    requires t.ran == s.ran && t.refused == s.refused
    ensures Places(t, j) == Places(s, j)
  {
  }

  lemma CallerCounts(s: Pool, t: Pool, c: nat, x: Caller, j: nat)
    requires c < |s.callers| && t.callers == s.callers[c := x]
    requires t.queue == s.queue && t.workers == s.workers && t.ran == s.ran && t.refused == s.refused
    ensures Places(t, j) + CallerHolds(s.callers[c])[j] == Places(s, j) + CallerHolds(x)[j]
  {
    BagUpdateCount(CallerHolds, s.callers, c, x, j);
  }

  lemma SendCounts(s: Pool, t: Pool, c: nat, j: nat)
    requires c < |s.callers| && s.callers[c].Inserted? && t.callers == s.callers[c := Idle]
    requires t.workers == s.workers && t.ran == s.ran
    requires || (t.queue == s.queue + [s.callers[c].job] && t.refused == s.refused)
             || (t.queue == s.queue && t.refused == s.refused + [s.callers[c].job])
    ensures Places(t, j) == Places(s, j)
  {
    BagUpdateCount(CallerHolds, s.callers, c, Idle, j);
    AppendCount(s.queue, s.callers[c].job, j);
    AppendCount(s.refused, s.callers[c].job, j);
  }

  lemma WorkerCounts(s: Pool, t: Pool, w: nat, x: Worker, j: nat)
    requires w < |s.workers| && t.workers == s.workers[w := x]
    requires t.callers == s.callers && t.queue == s.queue && t.ran == s.ran && t.refused == s.refused
    ensures Places(t, j) + Holds(s.workers[w])[j] == Places(s, j) + Holds(x)[j]
    ensures BagOf(BusyHolds, t.workers)[j] + BusyHolds(s.workers[w])[j] == BagOf(BusyHolds, s.workers)[j] + BusyHolds(x)[j]
  {
    BagUpdateCount(Holds, s.workers, w, x, j);
    BagUpdateCount(BusyHolds, s.workers, w, x, j);
  }

  lemma TakeCounts(s: Pool, t: Pool, w: nat, j: nat)
    requires w < |s.workers| && s.workers[w].Free? && s.queue != []
    requires t.workers == s.workers[w := Waiting(s.queue[0])] && t.queue == s.queue[1..]
    requires t.callers == s.callers && t.ran == s.ran && t.refused == s.refused
    ensures Places(t, j) == Places(s, j)
    ensures BagOf(BusyHolds, t.workers)[j] == BagOf(BusyHolds, s.workers)[j]
  {
    BagUpdateCount(Holds, s.workers, w, Waiting(s.queue[0]), j);
    BagUpdateCount(BusyHolds, s.workers, w, Waiting(s.queue[0]), j);
    TailCount(s.queue, j);
  }

  lemma AcquireCounts(s: Pool, t: Pool, w: nat, j: nat)
    requires w < |s.workers| && s.workers[w].Waiting?
    requires t.workers == s.workers[w := Executing(s.workers[w].job)] && t.started == s.started + [s.workers[w].job]
    requires t.callers == s.callers && t.queue == s.queue && t.ran == s.ran && t.refused == s.refused
    ensures Places(t, j) == Places(s, j)
    ensures multiset(t.started)[j] + BagOf(BusyHolds, s.workers)[j] == multiset(s.started)[j] + BagOf(BusyHolds, t.workers)[j]
  {
    WorkerCounts(s, t, w, Executing(s.workers[w].job), j);
    AppendCount(s.started, s.workers[w].job, j);
  }

  lemma ReleaseCounts(s: Pool, t: Pool, w: nat, j: nat)
    requires w < |s.workers| && s.workers[w].Recorded?
    requires t.workers == s.workers[w := Free] && t.ran == s.ran + [s.workers[w].job]
    requires t.callers == s.callers && t.queue == s.queue && t.refused == s.refused
    ensures Places(t, j) == Places(s, j)
    ensures BagOf(BusyHolds, t.workers)[j] + multiset(t.ran)[j] == BagOf(BusyHolds, s.workers)[j] + multiset(s.ran)[j]
  {
    BagUpdateCount(Holds, s.workers, w, Free, j);
    BagUpdateCount(BusyHolds, s.workers, w, Free, j);
    AppendCount(s.ran, s.workers[w].job, j);
  }

  /* ---- one place only ---- */

  predicate HasJob(w: Worker) {
    w.Waiting? || IsBusy(w)
  }

  lemma WorkersDiffer(s: Pool, v: nat, w: nat)
    requires Conserved(s) && v < w < |s.workers| && HasJob(s.workers[v]) && HasJob(s.workers[w])
    ensures s.workers[v].job != s.workers[w].job
  {
    BagContainsPair(Holds, s.workers, v, w);
    assert Places(s, s.workers[w].job) <= 1;
  }

  lemma CallersDiffer(s: Pool, c: nat, d: nat)
    requires Conserved(s) && c < d < |s.callers| && s.callers[c].Inserted? && s.callers[d].Inserted?
    ensures s.callers[c].job != s.callers[d].job
  {
    BagContainsPair(CallerHolds, s.callers, c, d);
    assert Places(s, s.callers[d].job) <= 1;
  }

  lemma CallerIsNoWorker(s: Pool, c: nat, w: nat)
    requires Conserved(s) && c < |s.callers| && s.callers[c].Inserted? && w < |s.workers| && HasJob(s.workers[w])
    ensures s.callers[c].job != s.workers[w].job
  {
    BagContains(CallerHolds, s.callers, c);
    BagContains(Holds, s.workers, w);
    assert Places(s, s.callers[c].job) <= 1;
  }

  lemma WorkerJobIsNotStored(s: Pool, w: nat)
    requires Conserved(s) && w < |s.workers| && HasJob(s.workers[w])
    ensures var j := s.workers[w].job; j < |s.jobs| && j !in s.queue && j !in s.ran && j !in s.refused
  {
    var j := s.workers[w].job;
    BagContains(Holds, s.workers, w);
    assert 1 <= Places(s, j) <= 1;
  }

  lemma CallerJobIsNotStored(s: Pool, c: nat)
    requires Conserved(s) && c < |s.callers| && s.callers[c].Inserted?
    ensures var j := s.callers[c].job; j < |s.jobs| && j !in s.queue && j !in s.ran && j !in s.refused
  {
    var j := s.callers[c].job;
    BagContains(CallerHolds, s.callers, c);
    assert 1 <= Places(s, j) <= 1;
  }

  /** A job with worker `w` is nowhere else. */
  ghost predicate OnlyWithWorker(s: Pool, w: nat, j: nat) {
    && j < |s.jobs| && j !in s.queue && j !in s.ran && j !in s.refused
    && (forall v :: 0 <= v < |s.workers| && v != w && HasJob(s.workers[v]) ==> s.workers[v].job != j)
    && (forall c :: 0 <= c < |s.callers| && s.callers[c].Inserted? ==> s.callers[c].job != j)
  }

  lemma WithOneWorker(s: Pool, w: nat)
    requires Conserved(s) && w < |s.workers| && HasJob(s.workers[w])
    ensures OnlyWithWorker(s, w, s.workers[w].job)
  {
    hide Conserved;
    var j := s.workers[w].job;
    WorkerJobIsNotStored(s, w);
    forall v | 0 <= v < |s.workers| && v != w && HasJob(s.workers[v]) ensures s.workers[v].job != j {
      if v < w { WorkersDiffer(s, v, w); } else { WorkersDiffer(s, w, v); }
    }
    forall c | 0 <= c < |s.callers| && s.callers[c].Inserted? ensures s.callers[c].job != j {
      CallerIsNoWorker(s, c, w);
    }
  }

  /** A job about to be sent is nowhere else. */
  ghost predicate OnlyWithCaller(s: Pool, c: nat, j: nat) {
    && j < |s.jobs| && j !in s.queue && j !in s.ran && j !in s.refused
    && (forall v :: 0 <= v < |s.workers| && HasJob(s.workers[v]) ==> s.workers[v].job != j)
    && (forall d :: 0 <= d < |s.callers| && d != c && s.callers[d].Inserted? ==> s.callers[d].job != j)
  }

  lemma WithOneCaller(s: Pool, c: nat)
    requires Conserved(s) && c < |s.callers| && s.callers[c].Inserted?
    ensures OnlyWithCaller(s, c, s.callers[c].job)
  {
    hide Conserved;
    var j := s.callers[c].job;
    CallerJobIsNotStored(s, c);
    forall v | 0 <= v < |s.workers| && HasJob(s.workers[v]) ensures s.workers[v].job != j {
      CallerIsNoWorker(s, c, v);
    }
    forall d | 0 <= d < |s.callers| && d != c && s.callers[d].Inserted? ensures s.callers[d].job != j {
      if d < c { CallersDiffer(s, d, c); } else { CallersDiffer(s, c, d); }
    }
  }

  /* ---- statuses ---- */

  /** Only the status of worker `w`'s own job and that worker's slot change. */
  lemma WorkerSettlesStatus(s: Pool, t: Pool, w: nat, st: Status, x: Worker)
    requires StatusesFit(s) && w < |s.workers| && HasJob(s.workers[w])
    requires OnlyWithWorker(s, w, s.workers[w].job)
    requires t.jobs == s.jobs[s.workers[w].job := s.jobs[s.workers[w].job].(status := st)]
    requires t.workers == s.workers[w := x] && StatusFits(t, x)
    requires t.queue == s.queue && t.callers == s.callers && t.ran == s.ran && t.refused == s.refused
    ensures StatusesFit(t)
  {
    forall v | 0 <= v < |t.workers| ensures StatusFits(t, t.workers[v]) {
      assert v != w ==> StatusFits(s, s.workers[v]);
    }
  }

  lemma WorkerMovesOn(s: Pool, t: Pool, w: nat, x: Worker)
    requires StatusesFit(s) && w < |s.workers| && StatusFits(s, x)
    requires t.jobs == s.jobs && t.workers == s.workers[w := x] && t.callers == s.callers && t.refused == s.refused
    requires forall j :: j in t.queue ==> j in s.queue
    requires t.ran == s.ran || (HasJob(s.workers[w]) && t.ran == s.ran + [s.workers[w].job] && s.workers[w].Recorded?)
    ensures StatusesFit(t)
  {
    assert StatusFits(s, s.workers[w]);
    forall v | 0 <= v < |t.workers| ensures StatusFits(t, t.workers[v]) {
      assert StatusFits(s, s.workers[v]);
    }
  }

  lemma InsertFits(keying: Keying, s: Pool, c: nat, persisted: bool)
    requires Enabled(s, Insert(c, persisted)) && StatusesFit(s)
    ensures StatusesFit(DoInsert(keying, s, c, persisted))
  {
    hide KeyOf;
    var t := DoInsert(keying, s, c, persisted);
    forall v | 0 <= v < |t.workers| ensures StatusFits(t, t.workers[v]) {
      assert StatusFits(s, s.workers[v]);
    }
  }

  lemma SendFits(s: Pool, c: nat)
    requires Enabled(s, Send(c)) && StatusesFit(s) && Conserved(s)
    ensures StatusesFit(DoSend(s, c))
  {
    hide Conserved;
    WithOneCaller(s, c);
    var t := DoSend(s, c);
    forall v | 0 <= v < |t.workers| ensures StatusFits(t, t.workers[v]) {
      assert StatusFits(s, s.workers[v]);
    }
  }

  lemma StepFitsStatuses(keying: Keying, s: Pool, e: Event)
    requires Enabled(s, e) && Conserved(s) && StatusesFit(s)
    ensures StatusesFit(Next(keying, s, e))
  {
    hide IsNextID, HasActiveRecord, KeyOf, Conserved, StatusesFit, DoSend, DoInsert, OnlyWithWorker;
    var t := Next(keying, s, e);
    match e
    case Insert(c, persisted) => InsertFits(keying, s, c, persisted);
    case Send(c) => SendFits(s, c);
    case Begin(w) =>
      WithOneWorker(s, w);
      WorkerSettlesStatus(s, t, w, Preparing, s.workers[w]);
    case Advance(w, st) =>
      WithOneWorker(s, w);
      WorkerSettlesStatus(s, t, w, st, s.workers[w]);
    case Settle(w, st) =>
      WithOneWorker(s, w);
      WorkerSettlesStatus(s, t, w, st, Settled(s.workers[w].job));
    case Take(w) =>
      QueuedFits(s, s.queue[0]);
      WorkerMovesOn(s, t, w, Waiting(s.queue[0]));
    case Acquire(w) =>
      SlotFits(s, w);
      WorkerMovesOn(s, t, w, Executing(s.workers[w].job));
    case Record(w) =>
      SlotFits(s, w);
      WorkerMovesOn(s, t, w, Recorded(s.workers[w].job));
    case Release(w) => WorkerMovesOn(s, t, w, Free);
    case Stop(w) => WorkerMovesOn(s, t, w, Stopped);
    case _ => Unmoved(s, t);
  }

  lemma QueuedFits(s: Pool, j: nat)
    requires StatusesFit(s) && j in s.queue
    ensures StatusFits(s, Waiting(j))
  {
  }

  lemma SlotFits(s: Pool, w: nat)
    requires StatusesFit(s) && w < |s.workers|
    ensures StatusFits(s, s.workers[w])
  {
  }

  lemma Unmoved(s: Pool, t: Pool)
    requires StatusesFit(s)
    requires t.jobs == s.jobs && t.workers == s.workers && t.queue == s.queue && t.ran == s.ran && t.refused == s.refused
    requires |t.callers| == |s.callers|
    requires forall c :: 0 <= c < |t.callers| ==> t.callers[c] == s.callers[c] || !t.callers[c].Inserted?
    ensures StatusesFit(t)
  {
    forall v | 0 <= v < |t.workers| ensures StatusFits(t, t.workers[v]) {
      assert StatusFits(s, s.workers[v]);
    }
  }

  /* ---- locks ---- */

  /** The same workers are busy with the same applications. */
  lemma SameLocks(s: Pool, t: Pool)
    requires LocksExact(s) && t.held == s.held && |t.workers| == |s.workers|
    requires forall w: nat, a :: BusyWith(t, w, a) <==> BusyWith(s, w, a)
    requires forall w :: 0 <= w < |t.workers| && IsBusy(t.workers[w]) ==> IsBusy(s.workers[w]) && t.workers[w].job == s.workers[w].job
    requires |s.jobs| <= |t.jobs| && forall j :: 0 <= j < |s.jobs| ==> t.jobs[j].app == s.jobs[j].app
    ensures LocksExact(t)
  {
    forall a | a in t.held ensures exists w: nat :: BusyWith(t, w, a) {
      var w: nat :| BusyWith(s, w, a);
      assert BusyWith(t, w, a);
    }
  }

  lemma AcquireLocks(keying: Keying, s: Pool, w: nat)
    requires Enabled(s, Acquire(w)) && LocksExact(s)
    ensures LocksExact(Next(keying, s, Acquire(w)))
  {
    var t := Next(keying, s, Acquire(w));
    var app := s.jobs[s.workers[w].job].app;
    assert BusyWith(t, w, app);
    forall v: nat, a ensures BusyWith(t, v, a) <==> (v == w && a == app) || (v != w && BusyWith(s, v, a)) {
    }
    forall v: nat ensures !BusyWith(s, v, app) {
      assert BusyWith(s, v, app) ==> app in s.held;
    }
    forall a | a in t.held ensures exists v: nat :: BusyWith(t, v, a) {
      if a != app {
        var v: nat :| BusyWith(s, v, a);
        assert BusyWith(t, v, a);
      }
    }
  }

  lemma ReleaseLocks(keying: Keying, s: Pool, w: nat)
    requires Enabled(s, Release(w)) && LocksExact(s)
    ensures LocksExact(Next(keying, s, Release(w)))
  {
    var t := Next(keying, s, Release(w));
    var app := s.jobs[s.workers[w].job].app;
    assert BusyWith(s, w, app);
    forall v: nat, a ensures BusyWith(t, v, a) <==> v != w && BusyWith(s, v, a) {
    }
    forall v | 0 <= v < |t.workers| && IsBusy(t.workers[v]) ensures t.workers[v].job < |t.jobs| && t.jobs[t.workers[v].job].app in t.held {
      assert BusyWith(s, v, s.jobs[s.workers[v].job].app);
    }
    forall a | a in t.held ensures exists v: nat :: BusyWith(t, v, a) {
      var v: nat :| BusyWith(s, v, a);
      assert BusyWith(t, v, a);
    }
  }

  lemma CallerKeepsLocks(keying: Keying, s: Pool, e: Event)
    requires Enabled(s, e) && CallerEvent(e) && LocksExact(s)
    ensures LocksExact(Next(keying, s, e))
  {
    hide IsNextID, HasActiveRecord, KeyOf, LocksExact;
    BusyHaveJobs(s);
    SameLocks(s, Next(keying, s, e));
  }

  lemma SlotKeepsLocks(keying: Keying, s: Pool, e: Event)
    requires Enabled(s, e) && LocksExact(s) && (e.Take? || e.Settle? || e.Record? || e.Stop?)
    ensures LocksExact(Next(keying, s, e))
  {
    hide KeyOf, LocksExact;
    BusyHaveJobs(s);
    SameLocks(s, Next(keying, s, e));
  }

  lemma OtherKeepsLocks(keying: Keying, s: Pool, e: Event)
    requires Enabled(s, e) && LocksExact(s) && (e.Begin? || e.Advance? || e.Drop? || e.Shutdown?)
    ensures LocksExact(Next(keying, s, e))
  {
    hide KeyOf, LocksExact;
    BusyHaveJobs(s);
    SameLocks(s, Next(keying, s, e));
  }

  lemma StepKeepsLocks(keying: Keying, s: Pool, e: Event)
    requires Enabled(s, e) && LocksExact(s)
    ensures LocksExact(Next(keying, s, e))
  {
    hide Enabled, Next, LocksExact;
    if CallerEvent(e) {
      CallerKeepsLocks(keying, s, e);
    } else if e.Take? || e.Settle? || e.Record? || e.Stop? {
      SlotKeepsLocks(keying, s, e);
    } else if e.Acquire? {
      AcquireLocks(keying, s, e.w);
    } else if e.Release? {
      ReleaseLocks(keying, s, e.w);
    } else {
      OtherKeepsLocks(keying, s, e);
    }
  }

  lemma BusyHaveJobs(s: Pool)
    requires LocksExact(s)
    ensures forall w :: 0 <= w < |s.workers| && IsBusy(s.workers[w]) ==> s.workers[w].job < |s.jobs|
  {
  }

  lemma StepStaysTidy(keying: Keying, s: Pool, e: Event)
    requires Enabled(s, e) && Tidy(s)
    ensures Tidy(Next(keying, s, e))
  {
    hide IsNextID, HasActiveRecord, KeyOf;
  }

  lemma StepKeepsInv(keying: Keying, s: Pool, e: Event)
    requires Enabled(s, e) && Inv(s)
    ensures Inv(Next(keying, s, e))
  {
    hide Enabled, Next, Conserved, StartsAccounted, StatusesFit, LocksExact, Tidy;
    StepConserves(keying, s, e);
    StepFitsStatuses(keying, s, e);
    StepKeepsLocks(keying, s, e);
    StepStaysTidy(keying, s, e);
  }

  /* ---- the guarantees, for every run ---- */

  lemma {:induction false} RunKeepsInv(keying: Keying, states: seq<Pool>, events: seq<Event>, n: nat)
    requires IsRun(keying, states, events) && Initial(states[0]) && n <= |events|
    ensures Inv(states[n])
    ensures |states[n].workers| == |states[0].workers|
  {
    hide Inv, Enabled;
    if n == 0 {
      InitialInv(states[0]);
    } else {
      RunKeepsInv(keying, states, events, n - 1);
      StepKeepsInv(keying, states[n - 1], events[n - 1]);
      SameWorkerCount(keying, states[n - 1], events[n - 1]);
    }
  }

  lemma SameWorkerCount(keying: Keying, s: Pool, e: Event)
    requires Enabled(s, e)
    ensures |Next(keying, s, e).workers| == |s.workers|
  {
    hide IsNextID, HasActiveRecord, KeyOf;
  }

  /** No step changes a deployment that has reached a terminal status. */
  lemma TerminalStays(keying: Keying, s: Pool, e: Event, j: nat)
    requires Inv(s) && Enabled(s, e) && j < |s.jobs| && IsTerminal(s.jobs[j].status)
    ensures j < |Next(keying, s, e).jobs| && Next(keying, s, e).jobs[j] == s.jobs[j]
  {
    hide IsNextID, HasActiveRecord, KeyOf, Conserved, StartsAccounted, LocksExact;
  }

  /** Along every run from a fresh start, a terminal status is never left. */
  lemma {:induction false} TerminalForever(keying: Keying, states: seq<Pool>, events: seq<Event>, m: nat, n: nat, j: nat)
    requires IsRun(keying, states, events) && Initial(states[0]) && m <= n <= |events|
    requires j < |states[m].jobs| && IsTerminal(states[m].jobs[j].status)
    ensures j < |states[n].jobs| && states[n].jobs[j] == states[m].jobs[j]
  {
    hide Inv, Enabled, Next, Initial;
    if m < n {
      TerminalForever(keying, states, events, m, n - 1, j);
      RunKeepsInv(keying, states, events, n - 1);
      assert Enabled(states[n - 1], events[n - 1]) && states[n] == Next(keying, states[n - 1], events[n - 1]);
      TerminalStays(keying, states[n - 1], events[n - 1], j);
    }
  }

  ghost predicate Finished(s: Pool, j: nat) {
    j in s.ran || j in s.refused
  }

  ghost predicate JobWithWorker(s: Pool, j: nat, w: nat) {
    w < |s.workers| && HasJob(s.workers[w]) && s.workers[w].job == j
  }

  ghost predicate AboutToBeSent(s: Pool, j: nat, c: nat) {
    c < |s.callers| && s.callers[c].Inserted? && s.callers[c].job == j
  }

  /** An unfinished deployment is about to be sent, queued or with a worker, and a finished one has a
      terminal status. */
  lemma EveryJobIsSomewhere(s: Pool, j: nat)
    requires Inv(s) && j < |s.jobs|
    ensures Finished(s, j) || j in s.queue || (exists w :: JobWithWorker(s, j, w)) || (exists c :: AboutToBeSent(s, j, c))
    ensures Finished(s, j) ==> IsTerminal(s.jobs[j].status)
  {
    assert Places(s, j) == 1;
    if j in BagOf(Holds, s.workers) {
      var w := BagWitness(Holds, s.workers, j);
      assert JobWithWorker(s, j, w);
    }
    if j in BagOf(CallerHolds, s.callers) {
      var c := BagWitness(CallerHolds, s.callers, j);
      assert AboutToBeSent(s, j, c);
    }
  }

  /** In no run is a deployment queued twice, run twice, or queued and running at once. */
  lemma NeverTwice(s: Pool, j: nat)
    requires Inv(s)
    ensures multiset(s.started)[j] <= 1 && multiset(s.queue)[j] <= 1 && multiset(s.ran)[j] <= 1
    ensures j in s.queue ==> j !in s.started
    ensures j in s.refused ==> j !in s.started
    ensures j in s.ran ==> j in s.started
  {
    assert Places(s, j) <= 1;
    BusyIsHeld(s.workers, j);
    assert multiset(s.started)[j] == BagOf(BusyHolds, s.workers)[j] + multiset(s.ran)[j];
    assert j in s.queue ==> multiset(s.queue)[j] > 0;
    assert j in s.refused ==> multiset(s.refused)[j] > 0;
    assert j in s.ran ==> multiset(s.ran)[j] > 0;
    assert j in s.started <==> multiset(s.started)[j] > 0;
  }

  lemma {:induction false} BusyIsHeld(ws: seq<Worker>, j: nat)
    ensures BagOf(BusyHolds, ws)[j] <= BagOf(Holds, ws)[j]
  {
    if ws != [] {
      BusyIsHeld(ws[..|ws| - 1], j);
    }
  }

  /** Every active record in the map belongs to a deployment that is queued, with a worker, or about to be sent. */
  lemma ActiveRecordsAreLive(s: Pool, k: Key)
    requires Inv(s) && k in s.records && s.records[k] < |s.jobs| && IsActive(s.jobs[s.records[k]].status)
    ensures var j := s.records[k];
      j in s.queue || (exists w :: JobWithWorker(s, j, w)) || (exists c :: AboutToBeSent(s, j, c))
  {
    hide Inv;
    EveryJobIsSomewhere(s, s.records[k]);
  }

  /** Over every interleaving from a fresh start: the queue is bounded, no two workers execute for one
      application, and each deployment is in one place only. */
  lemma PoolIsSafe(keying: Keying, states: seq<Pool>, events: seq<Event>, n: nat)
    requires IsRun(keying, states, events) && Initial(states[0]) && n <= |events|
    ensures var s := states[n];
      && |s.queue| <= QUEUE_CAPACITY
      && (forall v: nat, w: nat, a :: BusyWith(s, v, a) && BusyWith(s, w, a) ==> v == w)
      && (forall j: nat :: Places(s, j) == if j < |s.jobs| then 1 else 0)
      && (forall j: nat :: multiset(s.started)[j] <= 1)
  {
    hide Places;
    RunKeepsInv(keying, states, events, n);
    forall j: nat ensures multiset(states[n].started)[j] <= 1 {
      NeverTwice(states[n], j);
    }
  }
}
