/** The worker pool cannot deadlock before shutdown, and drains when nothing new is enqueued. */
module PoolLiveness {
  import opened DeploymentStatus
  import opened Bags
  import opened WorkerPool
  import opened PoolSafety

  /** Events of jobs already accepted; the executor settles by returning. */
  predicate Internal(e: Event) {
    e.Send? || e.Take? || e.Acquire? || e.Begin? || e.Advance? || e.Settle? || e.Record? || e.Release?
  }

  /* ---- deadlock freedom ---- */

  ghost predicate Unfinished(s: Pool) {
    exists j: nat :: j < |s.jobs| && !Finished(s, j)
  }

  lemma BusyWorkerCanStep(s: Pool, w: nat)
    requires StatusesFit(s) && w < |s.workers| && IsBusy(s.workers[w])
    ensures exists e :: Internal(e) && Enabled(s, e)
  {
    assert StatusFits(s, s.workers[w]);
    var e := match s.workers[w]
      case Executing(_) => Settle(w, Failed)
      case Settled(_) => Record(w)
      case _ => Release(w);
    assert Internal(e) && Enabled(s, e);
  }

  /** A waiting worker can take its lock, or the lock's holder can step: holders wait for nothing. */
  lemma WaitingWorkerOrHolderCanStep(s: Pool, w: nat)
    requires StatusesFit(s) && LocksExact(s) && w < |s.workers| && s.workers[w].Waiting?
    ensures exists e :: Internal(e) && Enabled(s, e)
  {
    assert StatusFits(s, s.workers[w]);
    var app := s.jobs[s.workers[w].job].app;
    if app in s.held {
      var v: nat :| BusyWith(s, v, app);
      BusyWorkerCanStep(s, v);
    } else {
      assert Internal(Acquire(w)) && Enabled(s, Acquire(w));
    }
  }

  /** Before shutdown, as long as any accepted deployment is unfinished, some event is enabled. */
  lemma NoDeadlock(s: Pool)
    requires Inv(s) && !s.shutdown && s.workers != [] && Unfinished(s)
    ensures exists e :: Internal(e) && Enabled(s, e)
  {
    hide Conserved, StartsAccounted, LocksExact, StatusesFit, Enabled, Internal;
    var j: nat :| j < |s.jobs| && !Finished(s, j);
    EveryJobIsSomewhere(s, j);
    if exists w :: JobWithWorker(s, j, w) {
      var w: nat :| JobWithWorker(s, j, w);
      SomeWorkerCanStep(s, w);
    } else if j in s.queue {
      QueuedCanStep(s);
    } else {
      var c: nat :| AboutToBeSent(s, j, c);
      SenderCanStep(s, c);
    }
  }

  lemma SomeWorkerCanStep(s: Pool, w: nat)
    requires StatusesFit(s) && LocksExact(s) && w < |s.workers| && HasJob(s.workers[w])
    ensures exists e :: Internal(e) && Enabled(s, e)
  {
    if IsBusy(s.workers[w]) {
      BusyWorkerCanStep(s, w);
    } else {
      WaitingWorkerOrHolderCanStep(s, w);
    }
  }

  lemma QueuedCanStep(s: Pool)
    requires Inv(s) && !s.shutdown && s.workers != [] && s.queue != []
    ensures exists e :: Internal(e) && Enabled(s, e)
  {
    hide Conserved, StartsAccounted, LocksExact, StatusesFit;
    if HasJob(s.workers[0]) {
      SomeWorkerCanStep(s, 0);
    } else {
      assert s.workers[0].Free?;
      assert Internal(Take(0)) && Enabled(s, Take(0));
    }
  }

  /** A rollback caller blocks only on a full queue, which some worker then empties. */
  lemma SenderCanStep(s: Pool, c: nat)
    requires Inv(s) && !s.shutdown && s.workers != [] && c < |s.callers| && s.callers[c].Inserted?
    ensures exists e :: Internal(e) && Enabled(s, e)
  {
    hide Conserved, StartsAccounted, LocksExact;
    if |s.queue| < QUEUE_CAPACITY {
      assert Internal(Send(c)) && Enabled(s, Send(c));
    } else {
      QueuedCanStep(s);
    }
  }

  /* ---- draining ---- */

  function Weight(jobs: seq<Job>, w: Worker): nat {
    match w
    case Waiting(_) => 12
    case Executing(j) => if j < |jobs| then 11 - Rank(jobs[j].status) else 4
    case Settled(_) => 2
    case Recorded(_) => 1
    case _ => 0
  }

  function WeightIn(jobs: seq<Job>): Worker -> nat {
    (w: Worker) => Weight(jobs, w)
  }

  function SendWeight(c: Caller): nat {
    if c.Inserted? then 14 else 0
  }

  ghost function Measure(s: Pool): nat {
    Sum(SendWeight, s.callers) + 13 * |s.queue| + Sum(WeightIn(s.jobs), s.workers)
  }

  /** Worker `w` changes its slot, and perhaps the status of its own job. */
  lemma SlotWeight(s: Pool, t: Pool, w: nat, x: Worker)
    requires w < |s.workers| && t.workers == s.workers[w := x]
    requires forall v :: 0 <= v < |s.workers| && v != w ==> Weight(t.jobs, s.workers[v]) == Weight(s.jobs, s.workers[v])
    ensures Sum(WeightIn(t.jobs), t.workers) + Weight(s.jobs, s.workers[w])
            == Sum(WeightIn(s.jobs), s.workers) + Weight(t.jobs, x)
  {
    SumUpdate(WeightIn(t.jobs), s.workers, w, x);
    SumDiffersAt(WeightIn(t.jobs), WeightIn(s.jobs), s.workers, w);
  }

  lemma OthersWeighTheSame(s: Pool, t: Pool, w: nat)
    requires w < |s.workers| && HasJob(s.workers[w]) && OnlyWithWorker(s, w, s.workers[w].job)
    requires |t.jobs| == |s.jobs| && forall j :: 0 <= j < |s.jobs| && j != s.workers[w].job ==> t.jobs[j] == s.jobs[j]
    ensures forall v :: 0 <= v < |s.workers| && v != w ==> Weight(t.jobs, s.workers[v]) == Weight(s.jobs, s.workers[v])
  {
  }

  /** Events of one worker with its own job. */
  predicate OwnJobEvent(e: Event) {
    e.Acquire? || e.Begin? || e.Advance? || e.Settle? || e.Record? || e.Release?
  }

  lemma OwnJobEventDecreases(keying: Keying, s: Pool, e: Event)
    requires Inv(s) && Enabled(s, e) && OwnJobEvent(e)
    ensures Measure(Next(keying, s, e)) < Measure(s)
  {
    hide Conserved, StartsAccounted, LocksExact, KeyOf, StatusesFit, Tidy;
    var t := Next(keying, s, e);
    var w := e.w;
    WithOneWorker(s, w);
    SlotFits(s, w);
    assert t.jobs[s.workers[w].job := s.jobs[s.workers[w].job]] == s.jobs;
    OthersWeighTheSame(s, t, w);
    SlotWeight(s, t, w, t.workers[w]);
    assert Weight(t.jobs, t.workers[w]) < Weight(s.jobs, s.workers[w]);
  }

  lemma TakeDecreases(keying: Keying, s: Pool, w: nat)
    requires Enabled(s, Take(w))
    ensures Measure(Next(keying, s, Take(w))) < Measure(s)
  {
    SlotWeight(s, Next(keying, s, Take(w)), w, Waiting(s.queue[0]));
  }

  lemma SendDecreases(keying: Keying, s: Pool, c: nat)
    requires Inv(s) && Enabled(s, Send(c))
    ensures Measure(Next(keying, s, Send(c))) < Measure(s)
  {
    hide Conserved, StartsAccounted, LocksExact, StatusesFit, Tidy;
    var t := Next(keying, s, Send(c));
    SumUpdate(SendWeight, s.callers, c, Idle);
    WithOneCaller(s, c);
    SenderJobWeighsNothing(s, t, c);
    SumCongruent(WeightIn(t.jobs), WeightIn(s.jobs), s.workers);
  }

  lemma SenderJobWeighsNothing(s: Pool, t: Pool, c: nat)
    requires c < |s.callers| && s.callers[c].Inserted? && OnlyWithCaller(s, c, s.callers[c].job)
    requires |t.jobs| == |s.jobs| && forall j :: 0 <= j < |s.jobs| && j != s.callers[c].job ==> t.jobs[j] == s.jobs[j]
    ensures forall v :: 0 <= v < |s.workers| ==> Weight(t.jobs, s.workers[v]) == Weight(s.jobs, s.workers[v])
  {
  }

  lemma InternalDecreases(keying: Keying, s: Pool, e: Event)
    requires Inv(s) && Enabled(s, e) && Internal(e)
    ensures Measure(Next(keying, s, e)) < Measure(s)
  {
    hide Inv, Enabled, Next, Measure;
    if e.Send? {
      SendDecreases(keying, s, e.c);
    } else if e.Take? {
      TakeDecreases(keying, s, e.w);
    } else {
      OwnJobEventDecreases(keying, s, e);
    }
  }

  /** A new job object: the only event that adds work. */
  predicate Accepts(e: Event) {
    e.Insert? && e.persisted
  }

  /** Checks, names, refused inserts, prunes, clears and the shutdown signal add no work. */
  lemma OthersAddNothing(keying: Keying, s: Pool, e: Event)
    requires Enabled(s, e) && !Internal(e) && !Accepts(e)
    ensures Measure(Next(keying, s, e)) == Measure(s)
  {
    hide IsNextID, HasActiveRecord, KeyOf;
    var t := Next(keying, s, e);
    if e.Check? || e.Name? || e.Insert? {
      SumUpdate(SendWeight, s.callers, e.c, t.callers[e.c]);
    } else if e.Stop? {
      SlotWeight(s, t, e.w, Stopped);
    }
  }

  /** How many of the events carry an accepted job on. */
  function Work(events: seq<Event>): nat {
    if events == [] then 0
    else Work(events[..|events| - 1]) + if Internal(events[|events| - 1]) then 1 else 0
  }

  /** In a run that accepts no new job, whatever else happens in between, the jobs take no more steps than
      the measure at its start. */
  lemma {:induction false} DrainBound(keying: Keying, states: seq<Pool>, events: seq<Event>, n: nat)
    requires IsRun(keying, states, events) && Inv(states[0]) && n <= |events|
    requires forall i :: 0 <= i < |events| ==> !Accepts(events[i])
    ensures Inv(states[n]) && Measure(states[n]) + Work(events[..n]) <= Measure(states[0])
  {
    hide Inv, Enabled, Next, Measure, Internal, Accepts;
    if n > 0 {
      DrainBound(keying, states, events, n - 1);
      var s, e := states[n - 1], events[n - 1];
      assert Enabled(s, e) && states[n] == Next(keying, s, e);
      assert events[..n][..n - 1] == events[..n - 1];
      if Internal(e) {
        InternalDecreases(keying, s, e);
      } else {
        OthersAddNothing(keying, s, e);
      }
      StepKeepsInv(keying, s, e);
    }
  }

  /** A run without new jobs and without a shutdown in which no job can take another step has finished
      every one of them. */
  lemma DrainedWhenStuck(keying: Keying, states: seq<Pool>, events: seq<Event>)
    requires IsRun(keying, states, events) && Inv(states[0]) && states[0].workers != []
    requires forall i :: 0 <= i < |events| ==> !Accepts(events[i])
    requires !states[|events|].shutdown
    requires !exists e :: Internal(e) && Enabled(states[|events|], e)
    ensures Work(events) <= Measure(states[0])
    ensures forall j :: 0 <= j < |states[|events|].jobs| ==> Finished(states[|events|], j)
  {
    hide Inv, Enabled, Next, Measure, Internal, Accepts;
    var n := |events|;
    assert events[..n] == events;
    DrainBound(keying, states, events, n);
    WorkersStay(keying, states, events, n);
    if Unfinished(states[n]) {
      NoDeadlock(states[n]);
    }
  }

  lemma {:induction false} WorkersStay(keying: Keying, states: seq<Pool>, events: seq<Event>, n: nat)
    requires IsRun(keying, states, events) && n <= |events|
    ensures |states[n].workers| == |states[0].workers|
  {
    hide Enabled, Next;
    if n > 0 {
      WorkersStay(keying, states, events, n - 1);
      assert Enabled(states[n - 1], events[n - 1]) && states[n] == Next(keying, states[n - 1], events[n - 1]);
      SameWorkerCount(keying, states[n - 1], events[n - 1]);
    }
  }
}
