/** What becomes of the jobs of the worker pool: the order in which they are taken, what refuses them, and the
    statuses they go through. */
module PoolHistory {
  import opened DeploymentStatus
  import opened Bags
  import opened WorkerPool
  import opened PoolSafety
  import Decimal

  /* ---- the queue ---- */

  /** The job that an event hands to the pool, if it hands one over that is not refused. */
  ghost function SentBy(s: Pool, e: Event, t: Pool): seq<nat> {
    if e.Send? && e.c < |s.callers| && s.callers[e.c].Inserted? && t.refused == s.refused then [s.callers[e.c].job] else []
  }

  /** The job that a worker has after taking one. */
  ghost function TakenBy(e: Event, t: Pool): seq<nat> {
    if e.Take? && e.w < |t.workers| && t.workers[e.w].Waiting? then [t.workers[e.w].job] else []
  }

  ghost function Sent(states: seq<Pool>, events: seq<Event>, n: nat): seq<nat>
    requires |states| == |events| + 1 && n <= |events|
  {
    if n == 0 then [] else Sent(states, events, n - 1) + SentBy(states[n - 1], events[n - 1], states[n])
  }

  ghost function Taken(states: seq<Pool>, events: seq<Event>, n: nat): seq<nat>
    requires |states| == |events| + 1 && n <= |events|
  {
    if n == 0 then [] else Taken(states, events, n - 1) + TakenBy(events[n - 1], states[n])
  }

  lemma QueueStep(keying: Keying, s: Pool, e: Event)
    requires Enabled(s, e)
    ensures var t := Next(keying, s, e); TakenBy(e, t) + t.queue == s.queue + SentBy(s, e, t)
  {
    hide IsNextID, HasActiveRecord, KeyOf;
    var t := Next(keying, s, e);
    if e.Take? {
      assert s.queue == [s.queue[0]] + s.queue[1..];
    } else if e.Send? {
      assert |s.queue| >= QUEUE_CAPACITY ==> |t.refused| == |s.refused| + 1;
    }
  }

  /** First in, first out: what was sent is what was taken followed by what is queued, in the same order. */
  lemma {:induction false} FirstInFirstOut(keying: Keying, states: seq<Pool>, events: seq<Event>, n: nat)
    requires IsRun(keying, states, events) && Initial(states[0]) && n <= |events|
    ensures Sent(states, events, n) == Taken(states, events, n) + states[n].queue
  {
    hide Enabled, Next, SentBy, TakenBy;
    if n > 0 {
      FirstInFirstOut(keying, states, events, n - 1);
      var s, e, t := states[n - 1], events[n - 1], states[n];
      assert Enabled(s, e) && t == Next(keying, s, e);
      QueueStep(keying, s, e);
      calc {
        Sent(states, events, n);
        Taken(states, events, n - 1) + s.queue + SentBy(s, e, t);
        Taken(states, events, n - 1) + (s.queue + SentBy(s, e, t));
        Taken(states, events, n - 1) + (TakenBy(e, t) + t.queue);
        Taken(states, events, n) + t.queue;
      }
    }
  }

  /** Sending always ends for a deployment: the job is queued last, or, exactly when 64 are queued, refused
      and failed. A rollback waits instead, and is never refused. */
  lemma SendOutcome(keying: Keying, s: Pool, c: nat)
    requires Inv(s) && c < |s.callers| && s.callers[c].Inserted?
    ensures Enabled(s, Send(c)) <==> s.callers[c].kind == Deploy || |s.queue| < 64
    ensures Enabled(s, Send(c)) ==>
              var j, t := s.callers[c].job, Next(keying, s, Send(c));
              && t.callers[c] == Idle && t.records == s.records
              && (|s.queue| < 64 ==> t.queue == s.queue + [j] && t.refused == s.refused && t.jobs == s.jobs)
              && (|s.queue| == 64 ==> t.queue == s.queue && t.refused == s.refused + [j]
                                      && j < |s.jobs| && t.jobs == s.jobs[j := s.jobs[j].(status := Failed)])
    ensures |s.queue| <= 64
  {
    hide Conserved, StartsAccounted, LocksExact;
  }

  /* ---- outcomes ---- */

  /** A refused job has failed; a job that succeeded was started; one that is no longer queued was started or
      refused. */
  ghost predicate Outcomes(s: Pool) {
    && (forall j :: j in s.refused ==> j < |s.jobs| && s.jobs[j].status == Failed)
    && (forall j :: 0 <= j < |s.jobs| && s.jobs[j].status == Success ==> j in s.started)
    && (forall j :: 0 <= j < |s.jobs| && s.jobs[j].status != Queued ==> j in s.started || j in s.refused)
  }

  lemma BusyWasStarted(s: Pool, w: nat)
    requires StartsAccounted(s) && w < |s.workers| && IsBusy(s.workers[w])
    ensures s.workers[w].job in s.started
  {
    var j := s.workers[w].job;
    BagContains(BusyHolds, s.workers, w);
    assert multiset(s.started)[j] > 0;
    assert j in multiset(s.started);
  }

  lemma StepKeepsOutcomes(keying: Keying, s: Pool, e: Event)
    requires Inv(s) && Enabled(s, e) && Outcomes(s)
    ensures Outcomes(Next(keying, s, e))
  {
    hide IsNextID, HasActiveRecord, KeyOf, Conserved, StartsAccounted, LocksExact;
    var t := Next(keying, s, e);
    if e.Begin? || e.Advance? || e.Settle? {
      assert s.workers[e.w].job in s.started by { BusyWasStarted(s, e.w); }
      assert t.started == s.started && t.refused == s.refused;
      SlotFits(s, e.w);
      forall j | j in t.refused ensures j < |t.jobs| && t.jobs[j].status == Failed {
        TerminalStays(keying, s, e, j);
      }
    } else if e.Acquire? {
      assert forall j :: j in s.started ==> j in t.started;
    } else if e.Send? {
      assert t.refused == s.refused || t.refused == s.refused + [s.callers[e.c].job];
    }
  }

  lemma {:induction false} RunKeepsOutcomes(keying: Keying, states: seq<Pool>, events: seq<Event>, n: nat)
    requires IsRun(keying, states, events) && Initial(states[0]) && n <= |events|
    ensures Outcomes(states[n])
  {
    hide Inv, Enabled, Next, Outcomes;
    if n == 0 {
      FreshOutcomes(states[0]);
    } else {
      RunKeepsOutcomes(keying, states, events, n - 1);
      RunKeepsInv(keying, states, events, n - 1);
      assert Enabled(states[n - 1], events[n - 1]) && states[n] == Next(keying, states[n - 1], events[n - 1]);
      StepKeepsOutcomes(keying, states[n - 1], events[n - 1]);
    }
  }

  lemma FreshOutcomes(s: Pool)
    requires Initial(s)
    ensures Outcomes(s)
  {
  }

  /** A job keeps its application and ID; its status changes only upwards, and from queued only to preparing
      or to an end. */
  lemma StatusMoves(keying: Keying, s: Pool, e: Event, j: nat)
    requires Inv(s) && Enabled(s, e) && j < |s.jobs|
    ensures j < |Next(keying, s, e).jobs|
    ensures var a, b := s.jobs[j], Next(keying, s, e).jobs[j];
      && b.app == a.app && b.id == a.id
      && (b.status != a.status ==>
            Rank(a.status) < Rank(b.status) && (a.status == Queued ==> b.status == Preparing || IsTerminal(b.status)))
  {
    hide IsNextID, HasActiveRecord, KeyOf, Conserved, StartsAccounted, LocksExact;
    if e.Settle? {
      SlotFits(s, e.w);
    }
  }

  /** How a worker carries its job from waiting to done: the lock is held from its start to its release,
      statuses are those announced, and the record is written when it begins and when it has ended. */
  lemma JobStep(keying: Keying, s: Pool, e: Event)
    requires Inv(s) && Enabled(s, e) && (e.Acquire? || e.Begin? || e.Advance? || e.Settle? || e.Record? || e.Release?)
    ensures var t, j := Next(keying, s, e), s.workers[e.w].job;
      && j < |s.jobs| && e.w < |t.workers| && |t.jobs| == |s.jobs| && t.queue == s.queue && t.callers == s.callers
      && (forall i :: 0 <= i < |s.jobs| && i != j ==> t.jobs[i] == s.jobs[i])
      && (e.Acquire? ==> t.workers[e.w] == Executing(j) && s.jobs[j].app !in s.held && s.jobs[j].app in t.held && t.jobs == s.jobs)
      && (e.Begin? ==> t.workers == s.workers && t.jobs[j].status == Preparing && j in t.records.Values)
      && (e.Advance? ==> t.workers == s.workers && t.jobs[j].status == e.status && t.records == s.records)
      && (e.Settle? ==> t.workers[e.w] == Settled(j) && t.jobs[j].status == e.status && t.records == s.records)
      && (e.Record? ==> t.workers[e.w] == Recorded(j) && t.jobs == s.jobs && j in t.records.Values)
      && (e.Release? ==> t.workers[e.w] == Free && t.jobs == s.jobs && s.jobs[j].app !in t.held && t.ran == s.ran + [j])
  {
    hide Conserved, StartsAccounted, LocksExact, KeyOf;
    var t, j := Next(keying, s, e), s.workers[e.w].job;
    var k := KeyOf(keying, s.jobs[j].app, s.jobs[j].id);
    assert (e.Begin? || e.Record?) ==> k in t.records && t.records[k] == j;
  }

  /** A call that passes its check keeps its kind and application until its deployment is made. */
  lemma CallStep(keying: Keying, s: Pool, e: Event)
    requires Enabled(s, e) && (e.Check? || e.Name?)
    ensures var t := Next(keying, s, e);
      && t == s.(callers := t.callers) && t.callers == s.callers[e.c := t.callers[e.c]]
      && (e.Check? ==> t.callers[e.c] == Checked(e.kind, e.app) && !HasActiveRecord(s, e.app))
      && (e.Name? ==> s.callers[e.c].Checked? && t.callers[e.c] == Named(s.callers[e.c].kind, s.callers[e.c].app, e.id))
  {
    hide IsNextID, HasActiveRecord;
  }

  /** A drop takes exactly its keys off the records and touches nothing else; no other event takes a record
      away, and it puts another job under a key only when it files that job there. */
  lemma RecordsMove(keying: Keying, s: Pool, e: Event, k: Key)
    requires Enabled(s, e) && k in s.records
    ensures var t := Next(keying, s, e);
      && (e.Drop? ==> (k in t.records <==> k !in e.keys) && t.records.Keys <= s.records.Keys && t == s.(records := t.records))
      && (!e.Drop? ==> k in t.records)
      && (k in t.records && t.records[k] != s.records[k] ==>
            (e.Insert? || e.Begin? || e.Record?) && t.records[k] < |t.jobs| && k.id == t.jobs[t.records[k]].id)
  {
    hide IsNextID, HasActiveRecord;
  }

  /* ---- names ---- */

  /** A named deployment has an ID that none of its application's records has, unless the 64-bit counter
      wrapped around. */
  lemma NamedIsFresh(s: Pool, c: nat, id: string, k: Key)
    requires Enabled(s, Name(c, id)) && RecordOf(s, s.callers[c].app, k)
    ensures s.jobs[s.records[k]].id == id ==> id == Decimal.Format(Decimal.MIN_INT, 4)
  {
    hide Decimal.Format;
    var m :| IsHighest(s, s.callers[c].app, m) && id == Decimal.Format(Decimal.Increment(m), 4);
    assert Decimal.Scan(s.jobs[s.records[k]].id) <= m;
    HighestFits(s, s.callers[c].app, m);
    if m < Decimal.MAX_INT {
      Decimal.ScanUndoesFormat(m + 1, 4);
    }
  }

  lemma HighestFits(s: Pool, app: string, m: int)
    requires IsHighest(s, app, m)
    ensures 0 <= m <= Decimal.MAX_INT
  {
  }

  /** A new deployment is queued under the name it was given and is the one on record for it. */
  lemma InsertedHow(keying: Keying, s: Pool, c: nat)
    requires Enabled(s, Insert(c, true))
    ensures var t, n := Next(keying, s, Insert(c, true)), |s.jobs|;
      && |t.jobs| == n + 1 && t.jobs[..n] == s.jobs && t.jobs[n] == Job(s.callers[c].app, s.callers[c].id, Queued)
      && t.callers[c] == Inserted(s.callers[c].kind, n)
      && exists k :: k in t.records && t.records[k] == n && k.id == s.callers[c].id && (keying == PerApp ==> k.app == s.callers[c].app)
  {
    var t := Next(keying, s, Insert(c, true));
    var k := KeyOf(keying, s.callers[c].app, s.callers[c].id);
    assert k in t.records && t.records[k] == |s.jobs|;
  }

  /* ---- shutdown ---- */

  lemma ShutdownStays(keying: Keying, s: Pool, e: Event, w: nat)
    requires Enabled(s, e)
    ensures s.shutdown || e == Shutdown ==> Next(keying, s, e).shutdown
    ensures w < |s.workers| && (s.workers[w] == Stopped || e == Stop(w)) ==>
              w < |Next(keying, s, e).workers| && Next(keying, s, e).workers[w] == Stopped
    ensures w < |s.workers| && s.workers[w] == Stopped ==> e != Take(w)
  {
    hide IsNextID, HasActiveRecord, KeyOf;
  }

  /** A shutdown is final, and a worker that stopped takes nothing any more. */
  lemma {:induction false} ShutdownIsFinal(keying: Keying, states: seq<Pool>, events: seq<Event>, i: nat, n: nat, w: nat)
    requires IsRun(keying, states, events) && i < n <= |events| && w < |states[i].workers|
    ensures events[i] == Shutdown ==> states[n].shutdown
    ensures events[i] == Stop(w) ==> w < |states[n].workers| && states[n].workers[w] == Stopped
    ensures events[i] == Stop(w) && n < |events| ==> events[n] != Take(w)
  {
    hide Enabled, Next;
    var s, e := states[n - 1], events[n - 1];
    assert Enabled(s, e) && states[n] == Next(keying, s, e);
    if i < n - 1 {
      ShutdownIsFinal(keying, states, events, i, n - 1, w);
    }
    ShutdownStays(keying, s, e, w);
    if n < |events| {
      assert Enabled(states[n], events[n]);
      ShutdownStays(keying, states[n], events[n], w);
    }
  }
}
