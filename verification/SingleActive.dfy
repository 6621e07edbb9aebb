/** One active deployment per application: the design holds when four things are each one step and records
    are keyed by application and ID, and each of these is needed. */
module SingleActive {
  import opened DeploymentStatus
  import opened WorkerPool
  import opened PoolSafety
  import Decimal

  ghost predicate SingleActive(s: Pool) {
    forall i, j :: 0 <= i < j < |s.jobs| && s.jobs[i].app == s.jobs[j].app
      ==> !(IsActive(s.jobs[i].status) && IsActive(s.jobs[j].status))
  }

  /** What is taken as one step, and how records are keyed. */
  datatype Assumptions = Assumptions(wholeEnqueue: bool, wholeFinish: bool, wholeClear: bool, wholePrune: bool, keying: Keying)

  const ALL := Assumptions(true, true, true, true, PerApp)

  /** The coarser steps: checking and inserting at once, a terminal status written together with its
      record, and each clear or prune at once. As the code runs them, a clear or prune first lists keys and
      then deletes them one at a time: `Delete(from, pos, key)` is the deletion at position `pos` of the list
      made by the action numbered `from`. All other events are as before. */
  datatype Action =
    | Enqueue(c: nat, kind: Kind, app: string, id: string, persisted: bool)
    | Finish(w: nat, status: Status)
    | ClearFailed(app: string)
    | Prune(app: string, maxKeep: nat, dropped: set<Key>)
    | ListFailed(app: string, keys: seq<Key>)
    | ListOld(app: string, maxKeep: nat, keys: seq<Key>)
    | Delete(from: nat, pos: nat, key: Key)
    | Plain(event: Event)

  predicate PlainEvent(e: Event) {
    e.Send? || e.Take? || e.Acquire? || e.Begin? || e.Advance? || e.Release? || e.Shutdown? || e.Stop?
  }

  ghost function AppKeys(s: Pool, app: string): set<Key> {
    set k | k in s.records && RecordOf(s, app, k)
  }

  ghost function FailedKeys(s: Pool, app: string): set<Key> {
    set k | k in s.records && RecordOf(s, app, k) && s.jobs[s.records[k]].status in {Failed, Cancelled}
  }

  /** Only the newest `maxKeep` records stay; job objects are numbered in order of creation. */
  ghost predicate PruneDrops(s: Pool, app: string, maxKeep: nat, dropped: set<Key>) {
    && maxKeep > 0
    && dropped <= AppKeys(s, app)
    && (dropped == {} || |AppKeys(s, app) - dropped| == maxKeep)
    && forall k, d :: k in AppKeys(s, app) - dropped && d in dropped ==> s.records[d] < s.records[k]
  }

  /** Two events of one goroutine with nothing in between. */
  ghost predicate Then(keying: Keying, s: Pool, e: Event, f: Event, t: Pool) {
    Enabled(s, e) && Enabled(Next(keying, s, e), f) && t == Next(keying, Next(keying, s, e), f)
  }

  ghost predicate EnqueueStep(keying: Keying, s: Pool, c: nat, kind: Kind, app: string, id: string, persisted: bool, t: Pool) {
    && Enabled(s, Check(c, kind, app))
    && Then(keying, Next(keying, s, Check(c, kind, app)), Name(c, id), Insert(c, persisted), t)
  }

  /** The finer events that become possible when an assumption is dropped. */
  predicate Extra(m: Assumptions, e: Event) {
    || (!m.wholeEnqueue && (e.Check? || e.Name? || e.Insert?))
    || (!m.wholeFinish && (e.Settle? || e.Record?))
  }

  ghost predicate Lists(keys: seq<Key>, all: set<Key>) {
    && (forall k :: k in keys <==> k in all)
    && forall i, j :: 0 <= i < j < |keys| ==> keys[i] != keys[j]
  }

  ghost predicate ListsOld(s: Pool, app: string, maxKeep: nat, keys: seq<Key>) {
    exists dropped :: PruneDrops(s, app, maxKeep, dropped) && Lists(keys, dropped)
  }

  /** The list holds this key at this position. */
  predicate Listed(a: Action, pos: nat, key: Key) {
    (a.ListFailed? || a.ListOld?) && pos < |a.keys| && a.keys[pos] == key
  }

  /** A deletion comes after its listing, in list order, and once. */
  ghost predicate Follows(past: seq<Action>, a: Action) {
    a.Delete? ==>
      && a.from < |past| && Listed(past[a.from], a.pos, a.key)
      && a !in past
      && (a.pos > 0 ==> Delete(a.from, a.pos - 1, past[a.from].keys[a.pos - 1]) in past)
  }

  ghost predicate Acts(m: Assumptions, s: Pool, a: Action, t: Pool) {
    var keying := m.keying;
    match a
    case Enqueue(c, kind, app, id, persisted) => EnqueueStep(keying, s, c, kind, app, id, persisted, t)
    case Finish(w, st) => Then(keying, s, Settle(w, st), Record(w), t)
    case ClearFailed(app) => t == Next(keying, s, Drop(FailedKeys(s, app)))
    case Prune(app, maxKeep, dropped) => PruneDrops(s, app, maxKeep, dropped) && t == Next(keying, s, Drop(dropped))
    case ListFailed(app, keys) => !m.wholeClear && Lists(keys, FailedKeys(s, app)) && t == s
    case ListOld(app, maxKeep, keys) => !m.wholePrune && ListsOld(s, app, maxKeep, keys) && t == s
    case Delete(_, _, key) => !(m.wholeClear && m.wholePrune) && t == Next(keying, s, Drop({key}))
    case Plain(e) => (PlainEvent(e) || Extra(m, e)) && Enabled(s, e) && t == Next(keying, s, e)
  }

  ghost predicate IsActionRun(m: Assumptions, states: seq<Pool>, actions: seq<Action>) {
    && |states| == |actions| + 1
    && forall i :: 0 <= i < |actions| ==> Acts(m, states[i], actions[i], states[i + 1]) && Follows(actions[..i], actions[i])
  }

  /* ---- the invariant ---- */

  /** The job is in the map under its own key. */
  ghost predicate Filed(s: Pool, j: nat) {
    && j < |s.jobs|
    && KeyOf(PerApp, s.jobs[j].app, s.jobs[j].id) in s.records
    && s.records[KeyOf(PerApp, s.jobs[j].app, s.jobs[j].id)] == j
  }

  /** An active job is filed, and no record of its application is newer. */
  ghost predicate ActiveIsNewestFiled(s: Pool, j: nat)
    requires j < |s.jobs|
  {
    IsActive(s.jobs[j].status) ==> Filed(s, j) && forall k :: RecordOf(s, s.jobs[j].app, k) ==> s.records[k] <= j
  }

  ghost predicate Orderly(s: Pool) {
    && Inv(s)
    && SingleActive(s)
    && (forall j :: 0 <= j < |s.jobs| ==> ActiveIsNewestFiled(s, j))
    && (forall k :: k in s.records ==> s.records[k] < |s.jobs| && k == KeyOf(PerApp, s.jobs[s.records[k]].app, s.jobs[s.records[k]].id))
    && (forall w :: 0 <= w < |s.workers| ==> !s.workers[w].Settled?)
  }

  lemma InitiallyOrderly(s: Pool)
    requires Initial(s)
    ensures Orderly(s)
  {
    InitialInv(s);
  }

  /** Nothing about the job objects' identities changed, and no job became active. */
  ghost predicate Quieter(s: Pool, t: Pool) {
    && |t.jobs| == |s.jobs|
    && forall j :: 0 <= j < |s.jobs| ==>
         t.jobs[j].app == s.jobs[j].app && t.jobs[j].id == s.jobs[j].id
         && (IsActive(t.jobs[j].status) ==> IsActive(s.jobs[j].status))
  }

  lemma QuieterStaysOrderly(s: Pool, t: Pool)
    requires Orderly(s) && Inv(t) && Quieter(s, t) && t.records == s.records
    requires forall w :: 0 <= w < |t.workers| ==> !t.workers[w].Settled?
    ensures Orderly(t)
  {
    hide Inv;
    forall j | 0 <= j < |t.jobs| ensures ActiveIsNewestFiled(t, j) {
      assert ActiveIsNewestFiled(s, j);
      if IsActive(t.jobs[j].status) {
        forall k | RecordOf(t, t.jobs[j].app, k) ensures t.records[k] <= j {
          assert RecordOf(s, s.jobs[j].app, k);
        }
      }
    }
  }

  lemma FiledAgainIsNoChange(s: Pool, w: nat)
    requires Orderly(s) && w < |s.workers| && s.workers[w].Executing?
    ensures s.workers[w].job < |s.jobs|
    ensures var j := s.workers[w].job; s.records[KeyOf(PerApp, s.jobs[j].app, s.jobs[j].id) := j] == s.records
  {
    hide Conserved, LocksExact, StartsAccounted, KeyOf;
    assert StatusFits(s, s.workers[w]);
    assert ActiveIsNewestFiled(s, s.workers[w].job);
  }

  lemma PlainStaysOrderly(s: Pool, e: Event)
    requires Orderly(s) && PlainEvent(e) && Enabled(s, e)
    ensures Orderly(Next(PerApp, s, e))
  {
    hide Inv, KeyOf, Orderly;
    var t := Next(PerApp, s, e);
    OrderlyParts(s);
    StepKeepsInv(PerApp, s, e);
    if e.Begin? {
      FiledAgainIsNoChange(s, e.w);
    }
    PlainIsQuieter(s, e);
    QuieterStaysOrderly(s, t);
  }

  lemma OrderlyParts(s: Pool)
    requires Orderly(s)
    ensures Inv(s) && StatusesFit(s) && SingleActive(s) && forall w :: 0 <= w < |s.workers| ==> !s.workers[w].Settled?
  {
    hide Conserved, LocksExact, StartsAccounted, StatusesFit, SingleActive;
  }

  lemma PlainIsQuieter(s: Pool, e: Event)
    requires StatusesFit(s) && PlainEvent(e) && Enabled(s, e)
    ensures Quieter(s, Next(PerApp, s, e))
  {
    hide KeyOf;
    if e.Begin? || e.Advance? {
      assert StatusFits(s, s.workers[e.w]);
    }
  }

  lemma FinishStaysOrderly(s: Pool, w: nat, st: Status, t: Pool)
    requires Orderly(s) && Then(PerApp, s, Settle(w, st), Record(w), t)
    ensures Orderly(t)
  {
    hide Inv, KeyOf, Orderly;
    OrderlyParts(s);
    var m := Next(PerApp, s, Settle(w, st));
    StepKeepsInv(PerApp, s, Settle(w, st));
    StepKeepsInv(PerApp, m, Record(w));
    FiledAgainIsNoChange(s, w);
    assert t.records == s.records;
    QuieterStaysOrderly(s, t);
  }

  /** Dropping records of jobs that are not active. */
  lemma DropStaysOrderly(s: Pool, dropped: set<Key>)
    requires Orderly(s)
    requires forall k :: k in dropped && k in s.records && s.records[k] < |s.jobs| ==> !IsActive(s.jobs[s.records[k]].status)
    ensures Orderly(Next(PerApp, s, Drop(dropped)))
  {
    hide Inv, KeyOf;
    var t := Next(PerApp, s, Drop(dropped));
    StepKeepsInv(PerApp, s, Drop(dropped));
    forall j | 0 <= j < |t.jobs| ensures ActiveIsNewestFiled(t, j) {
      assert ActiveIsNewestFiled(s, j);
      if IsActive(t.jobs[j].status) {
        forall k | RecordOf(t, t.jobs[j].app, k) ensures t.records[k] <= j {
          assert RecordOf(s, s.jobs[j].app, k);
        }
      }
    }
  }

  /** A prune never drops the active record: it is the newest of its application. */
  lemma PruneSparesActive(s: Pool, app: string, maxKeep: nat, dropped: set<Key>)
    requires Orderly(s) && PruneDrops(s, app, maxKeep, dropped)
    ensures forall k :: k in dropped ==> k in s.records && s.records[k] < |s.jobs| && !IsActive(s.jobs[s.records[k]].status)
  {
    hide Inv, KeyOf;
    forall d | d in dropped ensures d in s.records && s.records[d] < |s.jobs| && !IsActive(s.jobs[s.records[d]].status) {
      assert d in AppKeys(s, app);
      var kept :| kept in AppKeys(s, app) - dropped;
      assert RecordOf(s, app, kept) && RecordOf(s, app, d);
      assert ActiveIsNewestFiled(s, s.records[d]);
    }
  }

  /** An enqueue that passes its check finds no active job of the application at all. */
  lemma CheckedMeansNoneActive(s: Pool, app: string)
    requires Orderly(s) && !HasActiveRecord(s, app)
    ensures forall j :: 0 <= j < |s.jobs| && s.jobs[j].app == app ==> !IsActive(s.jobs[j].status)
  {
    hide Inv, KeyOf;
    forall j | 0 <= j < |s.jobs| && s.jobs[j].app == app ensures !IsActive(s.jobs[j].status) {
      assert ActiveIsNewestFiled(s, j);
    }
  }

  lemma InsertedStaysOrderly(s: Pool, t: Pool, app: string, id: string)
    requires Orderly(s) && Inv(t) && !HasActiveRecord(s, app)
    requires t.jobs == s.jobs + [Job(app, id, Queued)]
    requires t.records == s.records[KeyOf(PerApp, app, id) := |s.jobs|]
    requires t.workers == s.workers
    ensures Orderly(t)
  {
    hide Inv;
    CheckedMeansNoneActive(s, app);
    forall j | 0 <= j < |t.jobs| ensures ActiveIsNewestFiled(t, j) {
      if j < |s.jobs| {
        assert ActiveIsNewestFiled(s, j);
        if IsActive(t.jobs[j].status) {
          forall k | RecordOf(t, t.jobs[j].app, k) ensures t.records[k] <= j {
            assert RecordOf(s, s.jobs[j].app, k);
          }
        }
      }
    }
  }

  lemma EnqueueStaysOrderly(s: Pool, a: Action, t: Pool)
    requires Orderly(s) && a.Enqueue? && Acts(ALL, s, a, t)
    ensures Orderly(t)
  {
    hide Inv, KeyOf, Orderly, IsNextID, HasActiveRecord;
    OrderlyParts(s);
    var s1 := Next(PerApp, s, Check(a.c, a.kind, a.app));
    var s2 := Next(PerApp, s1, Name(a.c, a.id));
    StepKeepsInv(PerApp, s, Check(a.c, a.kind, a.app));
    StepKeepsInv(PerApp, s1, Name(a.c, a.id));
    StepKeepsInv(PerApp, s2, Insert(a.c, a.persisted));
    if a.persisted {
      InsertedStaysOrderly(s, t, a.app, a.id);
    } else {
      QuieterStaysOrderly(s, t);
    }
  }

  lemma ActStaysOrderly(s: Pool, a: Action, t: Pool)
    requires Orderly(s) && Acts(ALL, s, a, t)
    ensures Orderly(t)
  {
    hide Orderly, Enabled, Next, Then, PruneDrops, EnqueueStep;
    match a
    case Enqueue(_, _, _, _, _) => EnqueueStaysOrderly(s, a, t);
    case Finish(w, st) => FinishStaysOrderly(s, w, st, t);
    case ClearFailed(app) => ClearStaysOrderly(s, app);
    case Prune(app, maxKeep, dropped) =>
      PruneSparesActive(s, app, maxKeep, dropped);
      DropStaysOrderly(s, dropped);
    case ListFailed(_, _) =>
    case ListOld(_, _, _) =>
    case Delete(_, _, _) =>
    case Plain(e) => PlainStaysOrderly(s, e);
  }

  lemma ClearStaysOrderly(s: Pool, app: string)
    requires Orderly(s)
    ensures Orderly(Next(PerApp, s, Drop(FailedKeys(s, app))))
  {
    hide Orderly;
    DropStaysOrderly(s, FailedKeys(s, app));
  }

  /** With these steps taken whole and records keyed by application and ID, no run of enqueues, job
      steps, prunes and clears ever has two active deployments of one application. */
  lemma {:induction false} NeverTwoActive(states: seq<Pool>, actions: seq<Action>, n: nat)
    requires IsActionRun(ALL, states, actions) && Initial(states[0]) && n <= |actions|
    ensures Orderly(states[n]) && SingleActive(states[n])
  {
    hide Orderly, Acts, Follows;
    if n == 0 {
      InitiallyOrderly(states[0]);
    } else {
      NeverTwoActive(states, actions, n - 1);
      ActStaysOrderly(states[n - 1], actions[n - 1], states[n]);
    }
    OrderlyParts(states[n]);
  }

  /* ---- each assumption is needed ---- */

  const FRESH := Pool([], map[], [], [Free], [Idle, Idle, Idle], {}, false, [], [], [])

  function FirstID(): string {
    Decimal.Format(Decimal.Increment(0), 4)
  }

  function SecondID(): string {
    Decimal.Format(Decimal.Increment(1), 4)
  }

  lemma FirstIDFree(s: Pool, app: string)
    requires forall k :: !RecordOf(s, app, k)
    ensures IsNextID(s, app, FirstID())
  {
    assert IsHighest(s, app, 0);
  }

  lemma SecondIDFree(s: Pool, app: string, k: Key)
    requires RecordOf(s, app, k) && s.jobs[s.records[k]].id == FirstID()
    requires forall l :: RecordOf(s, app, l) ==> l == k
    ensures IsNextID(s, app, SecondID())
  {
    Decimal.ScanUndoesFormat(1, 4);
    assert IsHighest(s, app, 1);
  }

  /** The actions lead from a fresh start to the state. */
  ghost predicate Leads(m: Assumptions, actions: seq<Action>, s: Pool) {
    exists states :: IsActionRun(m, states, actions) && Initial(states[0]) && states[|actions|] == s
  }

  lemma Start(m: Assumptions)
    ensures Leads(m, [], FRESH)
  {
    var actions: seq<Action> := [];
    assert IsActionRun(m, [FRESH], actions) && Initial([FRESH][0]) && [FRESH][|actions|] == FRESH;
  }

  lemma Then1(m: Assumptions, actions: seq<Action>, s: Pool, a: Action, t: Pool)
    requires Leads(m, actions, s) && Acts(m, s, a, t) && Follows(actions, a)
    ensures Leads(m, actions + [a], t)
  {
    hide Acts, Follows, Initial;
    var states :| IsActionRun(m, states, actions) && Initial(states[0]) && states[|actions|] == s;
    var states', actions' := states + [t], actions + [a];
    forall i | 0 <= i < |actions'|
      ensures Acts(m, states'[i], actions'[i], states'[i + 1]) && Follows(actions'[..i], actions'[i])
    {
      assert actions'[..i] == actions[..i];
      if i < |actions| {
        assert states'[i] == states[i] && states'[i + 1] == states[i + 1] && actions'[i] == actions[i];
      } else {
        assert actions[..i] == actions;
      }
    }
    assert IsActionRun(m, states', actions') && Initial(states'[0]) && states'[|actions'|] == t;
  }

  /** The same by single events. */
  lemma Step1(m: Assumptions, actions: seq<Action>, s: Pool, e: Event, t: Pool)
    requires Leads(m, actions, s) && (PlainEvent(e) || Extra(m, e))
    requires Enabled(s, e) && t == Next(m.keying, s, e)
    ensures Leads(m, actions + [Plain(e)], t)
  {
    hide Leads, Enabled, Next, PlainEvent, Extra;
    Then1(m, actions, s, Plain(e), t);
  }

  ghost predicate TwoActive(s: Pool, i: nat, j: nat) {
    i < j < |s.jobs| && s.jobs[i].app == s.jobs[j].app && IsActive(s.jobs[i].status) && IsActive(s.jobs[j].status)
  }

  ghost predicate Breaks(m: Assumptions, states: seq<Pool>, actions: seq<Action>) {
    IsActionRun(m, states, actions) && Initial(states[0]) && !SingleActive(states[|actions|])
  }

  lemma LeadsToBreak(m: Assumptions, actions: seq<Action>, s: Pool, i: nat, j: nat) returns (states: seq<Pool>)
    requires Leads(m, actions, s) && TwoActive(s, i, j)
    ensures Breaks(m, states, actions)
  {
    states :| IsActionRun(m, states, actions) && Initial(states[0]) && states[|actions|] == s;
  }

  ghost function Enqueued(keying: Keying, s: Pool, c: nat, app: string, id: string): Pool
    requires c < |s.callers|
  {
    DoInsert(keying, WorkerPool.WithCaller(s, c, Named(Deploy, app, id)), c, true)
  }

  lemma EnqueueNow(keying: Keying, s: Pool, c: nat, app: string, id: string)
    requires c < |s.callers| && s.callers[c].Idle? && !HasActiveRecord(s, app)
    requires IsNextID(s, app, id)
    ensures EnqueueStep(keying, s, c, Deploy, app, id, true, Enqueued(keying, s, c, app, id))
  {
    var s1 := Next(keying, s, Check(c, Deploy, app));
    assert IsNextID(s1, app, id) by {
      SameRecordsSameID(s, s1, app, id);
    }
    var s2 := Next(keying, s1, Name(c, id));
    assert s2 == WorkerPool.WithCaller(s, c, Named(Deploy, app, id));
  }

  lemma SameRecordsSameID(s: Pool, t: Pool, app: string, id: string)
    requires t.records == s.records && t.jobs == s.jobs && IsNextID(s, app, id)
    ensures IsNextID(t, app, id)
  {
    var m :| IsHighest(s, app, m) && id == Decimal.Format(Decimal.Increment(m), 4);
    assert forall k :: RecordOf(t, app, k) <==> RecordOf(s, app, k);
    assert IsHighest(t, app, m);
  }

  function EnqueueOf(c: nat, app: string, id: string): Action {
    Enqueue(c, Deploy, app, id, true)
  }

  lemma Enqueue1(m: Assumptions, actions: seq<Action>, s: Pool, c: nat, app: string, id: string)
    requires Leads(m, actions, s) && c < |s.callers| && s.callers[c].Idle?
    requires !HasActiveRecord(s, app) && IsNextID(s, app, id)
    ensures Leads(m, actions + [EnqueueOf(c, app, id)], Enqueued(m.keying, s, c, app, id))
  {
    hide Leads, EnqueueStep, HasActiveRecord, IsNextID, Enqueued;
    EnqueueNow(m.keying, s, c, app, id);
    Then1(m, actions, s, EnqueueOf(c, app, id), Enqueued(m.keying, s, c, app, id));
  }

  /** While no record of the application is left, two enqueues in a row both succeed if the first one's
      record is deleted in between. */
  lemma EnqueueInto(m: Assumptions, actions: seq<Action>, s: Pool, c: nat, app: string)
    requires Leads(m, actions, s) && c < |s.callers| && s.callers[c].Idle?
    requires forall k :: !RecordOf(s, app, k)
    ensures Leads(m, actions + [EnqueueOf(c, app, FirstID())], Enqueued(m.keying, s, c, app, FirstID()))
  {
    hide Leads, IsNextID, Enqueued;
    FirstIDFree(s, app);
    assert !HasActiveRecord(s, app) by {
      assert forall k :: k in s.records && s.records[k] < |s.jobs| && s.jobs[s.records[k]].app == app ==> RecordOf(s, app, k);
    }
    Enqueue1(m, actions, s, c, app, FirstID());
  }

  /* -- check and insert apart -- */

  /** Two callers both pass the check before either inserts. */
  lemma CheckThenInsertRaces(app: string) returns (states: seq<Pool>, actions: seq<Action>)
    ensures Breaks(ALL.(wholeEnqueue := false), states, actions)
  {
    hide IsNextID, Leads, Breaks;
    var m := ALL.(wholeEnqueue := false);
    actions := BothNamed(app);
    var named := FRESH.(callers := [Named(Deploy, app, FirstID()), Named(Deploy, app, FirstID()), Idle]);
    var one := Next(PerApp, named, Insert(0, true));
    Step1(m, actions, named, Insert(0, true), one);
    actions := actions + [Plain(Insert(0, true))];
    var two := Next(PerApp, one, Insert(1, true));
    Step1(m, actions, one, Insert(1, true), two);
    actions := actions + [Plain(Insert(1, true))];
    assert TwoActive(two, 0, 1);
    states := LeadsToBreak(m, actions, two, 0, 1);
  }

  lemma BothNamed(app: string) returns (actions: seq<Action>)
    ensures Leads(ALL.(wholeEnqueue := false), actions, FRESH.(callers := [Named(Deploy, app, FirstID()), Named(Deploy, app, FirstID()), Idle]))
  {
    hide IsNextID, Leads;
    var m := ALL.(wholeEnqueue := false);
    var id := FirstID();
    var s1 := FRESH.(callers := [Checked(Deploy, app), Idle, Idle]);
    var s2 := FRESH.(callers := [Checked(Deploy, app), Checked(Deploy, app), Idle]);
    var s3 := FRESH.(callers := [Named(Deploy, app, id), Checked(Deploy, app), Idle]);
    var s4 := FRESH.(callers := [Named(Deploy, app, id), Named(Deploy, app, id), Idle]);
    FirstIDFree(s2, app);
    FirstIDFree(s3, app);
    Start(m);
    Step1(m, [], FRESH, Check(0, Deploy, app), s1);
    actions := [] + [Plain(Check(0, Deploy, app))];
    Step1(m, actions, s1, Check(1, Deploy, app), s2);
    actions := actions + [Plain(Check(1, Deploy, app))];
    Step1(m, actions, s2, Name(0, id), s3);
    actions := actions + [Plain(Name(0, id))];
    Step1(m, actions, s3, Name(1, id), s4);
    actions := actions + [Plain(Name(1, id))];
  }

  /* -- keys by ID alone -- */

  /** Another application's first deployment takes the map entry of the first one, whose application
      then looks idle; no race is involved. */
  lemma SharedKeysHideActive(app: string, other: string) returns (states: seq<Pool>, actions: seq<Action>)
    requires app != other
    ensures Breaks(ALL.(keying := IdOnly), states, actions)
  {
    hide IsNextID, Leads, Breaks;
    var m, id := ALL.(keying := IdOnly), FirstID();
    Start(m);
    EnqueueInto(m, [], FRESH, 0, app);
    var s1 := Enqueued(IdOnly, FRESH, 0, app, id);
    actions := [] + [EnqueueOf(0, app, id)];
    EnqueueInto(m, actions, s1, 1, other);
    var s2 := Enqueued(IdOnly, s1, 1, other, id);
    actions := actions + [EnqueueOf(1, other, id)];
    assert s2.records == map[Key("", id) := 1];
    EnqueueInto(m, actions, s2, 2, app);
    var s3 := Enqueued(IdOnly, s2, 2, app, id);
    actions := actions + [EnqueueOf(2, app, id)];
    assert s3.jobs == [Job(app, id, Queued), Job(other, id, Queued), Job(app, id, Queued)];
    assert TwoActive(s3, 0, 2);
    states := LeadsToBreak(m, actions, s3, 0, 2);
  }

  /* -- one job up to its end -- */

  /** The state with one more job that its only worker executes. */
  ghost function OneMoreRunning(s: Pool, app: string, id: string): Pool {
    var j := |s.jobs|;
    s.(jobs := s.jobs + [Job(app, id, Queued)], records := s.records[Key(app, id) := j],
       workers := [Executing(j)], held := {app}, started := s.started + [j])
  }

  ghost predicate AtRest(s: Pool) {
    s.workers == [Free] && s.callers == [Idle, Idle, Idle] && s.queue == [] && s.held == {}
  }

  ghost predicate NoDeletes(actions: seq<Action>) {
    forall a :: a in actions ==> !a.Delete?
  }

  lemma RunOne(m: Assumptions, actions: seq<Action>, s: Pool, app: string, id: string) returns (more: seq<Action>)
    requires m.keying == PerApp && Leads(m, actions, s) && AtRest(s)
    requires !HasActiveRecord(s, app) && IsNextID(s, app, id)
    ensures Leads(m, more, OneMoreRunning(s, app, id)) && (NoDeletes(actions) ==> NoDeletes(more))
  {
    hide IsNextID, Leads, HasActiveRecord;
    var j := |s.jobs|;
    Enqueue1(m, actions, s, 0, app, id);
    var s1 := Enqueued(PerApp, s, 0, app, id);
    more := actions + [EnqueueOf(0, app, id)];
    var s2 := s1.(queue := [j], callers := [Idle, Idle, Idle]);
    Step1(m, more, s1, Send(0), s2);
    more := more + [Plain(Send(0))];
    var s3 := s2.(queue := [], workers := [Waiting(j)]);
    Step1(m, more, s2, Take(0), s3);
    more := more + [Plain(Take(0))];
    Step1(m, more, s3, Acquire(0), OneMoreRunning(s, app, id));
    more := more + [Plain(Acquire(0))];
  }

  /** The state with one more job that has failed, all workers at rest again. */
  ghost function OneMoreFailed(s: Pool, app: string, id: string): Pool {
    var j := |s.jobs|;
    s.(jobs := s.jobs + [Job(app, id, Failed)], records := s.records[Key(app, id) := j],
       started := s.started + [j], ran := s.ran + [j])
  }

  lemma FailOne(m: Assumptions, actions: seq<Action>, s: Pool, app: string, id: string) returns (more: seq<Action>)
    requires m.keying == PerApp && Leads(m, actions, s) && AtRest(s)
    requires !HasActiveRecord(s, app) && IsNextID(s, app, id)
    ensures Leads(m, more, OneMoreFailed(s, app, id)) && AtRest(OneMoreFailed(s, app, id))
    ensures NoDeletes(actions) ==> NoDeletes(more)
  {
    hide IsNextID, Leads, HasActiveRecord;
    more := RunOne(m, actions, s, app, id);
    var j, s1 := |s.jobs|, OneMoreRunning(s, app, id);
    var s2 := s1.(jobs := s.jobs + [Job(app, id, Failed)], workers := [Recorded(j)]);
    assert Then(PerApp, s1, Settle(0, Failed), Record(0), s2) by {
      var mid := Next(PerApp, s1, Settle(0, Failed));
      assert mid.jobs == s2.jobs;
      assert Next(PerApp, mid, Record(0)).records == s2.records;
    }
    Then1(m, more, s1, Finish(0, Failed), s2);
    more := more + [Finish(0, Failed)];
    Step1(m, more, s2, Release(0), OneMoreFailed(s, app, id));
    more := more + [Plain(Release(0))];
  }

  lemma FailFirst(m: Assumptions, app: string) returns (actions: seq<Action>)
    requires m.keying == PerApp
    ensures Leads(m, actions, OneMoreFailed(FRESH, app, FirstID())) && AtRest(OneMoreFailed(FRESH, app, FirstID()))
    ensures NoDeletes(actions)
  {
    hide Leads;
    Start(m);
    FirstIDFree(FRESH, app);
    actions := FailOne(m, [], FRESH, app, FirstID());
  }

  /** Everything on record for the application has failed, so clearing removes it all. */
  lemma ClearAll(m: Assumptions, actions: seq<Action>, s: Pool, app: string)
    requires Leads(m, actions, s)
    requires forall k :: k in s.records ==> RecordOf(s, app, k) && s.jobs[s.records[k]].status == Failed
    ensures Leads(m, actions + [ClearFailed(app)], s.(records := map[]))
  {
    hide Leads;
    assert FailedKeys(s, app) == s.records.Keys;
    assert s.records - s.records.Keys == map[];
    Then1(m, actions, s, ClearFailed(app), s.(records := map[]));
  }

  /** A deletion that is still due removes the record of a new deployment with the same ID. */
  lemma LateDelete(m: Assumptions, actions: seq<Action>, s: Pool, from: nat, app: string) returns (more: seq<Action>, t: Pool)
    requires m.keying == PerApp && Leads(m, actions, s) && AtRest(s) && s.records == map[]
    requires !(m.wholeClear && m.wholePrune)
    requires from < |actions| && Listed(actions[from], 0, Key(app, FirstID()))
    requires NoDeletes(actions)
    ensures Leads(m, more, t) && TwoActive(t, |s.jobs|, |s.jobs| + 1)
  {
    hide Leads, IsNextID;
    var k, n := Key(app, FirstID()), |s.jobs|;
    EnqueueInto(m, actions, s, 0, app);
    var s1 := Enqueued(PerApp, s, 0, app, FirstID());
    more := actions + [EnqueueOf(0, app, FirstID())];
    var s2 := s1.(records := map[]);
    assert s1.records == map[k := n];
    assert s1.records - {k} == map[];
    Then1(m, more, s1, Delete(from, 0, k), s2);
    more := more + [Delete(from, 0, k)];
    EnqueueInto(m, more, s2, 1, app);
    t := Enqueued(PerApp, s2, 1, app, FirstID());
    more := more + [EnqueueOf(1, app, FirstID())];
  }

  /* -- status and record apart -- */

  /** The failed job's record is cleared before the worker writes it again; meanwhile the freed ID has
      been given to a new deployment, whose record that write replaces. */
  lemma SettleThenRecordRaces(app: string) returns (states: seq<Pool>, actions: seq<Action>)
    ensures Breaks(ALL.(wholeFinish := false), states, actions)
  {
    hide IsNextID, Leads, Breaks;
    var m, k := ALL.(wholeFinish := false), Key(app, FirstID());
    Start(m);
    FirstIDFree(FRESH, app);
    actions := RunOne(m, [], FRESH, app, FirstID());
    var s1 := OneMoreRunning(FRESH, app, FirstID());
    var s2 := s1.(jobs := [Job(app, FirstID(), Failed)], workers := [Settled(0)]);
    Step1(m, actions, s1, Settle(0, Failed), s2);
    actions := actions + [Plain(Settle(0, Failed))];
    ClearAll(m, actions, s2, app);
    var s3 := s2.(records := map[]);
    actions := actions + [ClearFailed(app)];
    EnqueueInto(m, actions, s3, 1, app);
    var s4 := Enqueued(PerApp, s3, 1, app, FirstID());
    actions := actions + [EnqueueOf(1, app, FirstID())];
    var s5 := s4.(records := map[k := 0], workers := [Recorded(0)]);
    assert s4.records == map[k := 1];
    Step1(m, actions, s4, Record(0), s5);
    actions := actions + [Plain(Record(0))];
    SecondIDFree(s5, app, k);
    Enqueue1(m, actions, s5, 2, app, SecondID());
    var s6 := Enqueued(PerApp, s5, 2, app, SecondID());
    actions := actions + [EnqueueOf(2, app, SecondID())];
    assert TwoActive(s6, 1, 2);
    states := LeadsToBreak(m, actions, s6, 1, 2);
  }

  /* -- listing and deleting apart -- */

  /** One clear lists the failed record; another removes it; the freed ID goes to a new deployment, whose
      record the first clear then deletes. */
  lemma ClearListsThenDeletes(app: string) returns (states: seq<Pool>, actions: seq<Action>)
    ensures Breaks(ALL.(wholeClear := false), states, actions)
  {
    hide IsNextID, Leads, Breaks, OneMoreFailed;
    var m, k := ALL.(wholeClear := false), Key(app, FirstID());
    actions := FailFirst(m, app);
    var s := OneMoreFailed(FRESH, app, FirstID());
    OneFailedRecord(s, app);
    Then1(m, actions, s, ListFailed(app, [k]), s);
    states, actions := DeleteLater(m, actions, s, ListFailed(app, [k]), app);
  }

  lemma OneFailedRecord(s: Pool, app: string)
    requires s == OneMoreFailed(FRESH, app, FirstID())
    ensures FailedKeys(s, app) == {Key(app, FirstID())} && RecordOf(s, app, Key(app, FirstID()))
    ensures s.records == map[Key(app, FirstID()) := 0] && s.jobs == [Job(app, FirstID(), Failed)]
  {
    assert RecordOf(s, app, Key(app, FirstID()));
  }

  /** A prune lists the older of two failed records; a clear removes both; the rest is the same. */
  lemma PruneListsThenDeletes(app: string) returns (states: seq<Pool>, actions: seq<Action>)
    ensures Breaks(ALL.(wholePrune := false), states, actions)
  {
    hide IsNextID, Leads, Breaks, OneMoreFailed;
    var m, k := ALL.(wholePrune := false), Key(app, FirstID());
    actions := FailFirst(m, app);
    var s := OneMoreFailed(FRESH, app, FirstID());
    OneFailedRecord(s, app);
    SecondIDFree(s, app, k);
    actions := FailOne(m, actions, s, app, SecondID());
    var t := OneMoreFailed(s, app, SecondID());
    TwoFailedRecords(s, t, app);
    Then1(m, actions, t, ListOld(app, 1, [k]), t);
    states, actions := DeleteLater(m, actions, t, ListOld(app, 1, [k]), app);
  }

  lemma TwoFailedRecords(s: Pool, t: Pool, app: string)
    requires s == OneMoreFailed(FRESH, app, FirstID()) && t == OneMoreFailed(s, app, SecondID())
    ensures ListsOld(t, app, 1, [Key(app, FirstID())])
    ensures forall k :: k in t.records ==> RecordOf(t, app, k) && t.jobs[t.records[k]].status == Failed
  {
    var k1, k2 := Key(app, FirstID()), Key(app, SecondID());
    Decimal.ScanUndoesFormat(1, 4);
    Decimal.ScanUndoesFormat(2, 4);
    assert k1 != k2;
    assert t.records == map[k1 := 0, k2 := 1] && t.jobs == [Job(app, FirstID(), Failed), Job(app, SecondID(), Failed)];
    assert RecordOf(t, app, k1) && RecordOf(t, app, k2);
    assert AppKeys(t, app) == {k1, k2};
    assert AppKeys(t, app) - {k1} == {k2};
    assert PruneDrops(t, app, 1, {k1}) && Lists([k1], {k1});
  }

  /** After the listing: clear, enqueue, delete, enqueue. */
  lemma DeleteLater(m: Assumptions, before: seq<Action>, s: Pool, listing: Action, app: string)
      returns (states: seq<Pool>, actions: seq<Action>)
    requires m.keying == PerApp && !(m.wholeClear && m.wholePrune)
    requires Leads(m, before + [listing], s) && AtRest(s) && Listed(listing, 0, Key(app, FirstID()))
    requires NoDeletes(before)
    requires forall k :: k in s.records ==> RecordOf(s, app, k) && s.jobs[s.records[k]].status == Failed
    ensures Breaks(m, states, actions)
  {
    hide Leads, Breaks;
    ClearAll(m, before + [listing], s, app);
    var t := s.(records := map[]);
    actions := before + [listing] + [ClearFailed(app)];
    assert actions[|before|] == listing;
    var u;
    actions, u := LateDelete(m, actions, t, |before|, app);
    states := LeadsToBreak(m, actions, u, |s.jobs|, |s.jobs| + 1);
  }

  /* -- all together -- */

  /** The same keys, and no step taken whole that is not taken whole in `w`. */
  predicate Weaker(m: Assumptions, w: Assumptions) {
    && m.keying == w.keying
    && (m.wholeEnqueue ==> w.wholeEnqueue) && (m.wholeFinish ==> w.wholeFinish)
    && (m.wholeClear ==> w.wholeClear) && (m.wholePrune ==> w.wholePrune)
  }

  /** Dropping assumptions only adds runs. */
  lemma BreaksMonotone(w: Assumptions, m: Assumptions, states: seq<Pool>, actions: seq<Action>)
    requires Weaker(m, w) && Breaks(w, states, actions)
    ensures Breaks(m, states, actions)
  {
    hide Initial, SingleActive, Follows, Acts;
    forall i | 0 <= i < |actions| ensures Acts(m, states[i], actions[i], states[i + 1]) {
      ActsMonotone(w, m, states[i], actions[i], states[i + 1]);
    }
  }

  lemma ActsMonotone(w: Assumptions, m: Assumptions, s: Pool, a: Action, t: Pool)
    requires Weaker(m, w) && Acts(w, s, a, t)
    ensures Acts(m, s, a, t)
  {
    hide Enabled, Next, EnqueueStep, Then, PruneDrops, ListsOld, Lists, FailedKeys;
  }

  ghost predicate AlwaysSingle(m: Assumptions) {
    forall states, actions :: !Breaks(m, states, actions)
  }

  /** Every run has at most one active deployment per application if and only if all five hold. */
  lemma SingleActiveIffAll(m: Assumptions)
    ensures AlwaysSingle(m) <==> m == ALL
  {
    hide Breaks, Weaker;
    if m == ALL {
      forall states, actions ensures !Breaks(m, states, actions) {
        AllNeverBreaks(states, actions);
      }
    } else {
      var w, states, actions := SomeBreak(m);
      BreaksMonotone(w, m, states, actions);
    }
  }

  lemma AllNeverBreaks(states: seq<Pool>, actions: seq<Action>)
    ensures !Breaks(ALL, states, actions)
  {
    hide IsActionRun, Initial, SingleActive, Orderly;
    if Breaks(ALL, states, actions) {
      NeverTwoActive(states, actions, |actions|);
    }
  }

  lemma SomeBreak(m: Assumptions) returns (w: Assumptions, states: seq<Pool>, actions: seq<Action>)
    requires m != ALL
    ensures Weaker(m, w) && Breaks(w, states, actions)
  {
    hide Breaks;
    if m.keying == IdOnly {
      w := ALL.(keying := IdOnly);
      states, actions := SharedKeysHideActive("shop", "mail");
    } else if !m.wholeEnqueue {
      w := ALL.(wholeEnqueue := false);
      states, actions := CheckThenInsertRaces("shop");
    } else if !m.wholeFinish {
      w := ALL.(wholeFinish := false);
      states, actions := SettleThenRecordRaces("shop");
    } else if !m.wholeClear {
      w := ALL.(wholeClear := false);
      states, actions := ClearListsThenDeletes("shop");
    } else {
      w := ALL.(wholePrune := false);
      states, actions := PruneListsThenDeletes("shop");
    }
  }
}
