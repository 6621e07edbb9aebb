/** The deployment service as a transition system: concurrent callers, a bounded queue, N workers,
    per-application locks and the deployment map. One event is one lock section, channel operation or
    field write of the service, except that `Begin` joins the write of the status with that of the record:
    both statuses around it are active, and the record is the same object. Events interleave arbitrarily. */
module WorkerPool {
  import opened DeploymentStatus
  import opened Bags
  import Decimal

  const QUEUE_CAPACITY := 64

  /** A deployment object; `status` is shared by everybody who holds a pointer to it. */
  datatype Job = Job(app: string, id: string, status: Status)

  datatype Kind = Deploy | Rollback

  /** Where one Enqueue or EnqueueRollback call has got to. */
  datatype Caller =
    | Idle
    | Checked(kind: Kind, app: string)
    | Named(kind: Kind, app: string, id: string)
    | Inserted(kind: Kind, job: nat)

  /** Where one worker goroutine has got to in `runJob`. `Settled` has assigned a terminal status,
      `Recorded` has also written it to the map; both still hold the application's lock. */
  datatype Worker =
    | Free
    | Stopped
    | Waiting(job: nat)
    | Executing(job: nat)
    | Settled(job: nat)
    | Recorded(job: nat)

  /** Map keys. The service uses the deployment ID alone; `PerApp` is the repaired key. */
  datatype Keying = IdOnly | PerApp

  datatype Key = Key(app: string, id: string)

  datatype Pool = Pool(
    jobs: seq<Job>,
    records: map<Key, nat>,
    queue: seq<nat>,
    workers: seq<Worker>,
    callers: seq<Caller>,
    held: set<string>,
    shutdown: bool,
    started: seq<nat>,
    ran: seq<nat>,
    refused: seq<nat>)

  datatype Event =
    | Check(c: nat, kind: Kind, app: string)
    | Name(c: nat, id: string)
    | Insert(c: nat, persisted: bool)
    | Send(c: nat)
    | Take(w: nat)
    | Acquire(w: nat)
    | Begin(w: nat)
    | Advance(w: nat, status: Status)
    | Settle(w: nat, status: Status)
    | Record(w: nat)
    | Release(w: nat)
    | Drop(keys: set<Key>)
    | Shutdown
    | Stop(w: nat)

  function KeyOf(keying: Keying, app: string, id: string): Key {
    if keying == PerApp then Key(app, id) else Key("", id)
  }

  ghost predicate Initial(s: Pool) {
    && s.jobs == [] && s.records == map[] && s.queue == [] && s.held == {} && !s.shutdown
    && s.started == [] && s.ran == [] && s.refused == []
    && (forall i :: 0 <= i < |s.workers| ==> s.workers[i] == Free)
    && (forall i :: 0 <= i < |s.callers| ==> s.callers[i] == Idle)
  }

  /* ---- guards ---- */

  /** Some record in the map is an active deployment of the application. */
  predicate HasActiveRecord(s: Pool, app: string) {
    exists k :: k in s.records && s.records[k] < |s.jobs|
      && s.jobs[s.records[k]].app == app && IsActive(s.jobs[s.records[k]].status)
  }

  ghost predicate RecordOf(s: Pool, app: string, k: Key) {
    k in s.records && s.records[k] < |s.jobs| && s.jobs[s.records[k]].app == app
  }

  /** One more than the largest number among the application's records, printed four digits wide. */
  ghost predicate IsNextID(s: Pool, app: string, id: string) {
    exists m :: IsHighest(s, app, m) && id == Decimal.Format(Decimal.Increment(m), 4)
  }

  ghost predicate IsHighest(s: Pool, app: string, m: int) {
    && m >= 0
    && (forall k :: RecordOf(s, app, k) ==> Decimal.Scan(s.jobs[s.records[k]].id) <= m)
    && (m == 0 || exists k :: RecordOf(s, app, k) && Decimal.Scan(s.jobs[s.records[k]].id) == m)
  }

  predicate Pipeline(st: Status) {
    st in {Building, Starting, HealthCheck, Routing}
  }

  function Holds(w: Worker): multiset<nat> {
    if w.Free? || w.Stopped? then multiset{} else multiset{w.job}
  }

  predicate IsBusy(w: Worker) {
    w.Executing? || w.Settled? || w.Recorded?
  }

  /** A job that has been taken refers to an existing object. */
  predicate Known(s: Pool, w: nat) {
    && w < |s.workers|
    && (s.workers[w].Waiting? || IsBusy(s.workers[w]))
    && s.workers[w].job < |s.jobs|
  }

  ghost predicate Enabled(s: Pool, e: Event) {
    match e
    case Check(c, _, app) => c < |s.callers| && s.callers[c].Idle? && !HasActiveRecord(s, app)
    case Name(c, id) => c < |s.callers| && s.callers[c].Checked? && IsNextID(s, s.callers[c].app, id)
    case Insert(c, _) => c < |s.callers| && s.callers[c].Named?
    case Send(c) =>
      && c < |s.callers| && s.callers[c].Inserted? && s.callers[c].job < |s.jobs|
      // a deploy falls through when the queue is full; a rollback blocks
      && (s.callers[c].kind == Rollback ==> |s.queue| < QUEUE_CAPACITY)
    case Take(w) => w < |s.workers| && s.workers[w].Free? && s.queue != []
    case Acquire(w) => Known(s, w) && s.workers[w].Waiting? && s.jobs[s.workers[w].job].app !in s.held
    case Begin(w) => Known(s, w) && s.workers[w].Executing? && s.jobs[s.workers[w].job].status == Queued
    case Advance(w, st) =>
      && Known(s, w) && s.workers[w].Executing?
      && Pipeline(st) && 1 <= Rank(s.jobs[s.workers[w].job].status) < Rank(st)
    case Settle(w, st) => Known(s, w) && s.workers[w].Executing? && IsTerminal(st)
    case Record(w) => Known(s, w) && s.workers[w].Settled?
    case Release(w) => Known(s, w) && s.workers[w].Recorded?
    case Drop(_) => true
    case Shutdown => !s.shutdown
    case Stop(w) => w < |s.workers| && s.workers[w].Free? && s.shutdown
  }

  /* ---- effects ---- */

  function WithCaller(s: Pool, c: nat, x: Caller): Pool
    requires c < |s.callers|
  {
    s.(callers := s.callers[c := x])
  }

  function WithWorker(s: Pool, w: nat, x: Worker): Pool
    requires w < |s.workers|
  {
    s.(workers := s.workers[w := x])
  }

  function WithStatus(s: Pool, j: nat, st: Status): Pool
    requires j < |s.jobs|
  {
    s.(jobs := s.jobs[j := s.jobs[j].(status := st)])
  }

  /** `deployments[dep.ID] = dep`. */
  function Filed(keying: Keying, s: Pool, j: nat): Pool
    requires j < |s.jobs|
  {
    s.(records := s.records[KeyOf(keying, s.jobs[j].app, s.jobs[j].id) := j])
  }

  function DoInsert(keying: Keying, s: Pool, c: nat, persisted: bool): Pool
    requires c < |s.callers| && s.callers[c].Named?
  {
    if !persisted then WithCaller(s, c, Idle)
    else
      var j := |s.jobs|;
      var t := s.(jobs := s.jobs + [Job(s.callers[c].app, s.callers[c].id, Queued)]);
      WithCaller(Filed(keying, t, j), c, Inserted(s.callers[c].kind, j))
  }

  function DoSend(s: Pool, c: nat): Pool
    requires c < |s.callers| && s.callers[c].Inserted? && s.callers[c].job < |s.jobs|
  {
    var j := s.callers[c].job;
    if |s.queue| < QUEUE_CAPACITY then WithCaller(s.(queue := s.queue + [j]), c, Idle)
    else WithCaller(WithStatus(s, j, Failed).(refused := s.refused + [j]), c, Idle)
  }

  ghost function Next(keying: Keying, s: Pool, e: Event): Pool
    requires Enabled(s, e)
  {
    match e
    case Check(c, kind, app) => WithCaller(s, c, Checked(kind, app))
    case Name(c, id) => WithCaller(s, c, Named(s.callers[c].kind, s.callers[c].app, id))
    case Insert(c, persisted) => DoInsert(keying, s, c, persisted)
    case Send(c) => DoSend(s, c)
    case Take(w) => WithWorker(s.(queue := s.queue[1..]), w, Waiting(s.queue[0]))
    case Acquire(w) =>
      var j := s.workers[w].job;
      WithWorker(s.(held := s.held + {s.jobs[j].app}, started := s.started + [j]), w, Executing(j))
    case Begin(w) => Filed(keying, WithStatus(s, s.workers[w].job, Preparing), s.workers[w].job)
    case Advance(w, st) => WithStatus(s, s.workers[w].job, st)
    case Settle(w, st) => WithWorker(WithStatus(s, s.workers[w].job, st), w, Settled(s.workers[w].job))
    case Record(w) => WithWorker(Filed(keying, s, s.workers[w].job), w, Recorded(s.workers[w].job))
    case Release(w) =>
      var j := s.workers[w].job;
      WithWorker(s.(held := s.held - {s.jobs[j].app}, ran := s.ran + [j]), w, Free)
    case Drop(keys) => s.(records := s.records - keys)
    case Shutdown => s.(shutdown := true)
    case Stop(w) => WithWorker(s, w, Stopped)
  }

  /** The states a sequence of events passes through. */
  ghost predicate IsRun(keying: Keying, states: seq<Pool>, events: seq<Event>) {
    && |states| == |events| + 1
    && forall i :: 0 <= i < |events| ==> Enabled(states[i], events[i]) && states[i + 1] == Next(keying, states[i], events[i])
  }
}
