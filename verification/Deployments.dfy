/** The deployment object that one run mutates, and the health check's polling loop. */
module Deployments {
  import opened DeploymentStatus
  import opened Options

  /** `history` records every status the object has had, for whoever polls it. */
  class Deployment {
    const id: string
    const appID: string
    const rollbackTo: string
    var status: Status
    var stage: string
    var error: string
    var startedAt: Option<int>
    var finishedAt: Option<int>
    var imageID: string
    var containerID: string
    var oldContainerID: string
    ghost var history: seq<Status>

    /** The object is what a poller last saw; a terminal status has a finishing time. */
    ghost predicate Valid()
      reads this
    {
      && history != [] && history[|history| - 1] == status
      && (IsTerminal(status) ==> finishedAt.Some?)
    }

    constructor (id: string, appID: string, rollbackTo: string)
      ensures Valid() && history == [Queued] && status == Queued
      ensures this.id == id && this.appID == appID && this.rollbackTo == rollbackTo
    {
      this.id, this.appID, this.rollbackTo := id, appID, rollbackTo;
      status, stage, error := Queued, "", "";
      startedAt, finishedAt := None, None;
      imageID, containerID, oldContainerID := "", "", "";
      history := [Queued];
    }

    /** Moves along a declared edge, or reports an error and stays. */
    method Transition(next: Status) returns (ok: bool)
      requires Valid() && !IsTerminal(next)
      modifies this`status, this`history
      ensures Valid()
      ensures ok <==> ValidTransition(old(status), next)
      ensures history == if ok then old(history) + [next] else old(history)
    {
      ok := ValidTransition(status, next);
      if ok {
        status := next;
        history := history + [next];
      }
    }

    method Start(now: int)
      requires Valid()
      modifies this`startedAt
      ensures startedAt == Some(now)
    {
      startedAt := Some(now);
    }

    /** `dep.Status = ...`, the assignments that go around the graph. */
    method Assign(next: Status)
      requires Valid() && !IsTerminal(next)
      modifies this`status, this`history
      ensures Valid() && history == old(history) + [next]
    {
      status := next;
      history := history + [next];
    }

    method Fail(stage: string, error: string, now: int)
      requires Valid()
      modifies this`status, this`stage, this`error, this`finishedAt, this`history
      ensures Valid() && history == old(history) + [Failed] && finishedAt == Some(now) && this.error == error
    {
      this.stage, this.error := stage, error;
      status, finishedAt := Failed, Some(now);
      history := history + [Failed];
    }

    method Cancel(now: int)
      requires Valid()
      modifies this`status, this`finishedAt, this`history
      ensures Valid() && history == old(history) + [Cancelled] && finishedAt == Some(now)
    {
      status, finishedAt := Cancelled, Some(now);
      history := history + [Cancelled];
    }

    method Succeed(now: int)
      requires Valid()
      modifies this`status, this`stage, this`finishedAt, this`history
      ensures Valid() && history == old(history) + [Success] && finishedAt == Some(now)
    {
      stage := "";
      status, finishedAt := Success, Some(now);
      history := history + [Success];
    }
  }

  /* ---- the health check ---- */

  /** What one tick of the poller sees: the context is done, the inspection fails, or a container report
      with the answer its HTTP health URL would give. */
  datatype Tick =
    | ContextDone
    | InspectError
    | Report(state: string, health: string, ip: string, httpOk: bool)

  datatype Verdict = Pass | Fail | Wait

  /** What a tick decides for an application with this health path and port. */
  function Judge(t: Tick, healthPath: string, port: int): Verdict {
    match t
    case ContextDone => Fail
    case InspectError => Fail
    case Report(state, health, ip, httpOk) =>
      if state == "exited" || state == "dead" then Fail
      else if state != "running" then Wait
      else if health == "healthy" then Pass
      else if health == "unhealthy" then Fail
      else if healthPath != "" then (if port > 0 && ip != "" && httpOk then Pass else Wait)
      else if health == "" then Pass
      else Wait
  }

  /** A tick passes exactly when the container runs, is not reported unhealthy, and is reported healthy, or
      answers its own health URL, or has no check of either kind. It fails exactly when the check is called
      off, the inspection fails, the container has ended, or runs and is reported unhealthy. */
  lemma JudgeIff(t: Tick, healthPath: string, port: int)
    ensures Judge(t, healthPath, port) == Pass <==>
              && t.Report? && t.state == "running" && t.health != "unhealthy"
              && (|| t.health == "healthy"
                  || (healthPath != "" && port > 0 && t.ip != "" && t.httpOk)
                  || (healthPath == "" && t.health == ""))
    ensures Judge(t, healthPath, port) == Fail <==>
              t.Report? ==> t.state in {"exited", "dead"} || (t.state == "running" && t.health == "unhealthy")
  {
  }

  /** The first tick that decides anything is a pass. `ticks` are those before the deadline. */
  ghost predicate BecomesHealthy(ticks: seq<Tick>, healthPath: string, port: int) {
    exists k :: 0 <= k < |ticks| && Judge(ticks[k], healthPath, port) == Pass
      && forall j :: 0 <= j < k ==> Judge(ticks[j], healthPath, port) == Wait
  }

  /** Polls until a tick decides; when the ticks before the deadline are used up it times out. */
  method WaitForHealth(ticks: seq<Tick>, healthPath: string, port: int) returns (ok: bool)
    ensures ok <==> BecomesHealthy(ticks, healthPath, port)
  {
    for i := 0 to |ticks|
      invariant forall j :: 0 <= j < i ==> Judge(ticks[j], healthPath, port) == Wait
    {
      var t := ticks[i];
      if t.ContextDone? || t.InspectError? {
        return false;
      }
      if t.state == "exited" || t.state == "dead" {
        return false;
      }
      if t.state == "running" {
        if t.health == "healthy" {
          return true;
        }
        if t.health == "unhealthy" {
          return false;
        }
        if healthPath != "" && port > 0 && t.ip != "" {
          if t.httpOk {
            return true;
          }
          continue;
        }
        if t.health == "" && healthPath == "" {
          return true;
        }
      }
    }
    return false;
  }

  /** When a container passes, it does so at some tick on its own merits, and up to that tick nothing has
      gone wrong and nothing has passed. */
  lemma PassMeans(ticks: seq<Tick>, healthPath: string, port: int) returns (k: nat)
    requires BecomesHealthy(ticks, healthPath, port)
    ensures k < |ticks|
    ensures var t := ticks[k];
      && t.Report? && t.state == "running"
      && (|| t.health == "healthy"
          || (healthPath != "" && port > 0 && t.ip != "" && t.httpOk)
          || (healthPath == "" && t.health == ""))
    ensures forall j :: 0 <= j <= k ==>
              var t := ticks[j];
              t.Report? && t.state != "exited" && t.state != "dead" && (t.state == "running" ==> t.health != "unhealthy")
    ensures forall j :: 0 <= j < k && ticks[j].Report? && ticks[j].state == "running" ==> ticks[j].health != "healthy"
  {
    k :| 0 <= k < |ticks| && Judge(ticks[k], healthPath, port) == Pass
      && forall j :: 0 <= j < k ==> Judge(ticks[j], healthPath, port) == Wait;
    forall j | 0 <= j <= k ensures Judge(ticks[j], healthPath, port) != Fail {
    }
  }

  /** And a container with such a tick, before which nothing has gone wrong, does pass. */
  lemma {:induction false} PassesWhen(ticks: seq<Tick>, healthPath: string, port: int, k: nat)
    requires k < |ticks| && Judge(ticks[k], healthPath, port) == Pass
    requires forall j :: 0 <= j < k ==> Judge(ticks[j], healthPath, port) != Fail
    ensures BecomesHealthy(ticks, healthPath, port)
  {
    hide Judge;
    if j :| 0 <= j < k && Judge(ticks[j], healthPath, port) == Pass {
      PassesWhen(ticks, healthPath, port, j);
    }
  }

  ghost predicate RunsAt(ticks: seq<Tick>, k: nat) {
    && k < |ticks| && ticks[k].Report? && ticks[k].state == "running"
    && forall j :: 0 <= j < k ==> ticks[j].Report? && ticks[j].state != "exited" && ticks[j].state != "dead"
  }

  /** A container passes only while it reports running, and never after it reported an exit. */
  lemma HealthyMeansRunning(ticks: seq<Tick>, healthPath: string, port: int)
    requires BecomesHealthy(ticks, healthPath, port)
    ensures exists k: nat :: RunsAt(ticks, k)
  {
    var k :| 0 <= k < |ticks| && Judge(ticks[k], healthPath, port) == Pass
      && forall j :: 0 <= j < k ==> Judge(ticks[j], healthPath, port) == Wait;
    assert RunsAt(ticks, k);
  }
}
