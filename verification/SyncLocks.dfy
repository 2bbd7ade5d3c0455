/**
 * The promise chains that order the tasks of one project (`runInChain` in `SyncLocks.ts`), one microtask at a time, in
 * any order the event loop may pick. Both chain maps, `syncChains` and `writeChains`, are instances of this one.
 */
module SyncLocks {
  import opened JsStrings
  import opened Model

  /** A task is named by its place in the order of submission. */
  type TaskId = nat

  datatype Promise = Pending | Fulfilled | Rejected

  /** `result` is `previous.then(task)`, `tail` settles after it; `started` once its own task runs, `cleaned` once its last reaction ran. */
  datatype Task = Task(p: ProjectId, previous: Option<TaskId>, started: bool, result: Promise, tail: Promise, cleaned: bool)

  /** `chains` maps a project to the one whose tail is last in its chain. */
  datatype State = State(chains: map<ProjectId, TaskId>, tasks: seq<Task>)

  datatype Action = Submit(p: ProjectId) | Start(t: TaskId) | Skip(t: TaskId) | Finish(t: TaskId, ok: bool) | SettleTail(t: TaskId) | Cleanup(t: TaskId)

  /** The promise a task waits for; `Promise.resolve()` when the project had no chain. */
  function Previous(s: State, t: TaskId): Promise
    requires t < |s.tasks|
  {
    var previous := s.tasks[t].previous;
    if previous.Some? && previous.value < |s.tasks| then s.tasks[previous.value].tail else Fulfilled
  }

  predicate Waiting(s: State, t: TaskId) {
    t < |s.tasks| && !s.tasks[t].started && s.tasks[t].result == Pending
  }

  predicate Running(s: State, t: TaskId) {
    t < |s.tasks| && s.tasks[t].started && s.tasks[t].result == Pending
  }

  /** `then(task)` runs its task when the previous tail is fulfilled, and skips it when that tail is rejected. */
  predicate Enabled(s: State, a: Action) {
    match a
    case Submit(p) => true
    case Start(t) => Waiting(s, t) && Previous(s, t) == Fulfilled
    case Skip(t) => Waiting(s, t) && Previous(s, t) == Rejected
    case Finish(t, ok) => Running(s, t)
    case SettleTail(t) => t < |s.tasks| && s.tasks[t].result != Pending && s.tasks[t].tail == Pending
    case Cleanup(t) => t < |s.tasks| && s.tasks[t].tail != Pending && !s.tasks[t].cleaned
  }

  /** `result.then(() => undefined, () => undefined)` */
  function TailOf(result: Promise): Promise {
    match result
    case Pending => Pending
    case Fulfilled => Fulfilled
    case Rejected => Fulfilled
  }

  function With(s: State, t: TaskId, task: Task): State
    requires t < |s.tasks|
  {
    s.(tasks := s.tasks[t := task])
  }

  function Step(s: State, a: Action): State
    requires Enabled(s, a)
  {
    match a
    case Submit(p) =>
      var previous := if p in s.chains then Some(s.chains[p]) else None;
      State(s.chains[p := |s.tasks|], s.tasks + [Task(p, previous, false, Pending, Pending, false)])
    case Start(t) => With(s, t, s.tasks[t].(started := true))
    case Skip(t) => With(s, t, s.tasks[t].(result := Rejected))
    case Finish(t, ok) => With(s, t, s.tasks[t].(result := if ok then Fulfilled else Rejected))
    case SettleTail(t) => With(s, t, s.tasks[t].(tail := TailOf(s.tasks[t].result)))
    case Cleanup(t) =>
      var p := s.tasks[t].p;
      With(if p in s.chains && s.chains[p] == t then s.(chains := s.chains - {p}) else s, t, s.tasks[t].(cleaned := true))
  }

  /** The module's state, updated in place by each callback. */
  class Chains {
    var chains: map<ProjectId, TaskId>
    var tasks: seq<Task>

    function Now(): State reads this { State(chains, tasks) }

    constructor ()
      ensures Now() == State(map[], [])
    {
      chains, tasks := map[], [];
    }

    method RunInChain(p: ProjectId) returns (t: TaskId)
      modifies this
      ensures t == |old(tasks)| && Now() == Step(old(Now()), Submit(p))
    {
      var previous := None;
      if p in chains {
        previous := Some(chains[p]);
      }
      t := |tasks|;
      tasks := tasks + [Task(p, previous, false, Pending, Pending, false)];
      chains := chains[p := t];
    }

    /** The reaction to the previous tail. */
    method PreviousSettled(t: TaskId)
      requires Enabled(Now(), Start(t)) || Enabled(Now(), Skip(t))
      modifies this`tasks
      ensures Now() == if old(Previous(Now(), t)) == Fulfilled then old(Step(Now(), Start(t))) else old(Step(Now(), Skip(t)))
    {
      if Previous(Now(), t) == Fulfilled {
        tasks := tasks[t := tasks[t].(started := true)];
      } else {
        tasks := tasks[t := tasks[t].(result := Rejected)];
      }
    }

    method TaskSettled(t: TaskId, ok: bool)
      requires Enabled(Now(), Finish(t, ok))
      modifies this`tasks
      ensures Now() == old(Step(Now(), Finish(t, ok)))
    {
      tasks := tasks[t := tasks[t].(result := if ok then Fulfilled else Rejected)];
    }

    method ResultSettled(t: TaskId)
      requires Enabled(Now(), SettleTail(t))
      modifies this`tasks
      ensures Now() == old(Step(Now(), SettleTail(t)))
    {
      tasks := tasks[t := tasks[t].(tail := Fulfilled)];
    }

    /** A project's entry is dropped only by the tail it still holds. */
    method TailSettled(t: TaskId)
      requires Enabled(Now(), Cleanup(t))
      modifies this
      ensures Now() == old(Step(Now(), Cleanup(t)))
    {
      var p := tasks[t].p;
      if p in chains && chains[p] == t {
        chains := chains - {p};
      }
      tasks := tasks[t := tasks[t].(cleaned := true)];
    }
  }

  // ---- The FIFO mutex ----

  /** The tasks of a project still holding or waiting for it, in order of submission. */
  function Queue(tasks: seq<Task>, p: ProjectId): (q: seq<TaskId>)
    ensures forall t: TaskId :: t in q <==> t < |tasks| && tasks[t].p == p && tasks[t].tail == Pending
    ensures forall i, j | 0 <= i < j < |q| :: q[i] < q[j]
  {
    if tasks == [] then []
    else
      var last: TaskId := |tasks| - 1;
      var earlier := Queue(tasks[..last], p);
      assert forall i | 0 <= i < |earlier| :: earlier[i] in earlier;
      if tasks[last].p == p && tasks[last].tail == Pending then earlier + [last] else earlier
  }

  /** Every earlier task of the project has settled its tail. */
  ghost predicate IsFirst(s: State, t: TaskId)
    requires t < |s.tasks|
  {
    forall u | 0 <= u < t && s.tasks[u].p == s.tasks[t].p :: s.tasks[u].tail != Pending
  }

  /** No task of the project was submitted between `u` and `t`. */
  ghost predicate Follows(s: State, u: TaskId, t: TaskId)
    requires t < |s.tasks|
  {
    u < t && s.tasks[u].p == s.tasks[t].p && forall v | u < v < t :: s.tasks[v].p != s.tasks[t].p
  }

  ghost predicate TaskOk(s: State, t: TaskId)
    requires t < |s.tasks|
  {
    var task := s.tasks[t];
    && task.tail != Rejected
    && (task.tail != Pending ==> task.result != Pending)
    && (task.result != Pending ==> task.started)
    && (task.started ==> IsFirst(s, t))
    && (task.cleaned ==> task.tail != Pending)
    && (if task.previous.Some? then Follows(s, task.previous.value, t) else IsFirst(s, t))
  }

  ghost predicate ChainOk(s: State, p: ProjectId) {
    if p in s.chains then
      && s.chains[p] < |s.tasks| && s.tasks[s.chains[p]].p == p && !s.tasks[s.chains[p]].cleaned
      && (forall t | s.chains[p] < t < |s.tasks| :: s.tasks[t].p != p)
    else forall t | 0 <= t < |s.tasks| && s.tasks[t].p == p :: s.tasks[t].tail != Pending
  }

  ghost predicate Inv(s: State) {
    && (forall t | 0 <= t < |s.tasks| :: TaskOk(s, t))
    && (forall p :: ChainOk(s, p))
  }

  /** Only `t` differs, and no settled tail is undone. */
  ghost predicate OnlyTask(s: State, next: State, t: TaskId) {
    && t < |s.tasks| == |next.tasks|
    && (forall u | 0 <= u < |s.tasks| :: next.tasks[u].p == s.tasks[u].p && next.tasks[u].previous == s.tasks[u].previous)
    && (forall u | 0 <= u < |s.tasks| && s.tasks[u].tail != Pending :: next.tasks[u].tail != Pending)
    && (forall u | 0 <= u < |s.tasks| && u != t :: next.tasks[u] == s.tasks[u])
  }

  lemma OtherTasksKeep(s: State, next: State, t: TaskId)
    requires Inv(s) && OnlyTask(s, next, t)
    ensures forall u | 0 <= u < |s.tasks| && u != t :: TaskOk(next, u)
  {
    forall u | 0 <= u < |s.tasks| && u != t ensures TaskOk(next, u) {
      assert TaskOk(s, u);
      assert IsFirst(s, u) ==> IsFirst(next, u);
    }
  }

  lemma StartIsFirst(s: State, t: TaskId)
    requires Inv(s) && Waiting(s, t) && Previous(s, t) != Pending
    ensures IsFirst(s, t)
  {
    assert TaskOk(s, t);
    if s.tasks[t].previous.Some? {
      var u := s.tasks[t].previous.value;
      assert TaskOk(s, u);
      assert forall v | 0 <= v < t && s.tasks[v].p == s.tasks[t].p :: v <= u;
    }
  }

  lemma SubmitKeeps(s: State, p: ProjectId)
    requires Inv(s)
    ensures Inv(Step(s, Submit(p)))
  {
    var next := Step(s, Submit(p));
    assert ChainOk(s, p);
    forall t | 0 <= t < |next.tasks| ensures TaskOk(next, t) {
      if t < |s.tasks| {
        assert TaskOk(s, t);
        assert IsFirst(s, t) ==> IsFirst(next, t);
      }
    }
    forall q ensures ChainOk(next, q) {
      assert ChainOk(s, q);
    }
  }

  lemma StartKeeps(s: State, t: TaskId)
    requires Inv(s) && Enabled(s, Start(t))
    ensures Inv(Step(s, Start(t)))
  {
    var next := Step(s, Start(t));
    StartIsFirst(s, t);
    OtherTasksKeep(s, next, t);
    assert TaskOk(s, t) && IsFirst(next, t);
    forall q ensures ChainOk(next, q) {
      assert ChainOk(s, q);
    }
  }

  lemma FinishKeeps(s: State, t: TaskId, ok: bool)
    requires Inv(s) && Enabled(s, Finish(t, ok))
    ensures Inv(Step(s, Finish(t, ok)))
  {
    var next := Step(s, Finish(t, ok));
    OtherTasksKeep(s, next, t);
    assert TaskOk(s, t) && (IsFirst(s, t) ==> IsFirst(next, t));
    forall q ensures ChainOk(next, q) {
      assert ChainOk(s, q);
    }
  }

  lemma SettleTailKeeps(s: State, t: TaskId)
    requires Inv(s) && Enabled(s, SettleTail(t))
    ensures Inv(Step(s, SettleTail(t)))
  {
    var next := Step(s, SettleTail(t));
    OtherTasksKeep(s, next, t);
    assert TaskOk(s, t) && (IsFirst(s, t) ==> IsFirst(next, t));
    forall q ensures ChainOk(next, q) {
      assert ChainOk(s, q);
    }
  }

  lemma CleanupKeeps(s: State, t: TaskId)
    requires Inv(s) && Enabled(s, Cleanup(t))
    ensures Inv(Step(s, Cleanup(t)))
  {
    var next := Step(s, Cleanup(t));
    OtherTasksKeep(s, next, t);
    assert TaskOk(s, t) && IsFirst(s, t) && IsFirst(next, t);
    forall q ensures ChainOk(next, q) {
      assert ChainOk(s, q);
    }
  }

  /** A tail is never rejected, whatever its task did, so no task is ever skipped. */
  lemma NeverSkipped(s: State, t: TaskId)
    requires Inv(s)
    ensures !Enabled(s, Skip(t))
  {
    if t < |s.tasks| {
      assert TaskOk(s, t);
      if s.tasks[t].previous.Some? {
        assert TaskOk(s, s.tasks[t].previous.value);
      }
    }
  }

  lemma StepKeeps(s: State, a: Action)
    requires Inv(s) && Enabled(s, a)
    ensures Inv(Step(s, a))
  {
    match a
    case Submit(p) => SubmitKeeps(s, p);
    case Start(t) => StartKeeps(s, t);
    case Skip(t) => NeverSkipped(s, t);
    case Finish(t, ok) => FinishKeeps(s, t, ok);
    case SettleTail(t) => SettleTailKeeps(s, t);
    case Cleanup(t) => CleanupKeeps(s, t);
  }

  ghost predicate Runs(s: State, actions: seq<Action>, t: State)
    decreases |actions|
  {
    if actions == [] then s == t
    else Enabled(s, actions[0]) && Runs(Step(s, actions[0]), actions[1..], t)
  }

  lemma {:induction false} RunKeeps(s: State, actions: seq<Action>, t: State)
    requires Inv(s) && Runs(s, actions, t)
    ensures Inv(t)
    decreases |actions|
  {
    if actions != [] {
      StepKeeps(s, actions[0]);
      RunKeeps(Step(s, actions[0]), actions[1..], t);
    }
  }

  /** What some run of the event loop leads to, from no chain at all. */
  ghost predicate Reachable(s: State) {
    exists actions: seq<Action> :: Runs(State(map[], []), actions, s)
  }

  lemma ReachableHolds(s: State)
    requires Reachable(s)
    ensures Inv(s)
  {
    var actions: seq<Action> :| Runs(State(map[], []), actions, s);
    RunKeeps(State(map[], []), actions, s);
  }

  // ---- The chains refine one FIFO mutex per project ----

  lemma HeadIsFirst(s: State, t: TaskId)
    requires t < |s.tasks| && s.tasks[t].tail == Pending
    ensures var q := Queue(s.tasks, s.tasks[t].p); q != [] && (q[0] == t <==> IsFirst(s, t))
  {
    var q := Queue(s.tasks, s.tasks[t].p);
    assert t in q;
    assert forall u: TaskId | u < t && s.tasks[u].p == s.tasks[t].p && s.tasks[u].tail == Pending :: u in q;
    if q[0] != t {
      assert q[0] in q && q[0] < t;
    }
  }

  /** A task starts exactly when it is the head of its project's queue: nothing else delays it, nothing lets it overtake. */
  lemma StartsIffHead(s: State, t: TaskId)
    requires Reachable(s) && Waiting(s, t)
    ensures var q := Queue(s.tasks, s.tasks[t].p); q != [] && (Enabled(s, Start(t)) <==> q[0] == t)
  {
    ReachableHolds(s);
    assert TaskOk(s, t);
    HeadIsFirst(s, t);
    if Previous(s, t) != Pending {
      StartIsFirst(s, t);
    }
    NeverSkipped(s, t);
  }

  /** The running task of a project is the head of its queue, so there is at most one. */
  lemma RunningIsHead(s: State, t: TaskId)
    requires Reachable(s) && Running(s, t)
    ensures var q := Queue(s.tasks, s.tasks[t].p); q != [] && q[0] == t
    ensures forall u: TaskId | Running(s, u) && s.tasks[u].p == s.tasks[t].p :: u == t
  {
    ReachableHolds(s);
    assert TaskOk(s, t);
    HeadIsFirst(s, t);
    forall u: TaskId | Running(s, u) && s.tasks[u].p == s.tasks[t].p ensures u == t {
      assert TaskOk(s, u);
      HeadIsFirst(s, u);
    }
  }

  /** Tasks run in order of submission: once one started, all earlier ones of its project have finished. */
  lemma EarlierTasksHaveFinished(s: State, u: TaskId, t: TaskId)
    requires Reachable(s) && u < t < |s.tasks| && s.tasks[u].p == s.tasks[t].p && s.tasks[t].started
    ensures s.tasks[u].started && s.tasks[u].result != Pending
  {
    ReachableHolds(s);
    assert TaskOk(s, t) && TaskOk(s, u);
  }

  /** A queue only grows at its end, by a submission, and only shrinks at its head, when the head's tail settles. */
  lemma QueueMoves(s: State, a: Action, p: ProjectId)
    requires Reachable(s) && Enabled(s, a)
    ensures var before, after := Queue(s.tasks, p), Queue(Step(s, a).tasks, p);
            match a
            case Submit(q) => after == before + (if q == p then [|s.tasks|] else [])
            case SettleTail(t) => if s.tasks[t].p == p then before == [t] + after else after == before
            case _ => after == before
  {
    ReachableHolds(s);
    match a
    case Submit(q) =>
      var next := Step(s, a);
      assert next.tasks[..|s.tasks|] == s.tasks;
    case SettleTail(t) =>
      assert TaskOk(s, t);
      HeadIsFirst(s, t);
      SettledLeaves(s.tasks, t, s.tasks[t].(tail := Fulfilled), p);
    case Skip(t) => NeverSkipped(s, t);
    case Start(t) => SameTailSameQueue(s.tasks, t, s.tasks[t].(started := true), p);
    case Finish(t, ok) => SameTailSameQueue(s.tasks, t, s.tasks[t].(result := if ok then Fulfilled else Rejected), p);
    case Cleanup(t) => SameTailSameQueue(s.tasks, t, s.tasks[t].(cleaned := true), p);
  }

  lemma {:induction false} SameTailSameQueue(tasks: seq<Task>, t: TaskId, task: Task, p: ProjectId)
    requires t < |tasks| && task.p == tasks[t].p && (task.tail == Pending <==> tasks[t].tail == Pending)
    ensures Queue(tasks[t := task], p) == Queue(tasks, p)
  {
    var last := |tasks| - 1;
    if t < last {
      SameTailSameQueue(tasks[..last], t, task, p);
      assert tasks[t := task][..last] == tasks[..last][t := task];
    } else {
      assert tasks[t := task][..last] == tasks[..last];
    }
  }

  lemma HasElement<T>(q: seq<T>)
    requires q != []
    ensures exists x :: x in q
  {
    assert q[0] in q;
  }

  lemma {:induction false} SettledLeaves(tasks: seq<Task>, t: TaskId, task: Task, p: ProjectId)
    requires t < |tasks| && task.p == tasks[t].p && task.tail != Pending && tasks[t].tail == Pending
    requires forall u | 0 <= u < t && tasks[u].p == tasks[t].p :: tasks[u].tail != Pending
    ensures Queue(tasks, p) == (if tasks[t].p == p then [t] else []) + Queue(tasks[t := task], p)
  {
    var last := |tasks| - 1;
    if t < last {
      SettledLeaves(tasks[..last], t, task, p);
      assert tasks[t := task][..last] == tasks[..last][t := task];
    } else {
      assert tasks[t := task][..last] == tasks[..last];
      if tasks[t].p == p {
        var rest := Queue(tasks[..last], p);
        if rest != [] {
          HasElement(rest);
        }
      }
    }
  }

  /** The head of a queue can always move on, a rejected one too: it may start, it is running, or its tail may settle. */
  lemma HeadCanMove(s: State, p: ProjectId)
    requires Reachable(s) && Queue(s.tasks, p) != []
    ensures var t := Queue(s.tasks, p)[0]; Enabled(s, Start(t)) || Running(s, t) || Enabled(s, SettleTail(t))
  {
    ReachableHolds(s);
    var q := Queue(s.tasks, p);
    var t := q[0];
    assert t in q;
    assert TaskOk(s, t);
    if Waiting(s, t) {
      StartsIffHead(s, t);
    }
  }

  /** Projects never wait on each other: what happens to a task of one leaves every task of another as startable as before. */
  lemma ProjectsAreIndependent(s: State, a: Action, t: TaskId)
    requires Reachable(s) && Enabled(s, a) && t < |s.tasks|
    requires if a.Submit? then a.p != s.tasks[t].p else a.t < |s.tasks| && s.tasks[a.t].p != s.tasks[t].p
    ensures Step(s, a).tasks[t] == s.tasks[t] && (Enabled(Step(s, a), Start(t)) <==> Enabled(s, Start(t)))
    ensures s.tasks[t].p in s.chains <==> s.tasks[t].p in Step(s, a).chains
  {
    ReachableHolds(s);
    assert TaskOk(s, t);
  }

  /** The map holds a project exactly until the reaction of its last task ran: idle projects leave no entry. */
  lemma EntryUntilLastIsCleaned(s: State, p: ProjectId)
    requires Reachable(s)
    ensures p in s.chains ==>
              s.chains[p] < |s.tasks| && s.tasks[s.chains[p]].p == p && !s.tasks[s.chains[p]].cleaned
              && forall t | s.chains[p] < t < |s.tasks| :: s.tasks[t].p != p
    ensures p !in s.chains ==> Queue(s.tasks, p) == []
    ensures (forall t | 0 <= t < |s.tasks| && s.tasks[t].p == p :: s.tasks[t].cleaned) ==> p !in s.chains
  {
    ReachableHolds(s);
    assert ChainOk(s, p);
    if p !in s.chains && Queue(s.tasks, p) != [] {
      HasElement(Queue(s.tasks, p));
    }
  }

  // ---- What a submission gets back ----

  lemma SettledResultStays(s: State, a: Action, t: TaskId)
    requires Inv(s) && Enabled(s, a) && t < |s.tasks|
    ensures t < |Step(s, a).tasks|
    ensures s.tasks[t].result != Pending ==> Step(s, a).tasks[t].result == s.tasks[t].result && forall ok :: a != Finish(t, ok)
    ensures s.tasks[t].result == Pending ==>
              Step(s, a).tasks[t].result == if a == Finish(t, true) then Fulfilled else if a == Finish(t, false) then Rejected else Pending
  {
    match a
    case Skip(u) => NeverSkipped(s, u);
    case _ =>
  }

  lemma {:induction false} ResultsComeFromTasks(s: State, actions: seq<Action>, u: State, t: TaskId)
    requires Inv(s) && Runs(s, actions, u) && t < |s.tasks|
    ensures t < |u.tasks|
    ensures s.tasks[t].result != Pending ==> u.tasks[t].result == s.tasks[t].result && forall ok :: Finish(t, ok) !in actions
    ensures s.tasks[t].result == Pending ==>
              && (u.tasks[t].result == Fulfilled <==> Finish(t, true) in actions)
              && (u.tasks[t].result == Rejected <==> Finish(t, false) in actions)
    decreases |actions|
  {
    if actions != [] {
      var a := actions[0];
      assert actions == [a] + actions[1..];
      StepKeeps(s, a);
      SettledResultStays(s, a, t);
      ResultsComeFromTasks(Step(s, a), actions[1..], u, t);
    }
  }

  /** A submission gets back how its own task ended, and only that: fulfilled when it succeeded, rejected when it failed. */
  lemma SubmissionGetsItsTasksResult(s: State, p: ProjectId, actions: seq<Action>, u: State)
    requires Reachable(s) && Runs(Step(s, Submit(p)), actions, u)
    ensures var t: TaskId := |s.tasks|;
            && t < |u.tasks| && u.tasks[t].p == p
            && (u.tasks[t].result == Fulfilled <==> Finish(t, true) in actions)
            && (u.tasks[t].result == Rejected <==> Finish(t, false) in actions)
  {
    ReachableHolds(s);
    SubmitKeeps(s, p);
    ResultsComeFromTasks(Step(s, Submit(p)), actions, u, |s.tasks|);
    ProjectStays(Step(s, Submit(p)), actions, u, |s.tasks|);
  }

  lemma {:induction false} ProjectStays(s: State, actions: seq<Action>, u: State, t: TaskId)
    requires Runs(s, actions, u) && t < |s.tasks|
    ensures t < |u.tasks| && u.tasks[t].p == s.tasks[t].p
    decreases |actions|
  {
    if actions != [] {
      ProjectStays(Step(s, actions[0]), actions[1..], u, t);
    }
  }
}
