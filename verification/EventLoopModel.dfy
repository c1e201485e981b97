/** The hand-written event loop of chapter 14 as transitions on its objects: futures, tasks,
    the selector and the loop's own fields. A coroutine is whatever it does each time it is
    resumed: close sockets, create tasks, then await a socket or return. */
module EventLoopModel {
  import opened Options

  type Sock = nat
  type Data = nat

  datatype Who = Main | Task(t: nat)

  /** `_done_callback`: nothing, the loop's `_set_current_result`, a task's `_future_done`. */
  datatype Callback = NoCallback | SetCurrent | FutureDone(t: nat)

  /** A future, with the socket it was made for, the coroutine that awaits it, and what that
      coroutine was sent while it stood at this future. */
  datatype Future = Future(sock: Sock, waiter: Who, result: Option<Data>, callback: Callback, sent: seq<Data>) {
    predicate IsFinished() { result.Some? }
  }

  /** `_task_state`, and whether the task has a result. */
  datatype TaskState = NotStarted | Awaiting(f: nat)
  datatype TaskRec = TaskRec(state: TaskState, isFinished: bool)

  /** `current_result`: the future the main coroutine yielded, or what a callback put there. */
  datatype Current = Pending(f: nat) | Value(data: Data)

  /** Where `run` stands: at the top of its loop, before the i-th task, at `select`, going
      through the events of one `select`, or returned. */
  datatype Phase = Top | Tasks(i: nat) | Selecting | Handling(events: seq<Event>) | Returned

  /** One ready socket: its registered future, and what reading it will give. */
  datatype Event = Event(f: nat, data: Data)

  datatype Loop = Loop(
    futures: seq<Future>, selector: map<Sock, nat>, tasks: seq<TaskRec>, toRun: seq<nat>,
    current: Current, mainFuture: nat, phase: Phase)

  datatype Then = Await(sock: Sock) | Return

  /** What a coroutine does when resumed. */
  datatype Response = Response(closes: set<Sock>, spawns: nat, next: Then)

  datatype Step = DoTop(r: Response) | DoTask(r: Response) | DoSelect(ready: seq<(Sock, Data)>) | DoEvent(r: Response)

  // ---- one resumption ----

  function NewTasks(s: Loop, n: nat): Loop {
    s.(tasks := s.tasks + seq(n, _ => TaskRec(NotStarted, false)),
       toRun := s.toRun + seq(n, i requires 0 <= i < n => |s.tasks| + i))
  }

  /** `_register_socket_to_read`: a new future; registers the socket or replaces what it was
      registered with. */
  function Register(s: Loop, who: Who, sock: Sock): Loop {
    s.(futures := s.futures + [Future(sock, who, None, NoCallback, [])],
       selector := s.selector[sock := |s.futures|])
  }

  /** `coro.send`: everything up to the next await or the end. */
  function Send(s: Loop, who: Who, r: Response): Loop {
    var v := NewTasks(s.(selector := s.selector - r.closes), r.spawns);
    match r.next
    case Await(sock) => Register(v, who, sock)
    case Return => v
  }

  /** The value the coroutine that stands at a future is resumed with. */
  function Deliver(s: Loop, f: nat, data: Data): Loop
    requires f < |s.futures|
  {
    s.(futures := s.futures[f := s.futures[f].(sent := s.futures[f].sent + [data])])
  }

  function AddDoneCallback(s: Loop, f: nat, cb: Callback): Loop
    requires f < |s.futures|
  {
    s.(futures := s.futures[f := s.futures[f].(callback := cb)])
  }

  /** The main coroutine goes on from the future it stood at. */
  function ResumeMain(s: Loop, data: Data, r: Response): Loop
    requires s.mainFuture < |s.futures|
  {
    var v := Send(Deliver(s, s.mainFuture, data), Main, r);
    match r.next
    case Await(_) => v.(current := Pending(|s.futures|), mainFuture := |s.futures|)
    case Return => v.(phase := Returned)
  }

  /** A task's coroutine is sent something: it then stands at a new future, or has ended. */
  function ResumeTask(s: Loop, t: nat, r: Response): Loop
    requires t < |s.tasks|
  {
    var v := Send(s, Task(t), r);
    match r.next
    case Await(_) => v.(tasks := v.tasks[t := v.tasks[t].(state := Awaiting(|s.futures|))])
    case Return => v.(tasks := v.tasks[t := v.tasks[t].(isFinished := true)])
  }

  // ---- the steps of `run` ----

  ghost predicate Sane(s: Loop) {
    s.mainFuture < |s.futures| && (s.current.Pending? ==> s.current.f < |s.futures|) &&
    (forall i :: 0 <= i < |s.toRun| ==> s.toRun[i] < |s.tasks|) &&
    (forall t :: 0 <= t < |s.tasks| && s.tasks[t].state.Awaiting? ==> s.tasks[t].state.f < |s.futures|) &&
    (forall f :: 0 <= f < |s.futures| && s.futures[f].callback.FutureDone? ==>
       s.futures[f].callback.t < |s.tasks| && s.tasks[s.futures[f].callback.t].state.Awaiting?) &&
    (s.phase.Handling? ==> forall k :: 0 <= k < |s.phase.events| ==> s.phase.events[k].f < |s.futures|) &&
    (forall x :: x in s.selector ==> s.selector[x] < |s.futures|)
  }

  /** Lines 56 to 61 of the loop. */
  function TopOfLoop(s: Loop, r: Response): Loop
    requires Sane(s) && s.phase.Top?
  {
    var v := s.(phase := Tasks(0));
    match s.current
    case Pending(f) =>
      var w := AddDoneCallback(v, f, SetCurrent);
      if w.futures[f].result.Some? then ResumeMain(w, w.futures[f].result.value, r) else w
    case Value(data) => ResumeMain(v, data, r)
  }

  /** `CustomTask.step` */
  function StepTask(s: Loop, t: nat, r: Response): Loop
    requires Sane(s) && t < |s.tasks|
  {
    match s.tasks[t].state
    case Awaiting(f) => AddDoneCallback(s, f, FutureDone(t))
    case NotStarted =>
      var v := ResumeTask(s, t, r);
      if r.next.Await? then AddDoneCallback(v, |s.futures|, FutureDone(t)) else v
  }

  function Unfinished(tasks: seq<TaskRec>, q: seq<nat>): seq<nat>
    requires forall i :: 0 <= i < |q| ==> q[i] < |tasks|
  {
    if q == [] then []
    else (if tasks[q[0]].isFinished then [] else [q[0]]) + Unfinished(tasks, q[1..])
  }

  /** The next task is stepped; after the last one the finished ones are dropped. */
  function NextTask(s: Loop, r: Response): Loop
    requires Sane(s) && s.phase.Tasks?
  {
    if s.phase.i < |s.toRun| then
      StepTask(s, s.toRun[s.phase.i], r).(phase := Tasks(s.phase.i + 1))
    else
      s.(toRun := Unfinished(s.tasks, s.toRun), phase := Selecting)
  }

  /** `set_result` with its callback. `_future_done` sends the result to the coroutine, which
      goes on from the future it stands at. */
  function SetResult(s: Loop, f: nat, data: Data, r: Response): Loop
    requires Sane(s) && f < |s.futures|
  {
    var v := s.(futures := s.futures[f := s.futures[f].(result := Some(data))]);
    match s.futures[f].callback
    case NoCallback => v
    case SetCurrent => v.(current := Value(data))
    case FutureDone(t) => ResumeTask(Deliver(v, v.tasks[t].state.f, data), t, r)
  }

  function HandleEvent(s: Loop, r: Response): Loop
    requires Sane(s) && s.phase.Handling? && s.phase.events != []
  {
    var e, rest := s.phase.events[0], s.phase.events[1..];
    SetResult(s, e.f, e.data, r).(phase := if rest == [] then Top else Handling(rest))
  }

  /** `select` returns the ready sockets with what they are registered with at that moment. */
  function Selected(s: Loop, ready: seq<(Sock, Data)>): seq<Event>
    requires forall k :: 0 <= k < |ready| ==> ready[k].0 in s.selector
  {
    seq(|ready|, k requires 0 <= k < |ready| => Event(s.selector[ready[k].0], ready[k].1))
  }

  /** Whether a step can come next, as far as the program is concerned. Closing a socket that
      is not registered raises a KeyError, which is not modelled. */
  ghost predicate Enabled(s: Loop, step: Step) {
    Sane(s) && (!step.DoSelect? ==> step.r.closes <= s.selector.Keys) &&
    match step
    case DoTop(_) => s.phase.Top?
    case DoTask(_) => s.phase.Tasks?
    case DoSelect(ready) =>
      s.phase.Selecting? && ready != [] &&
      (forall k :: 0 <= k < |ready| ==> ready[k].0 in s.selector) &&
      (forall j, k :: 0 <= j < k < |ready| ==> ready[j].0 != ready[k].0)
    case DoEvent(_) => s.phase.Handling? && s.phase.events != []
  }

  function Next(s: Loop, step: Step): Loop
    requires Enabled(s, step)
  {
    match step
    case DoTop(r) => TopOfLoop(s, r)
    case DoTask(r) => NextTask(s, r)
    case DoSelect(ready) => s.(phase := Handling(Selected(s, ready)))
    case DoEvent(r) => HandleEvent(s, r)
  }

  /** `run( coro )` up to its loop, for a coroutine that begins by awaiting a socket. */
  function Start(sock: Sock, spawns: nat): Loop {
    NewTasks(Loop([Future(sock, Main, None, NoCallback, [])], map[sock := 0], [], [], Pending(0), 0, Top), spawns)
  }

  // ---- every step leaves the loop sane ----

  lemma {:induction false} UnfinishedInRange(tasks: seq<TaskRec>, q: seq<nat>)
    requires forall i :: 0 <= i < |q| ==> q[i] < |tasks|
    ensures forall i :: 0 <= i < |Unfinished(tasks, q)| ==> Unfinished(tasks, q)[i] < |tasks|
  {
    if q != [] {
      UnfinishedInRange(tasks, q[1..]);
    }
  }

  lemma TopOfLoopSane(s: Loop, r: Response)
    requires Sane(s) && s.phase.Top?
    ensures Sane(TopOfLoop(s, r))
  {
  }

  lemma StepTaskSane(s: Loop, t: nat, r: Response)
    requires Sane(s) && t < |s.tasks|
    ensures Sane(StepTask(s, t, r))
    ensures StepTask(s, t, r).phase == s.phase
  {
  }

  lemma NextTaskSane(s: Loop, r: Response)
    requires Sane(s) && s.phase.Tasks?
    ensures Sane(NextTask(s, r))
  {
    if s.phase.i < |s.toRun| {
      StepTaskSane(s, s.toRun[s.phase.i], r);
    } else {
      UnfinishedInRange(s.tasks, s.toRun);
    }
  }

  lemma ResumeTaskSane(s: Loop, t: nat, r: Response)
    requires Sane(s) && t < |s.tasks| && s.tasks[t].state.Awaiting?
    ensures Sane(ResumeTask(s, t, r)) && ResumeTask(s, t, r).phase == s.phase
  {
  }

  lemma ResultSane(s: Loop, f: nat, data: Data)
    requires Sane(s) && f < |s.futures|
    ensures Sane(s.(futures := s.futures[f := s.futures[f].(result := Some(data))]))
  {
  }

  lemma DeliverSane(s: Loop, f: nat, data: Data)
    requires Sane(s) && f < |s.futures|
    ensures Sane(Deliver(s, f, data))
  {
  }

  lemma HandleEventSane(s: Loop, r: Response)
    requires Sane(s) && s.phase.Handling? && s.phase.events != []
    ensures Sane(HandleEvent(s, r))
  {
    var e := s.phase.events[0];
    ResultSane(s, e.f, e.data);
    if s.futures[e.f].callback.FutureDone? {
      var v := s.(futures := s.futures[e.f := s.futures[e.f].(result := Some(e.data))]);
      var t := s.futures[e.f].callback.t;
      DeliverSane(v, v.tasks[t].state.f, e.data);
      ResumeTaskSane(Deliver(v, v.tasks[t].state.f, e.data), t, r);
    }
  }

  lemma NextSane(s: Loop, step: Step)
    requires Enabled(s, step)
    ensures Sane(Next(s, step))
  {
    match step
    case DoTop(r) => TopOfLoopSane(s, r);
    case DoTask(r) => NextTaskSane(s, r);
    case DoSelect(ready) =>
    case DoEvent(r) => HandleEventSane(s, r);
  }

  // ---- many steps ----

  ghost predicate Possible(s: Loop, steps: seq<Step>)
    decreases |steps|
  {
    steps == [] || (Enabled(s, steps[0]) && Possible(Next(s, steps[0]), steps[1..]))
  }

  ghost function After(s: Loop, steps: seq<Step>): Loop
    requires Possible(s, steps)
    decreases |steps|
  {
    if steps == [] then s else After(Next(s, steps[0]), steps[1..])
  }

  ghost predicate Leads(s: Loop, steps: seq<Step>, v: Loop) {
    Possible(s, steps) && After(s, steps) == v
  }

  lemma Prepend(s: Loop, step: Step, more: seq<Step>)
    requires Enabled(s, step) && Possible(Next(s, step), more)
    ensures Possible(s, [step] + more) && After(s, [step] + more) == After(Next(s, step), more)
  {
    assert ([step] + more)[0] == step && ([step] + more)[1..] == more;
  }

  lemma Unfold(s: Loop, steps: seq<Step>)
    requires Possible(s, steps) && steps != []
    ensures Enabled(s, steps[0]) && Possible(Next(s, steps[0]), steps[1..])
    ensures After(s, steps) == After(Next(s, steps[0]), steps[1..])
  {
  }

  lemma FirstOff<T>(a: seq<T>, b: seq<T>)
    requires a != []
    ensures a + b == [a[0]] + (a[1..] + b)
  {
  }

  lemma {:induction false} Compose(s: Loop, a: seq<Step>, b: seq<Step>)
    requires Possible(s, a) && Possible(After(s, a), b)
    ensures Possible(s, a + b) && After(s, a + b) == After(After(s, a), b)
    decreases |a|
  {
    if a == [] {
      assert a + b == b;
    } else {
      var step, more := a[0], a[1..];
      Unfold(s, a);
      Compose(Next(s, step), more, b);
      Prepend(s, step, more + b);
      FirstOff(a, b);
    }
  }

  lemma OneMore(s: Loop, a: seq<Step>, v: Loop, step: Step)
    requires Leads(s, a, v) && Enabled(v, step)
    ensures Leads(s, a + [step], Next(v, step)) && Sane(Next(v, step))
  {
    NextSane(v, step);
    Prepend(v, step, []);
    Compose(s, a, [step]);
  }
}
