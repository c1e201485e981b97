/** No wakeup is lost, duplicated or made up: over every run of the event loop whose coroutines
    each keep to sockets of their own. */
module EventLoopSafety {
  import opened Options
  import opened EventLoopModel

  // ---- what is asked of the coroutines ----

  /** A coroutine that goes on closes no socket but the one it was waiting for (`own`), awaits
      no socket somebody else is waiting for, and does not leave its own socket registered
      unless it awaits it again. */
  predicate Disciplined(s: Loop, own: Option<Sock>, r: Response) {
    r.closes <= (if own.Some? then {own.value} else {}) &&
    (r.next.Await? && r.next.sock in s.selector ==> own == Some(r.next.sock)) &&
    (own.Some? ==> own.value in r.closes || r.next == Await(own.value))
  }

  /** Whether the main coroutine is resumed at the top of the loop. */
  predicate MainReady(s: Loop) {
    s.mainFuture < |s.futures| &&
    (s.current.Value? || (s.current.f < |s.futures| && s.futures[s.current.f].result.Some?))
  }

  /** The coroutine resumed by a step, if there is one, is disciplined; a main coroutine that
      returns may do what it likes, for that ends the run. */
  ghost predicate Polite(s: Loop, step: Step)
    requires Enabled(s, step)
  {
    match step
    case DoTop(r) => MainReady(s) && r.next.Await? ==> Disciplined(s, Some(s.futures[s.mainFuture].sock), r)
    case DoTask(r) =>
      s.phase.i < |s.toRun| && s.tasks[s.toRun[s.phase.i]].state.NotStarted? ==> Disciplined(s, None, r)
    case DoSelect(_) => true
    case DoEvent(r) =>
      var cb := s.futures[s.phase.events[0].f].callback;
      cb.FutureDone? ==> Disciplined(s, Some(s.futures[s.tasks[cb.t].state.f].sock), r)
  }

  // ---- what holds whatever the coroutines do ----

  /** A coroutine stands at this future. */
  predicate Standing(s: Loop, f: nat)
    requires f < |s.futures|
  {
    match s.futures[f].waiter
    case Main => s.mainFuture == f && !s.phase.Returned?
    case Task(t) => t < |s.tasks| && s.tasks[t] == TaskRec(Awaiting(f), false)
  }

  /** The callback that gets a coroutine going. */
  function Due(who: Who): Callback {
    match who
    case Main => SetCurrent
    case Task(t) => FutureDone(t)
  }

  /** A coroutine goes on once, with the result of the future it stood at; till then it stands
      there. Only the main coroutine, whose turn is at the top of the loop, may stand at a
      finished future. */
  predicate FutureOk(s: Loop, f: nat)
    requires f < |s.futures|
  {
    var x := s.futures[f];
    (x.sent != [] ==> x.result.Some? && x.sent == [x.result.value] && x.callback == Due(x.waiter)) &&
    (x.sent == [] ==> Standing(s, f)) &&
    (x.waiter.Task? ==> x.waiter.t < |s.tasks| && s.tasks[x.waiter.t].state.Awaiting?) &&
    (x.sent == [] && x.result.Some? ==> x.waiter.Main? && (s.phase.Top? || s.phase.Handling?)) &&
    (x.callback == NoCallback || x.callback == Due(x.waiter))
  }

  ghost predicate FuturesOk(s: Loop) {
    forall f :: 0 <= f < |s.futures| ==> FutureOk(s, f)
  }

  ghost predicate SelectorOk(s: Loop) {
    forall x :: x in s.selector ==> s.selector[x] < |s.futures| && s.futures[s.selector[x]].sock == x
  }

  /** The tasks still to be stepped in this round. */
  function Todo(s: Loop): seq<nat> {
    if s.phase.Tasks? && s.phase.i <= |s.toRun| then s.toRun[s.phase.i..] else s.toRun
  }

  ghost predicate Distinct(q: seq<nat>) {
    forall i, j :: 0 <= i < j < |q| ==> q[i] != q[j]
  }

  /** What a task awaits is its own; who has not begun will be stepped; who has ended was
      resumed from its last future. */
  predicate TaskOk(s: Loop, t: nat)
    requires t < |s.tasks|
  {
    match s.tasks[t].state
    case NotStarted => (t in Todo(s) <==> !s.tasks[t].isFinished) && (s.phase.Selecting? ==> s.tasks[t].isFinished)
    case Awaiting(f) =>
      f < |s.futures| && s.futures[f].waiter == Task(t) && (s.tasks[t].isFinished <==> s.futures[f].sent != []) &&
      (!s.tasks[t].isFinished ==> t in s.toRun) &&
      (!s.tasks[t].isFinished && (s.phase.Tasks? || s.phase.Selecting?) ==>
         (s.phase.Tasks? && t in Todo(s)) || s.futures[f].callback == FutureDone(t))
  }

  ghost predicate TasksOk(s: Loop) {
    Distinct(s.toRun) && (s.phase.Tasks? ==> s.phase.i <= |s.toRun|) &&
    (forall k :: 0 <= k < |s.toRun| ==> s.toRun[k] < |s.tasks|) &&
    forall t :: 0 <= t < |s.tasks| ==> TaskOk(s, t)
  }

  /** The main coroutine stands at a future; `current_result` is that future or its result. */
  ghost predicate MainOk(s: Loop) {
    s.mainFuture < |s.futures| && s.futures[s.mainFuture].waiter.Main? &&
    match s.current
    case Pending(f) =>
      f < |s.futures| &&
      (!s.phase.Returned? ==> f == s.mainFuture && s.futures[f].sent == []) &&
      (s.phase.Tasks? || s.phase.Selecting? ==> s.futures[f].result.None?)
    case Value(d) =>
      (s.phase.Top? || s.phase.Handling? || s.phase.Returned?) && s.futures[s.mainFuture].result == Some(d) &&
      s.futures[s.mainFuture].callback == SetCurrent &&
      (!s.phase.Returned? ==> s.futures[s.mainFuture].sent == [])
  }

  /** The events being handled are for different futures, unfinished and with the callback
      their waiters need. */
  ghost predicate EventsOk(s: Loop) {
    s.phase.Handling? ==>
      s.phase.events != [] &&
      (forall k :: 0 <= k < |s.phase.events| ==> EventOk(s, s.phase.events[k].f)) &&
      forall j, k :: 0 <= j < k < |s.phase.events| ==> s.phase.events[j].f != s.phase.events[k].f
  }

  predicate EventOk(s: Loop, f: nat) {
    f < |s.futures| && s.futures[f].result.None? &&
    (s.futures[f].waiter.Task? ==> s.futures[f].callback == FutureDone(s.futures[f].waiter.t))
  }

  ghost predicate Coherent(s: Loop) {
    FuturesOk(s) && SelectorOk(s) && TasksOk(s) && MainOk(s) && EventsOk(s)
  }

  // ---- what holds if they are disciplined ----

  predicate Registered(s: Loop, f: nat)
    requires f < |s.futures|
  {
    s.futures[f].sock in s.selector && s.selector[s.futures[f].sock] == f
  }

  /** Until the main coroutine returns, the futures at which coroutines stand are registered,
      and no others. */
  ghost predicate Owned(s: Loop) {
    s.phase.Returned? ||
    ((forall f :: 0 <= f < |s.futures| && s.futures[f].sent == [] ==> Registered(s, f)) &&
     forall x :: x in s.selector ==> s.selector[x] < |s.futures| && s.futures[s.selector[x]].sent == [])
  }

  ghost predicate Inv(s: Loop) {
    Coherent(s) && Owned(s)
  }

  lemma CoherentSane(s: Loop)
    requires Coherent(s)
    ensures Sane(s)
  {
    forall f | 0 <= f < |s.futures| && s.futures[f].callback.FutureDone?
      ensures s.futures[f].callback.t < |s.tasks| && s.tasks[s.futures[f].callback.t].state.Awaiting?
    {
      assert FutureOk(s, f);
    }
    forall t | 0 <= t < |s.tasks| && s.tasks[t].state.Awaiting?
      ensures s.tasks[t].state.f < |s.futures|
    {
      assert TaskOk(s, t);
    }
  }

  // ---- the top of the loop ----

  lemma TopWaits(s: Loop, r: Response)
    requires Coherent(s) && Enabled(s, DoTop(r)) && !MainReady(s)
    ensures Coherent(Next(s, DoTop(r)))
  {
    var v := Next(s, DoTop(r));
    forall f | 0 <= f < |v.futures| ensures FutureOk(v, f) { assert FutureOk(s, f); }
    forall t | 0 <= t < |v.tasks| ensures TaskOk(v, t) { assert TaskOk(s, t); }
    assert Todo(v) == s.toRun;
  }

  /** New tasks have not begun and will be stepped. */
  lemma NewTasksOk(s: Loop, v: Loop, n: nat)
    requires TasksOk(s) && !s.phase.Selecting?
    requires v.tasks == NewTasks(s, n).tasks && v.toRun == NewTasks(s, n).toRun && v.phase == s.phase
    requires v.futures == s.futures
    ensures TasksOk(v)
  {
    var ids := seq(n, i requires 0 <= i < n => |s.tasks| + i);
    assert Todo(v) == Todo(s) + ids;
    forall t | 0 <= t < |v.tasks| ensures TaskOk(v, t) {
      if t < |s.tasks| {
        assert TaskOk(s, t);
        assert t !in ids;
      } else {
        assert ids[t - |s.tasks|] == t;
      }
    }
  }

  lemma StartOk(sock: Sock, spawns: nat)
    ensures Inv(Start(sock, spawns))
  {
    var s := Start(sock, spawns);
    var bare := s.(tasks := [], toRun := []);
    NewTasksOk(bare, s, spawns);
    assert FutureOk(s, 0);
  }

  // ---- a coroutine goes on ----

  /** A step that concerns only future `g` and what stands at it leaves the others in order. */
  lemma OthersKeep(s: Loop, v: Loop, g: nat)
    requires FuturesOk(s) && g < |s.futures| <= |v.futures| && |s.tasks| <= |v.tasks|
    requires forall f :: 0 <= f < |s.futures| && f != g ==> v.futures[f] == s.futures[f]
    requires forall t :: 0 <= t < |s.tasks| && s.tasks[t].state.Awaiting? ==>
               v.tasks[t].state.Awaiting? && (s.tasks[t].state.f != g ==> v.tasks[t] == s.tasks[t])
    requires s.mainFuture != g ==> v.mainFuture == s.mainFuture && !v.phase.Returned? && (v.phase.Top? || v.phase.Handling?)
    ensures forall f :: 0 <= f < |s.futures| && f != g ==> FutureOk(v, f)
  {
    forall f | 0 <= f < |s.futures| && f != g
      ensures FutureOk(v, f)
    {
      assert FutureOk(s, f);
    }
  }

  /** The main coroutine goes on at the top of the loop: `w` is the loop there, apart from the
      phase already moved on. */
  lemma ResumeMainKeeps(s: Loop, w: Loop, data: Data, r: Response)
    requires Coherent(s) && s.phase.Top? && s.futures[s.mainFuture].result == Some(data)
    requires w == s.(phase := Tasks(0), futures := w.futures)
    requires w.futures == s.futures[s.mainFuture := s.futures[s.mainFuture].(callback := SetCurrent)]
    ensures Coherent(ResumeMain(w, data, r))
  {
    var g := s.mainFuture;
    assert FutureOk(s, g);
    var v := ResumeMain(w, data, r);
    forall f | 0 <= f < |v.futures| ensures FutureOk(v, f) {
      if f < |s.futures| { assert FutureOk(s, f); }
    }
    ResumeMainKeepsTasks(s, w, v, data, r);
  }

  lemma ResumeMainKeepsTasks(s: Loop, w: Loop, v: Loop, data: Data, r: Response)
    requires Coherent(s) && s.phase.Top? && s.mainFuture < |s.futures|
    requires w == s.(phase := Tasks(0), futures := w.futures) && |w.futures| == |s.futures|
    requires forall f :: 0 <= f < |s.futures| && f != s.mainFuture ==> w.futures[f] == s.futures[f]
    requires v == ResumeMain(w, data, r)
    ensures TasksOk(v)
  {
    forall t | 0 <= t < |s.tasks| && s.tasks[t].state.Awaiting?
      ensures s.tasks[t].state.f != s.mainFuture
    {
      assert TaskOk(s, t);
    }
    var bare := v.(tasks := s.tasks, toRun := s.toRun);
    assert Todo(bare) == s.toRun;
    forall t | 0 <= t < |s.tasks| ensures TaskOk(bare, t) { assert TaskOk(s, t); }
    NewTasksOk(bare, v, r.spawns);
  }

  lemma TopResumes(s: Loop, r: Response)
    requires Coherent(s) && Enabled(s, DoTop(r)) && MainReady(s)
    ensures Coherent(Next(s, DoTop(r)))
    ensures Next(s, DoTop(r)).futures[s.mainFuture].sent == [s.futures[s.mainFuture].result.value]
  {
    var w := AddDoneCallback(s.(phase := Tasks(0)), s.mainFuture, SetCurrent);
    var x := s.futures[s.mainFuture];
    if s.current.Value? {
      assert x.(callback := SetCurrent) == x && w.futures == s.futures;
    }
    ResumeMainKeeps(s, w, x.result.value, r);
  }

  // ---- the tasks ----

  lemma {:induction false} UnfinishedMembers(tasks: seq<TaskRec>, q: seq<nat>)
    requires forall i :: 0 <= i < |q| ==> q[i] < |tasks|
    ensures forall t :: t in Unfinished(tasks, q) <==> t in q && t < |tasks| && !tasks[t].isFinished
  {
    if q != [] {
      UnfinishedMembers(tasks, q[1..]);
      assert q == [q[0]] + q[1..];
    }
  }

  lemma {:induction false} UnfinishedDistinct(tasks: seq<TaskRec>, q: seq<nat>)
    requires forall i :: 0 <= i < |q| ==> q[i] < |tasks|
    requires Distinct(q)
    ensures Distinct(Unfinished(tasks, q))
  {
    if q != [] {
      UnfinishedDistinct(tasks, q[1..]);
      UnfinishedMembers(tasks, q[1..]);
      assert q[0] !in q[1..];
    }
  }

  lemma PruneKeeps(s: Loop, r: Response)
    requires Coherent(s) && Enabled(s, DoTask(r)) && s.phase.i == |s.toRun|
    ensures Coherent(Next(s, DoTask(r)))
  {
    var v := Next(s, DoTask(r));
    UnfinishedMembers(s.tasks, s.toRun);
    UnfinishedDistinct(s.tasks, s.toRun);
    assert forall k :: 0 <= k < |v.toRun| ==> v.toRun[k] in v.toRun;
    forall f | 0 <= f < |v.futures| ensures FutureOk(v, f) { assert FutureOk(s, f); }
    forall t | 0 <= t < |v.tasks| ensures TaskOk(v, t) {
      assert TaskOk(s, t);
      assert Todo(s) == [];
    }
  }

  lemma TodoNext(s: Loop)
    requires TasksOk(s) && s.phase.Tasks? && s.phase.i < |s.toRun|
    ensures var rest := s.toRun[s.phase.i + 1..];
            Todo(s) == [s.toRun[s.phase.i]] + rest && s.toRun[s.phase.i] !in rest
  {
  }

  /** A task that has begun gets its callback attached to the future it stands at. */
  lemma AttachKeeps(s: Loop, r: Response)
    requires Coherent(s) && Enabled(s, DoTask(r)) && s.phase.i < |s.toRun|
    requires s.tasks[s.toRun[s.phase.i]].state.Awaiting?
    ensures Coherent(Next(s, DoTask(r)))
  {
    var v := Next(s, DoTask(r));
    var t0 := s.toRun[s.phase.i];
    TodoNext(s);
    assert TaskOk(s, t0);
    forall f | 0 <= f < |v.futures| ensures FutureOk(v, f) { assert FutureOk(s, f); }
    forall t | 0 <= t < |v.tasks| ensures TaskOk(v, t) { assert TaskOk(s, t); }
  }

  /** A task begins: it stands at a new future with its callback attached, or has ended. */
  lemma BeginKeeps(s: Loop, r: Response)
    requires Coherent(s) && Enabled(s, DoTask(r)) && s.phase.i < |s.toRun|
    requires s.tasks[s.toRun[s.phase.i]].state.NotStarted?
    ensures Coherent(Next(s, DoTask(r)))
  {
    var v := Next(s, DoTask(r));
    var t0 := s.toRun[s.phase.i];
    assert TaskOk(s, t0);
    TodoNext(s);
    assert t0 in Todo(s);
    BeginKeepsFutures(s, v, r);
    BeginKeepsTasks(s, v, r);
  }

  lemma BeginKeepsFutures(s: Loop, v: Loop, r: Response)
    requires Coherent(s) && Enabled(s, DoTask(r)) && s.phase.i < |s.toRun| && v == Next(s, DoTask(r))
    requires s.tasks[s.toRun[s.phase.i]].state.NotStarted?
    ensures FuturesOk(v) && SelectorOk(v)
  {
    var t0 := s.toRun[s.phase.i];
    TodoNext(s);
    assert TaskOk(s, t0) && t0 in Todo(s);
    assert v.futures == s.futures + if r.next.Await? then [Future(r.next.sock, Task(t0), None, FutureDone(t0), [])] else [];
    forall f | 0 <= f < |s.futures| ensures FutureOk(v, f) { assert FutureOk(s, f); }
    assert r.next.Await? ==> FutureOk(v, |s.futures|);
  }

  lemma BeginKeepsTasks(s: Loop, v: Loop, r: Response)
    requires Coherent(s) && Enabled(s, DoTask(r)) && s.phase.i < |s.toRun| && v == Next(s, DoTask(r))
    requires s.tasks[s.toRun[s.phase.i]].state.NotStarted? && s.toRun[s.phase.i] in Todo(s)
    ensures TasksOk(v)
  {
    var t0 := s.toRun[s.phase.i];
    var rec := if r.next.Await? then TaskRec(Awaiting(|s.futures|), false) else TaskRec(NotStarted, true);
    var bare := s.(futures := v.futures, tasks := s.tasks[t0 := rec], phase := v.phase);
    assert TaskOk(s, t0);
    BegunTasksOk(s, bare, t0, r);
    NewTasksOk(bare, v, r.spawns);
  }

  lemma BegunTasksOk(s: Loop, v: Loop, t0: nat, r: Response)
    requires TasksOk(s) && s.phase.Tasks? && s.phase.i < |s.toRun| && t0 == s.toRun[s.phase.i]
    requires s.tasks[t0] == TaskRec(NotStarted, false)
    requires v.phase == Tasks(s.phase.i + 1) && v.toRun == s.toRun
    requires |v.tasks| == |s.tasks| && v.tasks == s.tasks[t0 := v.tasks[t0]]
    requires if r.next.Await?
             then v.tasks[t0] == TaskRec(Awaiting(|s.futures|), false) &&
                  v.futures == s.futures + [Future(r.next.sock, Task(t0), None, FutureDone(t0), [])]
             else v.tasks[t0] == TaskRec(NotStarted, true) && v.futures == s.futures
    ensures TasksOk(v)
  {
    TodoNext(s);
    assert t0 in v.toRun;
    forall t | 0 <= t < |v.tasks| ensures TaskOk(v, t) {
      assert TaskOk(s, t);
    }
  }

  // ---- the events ----

  /** What is registered is waited for, so every event has its coroutine. */
  lemma SelectKeeps(s: Loop, ready: seq<(Sock, Data)>)
    requires Coherent(s) && Owned(s) && Enabled(s, DoSelect(ready))
    ensures Coherent(Next(s, DoSelect(ready)))
  {
    var v := Next(s, DoSelect(ready));
    forall f | 0 <= f < |v.futures| ensures FutureOk(v, f) { assert FutureOk(s, f); }
    forall t | 0 <= t < |v.tasks| ensures TaskOk(v, t) { assert TaskOk(s, t); }
    var events := v.phase.events;
    forall k | 0 <= k < |events|
      ensures EventOk(v, events[k].f) && s.futures[events[k].f].sock == ready[k].0
    {
      var f := s.selector[ready[k].0];
      assert FutureOk(s, f);
      if s.futures[f].waiter.Task? { assert TaskOk(s, s.futures[f].waiter.t); }
    }
  }

  /** An event for the future the main coroutine stands at. */
  lemma MainEventKeeps(s: Loop, r: Response)
    requires Coherent(s) && Enabled(s, DoEvent(r)) && !s.futures[s.phase.events[0].f].callback.FutureDone?
    ensures Coherent(Next(s, DoEvent(r)))
  {
    var v := Next(s, DoEvent(r));
    var f0 := s.phase.events[0].f;
    assert EventOk(s, f0) && FutureOk(s, f0);
    assert f0 == s.mainFuture;
    forall f | 0 <= f < |v.futures| ensures FutureOk(v, f) { assert FutureOk(s, f); }
    forall t | 0 <= t < |v.tasks| ensures TaskOk(v, t) { assert TaskOk(s, t); }
    LaterEvents(s);
  }

  /** The remaining events are for other futures than the first. */
  lemma LaterEvents(s: Loop)
    requires EventsOk(s) && s.phase.Handling?
    ensures var rest := s.phase.events[1..];
            (forall k :: 0 <= k < |rest| ==> EventOk(s, rest[k].f) && rest[k].f != s.phase.events[0].f) &&
            forall j, k :: 0 <= j < k < |rest| ==> rest[j].f != rest[k].f
  {
  }

  /** An event for a future a task stands at: the task goes on from it. */
  lemma TaskEventKeeps(s: Loop, r: Response)
    requires Coherent(s) && Enabled(s, DoEvent(r))
    requires s.futures[s.phase.events[0].f].callback.FutureDone?
    ensures Coherent(Next(s, DoEvent(r)))
    ensures var f := s.phase.events[0].f;
            Next(s, DoEvent(r)).futures[f] == s.futures[f].(result := Some(s.phase.events[0].data), sent := [s.phase.events[0].data])
  {
    var v := Next(s, DoEvent(r));
    assert EventOk(s, s.phase.events[0].f) && FutureOk(s, s.phase.events[0].f);
    TaskEventKeepsFutures(s, v, r);
    TaskEventKeepsTasks(s, v, r);
    LaterEvents(s);
  }

  lemma TaskEventKeepsFutures(s: Loop, v: Loop, r: Response)
    requires Coherent(s) && Enabled(s, DoEvent(r)) && v == Next(s, DoEvent(r))
    requires s.futures[s.phase.events[0].f].callback.FutureDone?
    requires FutureOk(s, s.phase.events[0].f) && s.futures[s.phase.events[0].f].sent == []
    ensures FuturesOk(v) && SelectorOk(v)
    ensures var f := s.phase.events[0].f;
            v.futures[f] == s.futures[f].(result := Some(s.phase.events[0].data), sent := [s.phase.events[0].data])
  {
    var e := s.phase.events[0];
    TaskEventKeepsOthers(s, v, e.f, s.futures[e.f].callback.t);
    assert FutureOk(v, e.f);
    if r.next.Await? {
      assert FutureOk(v, |s.futures|);
    }
  }

  lemma TaskEventKeepsOthers(s: Loop, v: Loop, g: nat, t0: nat)
    requires Coherent(s) && g < |s.futures| <= |v.futures| && |s.tasks| <= |v.tasks|
    requires s.futures[g].waiter == Task(t0) && t0 < |s.tasks| && s.tasks[t0] == TaskRec(Awaiting(g), false)
    requires forall f :: 0 <= f < |s.futures| && f != g ==> v.futures[f] == s.futures[f]
    requires forall t :: 0 <= t < |s.tasks| && t != t0 ==> v.tasks[t] == s.tasks[t]
    requires v.tasks[t0].state.Awaiting? && v.mainFuture == s.mainFuture && (v.phase.Top? || v.phase.Handling?)
    ensures forall f :: 0 <= f < |s.futures| && f != g ==> FutureOk(v, f)
  {
    OthersKeep(s, v, g);
  }

  lemma TaskEventKeepsTasks(s: Loop, v: Loop, r: Response)
    requires Coherent(s) && Enabled(s, DoEvent(r)) && v == Next(s, DoEvent(r))
    requires s.futures[s.phase.events[0].f].callback.FutureDone?
    requires FutureOk(s, s.phase.events[0].f) && s.futures[s.phase.events[0].f].sent == []
    ensures TasksOk(v)
  {
    var f0 := s.phase.events[0].f;
    var t0 := s.futures[f0].callback.t;
    var rec := if r.next.Await? then TaskRec(Awaiting(|s.futures|), false) else TaskRec(Awaiting(f0), true);
    var bare := s.(futures := v.futures, tasks := s.tasks[t0 := rec], phase := v.phase);
    assert TaskOk(s, t0);
    forall t | 0 <= t < |s.tasks| ensures TaskOk(bare, t) {
      assert TaskOk(s, t);
    }
    NewTasksOk(bare, v, r.spawns);
  }

  /** Every step keeps the order of futures and tasks; only `select` depends on what the
      coroutines have left registered. */
  lemma StepKeepsCoherent(s: Loop, step: Step)
    requires Coherent(s) && Enabled(s, step) && (step.DoSelect? ==> Owned(s))
    ensures Coherent(Next(s, step))
  {
    match step
    case DoTop(r) => if MainReady(s) { TopResumes(s, r); } else { TopWaits(s, r); }
    case DoTask(r) =>
      if s.phase.i == |s.toRun| { PruneKeeps(s, r); }
      else if s.tasks[s.toRun[s.phase.i]].state.Awaiting? { AttachKeeps(s, r); }
      else { BeginKeeps(s, r); }
    case DoSelect(ready) => SelectKeeps(s, ready);
    case DoEvent(r) =>
      if s.futures[s.phase.events[0].f].callback.FutureDone? { TaskEventKeeps(s, r); }
      else { MainEventKeeps(s, r); }
  }

  // ---- what is registered ----

  /** From `s` to `v` nobody goes on: registrations and what was sent stay. */
  ghost predicate Still(s: Loop, v: Loop) {
    v.selector == s.selector && |v.futures| == |s.futures| &&
    forall f :: 0 <= f < |s.futures| ==> v.futures[f].sock == s.futures[f].sock && v.futures[f].sent == s.futures[f].sent
  }

  /** From `s` to `v` a coroutine goes on with `r`, from future `g` or from its beginning. */
  ghost predicate Resumes(s: Loop, v: Loop, g: Option<nat>, r: Response) {
    (g.Some? ==> g.value < |s.futures| && s.futures[g.value].sent == []) &&
    |v.futures| == |s.futures| + (if r.next.Await? then 1 else 0) &&
    (forall f :: 0 <= f < |s.futures| ==>
       v.futures[f].sock == s.futures[f].sock &&
       (if g == Some(f) then v.futures[f].sent != [] else v.futures[f].sent == s.futures[f].sent)) &&
    match r.next
    case Await(x) =>
      v.selector == (s.selector - r.closes)[x := |s.futures|] &&
      v.futures[|s.futures|].sock == x && v.futures[|s.futures|].sent == []
    case Return => v.selector == s.selector - r.closes
  }

  function Own(s: Loop, g: Option<nat>): Option<Sock>
    requires g.Some? ==> g.value < |s.futures|
  {
    if g.Some? then Some(s.futures[g.value].sock) else None
  }

  lemma StillOwned(s: Loop, v: Loop)
    requires Still(s, v) && (s.phase.Returned? <==> v.phase.Returned?)
    ensures Owned(s) <==> Owned(v)
  {
    assert forall f :: 0 <= f < |s.futures| ==> (Registered(s, f) <==> Registered(v, f));
    assert forall x :: x in s.selector ==> (s.selector[x] < |s.futures| && s.futures[s.selector[x]].sent == [] <==>
                                            v.selector[x] < |v.futures| && v.futures[v.selector[x]].sent == []);
  }

  lemma DisciplineKeeps(s: Loop, v: Loop, g: Option<nat>, r: Response)
    requires SelectorOk(s) && Owned(s) && !s.phase.Returned? && Resumes(s, v, g, r)
    requires Disciplined(s, Own(s, g), r)
    ensures Owned(v)
  {
    forall f | 0 <= f < |v.futures| && v.futures[f].sent == []
      ensures Registered(v, f)
    {
      if f < |s.futures| { assert Registered(s, f); }
    }
    forall x | x in v.selector
      ensures v.selector[x] < |v.futures| && v.futures[v.selector[x]].sent == []
    {
      if x in s.selector && v.selector[x] == s.selector[x] {
        assert s.futures[s.selector[x]].sock == x;
      }
    }
  }

  /** Whoever goes on without discipline disturbs a registration. */
  lemma DisciplineNeeded(s: Loop, v: Loop, g: Option<nat>, r: Response)
    requires SelectorOk(s) && Owned(s) && !s.phase.Returned? && !v.phase.Returned?
    requires Resumes(s, v, g, r) && r.closes <= s.selector.Keys && Owned(v)
    ensures Disciplined(s, Own(s, g), r)
  {
    forall y | y in r.closes ensures Own(s, g) == Some(y) {
      Robbed(s, v, g, r, y);
    }
    if r.next.Await? && r.next.sock in s.selector {
      Robbed(s, v, g, r, r.next.sock);
    }
    if g.Some? {
      assert Registered(s, g.value);
      OwnGone(s, v, g.value, r);
    }
  }

  lemma OwnGone(s: Loop, v: Loop, g: nat, r: Response)
    requires g < |s.futures| && Registered(s, g) && Resumes(s, v, Some(g), r) && Owned(v) && !v.phase.Returned?
    ensures s.futures[g].sock in r.closes || r.next == Await(s.futures[g].sock)
  {
    var own := s.futures[g].sock;
    assert v.futures[g].sent != [];
    assert own in v.selector ==> v.selector[own] != g;
  }

  lemma Robbed(s: Loop, v: Loop, g: Option<nat>, r: Response, y: Sock)
    requires SelectorOk(s) && Owned(s) && !s.phase.Returned? && !v.phase.Returned?
    requires Resumes(s, v, g, r) && Owned(v) && y in s.selector
    requires y in r.closes || r.next == Await(y)
    ensures Own(s, g) == Some(y)
  {
    var h := s.selector[y];
    assert g != Some(h) ==> v.futures[h].sent == [] && !Registered(v, h);
  }

  // ---- which steps let whom go on ----

  /** The future at which the coroutine stands that a step lets go on; `None` inside if it is
      a task's first step, and no value at all if nobody goes on. */
  function Resumed(s: Loop, step: Step): Option<Option<nat>>
    requires Enabled(s, step)
  {
    match step
    case DoTop(_) => if MainReady(s) then Some(Some(s.mainFuture)) else None
    case DoTask(_) =>
      if s.phase.i < |s.toRun| && s.tasks[s.toRun[s.phase.i]].state.NotStarted? then Some(None) else None
    case DoSelect(_) => None
    case DoEvent(_) =>
      var cb := s.futures[s.phase.events[0].f].callback;
      if cb.FutureDone? then Some(Some(s.tasks[cb.t].state.f)) else None
  }

  lemma StepMoves(s: Loop, step: Step)
    requires Coherent(s) && Enabled(s, step)
    ensures if Resumed(s, step).None? then Still(s, Next(s, step))
            else Resumes(s, Next(s, step), Resumed(s, step).value, step.r)
    ensures !s.phase.Returned?
    ensures Next(s, step).phase.Returned? <==> step.DoTop? && MainReady(s) && step.r.next.Return?
  {
    match step
    case DoTop(r) => TopMoves(s, r);
    case DoTask(r) => TaskMoves(s, r);
    case DoSelect(_) =>
    case DoEvent(r) => EventMoves(s, r);
  }

  /** Every coroutine that goes on leaves behind the tasks it creates, not yet begun; nobody
      else creates any. */
  lemma StepSpawns(s: Loop, step: Step)
    requires Coherent(s) && Enabled(s, step)
    ensures var v := Next(s, step);
            |v.tasks| == |s.tasks| + (if Resumed(s, step).Some? then step.r.spawns else 0) &&
            forall t :: |s.tasks| <= t < |v.tasks| ==> v.tasks[t] == TaskRec(NotStarted, false)
  {
    if s.phase.Handling? { HeadStands(s); }
    if s.phase.Top? { assert FutureOk(s, s.mainFuture); }
  }

  /** `select` hands on each ready socket's data with the future it is registered with, and
      the data of the event handled becomes its future's result; nothing else gives or changes
      a result. */
  lemma StepDelivers(s: Loop, step: Step)
    requires Coherent(s) && Enabled(s, step)
    ensures var v := Next(s, step);
            forall f :: 0 <= f < |s.futures| ==>
              v.futures[f].result == if step.DoEvent? && f == s.phase.events[0].f then Some(s.phase.events[0].data) else s.futures[f].result
    ensures step.DoEvent? ==> var rest := s.phase.events[1..]; Next(s, step).phase == if rest == [] then Top else Handling(rest)
    ensures step.DoSelect? ==> Next(s, step).phase == Handling(Selected(s, step.ready))
    ensures step.DoSelect? ==> |Selected(s, step.ready)| == |step.ready|
    ensures step.DoSelect? ==> forall k :: 0 <= k < |step.ready| ==>
              Selected(s, step.ready)[k] == Event(s.selector[step.ready[k].0], step.ready[k].1)
  {
    if s.phase.Handling? { HeadStands(s); }
    if s.phase.Top? { assert FutureOk(s, s.mainFuture); }
  }

  /** The first event's future gets its data, and the others are still to come. */
  lemma FirstDelivered(s: Loop, step: Step)
    requires Coherent(s) && s.phase.Handling? && Enabled(s, step)
    ensures var v := Next(s, step);
            Coherent(v) && |s.futures| <= |v.futures| &&
            v.phase == (if s.phase.events[1..] == [] then Top else Handling(s.phase.events[1..])) &&
            forall f :: 0 <= f < |s.futures| ==>
              v.futures[f].result == if f == s.phase.events[0].f then Some(s.phase.events[0].data) else s.futures[f].result
    ensures forall k :: 0 <= k < |s.phase.events| ==> s.phase.events[k].f < |s.futures|
    ensures forall k :: 0 < k < |s.phase.events| ==> s.phase.events[k].f != s.phase.events[0].f
  {
    StepDelivers(s, step);
    StepKeepsCoherent(s, step);
    StepMoves(s, step);
    assert forall k :: 0 <= k < |s.phase.events| ==> EventOk(s, s.phase.events[k].f);
  }

  lemma {:induction false} EventsDelivered(s: Loop, steps: seq<Step>)
    requires Coherent(s) && s.phase.Handling? && Possible(s, steps) && |steps| == |s.phase.events|
    ensures After(s, steps).phase == Top && |s.futures| <= |After(s, steps).futures|
    ensures forall f :: 0 <= f < |s.futures| && (forall k :: 0 <= k < |s.phase.events| ==> s.phase.events[k].f != f) ==>
              After(s, steps).futures[f].result == s.futures[f].result
    ensures forall k :: 0 <= k < |s.phase.events| ==>
              s.phase.events[k].f < |s.futures| &&
              After(s, steps).futures[s.phase.events[k].f].result == Some(s.phase.events[k].data)
    decreases |steps|
  {
    var v := Next(s, steps[0]);
    FirstDelivered(s, steps[0]);
    if |steps| == 1 {
      assert steps[1..] == [];
    } else {
      EventsDelivered(v, steps[1..]);
      assert forall k :: 1 <= k < |s.phase.events| ==> s.phase.events[k] == v.phase.events[k - 1];
    }
  }

  /** What `select` reports is what the futures of the ready sockets get, each its own, whatever
      the coroutines do meanwhile. */
  lemma ReadyIsDelivered(s: Loop, ready: seq<(Sock, Data)>, steps: seq<Step>)
    requires Inv(s) && Enabled(s, DoSelect(ready))
    requires Possible(Next(s, DoSelect(ready)), steps) && |steps| == |ready|
    ensures var v := After(Next(s, DoSelect(ready)), steps);
            v.phase == Top &&
            forall k :: 0 <= k < |ready| ==>
              s.selector[ready[k].0] < |v.futures| && v.futures[s.selector[ready[k].0]].result == Some(ready[k].1)
  {
    StepKeepsCoherent(s, DoSelect(ready));
    StepDelivers(s, DoSelect(ready));
    var events := Selected(s, ready);
    EventsDelivered(Next(s, DoSelect(ready)), steps);
    assert forall k :: 0 <= k < |ready| ==> events[k].f == s.selector[ready[k].0] && events[k].data == ready[k].1;
  }

  lemma TopMoves(s: Loop, r: Response)
    requires Coherent(s) && Enabled(s, DoTop(r))
    ensures var v := Next(s, DoTop(r));
            if MainReady(s) then Resumes(s, v, Some(s.mainFuture), r) && (v.phase.Returned? <==> r.next.Return?)
            else Still(s, v) && !v.phase.Returned?
  {
    assert FutureOk(s, s.mainFuture);
  }

  lemma TaskMoves(s: Loop, r: Response)
    requires Coherent(s) && Enabled(s, DoTask(r))
    ensures var v := Next(s, DoTask(r));
            !v.phase.Returned? &&
            if s.phase.i < |s.toRun| && s.tasks[s.toRun[s.phase.i]].state.NotStarted? then Resumes(s, v, None, r)
            else Still(s, v)
  {
  }

  lemma EventMoves(s: Loop, r: Response)
    requires Coherent(s) && Enabled(s, DoEvent(r))
    ensures var v := Next(s, DoEvent(r));
            var f := s.phase.events[0].f;
            !v.phase.Returned? &&
            if s.futures[f].callback.FutureDone? then Resumes(s, v, Some(f), r) else Still(s, v)
    ensures var f := s.phase.events[0].f;
            s.futures[f].callback.FutureDone? ==> s.tasks[s.futures[f].callback.t].state.f == f
  {
    HeadStands(s);
  }

  /** The first event is for a future at which its coroutine stands. */
  lemma HeadStands(s: Loop)
    requires Coherent(s) && s.phase.Handling?
    ensures s.phase.events != [] && EventOk(s, s.phase.events[0].f)
    ensures var f := s.phase.events[0].f;
            s.futures[f].sent == [] &&
            match s.futures[f].callback
            case FutureDone(t) => t < |s.tasks| && s.tasks[t].state == Awaiting(f)
            case _ => f == s.mainFuture
  {
    assert FutureOk(s, s.phase.events[0].f);
  }

  // ---- the exact condition, step by step ----

  /** The invariant survives a step exactly if the step is polite. */
  lemma StepExact(s: Loop, step: Step)
    requires Inv(s) && Enabled(s, step)
    ensures Polite(s, step) <==> Inv(Next(s, step))
  {
    var v := Next(s, step);
    StepMoves(s, step);
    StepKeepsCoherent(s, step);
    if step.DoEvent? { HeadStands(s); }
    if Resumed(s, step).None? {
      StillOwned(s, v);
    } else if !v.phase.Returned? {
      var g := Resumed(s, step).value;
      if Polite(s, step) {
        DisciplineKeeps(s, v, g, step.r);
      } else if Owned(v) {
        DisciplineNeeded(s, v, g, step.r);
      }
    }
  }

  // ---- runs ----

  ghost predicate AllPolite(s: Loop, steps: seq<Step>)
    requires Possible(s, steps)
    decreases |steps|
  {
    steps == [] || (Polite(s, steps[0]) && AllPolite(Next(s, steps[0]), steps[1..]))
  }

  /** From the start on, every step possible and polite. */
  ghost predicate Run(sock: Sock, spawns: nat, steps: seq<Step>) {
    Possible(Start(sock, spawns), steps) && AllPolite(Start(sock, spawns), steps)
  }

  lemma {:induction false} PoliteKeepsInv(s: Loop, steps: seq<Step>)
    requires Inv(s) && Possible(s, steps) && AllPolite(s, steps)
    ensures Inv(After(s, steps))
    decreases |steps|
  {
    if steps != [] {
      StepExact(s, steps[0]);
      PoliteKeepsInv(Next(s, steps[0]), steps[1..]);
    }
  }

  lemma RunInv(sock: Sock, spawns: nat, steps: seq<Step>)
    requires Run(sock, spawns, steps)
    ensures Inv(After(Start(sock, spawns), steps))
  {
    StartOk(sock, spawns);
    PoliteKeepsInv(Start(sock, spawns), steps);
  }

  /** No wakeup is duplicated and none is made up: after every run a coroutine has gone on at
      most once from each future it stood at, and then with the result of that future. */
  lemma AtMostOneWakeup(sock: Sock, spawns: nat, steps: seq<Step>, f: nat)
    requires Run(sock, spawns, steps) && f < |After(Start(sock, spawns), steps).futures|
    ensures var x := After(Start(sock, spawns), steps).futures[f];
            x.sent == [] || (x.IsFinished() && x.sent == [x.result.value])
  {
    RunInv(sock, spawns, steps);
    assert FutureOk(After(Start(sock, spawns), steps), f);
  }

  /** Completing the future will get the coroutine that stands at it going. */
  predicate WillWake(s: Loop, f: nat)
    requires f < |s.futures|
  {
    var x := s.futures[f];
    x.result.None? && Registered(s, f) &&
    match x.waiter
    case Main => s.current == Pending(f)
    case Task(t) => t < |s.tasks| && t in s.toRun && s.tasks[t] == TaskRec(Awaiting(f), false) && x.callback == FutureDone(t)
  }

  lemma SelectingWakes(s: Loop, f: nat)
    requires Inv(s) && s.phase.Selecting? && f < |s.futures|
    ensures s.futures[f].sent == [] ==> WillWake(s, f)
  {
    assert FutureOk(s, f);
    if s.futures[f].sent == [] && s.futures[f].waiter.Task? {
      assert TaskOk(s, s.futures[f].waiter.t);
    }
  }

  /** No wakeup is lost: whenever the loop is about to block in `select`, every completed
      future has resumed its waiter, and completing any other will resume its waiter. */
  lemma NoLostWakeup(sock: Sock, spawns: nat, steps: seq<Step>, f: nat)
    requires Run(sock, spawns, steps) && After(Start(sock, spawns), steps).phase.Selecting?
    requires f < |After(Start(sock, spawns), steps).futures|
    ensures var s := After(Start(sock, spawns), steps);
            var x := s.futures[f];
            if x.IsFinished() then x.sent == [x.result.value] else x.sent == [] && WillWake(s, f)
  {
    var s := After(Start(sock, spawns), steps);
    RunInv(sock, spawns, steps);
    assert FutureOk(s, f);
    SelectingWakes(s, f);
  }

  /** Whenever the loop is about to block, every unfinished task has begun. */
  lemma EveryTaskBegins(sock: Sock, spawns: nat, steps: seq<Step>, t: nat)
    requires Run(sock, spawns, steps) && After(Start(sock, spawns), steps).phase.Selecting?
    requires t < |After(Start(sock, spawns), steps).tasks|
    ensures var s := After(Start(sock, spawns), steps);
            t in s.toRun ==> s.tasks[t].state.Awaiting?
  {
    RunInv(sock, spawns, steps);
    assert TaskOk(After(Start(sock, spawns), steps), t);
  }
}
