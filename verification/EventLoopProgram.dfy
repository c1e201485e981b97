/** The event loop as it runs: fields updated in place, tasks and events gone through in
    loops. Every method makes the transition of EventLoopModel it stands for. */
module EventLoopProgram {
  import opened Bytes
  import opened Options
  import opened EventLoopModel

  /** Stepping a task and delivering a result do not look at where `run` stands. */
  lemma StepTaskAnywhere(s: Loop, t: nat, r: Response)
    requires Sane(s) && t < |s.tasks|
    ensures Sane(s.(phase := Top))
    ensures StepTask(s, t, r) == StepTask(s.(phase := Top), t, r).(phase := s.phase)
  {
  }

  lemma StepKeepsQueue(s: Loop, t: nat, r: Response)
    requires Sane(s) && t < |s.tasks|
    ensures |s.toRun| <= |StepTask(s, t, r).toRun|
  {
  }

  lemma SetResultAnywhere(s: Loop, f: nat, data: Data, r: Response)
    requires Sane(s) && f < |s.futures|
    ensures Sane(s.(phase := Top))
    ensures SetResult(s, f, data, r) == SetResult(s.(phase := Top), f, data, r).(phase := s.phase)
  {
  }

  lemma UnfinishedNext(tasks: seq<TaskRec>, q: seq<nat>, k: nat, kept: seq<nat>)
    requires k < |q| && forall i :: 0 <= i < |q| ==> q[i] < |tasks|
    ensures kept + Unfinished(tasks, q[k..]) ==
            (if tasks[q[k]].isFinished then kept else kept + [q[k]]) + Unfinished(tasks, q[k + 1..])
  {
    var rest := Unfinished(tasks, q[k + 1..]);
    assert q[k..][0] == q[k] && q[k..][1..] == q[k + 1..];
    if tasks[q[k]].isFinished {
      assert [] + rest == rest;
    } else {
      Associative(kept, [q[k]], rest);
    }
  }

  class EventLoop {
    var futures: seq<Future>
    var selector: map<Sock, nat>
    var tasks: seq<TaskRec>
    var toRun: seq<nat>
    var current: Current
    var mainFuture: nat

    function State(phase: Phase): Loop
      reads this
    {
      Loop(futures, selector, tasks, toRun, current, mainFuture, phase)
    }

    /** `__init__` and `run` up to its loop. */
    constructor (sock: Sock, spawns: nat)
      ensures State(Top) == Start(sock, spawns)
    {
      futures, selector := [Future(sock, Main, None, NoCallback, [])], map[sock := 0];
      current, mainFuture := Pending(0), 0;
      tasks, toRun := [], [];
      new;
      RegisterTasks(spawns);
    }

    /** `register_task`, for each task a coroutine creates. */
    method RegisterTasks(n: nat)
      modifies this`tasks, this`toRun
      ensures State(Top) == NewTasks(old(State(Top)), n)
    {
      var before := |tasks|;
      ghost var t0, q0 := tasks, toRun;
      for i := 0 to n
        invariant tasks == t0 + seq(i, _ => TaskRec(NotStarted, false))
        invariant toRun == q0 + seq(i, j requires 0 <= j < i => before + j)
      {
        toRun := toRun + [|tasks|];
        tasks := tasks + [TaskRec(NotStarted, false)];
      }
    }

    /** `_register_socket_to_read` */
    method RegisterSocketToRead(who: Who, sock: Sock) returns (future: nat)
      modifies this`futures, this`selector
      ensures future == |old(futures)|
      ensures State(Top) == Register(old(State(Top)), who, sock)
    {
      future := |futures|;
      futures := futures + [Future(sock, who, None, NoCallback, [])];
      selector := selector[sock := future];
    }

    /** `coro.send`: the future the coroutine yields, if it does not return. */
    method Resume(who: Who, r: Response) returns (yielded: Option<nat>)
      modifies this`futures, this`selector, this`tasks, this`toRun
      ensures State(Top) == Send(old(State(Top)), who, r)
      ensures yielded == if r.next.Await? then Some(|old(futures)|) else None
    {
      selector := selector - r.closes;
      RegisterTasks(r.spawns);
      match r.next
      case Await(sock) =>
        var f := RegisterSocketToRead(who, sock);
        yielded := Some(f);
      case Return =>
        yielded := None;
    }

    /** The body of `run`'s try block; true when the main coroutine has returned. */
    method RunTop(r: Response) returns (returned: bool)
      requires Sane(State(Top))
      modifies this
      ensures State(if returned then Returned else Tasks(0)) == TopOfLoop(old(State(Top)), r)
      ensures returned <==> TopOfLoop(old(State(Top)), r).phase.Returned?
    {
      var result := None;
      match current {
        case Pending(f) =>
          futures := futures[f := futures[f].(callback := SetCurrent)];
          result := futures[f].result;
        case Value(data) =>
          result := Some(data);
      }
      if result.None? {
        return false;
      }
      futures := futures[mainFuture := futures[mainFuture].(sent := futures[mainFuture].sent + [result.value])];
      var yielded := Resume(Main, r);
      if yielded.None? {
        return true;
      }
      current, mainFuture := Pending(yielded.value), yielded.value;
      returned := false;
    }

    /** `CustomTask.step` */
    method Step(t: nat, r: Response)
      requires Sane(State(Top)) && t < |tasks|
      modifies this
      ensures State(Top) == StepTask(old(State(Top)), t, r)
    {
      if tasks[t].state.NotStarted? {
        var yielded := Resume(Task(t), r);
        if yielded.None? {
          tasks := tasks[t := tasks[t].(isFinished := true)];
          return;
        }
        tasks := tasks[t := tasks[t].(state := Awaiting(yielded.value))];
      }
      var f := tasks[t].state.f;
      futures := futures[f := futures[f].(callback := FutureDone(t))];
    }

    /** `[task for task in self._tasks_to_run if not task.is_finished()]` */
    method DropFinished()
      requires forall i :: 0 <= i < |toRun| ==> toRun[i] < |tasks|
      modifies this`toRun
      ensures toRun == Unfinished(tasks, old(toRun))
    {
      var kept := [];
      for k := 0 to |toRun|
        invariant toRun == old(toRun)
        invariant kept + Unfinished(tasks, toRun[k..]) == Unfinished(tasks, toRun)
      {
        UnfinishedNext(tasks, toRun, k, kept);
        if !tasks[toRun[k]].isFinished {
          kept := kept + [toRun[k]];
        }
      }
      toRun := kept;
    }

    method StepOnce(i: nat, script: seq<Step>, n: nat, ghost start: Loop)
      requires i < |toRun| && Fits(script, n)
      requires Sane(State(Tasks(i))) && Leads(start, script[..n], State(Tasks(i)))
      modifies this
      ensures Sane(State(Tasks(i + 1))) && Leads(start, script[..n + 1], State(Tasks(i + 1)))
      ensures i < |toRun|
    {
      Further(start, script, n, State(Tasks(i)));
      StepTaskAnywhere(State(Tasks(i)), toRun[i], script[n].r);
      StepKeepsQueue(State(Tasks(i)), toRun[i], script[n].r);
      Step(toRun[i], script[n].r);
    }

    /** The `for task in self._tasks_to_run` loop and the list comprehension after it, from
        the script's `n0`-th entry on; tasks created meanwhile are gone through as well. False
        if the script ends before that or does not fit. */
    method RunTasks(script: seq<Step>, n0: nat, ghost start: Loop) returns (done: bool, n: nat, ghost i: nat)
      requires n0 <= |script| && Leads(start, script[..n0], State(Tasks(0))) && Sane(State(Tasks(0)))
      modifies this
      ensures n0 <= n <= |script|
      ensures var s := State(if done then Selecting else Tasks(i));
              Leads(start, script[..n], s) && Sane(s) && (!done ==> Stops(s, script, n))
    {
      n := n0;
      var k := 0;
      while k < |toRun| && Fits(script, n)
        invariant n0 <= n <= |script| && k <= |toRun|
        invariant Sane(State(Tasks(k))) && Leads(start, script[..n], State(Tasks(k)))
        decreases |script| - n
      {
        StepOnce(k, script, n, start);
        n, k := n + 1, k + 1;
      }
      if !Fits(script, n) {
        return false, n, k;
      }
      Prune(k, script, n, start);
      return true, n + 1, k;
    }

    /** After the last task the finished ones are dropped. */
    method Prune(i: nat, script: seq<Step>, n: nat, ghost start: Loop)
      requires i == |toRun| && Fits(script, n)
      requires Sane(State(Tasks(i))) && Leads(start, script[..n], State(Tasks(i)))
      modifies this`toRun
      ensures Sane(State(Selecting)) && Leads(start, script[..n + 1], State(Selecting))
    {
      Further(start, script, n, State(Tasks(i)));
      DropFinished();
    }

    /** Whether the next entry is what a task may do. */
    predicate Fits(script: seq<Step>, n: nat)
      reads this
    {
      n < |script| && script[n].DoTask? && script[n].r.closes <= selector.Keys
    }

    /** `recieved_data` or `accept_connection`, through `set_result` and its callback. */
    method SetResult(f: nat, data: Data, r: Response)
      requires Sane(State(Top)) && f < |futures|
      modifies this
      ensures State(Top) == EventLoopModel.SetResult(old(State(Top)), f, data, r)
    {
      var callback := futures[f].callback;
      futures := futures[f := futures[f].(result := Some(data))];
      match callback
      case NoCallback =>
      case SetCurrent =>
        current := Value(data);
      case FutureDone(t) =>
        var g := tasks[t].state.f;
        futures := futures[g := futures[g].(sent := futures[g].sent + [data])];
        var yielded := Resume(Task(t), r);
        match yielded
        case None => tasks := tasks[t := tasks[t].(isFinished := true)];
        case Some(n) => tasks := tasks[t := tasks[t].(state := Awaiting(n))];
    }

    /** The first of the events, as the script's next entry has it. */
    method HandleFirst(events: seq<Event>, script: seq<Step>, n: nat, ghost start: Loop)
      requires events != [] && n < |script| && script[n].DoEvent? && script[n].r.closes <= selector.Keys
      requires Leads(start, script[..n], State(Handling(events))) && Sane(State(Handling(events)))
      modifies this
      ensures Leads(start, script[..n + 1], State(Later(events[1..]))) && Sane(State(Later(events[1..])))
    {
      Further(start, script, n, State(Handling(events)));
      SetResultAnywhere(State(Handling(events)), events[0].f, events[0].data, script[n].r);
      SetResult(events[0].f, events[0].data, script[n].r);
    }

    /** The loop over the events of one `select`. */
    method RunEvents(events: seq<Event>, script: seq<Step>, n0: nat, ghost start: Loop)
      returns (done: bool, n: nat, ghost rest: seq<Event>)
      requires events != [] && n0 <= |script|
      requires Leads(start, script[..n0], State(Handling(events))) && Sane(State(Handling(events)))
      modifies this
      ensures n0 <= n <= |script| && (done <==> rest == [])
      ensures var s := State(Later(rest)); Leads(start, script[..n], s) && Sane(s) && (!done ==> Stops(s, script, n))
    {
      n := n0;
      for i := 0 to |events|
        invariant n0 <= n <= |script|
        invariant Sane(State(Later(events[i..]))) && Leads(start, script[..n], State(Later(events[i..])))
      {
        if n == |script| || !script[n].DoEvent? || !(script[n].r.closes <= selector.Keys) {
          return false, n, events[i..];
        }
        assert events[i..][1..] == events[i + 1..];
        HandleFirst(events[i..], script, n, start);
        n := n + 1;
      }
      return true, n, [];
    }

    /** `select`: each ready socket once, with what it is registered with. */
    method Select(ready: seq<(Sock, Data)>) returns (ok: bool, events: seq<Event>)
      ensures ok <==> ready != [] && (forall k :: 0 <= k < |ready| ==> ready[k].0 in selector) &&
                      forall j, k :: 0 <= j < k < |ready| ==> ready[j].0 != ready[k].0
      ensures ok ==> |events| == |ready| && events == Selected(State(Selecting), ready)
    {
      ok := ready != [] && (forall k :: 0 <= k < |ready| ==> ready[k].0 in selector) &&
            forall j, k :: 0 <= j < k < |ready| ==> ready[j].0 != ready[k].0;
      events := if ok then Selected(State(Selecting), ready) else [];
    }

    /** One time round the loop of `run`; false if the main coroutine returned or the script
        went no further. */
    method RunOnce(script: seq<Step>, n0: nat, ghost start: Loop) returns (again: bool, n: nat, ghost phase: Phase)
      requires n0 < |script| && Leads(start, script[..n0], State(Top)) && Sane(State(Top))
      modifies this
      ensures n0 <= n <= |script| && Leads(start, script[..n], State(phase))
      ensures if again then n0 < n && phase == Top && Sane(State(Top)) else Stops(State(phase), script, n)
    {
      n, phase := n0, Top;
      if !script[n].DoTop? || !(script[n].r.closes <= selector.Keys) {
        return false, n, Top;
      }
      Further(start, script, n, State(Top));
      var returned := RunTop(script[n].r);
      n := n + 1;
      if returned {
        return false, n, Returned;
      }
      var done;
      ghost var i;
      done, n, i := RunTasks(script, n, start);
      if !done {
        return false, n, Tasks(i);
      }
      again, n, phase := RunReady(script, n, start);
    }

    /** `select` and the callbacks of the ready sockets. */
    method RunReady(script: seq<Step>, n0: nat, ghost start: Loop) returns (again: bool, n: nat, ghost phase: Phase)
      requires n0 <= |script| && Leads(start, script[..n0], State(Selecting)) && Sane(State(Selecting))
      modifies this
      ensures n0 <= n <= |script| && Leads(start, script[..n], State(phase))
      ensures if again then phase == Top && Sane(State(Top)) else Stops(State(phase), script, n)
    {
      n, phase := n0, Selecting;
      if n == |script| || !script[n].DoSelect? {
        return false, n, Selecting;
      }
      var ok, events := Select(script[n].ready);
      if !ok {
        return false, n, Selecting;
      }
      Further(start, script, n, State(Selecting));
      ghost var rest;
      again, n, rest := RunEvents(events, script, n + 1, start);
      phase := Later(rest);
    }

    /** The loop of `run`. The script says, one entry a step, what the coroutines do and which
        sockets become ready. The loop makes the model's steps as the script has them, and ends
        only when the main coroutine has returned, the script is at its end, or its next entry
        is not possible. */
    method Run(script: seq<Step>) returns (n: nat, ghost phase: Phase)
      requires Sane(State(Top))
      modifies this
      ensures n <= |script| && Leads(old(State(Top)), script[..n], State(phase)) && Stops(State(phase), script, n)
    {
      n, phase := 0, Top;
      ghost var start := State(Top);
      var again := n < |script|;
      while again && n < |script|
        invariant n <= |script| && Leads(start, script[..n], State(phase))
        invariant again ==> phase == Top && Sane(State(Top))
        invariant !again ==> Stops(State(phase), script, n)
        decreases again, |script| - n
      {
        again, n, phase := RunOnce(script, n, start);
      }
    }
  }

  /** The script goes no further. */
  ghost predicate Stops(s: Loop, script: seq<Step>, n: nat)
    requires n <= |script|
  {
    n == |script| || !Enabled(s, script[n])
  }

  lemma Further(start: Loop, script: seq<Step>, n: nat, s: Loop)
    requires n < |script| && Leads(start, script[..n], s) && Enabled(s, script[n])
    ensures Leads(start, script[..n + 1], Next(s, script[n])) && Sane(Next(s, script[n]))
  {
    OneMore(start, script[..n], s, script[n]);
    assert script[..n + 1] == script[..n] + [script[n]];
  }

  function Later(events: seq<Event>): Phase {
    if events == [] then Top else Handling(events)
  }
}
