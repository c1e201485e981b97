/** The discipline of EventLoopSafety is exactly what it takes: one step without it, and a
    wakeup can be lost, duplicated or made up although everybody is well-behaved from then on. */
module EventLoopFaults {
  import opened Options
  import opened EventLoopModel
  import opened EventLoopSafety

  // ---- what can go wrong ----

  /** A coroutine went on twice from this future, or without its result. */
  predicate Miswoken(x: Future) {
    x.sent != [] && !(x.result.Some? && x.sent == [x.result.value])
  }

  /** A socket is about to be read that was closed: the one of the next event, or the one at
      which the main coroutine goes on. */
  predicate ReadsClosed(s: Loop) {
    match s.phase
    case Handling(events) =>
      events != [] && events[0].f < |s.futures| && s.futures[events[0].f].sock !in s.selector
    case Top => MainReady(s) && s.futures[s.mainFuture].sock !in s.selector
    case _ => false
  }

  /** A wakeup duplicated or made up, or impossible, or, when the loop is about to block, lost. */
  ghost predicate Fault(s: Loop) {
    (exists f :: 0 <= f < |s.futures| && Miswoken(s.futures[f])) || ReadsClosed(s) ||
    (s.phase.Selecting? && exists f :: 0 <= f < |s.futures| && s.futures[f].sent == [] && !WillWake(s, f))
  }

  // ---- coroutines above suspicion ----

  /** The coroutine that goes on awaits its socket again; a task that begins ends at once. */
  ghost function Calm(s: Loop): Response
    requires Sane(s)
  {
    match s.phase
    case Top => Response({}, 0, Await(s.futures[s.mainFuture].sock))
    case Handling(events) =>
      if events != [] && s.futures[events[0].f].callback.FutureDone? then
        Response({}, 0, Await(s.futures[s.tasks[s.futures[events[0].f].callback.t].state.f].sock))
      else Response({}, 0, Return)
    case _ => Response({}, 0, Return)
  }

  ghost predicate AllCalm(s: Loop, steps: seq<Step>)
    requires Possible(s, steps)
    decreases |steps|
  {
    steps == [] || ((steps[0].DoSelect? || steps[0].r == Calm(s)) && AllCalm(Next(s, steps[0]), steps[1..]))
  }

  /** Nothing goes wrong from here on, whatever sockets become ready, if the coroutines are calm. */
  ghost predicate Harmless(s: Loop) {
    forall steps :: Possible(s, steps) && AllCalm(s, steps) ==> !Fault(After(s, steps))
  }

  // ---- politeness suffices ----

  lemma InvHasNoFault(s: Loop)
    requires Inv(s)
    ensures !Fault(s)
  {
    forall f | 0 <= f < |s.futures|
      ensures !Miswoken(s.futures[f])
      ensures s.phase.Selecting? && s.futures[f].sent == [] ==> WillWake(s, f)
    {
      assert FutureOk(s, f);
      if s.phase.Selecting? { SelectingWakes(s, f); }
    }
    if s.phase.Handling? {
      HeadStands(s);
      assert Registered(s, s.phase.events[0].f);
    }
    if s.phase.Top? {
      assert Registered(s, s.mainFuture);
    }
  }

  lemma CalmIsPolite(s: Loop, step: Step)
    requires Inv(s) && Enabled(s, step) && (step.DoSelect? || step.r == Calm(s))
    ensures Polite(s, step)
  {
    if s.phase.Handling? { HeadStands(s); }
  }

  lemma {:induction false} InvIsHarmless(s: Loop, steps: seq<Step>)
    requires Inv(s) && Possible(s, steps) && AllCalm(s, steps)
    ensures !Fault(After(s, steps))
    decreases |steps|
  {
    if steps == [] {
      InvHasNoFault(s);
    } else {
      CalmIsPolite(s, steps[0]);
      StepExact(s, steps[0]);
      InvIsHarmless(Next(s, steps[0]), steps[1..]);
    }
  }

  // ---- politeness is needed ----

  /** A socket registered with a future left behind is nobody's who waits. */
  ghost predicate Clear(s: Loop) {
    forall x, f :: x in s.selector && 0 <= f < |s.futures| && s.futures[f].sent == [] && LeftBehind(s, x) ==>
                     s.futures[f].sock != x
  }

  predicate LeftBehind(s: Loop, x: Sock)
    requires x in s.selector
  {
    s.selector[x] < |s.futures| && s.futures[s.selector[x]].sent != []
  }

  /** Somebody waits unregistered, or something is registered for which nobody waits. */
  ghost predicate Doomed(s: Loop) {
    Coherent(s) && !Owned(s) && Clear(s)
  }

  lemma ResumedClear(s: Loop, v: Loop, g: Option<nat>, r: Response)
    requires SelectorOk(s) && Owned(s) && !s.phase.Returned? && Resumes(s, v, g, r)
    ensures Clear(v)
  {
    forall x, f | x in v.selector && 0 <= f < |v.futures| && v.futures[f].sent == [] && LeftBehind(v, x)
      ensures v.futures[f].sock != x
    {
      assert x in s.selector && v.selector[x] == s.selector[x];
      assert s.futures[s.selector[x]].sent == [];
      if f < |s.futures| { assert Registered(s, f); }
    }
  }

  lemma ImpoliteDooms(s: Loop, step: Step)
    requires Inv(s) && Enabled(s, step) && !Polite(s, step)
    ensures Doomed(Next(s, step))
  {
    StepExact(s, step);
    StepKeepsCoherent(s, step);
    StepMoves(s, step);
    ResumedClear(s, Next(s, step), Resumed(s, step).value, step.r);
  }

  /** The calm step that comes next when the loop does not block. */
  ghost function CalmStep(s: Loop): Step
    requires Sane(s)
  {
    match s.phase
    case Top => DoTop(Calm(s))
    case Handling(_) => DoEvent(Calm(s))
    case _ => DoTask(Calm(s))
  }

  ghost function CalmNext(s: Loop): (v: Loop)
    requires Sane(s) && Enabled(s, CalmStep(s))
    ensures Sane(v)
  {
    NextSane(s, CalmStep(s));
    Next(s, CalmStep(s))
  }

  /** A coroutine that awaits its socket again does not put right what is wrong with others. */
  lemma CalmResumption(s: Loop, v: Loop, g: nat, r: Response)
    requires SelectorOk(s) && Clear(s) && Resumes(s, v, Some(g), r) && !v.phase.Returned?
    requires r == Response({}, 0, Await(s.futures[g].sock)) && s.futures[g].sock in s.selector
    ensures Owned(v) ==> Owned(s)
    ensures Clear(v)
  {
    var z := s.futures[g].sock;
    var k := s.selector[z];
    assert v.selector == s.selector[z := |s.futures|];
    assert !LeftBehind(s, z);
    if Owned(v) {
      assert v.futures[k].sock == z && v.selector[z] != k;
      assert k == g;
      forall f | 0 <= f < |s.futures| && s.futures[f].sent == [] ensures Registered(s, f) {
        if f != g { assert Registered(v, f); }
      }
      forall x | x in s.selector ensures s.futures[s.selector[x]].sent == [] {
        if x != z { assert v.selector[x] == s.selector[x]; }
      }
    }
    forall x, f | x in v.selector && 0 <= f < |v.futures| && v.futures[f].sent == [] && LeftBehind(v, x)
      ensures v.futures[f].sock != x
    {
      assert x != z && LeftBehind(s, x);
    }
  }

  lemma NobodyResumed(s: Loop, v: Loop)
    requires Still(s, v) && Clear(s)
    ensures Clear(v)
  {
    forall x, f | x in v.selector && 0 <= f < |v.futures| && v.futures[f].sent == [] && LeftBehind(v, x)
      ensures v.futures[f].sock != x
    {
      assert LeftBehind(s, x);
    }
  }

  /** A task that ends at once changes nothing. */
  lemma IdleResumption(s: Loop, v: Loop)
    requires Resumes(s, v, None, Response({}, 0, Return))
    ensures Still(s, v)
  {
    assert s.selector - {} == s.selector;
  }

  lemma CalmStaysDoomed(s: Loop)
    requires Doomed(s) && !s.phase.Selecting? && !ReadsClosed(s)
    ensures Sane(s) && Enabled(s, CalmStep(s)) && Doomed(Next(s, CalmStep(s)))
  {
    CoherentSane(s);
    var step := CalmStep(s);
    var v := Next(s, step);
    StepKeepsCoherent(s, step);
    StepMoves(s, step);
    if s.phase.Handling? { HeadStands(s); }
    match Resumed(s, step) {
      case None =>
        StillOwned(s, v);
        NobodyResumed(s, v);
      case Some(None) =>
        IdleResumption(s, v);
        StillOwned(s, v);
        NobodyResumed(s, v);
      case Some(Some(g)) =>
        CalmResumption(s, v, g, step.r);
    }
  }

  function Rank(s: Loop): nat {
    match s.phase
    case Handling(_) => 3
    case Top => 2
    case Tasks(_) => 1
    case _ => 0
  }

  function Ahead(s: Loop): int {
    match s.phase
    case Handling(events) => |events|
    case Tasks(i) => |s.toRun| - i
    case _ => 0
  }

  lemma CalmGetsOn(s: Loop)
    requires Coherent(s) && Sane(s) && !s.phase.Selecting? && !s.phase.Returned? && Enabled(s, CalmStep(s))
    ensures var v := Next(s, CalmStep(s));
            !v.phase.Returned? && 0 <= Ahead(v) &&
            (Rank(v) < Rank(s) || (Rank(v) == Rank(s) && Ahead(v) < Ahead(s)))
  {
    StepMoves(s, CalmStep(s));
  }

  lemma FirstStep(s: Loop, step: Step, more: seq<Step>)
    requires Enabled(s, step) && (step.DoSelect? || step.r == Calm(s))
    requires Possible(Next(s, step), more) && AllCalm(Next(s, step), more)
    ensures Possible(s, [step] + more) && AllCalm(s, [step] + more)
    ensures After(s, [step] + more) == After(Next(s, step), more)
  {
    assert ([step] + more)[0] == step && ([step] + more)[1..] == more;
  }

  /** The loop after data at a socket that was left registered with `g`. */
  function Stray(s: Loop, g: nat, data: Data): Loop {
    s.(phase := Handling([Event(g, data)]))
  }

  /** It gets a task going that waits elsewhere, or has ended. */
  lemma StrayTask(s: Loop, g: nat, data: Data)
    requires Coherent(s) && Sane(s) && s.phase.Selecting? && g < |s.futures| && s.futures[g].sent != []
    requires s.futures[g].waiter.Task?
    ensures var u := Stray(s, g, data); Enabled(u, CalmStep(u)) && Fault(CalmNext(u))
  {
    var u := Stray(s, g, data);
    assert FutureOk(s, g);
    var t := s.futures[g].waiter.t;
    var n := s.tasks[t].state.f;
    assert TaskOk(s, t) && FutureOk(s, n);
    var v := CalmNext(u);
    assert v.futures[n].sent == s.futures[n].sent + [data];
    assert Miswoken(v.futures[n]);
  }

  /** Or the main coroutine, which waits elsewhere. */
  lemma StrayMain(s: Loop, g: nat, data: Data)
    requires Coherent(s) && Sane(s) && s.phase.Selecting? && g < |s.futures| && s.futures[g].sent != []
    requires s.futures[g].waiter.Main?
    ensures var u := Stray(s, g, data);
            Enabled(u, CalmStep(u)) && Enabled(CalmNext(u), CalmStep(CalmNext(u))) && Fault(CalmNext(CalmNext(u)))
  {
    var u := Stray(s, g, data);
    assert FutureOk(s, g) && FutureOk(s, s.mainFuture);
    var v := CalmNext(u);
    assert v.phase == Top && v.current == Value(data);
    var w := CalmNext(v);
    assert w.futures[s.mainFuture].sent == [data];
    assert Miswoken(w.futures[s.mainFuture]);
  }

  lemma SelectingDoom(s: Loop) returns (steps: seq<Step>)
    requires Doomed(s) && s.phase.Selecting?
    ensures Possible(s, steps) && AllCalm(s, steps) && Fault(After(s, steps))
  {
    CoherentSane(s);
    if f :| 0 <= f < |s.futures| && s.futures[f].sent == [] && !Registered(s, f) {
      assert !WillWake(s, f);
      return [];
    }
    var x :| x in s.selector && LeftBehind(s, x);
    var g := s.selector[x];
    var u := Stray(s, g, 0);
    assert Selected(s, [(x, 0)]) == [Event(g, 0)];
    assert Enabled(s, DoSelect([(x, 0)])) && Next(s, DoSelect([(x, 0)])) == u;
    if s.futures[g].waiter.Task? {
      StrayTask(s, g, 0);
      steps := [];
    } else {
      StrayMain(s, g, 0);
      FirstStep(CalmNext(u), CalmStep(CalmNext(u)), []);
      steps := [CalmStep(CalmNext(u))] + [];
    }
    FirstStep(u, CalmStep(u), steps);
    FirstStep(s, DoSelect([(x, 0)]), [CalmStep(u)] + steps);
    steps := [DoSelect([(x, 0)])] + ([CalmStep(u)] + steps);
  }

  /** From a doomed state calm coroutines and a suitable choice of ready sockets lead to a
      fault. */
  lemma {:induction false} Doom(s: Loop) returns (steps: seq<Step>)
    requires Doomed(s)
    ensures Possible(s, steps) && AllCalm(s, steps) && Fault(After(s, steps))
    decreases Rank(s), Ahead(s)
  {
    if ReadsClosed(s) {
      steps := [];
    } else if s.phase.Selecting? {
      steps := SelectingDoom(s);
    } else {
      CalmStaysDoomed(s);
      CalmGetsOn(s);
      var more := Doom(Next(s, CalmStep(s)));
      FirstStep(s, CalmStep(s), more);
      steps := [CalmStep(s)] + more;
    }
  }

  // ---- the exact condition ----

  /** Every state that the steps pass is harmless. */
  ghost predicate HarmlessThroughout(s: Loop, steps: seq<Step>)
    requires Possible(s, steps)
    decreases |steps|
  {
    Harmless(s) && (steps == [] || HarmlessThroughout(Next(s, steps[0]), steps[1..]))
  }

  lemma InvIsExact(s: Loop, step: Step)
    requires Inv(s) && Enabled(s, step)
    ensures Harmless(s)
    ensures Polite(s, step) <==> Harmless(Next(s, step))
  {
    forall steps | Possible(s, steps) && AllCalm(s, steps) ensures !Fault(After(s, steps)) {
      InvIsHarmless(s, steps);
    }
    var v := Next(s, step);
    if Polite(s, step) {
      StepExact(s, step);
      forall steps | Possible(v, steps) && AllCalm(v, steps) ensures !Fault(After(v, steps)) {
        InvIsHarmless(v, steps);
      }
    } else {
      ImpoliteDooms(s, step);
      var steps := Doom(v);
      assert Possible(v, steps) && AllCalm(v, steps) && Fault(After(v, steps));
    }
  }

  lemma {:induction false} PolitenessIsExactFrom(s: Loop, steps: seq<Step>)
    requires Inv(s) && Possible(s, steps)
    ensures AllPolite(s, steps) <==> HarmlessThroughout(s, steps)
    decreases |steps|
  {
    if steps == [] {
      forall more | Possible(s, more) && AllCalm(s, more) ensures !Fault(After(s, more)) {
        InvIsHarmless(s, more);
      }
    } else {
      InvIsExact(s, steps[0]);
      if Polite(s, steps[0]) {
        StepExact(s, steps[0]);
        PolitenessIsExactFrom(Next(s, steps[0]), steps[1..]);
      }
    }
  }

  /** Over all that the loop can do from its start, whatever the coroutines do: their steps
      are polite exactly if at no point a wakeup can be lost, duplicated, made up or robbed of
      its socket by coroutines that from then on only await their own sockets again. */
  lemma PolitenessIsExact(sock: Sock, spawns: nat, steps: seq<Step>)
    requires Possible(Start(sock, spawns), steps)
    ensures AllPolite(Start(sock, spawns), steps) <==> HarmlessThroughout(Start(sock, spawns), steps)
  {
    StartOk(sock, spawns);
    PolitenessIsExactFrom(Start(sock, spawns), steps);
  }

  // ---- one run that goes wrong ----

  ghost predicate Moves(s: Loop, step: Step, v: Loop) {
    Enabled(s, step) && v == Next(s, step)
  }

  /** A loop without tasks. */
  function Bare(futures: seq<Future>, selector: map<Sock, nat>, current: Current, mainFuture: nat, phase: Phase): Loop {
    Loop(futures, selector, [], [], current, mainFuture, phase)
  }

  lemma NoSpawns(s: Loop)
    ensures NewTasks(s, 0) == s
  {
    assert s.tasks + seq(0, _ => TaskRec(NotStarted, false)) == s.tasks;
    assert s.toRun + seq(0, i requires 0 <= i < 0 => |s.tasks| + i) == s.toRun;
  }

  lemma HopMoves(d: Data, a: Sock, b: Sock, s: Loop, v: Loop)
    requires a != b
    requires s == Bare([Future(a, Main, Some(d), SetCurrent, [])], map[a := 0], Value(d), 0, Top)
    requires v == Bare([Future(a, Main, Some(d), SetCurrent, [d]), Future(b, Main, None, NoCallback, [])],
                       map[a := 0, b := 1], Pending(1), 1, Tasks(0))
    ensures Moves(s, DoTop(Response({}, 0, Await(b))), v)
  {
    var w := Deliver(s.(phase := Tasks(0)), 0, d);
    assert [] + [d] == [d];
    assert w.futures[0] == Future(a, Main, Some(d), SetCurrent, [d]);
    assert w.selector - {} == w.selector;
    NoSpawns(w);
    assert w.selector[b := 1] == v.selector;
  }

  lemma IdleMoves(s: Loop, v: Loop)
    requires s.tasks == [] && s.toRun == [] && s.phase == Tasks(0) && Sane(s) && v == s.(phase := Selecting)
    ensures Moves(s, DoTask(Response({}, 0, Return)), v)
  {
  }

  lemma DataMoves(d: Data, a: Sock, s: Loop, u: Loop, v: Loop)
    requires s.tasks == [] && s.toRun == [] && Sane(s) && a in s.selector && s.selector[a] == 0 && s.phase == Selecting
    requires s.futures[0].callback == SetCurrent
    requires u == s.(phase := Handling([Event(0, d)]))
    requires v == s.(futures := s.futures[0 := s.futures[0].(result := Some(d))], current := Value(d), phase := Top)
    ensures Moves(s, DoSelect([(a, d)]), u) && Moves(u, DoEvent(Response({}, 0, Return)), v)
  {
    assert Selected(s, [(a, d)]) == [Event(0, d)];
  }

  lemma StrayMoves(d: Data, s: Loop)
    requires s.tasks == [] && s.toRun == [] && Sane(s) && s.phase == Top && s.current == Value(d) && s.mainFuture == 1
    requires s.futures[1].result.None? && s.futures[1].sent == []
    ensures Enabled(s, DoTop(Response({}, 0, Return)))
    ensures var v := Next(s, DoTop(Response({}, 0, Return)));
            1 < |v.futures| && v.futures[1].result.None? && v.futures[1].sent == [d]
  {
  }

  const IDLE := Response({}, 0, Return)

  lemma StartMoves(a: Sock, v: Loop)
    requires v == Bare([Future(a, Main, None, SetCurrent, [])], map[a := 0], Pending(0), 0, Tasks(0))
    ensures Moves(Start(a, 0), DoTop(IDLE), v)
  {
    var s := Bare([Future(a, Main, None, NoCallback, [])], map[a := 0], Pending(0), 0, Top);
    NoSpawns(s);
    assert Start(a, 0) == s;
  }

  /** Data arrives where the main coroutine waits. */
  lemma FirstRound(a: Sock, d: Data) returns (s1: Loop, s2: Loop, s3: Loop, s4: Loop)
    ensures Moves(Start(a, 0), DoTop(IDLE), s1) && Moves(s1, DoTask(IDLE), s2)
    ensures Moves(s2, DoSelect([(a, d)]), s3) && Moves(s3, DoEvent(IDLE), s4)
    ensures s4 == Bare([Future(a, Main, Some(d), SetCurrent, [])], map[a := 0], Value(d), 0, Top)
  {
    s1 := Bare([Future(a, Main, None, SetCurrent, [])], map[a := 0], Pending(0), 0, Tasks(0));
    StartMoves(a, s1);
    s2 := s1.(phase := Selecting);
    IdleMoves(s1, s2);
    s3 := s1.(phase := Handling([Event(0, d)]));
    s4 := Bare([Future(a, Main, Some(d), SetCurrent, [])], map[a := 0], Value(d), 0, Top);
    assert s4.futures == s2.futures[0 := s2.futures[0].(result := Some(d))];
    DataMoves(d, a, s2, s3, s4);
  }

  /** It turns to another socket without closing the first, and data arrives on the first. */
  lemma SecondRound(a: Sock, b: Sock, d: Data, s4: Loop) returns (s5: Loop, s6: Loop, s7: Loop, s8: Loop, s9: Loop)
    requires a != b
    requires s4 == Bare([Future(a, Main, Some(d), SetCurrent, [])], map[a := 0], Value(d), 0, Top)
    ensures Moves(s4, DoTop(Response({}, 0, Await(b))), s5) && Moves(s5, DoTask(IDLE), s6)
    ensures Moves(s6, DoSelect([(a, d)]), s7) && Moves(s7, DoEvent(IDLE), s8) && Moves(s8, DoTop(IDLE), s9)
    ensures 1 < |s9.futures| && s9.futures[1].result.None? && s9.futures[1].sent == [d]
  {
    s5 := Bare([Future(a, Main, Some(d), SetCurrent, [d]), Future(b, Main, None, NoCallback, [])],
               map[a := 0, b := 1], Pending(1), 1, Tasks(0));
    HopMoves(d, a, b, s4, s5);
    s6 := s5.(phase := Selecting);
    IdleMoves(s5, s6);
    s7 := s5.(phase := Handling([Event(0, d)]));
    s8 := s5.(current := Value(d), phase := Top);
    assert s6.futures[0 := s6.futures[0].(result := Some(d))] == s6.futures;
    DataMoves(d, a, s6, s7, s8);
    StrayMoves(d, s8);
    s9 := Next(s8, DoTop(IDLE));
  }

  lemma FourOff<T>(p1: T, p2: T, p3: T, p4: T, more: seq<T>)
    ensures [p1, p2, p3, p4] + more == [p1] + ([p2] + ([p3] + ([p4] + more)))
  {
  }

  lemma PrependFour(s0: Loop, p1: Step, s1: Loop, p2: Step, s2: Loop, p3: Step, s3: Loop, p4: Step, s4: Loop,
                    more: seq<Step>, end: Loop)
    requires Moves(s0, p1, s1) && Moves(s1, p2, s2) && Moves(s2, p3, s3) && Moves(s3, p4, s4)
    requires Leads(s4, more, end)
    ensures Leads(s0, [p1, p2, p3, p4] + more, end)
  {
    Prepend(s3, p4, more);
    Prepend(s2, p3, [p4] + more);
    Prepend(s1, p2, [p3] + ([p4] + more));
    Prepend(s0, p1, [p2] + ([p3] + ([p4] + more)));
    FourOff(p1, p2, p3, p4, more);
  }

  /** A round of the loop without tasks: the main coroutine's turn, then data on `a`. */
  function Round(turn: Response, a: Sock, d: Data): seq<Step> {
    [DoTop(turn), DoTask(IDLE), DoSelect([(a, d)]), DoEvent(IDLE)]
  }

  /** One run without discipline: the main coroutine awaits socket `a`, then socket `b` while
      `a` is still registered; the next data on `a` resumes it from the unfinished future of
      `b`. */
  lemma StaleRegistration(a: Sock, b: Sock, d: Data)
    requires a != b
    ensures var steps := Round(IDLE, a, d) + (Round(Response({}, 0, Await(b)), a, d) + [DoTop(IDLE)]);
            Possible(Start(a, 0), steps) &&
            var s := After(Start(a, 0), steps);
            1 < |s.futures| && s.futures[1].result.None? && s.futures[1].sent == [d]
  {
    var hop := Response({}, 0, Await(b));
    var s1, s2, s3, s4 := FirstRound(a, d);
    var s5, s6, s7, s8, s9 := SecondRound(a, b, d, s4);
    Prepend(s8, DoTop(IDLE), []);
    assert [DoTop(IDLE)] + [] == [DoTop(IDLE)];
    PrependFour(s4, DoTop(hop), s5, DoTask(IDLE), s6, DoSelect([(a, d)]), s7, DoEvent(IDLE), s8, [DoTop(IDLE)], s9);
    PrependFour(Start(a, 0), DoTop(IDLE), s1, DoTask(IDLE), s2, DoSelect([(a, d)]), s3, DoEvent(IDLE), s4,
                Round(hop, a, d) + [DoTop(IDLE)], s9);
  }
}
