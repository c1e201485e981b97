/** The linked lists of `tselect.c`: active timers in deadline order, free timers refilled
    a block at a time, and the operations on them. */
module TimerQueue {
  import opened TimeVals
  import opened TimerList

  const NTIMERS := 25

  class TEvent {
    var next: TEvent?
    var tv: TimeVal
    var func: Func
    var arg: nat
    var id: nat

    constructor ()
      ensures next == null
    {
      next := null;
      tv, func, arg, id := TimeVal(0, 0), Drop, 0, 0;
    }

    ghost predicate Holds(t: Timer)
      reads this
    {
      tv == t.tv && func == t.func && arg == t.arg && id == t.id
    }
  }

  ghost function At(nodes: seq<TEvent>, i: nat): TEvent? {
    if i < |nodes| then nodes[i] else null
  }

  /** `head` starts a null-terminated chain running through exactly these nodes. */
  ghost predicate Chain(head: TEvent?, nodes: seq<TEvent>)
    reads nodes
  {
    head == At(nodes, 0) &&
    forall i {:trigger nodes[i].next} :: 0 <= i < |nodes| ==> nodes[i].next == At(nodes, i + 1)
  }

  ghost predicate NoDuplicates(nodes: seq<TEvent>) {
    forall i, j :: 0 <= i < j < |nodes| ==> nodes[i] != nodes[j]
  }

  /** The nodes hold these timers, one each, in order. */
  ghost predicate Hold(nodes: seq<TEvent>, q: seq<Timer>)
    reads nodes
  {
    |q| == |nodes| && forall i {:trigger nodes[i]} {:trigger q[i]} :: 0 <= i < |nodes| ==> nodes[i].Holds(q[i])
  }

  /** Every node ever allocated is on one of the two lists, once, or in hand: whole blocks,
      nothing shared, nothing lost. */
  ghost predicate Whole(active: seq<TEvent>, free: seq<TEvent>, repr: set<object>, hand: set<TEvent>) {
    (forall n :: n in active ==> n in repr && n !in free && n !in hand) &&
    (forall n :: n in free ==> n in repr && n !in hand) && hand <= repr &&
    Accounted(active, free, repr, hand) &&
    NoDuplicates(active) && NoDuplicates(free) &&
    (|active| + |free| + |hand|) % NTIMERS == 0
  }

  ghost predicate Accounted(active: seq<TEvent>, free: seq<TEvent>, repr: set<object>, hand: set<TEvent>) {
    forall n: TEvent :: n in repr ==> n in active || n in free || n in hand
  }

  /** `malloc` of one block, linked in address order. */
  method NewBlock() returns (block: seq<TEvent>)
    ensures |block| == NTIMERS && NoDuplicates(block)
    ensures Chain(block[0], block)
    ensures forall n :: n in block ==> fresh(n)
  {
    block := [];
    while |block| < NTIMERS
      invariant |block| <= NTIMERS
      invariant NoDuplicates(block)
      invariant forall n :: n in block ==> fresh(n) && n.next == null
    {
      var n := new TEvent();
      block := block + [n];
    }
    var i := 0;
    while i < NTIMERS - 1
      invariant 0 <= i <= NTIMERS - 1
      invariant forall j {:trigger block[j].next} :: 0 <= j < NTIMERS ==>
          block[j].next == if j < i then At(block, j + 1) else null
    {
      assert block[i] in block;
      block[i].next := block[i + 1];
      i := i + 1;
    }
  }

  class Timers {
    var active: TEvent?
    var freeList: TEvent?
    var nextId: nat

    /** The active timers, first to fire first. */
    ghost var queue: seq<Timer>
    ghost var activeNodes: seq<TEvent>
    ghost var freeNodes: seq<TEvent>
    ghost var Repr: set<object>

    ghost predicate Conserved(hand: set<TEvent>)
      reads this
    {
      this in Repr && Whole(activeNodes, freeNodes, Repr, hand)
    }

    ghost predicate Linked()
      reads this, activeNodes, freeNodes
    {
      Chain(active, activeNodes) && Chain(freeList, freeNodes) && Hold(activeNodes, queue)
    }

    ghost predicate Valid()
      reads this, Repr
    {
      Conserved({}) && Linked()
    }

    constructor ()
      ensures Valid() && fresh(Repr)
      ensures queue == [] && nextId == 1
    {
      active, freeList, nextId := null, null, 1;
      queue, activeNodes, freeNodes := [], [], [];
      Repr := {this};
    }

    lemma HeadHolds()
      requires Valid()
      ensures active == null <==> queue == []
      ensures active != null ==> active in Repr && active.Holds(queue[0])
    {
      if active != null { assert activeNodes[0] == active; }
    }

    /** Takes the first free timer, allocating another block when there is none. */
    method AllocateTimer() returns (tp: TEvent)
      requires Valid()
      modifies this
      ensures Conserved({tp}) && Linked() && fresh(Repr - old(Repr)) && old(Repr) <= Repr
      ensures tp in Repr && tp !in activeNodes && tp !in freeNodes
      ensures active == old(active) && activeNodes == old(activeNodes)
      ensures queue == old(queue) && nextId == old(nextId)
      ensures old(freeNodes) != [] ==> [tp] + freeNodes == old(freeNodes)
      ensures old(freeNodes) == [] ==> |freeNodes| == NTIMERS - 1 && fresh(tp)
    {
      if freeList == null {
        assert freeNodes == [] by { assert At(freeNodes, 0) == null; }
        var block := NewBlock();
        freeList := block[0];
        freeNodes := block;
        Repr := Repr + set n | n in block;
      }
      tp := freeList;
      freeList := tp.next;
      freeNodes := freeNodes[1..];
    }

    /** The node after which a timer due at `tv` belongs, or null for the front. */
    method FindSlot(tv: TimeVal) returns (tprev: TEvent?, ghost k: nat)
      requires Linked()
      ensures k == Slot(queue, tv)
      ensures tprev == if k == 0 then null else activeNodes[k - 1]
    {
      tprev, k := null, 0;
      var tcur := active;
      while tcur != null && !Before(tv, tcur.tv)
        invariant k <= |activeNodes| && tcur == At(activeNodes, k)
        invariant tprev == if k == 0 then null else activeNodes[k - 1]
        invariant forall i :: 0 <= i < k ==> !Before(tv, queue[i].tv)
        decreases |activeNodes| - k
      {
        tprev := tcur;
        tcur := tcur.next;
        k := k + 1;
      }
      assert k < |queue| ==> activeNodes[k].Holds(queue[k]);
    }

    /** Puts `tp` behind `tprev`, or in front when that is null. */
    method LinkAfter(tprev: TEvent?, tp: TEvent, ghost nodes: seq<TEvent>, ghost k: nat)
      requires Chain(active, nodes) && NoDuplicates(nodes) && tp !in nodes && k <= |nodes|
      requires tprev == if k == 0 then null else nodes[k - 1]
      modifies this`active, tp`next, (if tprev == null then {} else {tprev})`next
      requires Chain(freeList, freeNodes) && tp !in freeNodes && (tprev != null ==> tprev !in freeNodes)
      ensures Chain(active, nodes[..k] + [tp] + nodes[k..])
      ensures Chain(freeList, freeNodes)
    {
      assert forall i :: 0 <= i < |freeNodes| ==> freeNodes[i] in freeNodes;
      if tprev == null {
        tp.next := active;
        active := tp;
      } else {
        tp.next := tprev.next;
        tprev.next := tp;
      }
    }

    /** Enters an unlinked, filled-in timer into the active list. */
    method Enter(tprev: TEvent?, tp: TEvent, ghost t: Timer, ghost k: nat)
      requires Conserved({tp}) && Linked()
      requires tp.Holds(t) && k <= |queue| && tprev == if k == 0 then null else activeNodes[k - 1]
      modifies this`active, this`queue, this`activeNodes, tp`next, activeNodes`next
      ensures Conserved({}) && Linked()
      ensures queue == old(queue)[..k] + [t] + old(queue)[k..]
    {
      ghost var nodes, q := activeNodes, queue;
      assert tprev != null ==> tprev in nodes;
      LinkAfter(tprev, tp, nodes, k);
      WholeSplice(nodes, freeNodes, Repr, tp, k);
      HoldSplice(nodes, q, tp, t, k);
      queue := q[..k] + [t] + q[k..];
      activeNodes := nodes[..k] + [tp] + nodes[k..];
    }

    /** The search and the insertion of `timeout`. */
    method Place(tp: TEvent, ghost t: Timer)
      requires Conserved({tp}) && Linked() && tp.Holds(t)
      modifies this`active, this`queue, this`activeNodes, tp`next, activeNodes`next
      ensures Conserved({}) && Linked()
      ensures queue == Insert(old(queue), t)
    {
      var tprev, k := FindSlot(tp.tv);
      InsertIsSplice(queue, t);
      Enter(tprev, tp, t, k);
    }

    /** `timeout`: arms a timer `ms` milliseconds after the reading `now`. */
    method Timeout(func: Func, arg: nat, ms: nat, now: TimeVal) returns (id: nat)
      requires Valid() && Normal(now)
      modifies Repr
      ensures Valid() && fresh(Repr - old(Repr))
      ensures id == old(nextId) && nextId == id + 1
      ensures queue == Insert(old(queue), Timer(Deadline(now, ms), func, arg, id))
    {
      var tp := AllocateTimer();
      tp.func := func;
      tp.arg := arg;
      tp.tv := Deadline(now, ms);
      tp.id := nextId;
      nextId := nextId + 1;
      assert Conserved({tp});
      assert Linked() by { assert Chain(active, activeNodes) && Chain(freeList, freeNodes); }
      ghost var t := Timer(tp.tv, func, arg, tp.id);
      Place(tp, t);
      id := tp.id;
    }

    /** Moves the timer behind `tprev` (the head when that is null) to the free list. */
    method Unlink(tprev: TEvent?, tcur: TEvent, ghost nodes: seq<TEvent>, ghost free: seq<TEvent>, ghost k: nat)
      requires Chain(active, nodes) && Chain(freeList, free)
      requires NoDuplicates(nodes) && forall n :: n in nodes ==> n !in free
      requires k < |nodes| && tcur == nodes[k]
      requires tprev == if k == 0 then null else nodes[k - 1]
      modifies this`active, this`freeList, tcur`next, (if tprev == null then {} else {tprev})`next
      ensures Chain(active, nodes[..k] + nodes[k + 1..])
      ensures Chain(freeList, [tcur] + free)
    {
      assert forall i :: 0 <= i < |free| ==> free[i] in free;
      assert tcur in nodes && (tprev != null ==> tprev in nodes);
      if tprev == null {
        active := tcur.next;
      } else {
        tprev.next := tcur.next;
      }
      tcur.next := freeList;
      freeList := tcur;
    }

    /** Takes the timer at position `k` out of the active list. */
    method Leave(tprev: TEvent?, tcur: TEvent, ghost k: nat)
      requires Conserved({}) && Linked()
      requires k < |queue| && tcur == activeNodes[k]
      requires tprev == if k == 0 then null else activeNodes[k - 1]
      modifies this`active, this`freeList, this`queue, this`activeNodes, this`freeNodes, activeNodes`next
      ensures Conserved({}) && Linked()
      ensures queue == old(queue)[..k] + old(queue)[k + 1..]
    {
      ghost var nodes, free := activeNodes, freeNodes;
      WholeLeave(nodes, free, Repr, k);
      assert Hold(nodes[..k] + nodes[k + 1..], queue[..k] + queue[k + 1..]);
      assert tcur in nodes && (tprev != null ==> tprev in nodes);
      queue := queue[..k] + queue[k + 1..];
      activeNodes, freeNodes := nodes[..k] + nodes[k + 1..], [tcur] + free;
      Unlink(tprev, tcur, nodes, free, k);
    }

    /** `untimeout`: cancels a timer; an unknown id is reported and changes nothing. */
    method Untimeout(id: nat) returns (found: bool)
      requires Valid()
      modifies Repr
      ensures Valid() && Repr == old(Repr) && nextId == old(nextId)
      ensures queue == Remove(old(queue), id)
      ensures found <==> exists t :: t in old(queue) && t.id == id
    {
      var tprev: TEvent? := null;
      var tcur := active;
      ghost var k := 0;
      while tcur != null && id != tcur.id
        invariant k <= |activeNodes| && tcur == At(activeNodes, k)
        invariant tprev == if k == 0 then null else activeNodes[k - 1]
        invariant forall i :: 0 <= i < k ==> queue[i].id != id
        decreases |activeNodes| - k
      {
        tprev := tcur;
        tcur := tcur.next;
        k := k + 1;
      }
      RemoveIsSplice(queue, id);
      if tcur == null {
        return false;
      }
      assert queue[k] in queue && queue[k].id == id;
      Leave(tprev, tcur, k);
      found := true;
    }

    /** Retires the head after its callback has returned. */
    method Retire()
      requires Valid() && queue != []
      modifies Repr
      ensures Valid() && Repr == old(Repr) && nextId == old(nextId)
      ensures queue == old(queue)[1..]
    {
      Leave(null, active, 0);
    }
  }

  lemma WholeLeave(active: seq<TEvent>, free: seq<TEvent>, repr: set<object>, k: nat)
    requires Whole(active, free, repr, {}) && k < |active|
    ensures Whole(active[..k] + active[k + 1..], [active[k]] + free, repr, {})
  {
    assert active[k] in active;
  }

  lemma WholeSplice(active: seq<TEvent>, free: seq<TEvent>, repr: set<object>, tp: TEvent, k: nat)
    requires Whole(active, free, repr, {tp})
    requires k <= |active|
    ensures Whole(active[..k] + [tp] + active[k..], free, repr, {})
  {
    assert active == active[..k] + active[k..];
  }

  lemma HoldSplice(nodes: seq<TEvent>, q: seq<Timer>, tp: TEvent, t: Timer, k: nat)
    requires Hold(nodes, q) && tp.Holds(t) && k <= |nodes|
    ensures Hold(nodes[..k] + [tp] + nodes[k..], q[..k] + [t] + q[k..])
  {
  }
}
