/** The sorted list of active timers as a sequence: what `timeout` and `untimeout` of
    `tselect.c` mean, and the laws the linked list is used for. */
module TimerList {
  import opened TimeVals

  /** The two functions that are ever armed; the argument is a message record's index. */
  datatype Func = LostAck | Drop

  datatype Timer = Timer(tv: TimeVal, func: Func, arg: nat, id: nat)

  /** Where a new deadline goes: behind every timer it is not strictly before. */
  function Insert(q: seq<Timer>, t: Timer): (r: seq<Timer>)
    ensures |r| == |q| + 1
  {
    if q == [] || Before(t.tv, q[0].tv) then [t] + q else [q[0]] + Insert(q[1..], t)
  }

  /** The position of the first timer with this id, or the length. */
  function Find(q: seq<Timer>, id: nat): (k: nat)
    ensures k <= |q|
    ensures k < |q| ==> q[k].id == id
    ensures forall i :: 0 <= i < k ==> q[i].id != id
  {
    if q == [] || q[0].id == id then 0 else 1 + Find(q[1..], id)
  }

  function Remove(q: seq<Timer>, id: nat): seq<Timer> {
    if q == [] then [] else if q[0].id == id then q[1..] else [q[0]] + Remove(q[1..], id)
  }

  ghost predicate Sorted(q: seq<Timer>) {
    forall i, j :: 0 <= i < j < |q| ==> !Before(q[j].tv, q[i].tv)
  }

  ghost predicate DistinctIds(q: seq<Timer>) {
    forall i, j :: 0 <= i < j < |q| ==> q[i].id != q[j].id
  }

  /** The number of leading timers that are due at `now`. */
  function DueCount(q: seq<Timer>, now: TimeVal): (n: nat)
    ensures n <= |q|
    ensures forall i :: 0 <= i < n ==> !Before(now, q[i].tv)
    ensures n < |q| ==> Before(now, q[n].tv)
  {
    if q == [] || Before(now, q[0].tv) then 0 else 1 + DueCount(q[1..], now)
  }

  /** The insertion point. */
  function Slot(q: seq<Timer>, tv: TimeVal): (k: nat)
    ensures k <= |q|
    ensures forall i :: 0 <= i < k ==> !Before(tv, q[i].tv)
    ensures k < |q| ==> Before(tv, q[k].tv)
  {
    if q == [] || Before(tv, q[0].tv) then 0 else 1 + Slot(q[1..], tv)
  }

  lemma {:induction false} InsertIsSplice(q: seq<Timer>, t: Timer)
    ensures Insert(q, t) == q[..Slot(q, t.tv)] + [t] + q[Slot(q, t.tv)..]
  {
    if q == [] || Before(t.tv, q[0].tv) {
    } else {
      InsertIsSplice(q[1..], t);
      var k := Slot(q[1..], t.tv);
      assert q[..k + 1] == [q[0]] + q[1..][..k];
      assert q[k + 1..] == q[1..][k..];
    }
  }

  /** In a sorted list every timer from the insertion point on is later. */
  lemma SlotSplits(q: seq<Timer>, tv: TimeVal)
    requires Sorted(q)
    ensures forall i :: 0 <= i < |q| ==> (i < Slot(q, tv) <==> !Before(tv, q[i].tv))
  {
    var k := Slot(q, tv);
    forall i | k <= i < |q|
      ensures Before(tv, q[i].tv)
    {
      if k < i { assert !Before(q[i].tv, q[k].tv); }
    }
  }

  /** Arming keeps the list sorted and puts the new timer behind every timer with the same
      deadline: first armed, first fired. */
  lemma InsertSorted(q: seq<Timer>, t: Timer)
    requires Sorted(q)
    ensures Sorted(Insert(q, t))
    ensures forall i :: 0 <= i < |q| && q[i].tv == t.tv ==> i < Slot(q, t.tv)
  {
    InsertIsSplice(q, t);
    SlotSplits(q, t.tv);
    SpliceSorted(q, t, Slot(q, t.tv));
  }

  /** Arming adds exactly the new timer. */
  lemma {:induction false} InsertPermutes(q: seq<Timer>, t: Timer)
    ensures multiset(Insert(q, t)) == multiset(q) + multiset{t}
  {
    if q == [] || Before(t.tv, q[0].tv) {
    } else {
      InsertPermutes(q[1..], t);
      assert q == [q[0]] + q[1..];
    }
  }

  lemma SpliceSorted(q: seq<Timer>, t: Timer, k: nat)
    requires Sorted(q) && k <= |q|
    requires forall i :: 0 <= i < |q| ==> (i < k <==> !Before(t.tv, q[i].tv))
    ensures Sorted(q[..k] + [t] + q[k..])
  {
    var r := q[..k] + [t] + q[k..];
    forall i, j | 0 <= i < j < |r|
      ensures !Before(r[j].tv, r[i].tv)
    {
      assert r[i] == if i < k then q[i] else if i == k then t else q[i - 1];
      assert r[j] == if j < k then q[j] else if j == k then t else q[j - 1];
    }
  }

  lemma {:induction false} InsertMembers(q: seq<Timer>, t: Timer)
    ensures forall x :: x in Insert(q, t) <==> x == t || x in q
  {
    if q == [] || Before(t.tv, q[0].tv) {
    } else {
      InsertMembers(q[1..], t);
      assert q == [q[0]] + q[1..];
    }
  }

  /** A timer that is not before the head leaves the head where it is. */
  lemma InsertKeepsHead(q: seq<Timer>, t: Timer)
    requires q != [] && !Before(t.tv, q[0].tv)
    ensures Insert(q, t)[0] == q[0]
    ensures Insert(q, t)[1..] == Insert(q[1..], t)
  {
  }

  lemma InsertDistinct(q: seq<Timer>, t: Timer)
    requires DistinctIds(q)
    requires forall i :: 0 <= i < |q| ==> q[i].id != t.id
    ensures DistinctIds(Insert(q, t))
  {
    InsertIsSplice(q, t);
  }

  lemma {:induction false} RemoveIsSplice(q: seq<Timer>, id: nat)
    ensures Remove(q, id) ==
            var k := Find(q, id); if k < |q| then q[..k] + q[k + 1..] else q
  {
    if q == [] || q[0].id == id {
    } else {
      var r := q[1..];
      RemoveIsSplice(r, id);
      var k := Find(r, id);
      if k < |r| {
        assert q[..k + 1] == [q[0]] + r[..k];
        assert q[k + 2..] == r[k + 1..];
        assert [q[0]] + (r[..k] + r[k + 1..]) == ([q[0]] + r[..k]) + r[k + 1..];
      }
    }
  }

  /** Cancelling keeps the order. */
  lemma RemoveSorted(q: seq<Timer>, id: nat)
    requires Sorted(q)
    ensures Sorted(Remove(q, id))
  {
    RemoveIsSplice(q, id);
  }

  /** Cancelling removes the timer with this id and no other. */
  lemma {:induction false} RemoveMembers(q: seq<Timer>, id: nat)
    requires DistinctIds(q)
    ensures forall x :: x in Remove(q, id) <==> x in q && x.id != id
  {
    if q == [] {
    } else {
      assert q == [q[0]] + q[1..];
      assert DistinctIds(q[1..]);
      if q[0].id != id {
        RemoveMembers(q[1..], id);
      } else {
        assert forall i :: 0 < i < |q| ==> q[i].id != id;
      }
    }
  }

  lemma RemoveDistinct(q: seq<Timer>, id: nat)
    requires DistinctIds(q)
    ensures DistinctIds(Remove(q, id))
  {
    RemoveIsSplice(q, id);
  }

  /** Cancelling undoes arming. */
  lemma {:induction false} RemoveInsert(q: seq<Timer>, t: Timer)
    requires forall i :: 0 <= i < |q| ==> q[i].id != t.id
    ensures Remove(Insert(q, t), t.id) == q
  {
    if q == [] || Before(t.tv, q[0].tv) {
    } else {
      RemoveInsert(q[1..], t);
    }
  }

  /** In a sorted list the due timers are exactly the leading ones. */
  lemma DueArePrefix(q: seq<Timer>, now: TimeVal)
    requires Sorted(q)
    ensures forall i :: 0 <= i < |q| ==> (i < DueCount(q, now) <==> !Before(now, q[i].tv))
  {
    var n := DueCount(q, now);
    forall i | n <= i < |q|
      ensures Before(now, q[i].tv)
    {
      if n < i { assert !Before(q[i].tv, q[n].tv); }
    }
  }
}
