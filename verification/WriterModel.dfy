/** The retransmitting writer of `xout3.c` as transitions on its globals: the message
    records, the active timers of `tselect.c`, the counters and the half-read ACK. */
module WriterModel {
  import opened Bytes
  import opened Records
  import opened TimeVals
  import opened TimerList

  const MRSZ := 128
  const T1: nat := 3000
  const T2: nat := 5000
  const ACK: byte := 6
  const ACKSZ := 5
  const BUFSZ := 128

  /** A message record; a length of -1 marks it free, whatever else it still holds. */
  datatype MsgRec = MsgRec(len: int, cookie: nat, data: seq<byte>, id: nat) {
    predicate Free() { len == -1 }
  }

  datatype Writer = Writer(mr: seq<MsgRec>, timers: seq<Timer>, nextId: nat, msgid: nat, ack: seq<byte>)

  /** Either the writer goes on, having sent some bytes, or it gives up with a message. */
  datatype Result = Ok(w: Writer, sent: seq<byte>) | Exit

  function Initial(): Writer {
    Writer(seq(MRSZ, i => MsgRec(-1, 0, [], 0)), [], 1, 0, [])
  }

  /** The bytes sent for a message: its length, its cookie, its data. */
  function Packet(cookie: nat, data: seq<byte>): (p: seq<byte>)
    requires cookie < WORDS && |data| <= BUFSZ
    ensures |p| == 8 + |data|
  {
    Frame(Host(cookie) + data)
  }

  /** `getfreerec`: the first free record, or the number of records. */
  function FreeRec(mr: seq<MsgRec>): (i: nat)
    ensures i <= |mr|
    ensures i < |mr| ==> mr[i].Free()
    ensures forall k :: 0 <= k < i ==> !mr[k].Free()
  {
    if mr == [] || mr[0].Free() then 0 else 1 + FreeRec(mr[1..])
  }

  /** `findmsgrec`: the first record in use with this cookie, or the number of records. */
  function FindRec(mr: seq<MsgRec>, mid: nat): (i: nat)
    ensures i <= |mr|
    ensures i < |mr| ==> !mr[i].Free() && mr[i].cookie == mid
    ensures forall k :: 0 <= k < i ==> mr[k].Free() || mr[k].cookie != mid
  {
    if mr == [] || (!mr[0].Free() && mr[0].cookie == mid) then 0 else 1 + FindRec(mr[1..], mid)
  }

  /** A message from standard input: store it, send it, arm `lost_ACK` at reading `t`. */
  function Accept(w: Writer, data: seq<byte>, t: TimeVal): Result
    requires |data| <= BUFSZ && w.msgid < WORDS && Normal(t)
  {
    var i := FreeRec(w.mr);
    if i == |w.mr| then Exit
    else
      Ok(w.(mr := w.mr[i := MsgRec(4 + |data|, w.msgid, data, w.nextId)],
            timers := Insert(w.timers, Timer(Deadline(t, T1), LostAck, i, w.nextId)),
            nextId := w.nextId + 1,
            msgid := w.msgid + 1),
         Packet(w.msgid, data))
  }

  /** `freemsgrec` */
  function FreeMsgRec(mr: seq<MsgRec>, i: nat): seq<MsgRec>
    requires i < |mr|
  {
    mr[i := mr[i].(len := -1)]
  }

  /** One turn of the dispatch loop: call the head's function, then unlink whatever is
      then the head. `lost_ACK` takes the clock reading `t`. */
  function Fire(w: Writer, t: TimeVal): Result
    requires w.timers != [] && Ready(w) && Normal(t)
  {
    var i := w.timers[0].arg;
    match w.timers[0].func
    case LostAck =>
      Ok(w.(mr := w.mr[i := w.mr[i].(id := w.nextId)],
            timers := Insert(w.timers, Timer(Deadline(t, T2), Drop, i, w.nextId))[1..],
            nextId := w.nextId + 1),
         Packet(w.mr[i].cookie, w.mr[i].data))
    case Drop =>
      if w.mr[i].Free() then Exit
      else Ok(w.(mr := FreeMsgRec(w.mr, i), timers := w.timers[1..]), [])
  }

  /** Bytes received from the peer, never more than complete the ACK being read. */
  function Receive(w: Writer, b: seq<byte>): Result
    requires |w.ack| + |b| <= ACKSZ
  {
    var ack := w.ack + b;
    if |ack| < ACKSZ then Ok(w.(ack := ack), [])
    else if ack[0] != ACK then Ok(w.(ack := []), [])
    else
      var i := FindRec(w.mr, FromHost(ack[1..]));
      if i == |w.mr| then Ok(w.(ack := []), [])
      else if w.mr[i].Free() then Exit
      else Ok(w.(mr := FreeMsgRec(w.mr, i), timers := Remove(w.timers, w.mr[i].id), ack := []), [])
  }

  // ---- the invariant ----

  ghost predicate Ready(w: Writer) {
    (forall t :: t in w.timers ==> t.arg < |w.mr|) &&
    (forall i :: 0 <= i < |w.mr| ==> w.mr[i].cookie < WORDS && |w.mr[i].data| <= BUFSZ)
  }

  ghost predicate Armed(timers: seq<Timer>, i: nat, id: nat) {
    exists t :: t in timers && t.arg == i && t.id == id
  }

  ghost predicate TimersOk(timers: seq<Timer>, nextId: nat) {
    Sorted(timers) && DistinctIds(timers) &&
    forall t :: t in timers ==> Stored(t.tv) && t.id < nextId
  }

  /** Records in use and active timers correspond one to one, through the argument and
      through the id. */
  ghost predicate Bijection(w: Writer) {
    (forall t :: t in w.timers ==> t.arg < |w.mr| && !w.mr[t.arg].Free() && w.mr[t.arg].id == t.id) &&
    (forall i :: 0 <= i < |w.mr| && !w.mr[i].Free() ==> Armed(w.timers, i, w.mr[i].id))
  }

  ghost predicate RecordsOk(mr: seq<MsgRec>, msgid: nat) {
    (forall i :: 0 <= i < |mr| ==> mr[i].cookie < WORDS && |mr[i].data| <= BUFSZ) &&
    (forall i :: 0 <= i < |mr| && !mr[i].Free() ==> mr[i].cookie < msgid && mr[i].len == 4 + |mr[i].data|) &&
    (forall i, j :: 0 <= i < j < |mr| && !mr[i].Free() && !mr[j].Free() ==> mr[i].cookie != mr[j].cookie)
  }

  ghost predicate Inv(w: Writer) {
    |w.mr| == MRSZ && |w.ack| < ACKSZ && w.msgid <= WORDS &&
    TimersOk(w.timers, w.nextId) && RecordsOk(w.mr, w.msgid) && Bijection(w)
  }

  lemma InvReady(w: Writer)
    requires Inv(w)
    ensures Ready(w)
  {
  }

  lemma InitialInv()
    ensures Inv(Initial())
  {
  }

  /** Two timers never serve the same record. */
  lemma OneTimerPerRecord(w: Writer, s: Timer, t: Timer)
    requires Inv(w) && s in w.timers && t in w.timers && s.arg == t.arg
    ensures s == t
  {
  }

  /** A message is refused only when every record is in use. */
  lemma AcceptKeepsInv(w: Writer, data: seq<byte>, t: TimeVal)
    requires Inv(w) && |data| <= BUFSZ && w.msgid < WORDS && Normal(t)
    ensures Accept(w, data, t).Exit? <==> forall i :: 0 <= i < MRSZ ==> !w.mr[i].Free()
    ensures Accept(w, data, t).Ok? ==> Inv(Accept(w, data, t).w)
  {
    var i := FreeRec(w.mr);
    if i < |w.mr| {
      var tm := Timer(Deadline(t, T1), LostAck, i, w.nextId);
      var v := Accept(w, data, t).w;
      ArmKeepsTimers(w.timers, tm, w.nextId, t, T1);
      AcceptKeepsBijection(w, v, tm);
      assert RecordsOk(v.mr, v.msgid);
    }
  }

  lemma AcceptKeepsBijection(w: Writer, v: Writer, tm: Timer)
    requires Inv(w) && tm.arg < |w.mr| && w.mr[tm.arg].Free() && tm.id == w.nextId
    requires |v.mr| == |w.mr| && v.mr == w.mr[tm.arg := v.mr[tm.arg]]
    requires !v.mr[tm.arg].Free() && v.mr[tm.arg].id == tm.id
    requires forall x :: x in v.timers <==> x == tm || x in w.timers
    ensures Bijection(v)
  {
    forall k | 0 <= k < |v.mr| && !v.mr[k].Free()
      ensures Armed(v.timers, k, v.mr[k].id)
    {
      if k == tm.arg {
        assert tm in v.timers;
      } else {
        var x :| x in w.timers && x.arg == k && x.id == w.mr[k].id;
        assert x in v.timers;
      }
    }
  }

  lemma ArmKeepsTimers(timers: seq<Timer>, tm: Timer, nextId: nat, t: TimeVal, ms: nat)
    requires TimersOk(timers, nextId) && Normal(t)
    requires tm.tv == Deadline(t, ms) && tm.id == nextId
    ensures TimersOk(Insert(timers, tm), nextId + 1)
    ensures forall x :: x in Insert(timers, tm) <==> x == tm || x in timers
  {
    DeadlineExact(t, ms);
    InsertSorted(timers, tm);
    InsertMembers(timers, tm);
    forall i | 0 <= i < |timers| ensures timers[i].id != tm.id {
      assert timers[i] in timers;
    }
    InsertDistinct(timers, tm);
  }

  /** The situation in the dispatch loop: the head is due at the sampled `now`, and the
      clock has not gone back since. */
  ghost predicate Due(w: Writer, now: TimeVal, t: TimeVal) {
    w.timers != [] && Normal(now) && Normal(t) &&
    !Before(now, w.timers[0].tv) && Micros(now) <= Micros(t)
  }

  /** A timer armed by the running callback goes in behind the head, so it is the fired
      timer that gets unlinked; and the new one is not due in this pass. */
  lemma FiredIsRetired(w: Writer, now: TimeVal, t: TimeVal)
    requires Inv(w) && Due(w, now, t) && w.timers[0].func == LostAck
    ensures var tm := Timer(Deadline(t, T2), Drop, w.timers[0].arg, w.nextId);
            Insert(w.timers, tm)[0] == w.timers[0] &&
            Fire(w, t).w.timers == Insert(w.timers[1..], tm) && Before(now, tm.tv)
  {
    var tm := Timer(Deadline(t, T2), Drop, w.timers[0].arg, w.nextId);
    DeadlineLater(now, t, T2);
    InsertKeepsHead(w.timers, tm);
  }

  lemma TailKeepsTimers(timers: seq<Timer>, nextId: nat)
    requires TimersOk(timers, nextId) && timers != []
    ensures TimersOk(timers[1..], nextId)
    ensures forall x :: x in timers[1..] <==> x in timers && x.id != timers[0].id
  {
    forall x ensures x in timers[1..] <==> x in timers && x.id != timers[0].id {
      if x in timers && x.id != timers[0].id {
        var i :| 0 <= i < |timers| && timers[i] == x;
        assert timers[1..][i - 1] == x;
      }
    }
  }

  /** No callback ever meets a free record, and the correspondence survives it. */
  lemma FireKeepsInv(w: Writer, now: TimeVal, t: TimeVal)
    requires Inv(w) && Due(w, now, t)
    ensures Fire(w, t).Ok? && Inv(Fire(w, t).w)
  {
    var head := w.timers[0];
    var i := head.arg;
    assert head in w.timers;
    TailKeepsTimers(w.timers, w.nextId);
    var v := Fire(w, t).w;
    if head.func == LostAck {
      FiredIsRetired(w, now, t);
      var tm := Timer(Deadline(t, T2), Drop, i, w.nextId);
      ArmKeepsTimers(w.timers[1..], tm, w.nextId, t, T2);
      LostAckKeepsBijection(w, v, tm);
    } else {
      DisarmKeepsBijection(w, v, i);
    }
  }

  lemma LostAckKeepsBijection(w: Writer, v: Writer, tm: Timer)
    requires Inv(w) && w.timers != []
    requires tm.arg == w.timers[0].arg && tm.id == w.nextId
    requires v.mr == w.mr[tm.arg := w.mr[tm.arg].(id := w.nextId)]
    requires forall x :: x in v.timers <==> x == tm || (x in w.timers && x.id != w.timers[0].id)
    ensures Bijection(v)
  {
    var head := w.timers[0];
    forall x | x in v.timers
      ensures x.arg < |v.mr| && !v.mr[x.arg].Free() && v.mr[x.arg].id == x.id
    {
      assert head in w.timers;
      if x != tm && x.arg == head.arg { OneTimerPerRecord(w, x, head); }
    }
    forall k | 0 <= k < |v.mr| && !v.mr[k].Free()
      ensures Armed(v.timers, k, v.mr[k].id)
    {
      if k == tm.arg {
        assert tm in v.timers;
      } else {
        var x :| x in w.timers && x.arg == k && x.id == w.mr[k].id;
        if x.id == head.id { OneTimerPerId(w, x, head); }
        assert x in v.timers;
      }
    }
  }

  lemma OneTimerPerId(w: Writer, s: Timer, t: Timer)
    requires Inv(w) && s in w.timers && t in w.timers && s.id == t.id
    ensures s == t
  {
  }

  /** Freeing a record together with its timer. */
  lemma DisarmKeepsBijection(w: Writer, v: Writer, i: nat)
    requires Inv(w) && i < |w.mr| && !w.mr[i].Free()
    requires v.mr == FreeMsgRec(w.mr, i)
    requires forall x :: x in v.timers <==> x in w.timers && x.id != w.mr[i].id
    ensures Bijection(v)
  {
    var own :| own in w.timers && own.arg == i && own.id == w.mr[i].id;
    forall x | x in v.timers
      ensures x.arg < |v.mr| && !v.mr[x.arg].Free() && v.mr[x.arg].id == x.id
    {
      if x.arg == i { OneTimerPerRecord(w, x, own); }
    }
    forall k | 0 <= k < |v.mr| && !v.mr[k].Free()
      ensures Armed(v.timers, k, v.mr[k].id)
    {
      assert k != i;
      var x :| x in w.timers && x.arg == k && x.id == w.mr[k].id;
      if x.id == w.mr[i].id { OneTimerPerId(w, x, own); }
      assert x in v.timers;
    }
  }

  /** Cancelling the timer of a record in use finds that record's timer and no other. */
  lemma CancelFindsTimer(w: Writer, i: nat)
    requires Inv(w) && i < |w.mr| && !w.mr[i].Free()
    ensures var k := Find(w.timers, w.mr[i].id);
            k < |w.timers| && w.timers[k].arg == i &&
            Remove(w.timers, w.mr[i].id) == w.timers[..k] + w.timers[k + 1..]
  {
    var id := w.mr[i].id;
    var x :| x in w.timers && x.arg == i && x.id == id;
    RemoveIsSplice(w.timers, id);
    var j :| 0 <= j < |w.timers| && w.timers[j] == x;
    var k := Find(w.timers, id);
    assert w.timers[k] in w.timers;
    OneTimerPerId(w, w.timers[k], x);
  }

  /** An ACK never makes the writer give up, and the correspondence survives it. */
  lemma ReceiveKeepsInv(w: Writer, b: seq<byte>)
    requires Inv(w) && |w.ack| + |b| <= ACKSZ
    ensures Receive(w, b).Ok? && Inv(Receive(w, b).w)
  {
    var ack := w.ack + b;
    if |ack| == ACKSZ && ack[0] == ACK {
      var i := FindRec(w.mr, FromHost(ack[1..]));
      if i < |w.mr| {
        CancelKeepsInv(w, Receive(w, b).w, i);
      }
    }
  }

  lemma CancelKeepsInv(w: Writer, v: Writer, i: nat)
    requires Inv(w) && i < |w.mr| && !w.mr[i].Free()
    requires v == w.(mr := FreeMsgRec(w.mr, i), timers := Remove(w.timers, w.mr[i].id), ack := [])
    ensures Inv(v)
  {
    RemoveMembers(w.timers, w.mr[i].id);
    RemoveSorted(w.timers, w.mr[i].id);
    RemoveDistinct(w.timers, w.mr[i].id);
    DisarmKeepsBijection(w, v, i);
  }
}
