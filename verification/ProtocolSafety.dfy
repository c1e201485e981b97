/** What holds over every run of the writer, its channels and its lossy peer. */
module ProtocolSafety {
  import opened Bytes
  import opened Records
  import opened TimeVals
  import opened TimerList
  import opened WriterModel
  import opened Protocol
  import Dispatch

  // ---- counting and wire lemmas ----

  lemma {:induction false} SettledUpdate(fates: seq<Fate>, c: nat, f: Fate)
    requires c < |fates| && fates[c].Live?
    ensures Settled(fates[c := f]) == Settled(fates) + (if f.Live? then 0 else 1)
  {
    if c == 0 {
      assert fates[c := f][1..] == fates[1..];
    } else {
      assert fates[c := f][1..] == fates[1..][c - 1 := f];
      SettledUpdate(fates[1..], c - 1, f);
    }
  }

  lemma {:induction false} SettledAppend(fates: seq<Fate>)
    ensures Settled(fates + [Live]) == Settled(fates)
  {
    if fates != [] {
      assert (fates + [Live])[1..] == fates[1..] + [Live];
      SettledAppend(fates[1..]);
    }
  }

  lemma {:induction false} InUseUpdate(mr: seq<MsgRec>, i: nat, r: MsgRec)
    requires i < |mr|
    ensures InUse(mr[i := r]) + (if mr[i].Free() then 0 else 1) == InUse(mr) + (if r.Free() then 0 else 1)
  {
    if i == 0 {
      assert mr[i := r][1..] == mr[1..];
    } else {
      assert mr[i := r][1..] == mr[1..][i - 1 := r];
      InUseUpdate(mr[1..], i - 1, r);
    }
  }

  lemma {:induction false} InUseNone(mr: seq<MsgRec>)
    requires forall i :: 0 <= i < |mr| ==> mr[i].Free()
    ensures InUse(mr) == 0
  {
    if mr != [] {
      InUseNone(mr[1..]);
    }
  }

  /** Sending one more packet, perhaps of a message not known before. */
  lemma {:induction false} WireAppend(data: seq<seq<byte>>, more: seq<seq<byte>>, cookies: seq<nat>, c: nat)
    requires |data + more| <= WORDS && Storable(data) && Storable(data + more)
    requires Below(cookies, |data|) && c < |data + more|
    ensures Below(cookies + [c], |data + more|)
    ensures Wire(data + more, cookies + [c]) == Wire(data, cookies) + Packet(c, (data + more)[c])
  {
    if cookies == [] {
      assert cookies + [c] == [c];
    } else {
      assert (cookies + [c])[1..] == cookies[1..] + [c];
      WireAppend(data, more, cookies[1..], c);
      Associative(Packet(cookies[0], data[cookies[0]]), Wire(data, cookies[1..]), Packet(c, (data + more)[c]));
    }
  }

  lemma {:induction false} AckWireAppend(cookies: seq<nat>, c: nat)
    requires Below(cookies, WORDS) && c < WORDS
    ensures AckWire(cookies + [c]) == AckWire(cookies) + AckFrame(Host(c))
  {
    if cookies == [] {
      assert cookies + [c] == [c];
    } else {
      assert (cookies + [c])[1..] == cookies[1..] + [c];
      AckWireAppend(cookies[1..], c);
      Associative(AckFrame(Host(cookies[0])), AckWire(cookies[1..]), AckFrame(Host(c)));
    }
  }

  lemma StartOk(now: TimeVal)
    requires Normal(now)
    ensures SysInv(Start(now))
  {
    InitialInv();
    StartHistoryOk(now);
    StartStreamsOk(now);
  }

  lemma StartHistoryOk(now: TimeVal)
    requires Normal(now)
    ensures var s := Start(now); HistoryOk(s) && RecordsLive(s) && LiveRecorded(s) && TimersTimely(s.w, s.sends, s.armed)
  {
  }

  lemma StartStreamsOk(now: TimeVal)
    ensures var s := Start(now); OutboundOk(s) && SendsCounted(s) && InboundOk(s) && AcksSettle(s) && Balanced(s)
  {
    InUseNone(Start(now).w.mr);
  }

  lemma SampleKeeps(s: System, now: TimeVal)
    requires SysInv(s) && Enabled(s, Sample(now))
    ensures SysInv(Next(s, Sample(now)))
  {
  }

  // ---- a message from standard input ----

  lemma InputKeeps(s: System, data: seq<byte>, at: int, t: TimeVal)
    requires SysInv(s) && Enabled(s, Input(data, at, t))
    ensures SysInv(Next(s, Input(data, at, t)))
  {
    AcceptKeepsInv(s.w, data, t);
    InputKeepsHistory(s, data, at, t);
    InputKeepsBalance(s, data, at, t);
    InputKeepsTimers(s, data, at, t);
    InputKeepsStreams(s, data, at, t);
    InputKeepsCount(s, data, at, t);
    InputKeepsRecorded(s, data, at, t);
  }

  lemma InputKeepsRecorded(s: System, data: seq<byte>, at: int, t: TimeVal)
    requires SysInv(s) && Enabled(s, Input(data, at, t))
    ensures var v := Next(s, Input(data, at, t)); LiveRecorded(v) && AcksSettle(v)
  {
    var v := Next(s, Input(data, at, t));
    var i := FreeRec(s.w.mr);
    forall c | 0 <= c < |v.fates| && v.fates[c].Live? ensures InRecord(v.w.mr, c) {
      if c < |s.fates| {
        assert s.fates[c] == v.fates[c];
        var k :| 0 <= k < |s.w.mr| && !s.w.mr[k].Free() && s.w.mr[k].cookie == c;
        assert v.w.mr[k] == s.w.mr[k];
      } else {
        assert v.w.mr[i].cookie == c;
      }
    }
  }

  lemma InputKeepsHistory(s: System, data: seq<byte>, at: int, t: TimeVal)
    requires SysInv(s) && Enabled(s, Input(data, at, t))
    ensures var v := Next(s, Input(data, at, t)); HistoryOk(v) && RecordsLive(v)
  {
  }

  lemma InputKeepsBalance(s: System, data: seq<byte>, at: int, t: TimeVal)
    requires SysInv(s) && Enabled(s, Input(data, at, t))
    ensures Balanced(Next(s, Input(data, at, t)))
  {
    SettledAppend(s.fates);
    InUseUpdate(s.w.mr, FreeRec(s.w.mr), Next(s, Input(data, at, t)).w.mr[FreeRec(s.w.mr)]);
  }

  lemma InputKeepsTimers(s: System, data: seq<byte>, at: int, t: TimeVal)
    requires SysInv(s) && Enabled(s, Input(data, at, t))
    ensures var v := Next(s, Input(data, at, t)); TimersTimely(v.w, v.sends, v.armed)
  {
    var v := Next(s, Input(data, at, t));
    var i := FreeRec(s.w.mr);
    var tm := Timer(Deadline(t, T1), LostAck, i, s.w.nextId);
    DeadlineExact(t, T1);
    InsertMembers(s.w.timers, tm);
    forall x | x in v.w.timers && x.arg < |v.w.mr| && v.w.mr[x.arg].cookie < |v.sends|
      ensures TimerTimely(x, v.sends[v.w.mr[x.arg].cookie], v.armed[v.w.mr[x.arg].cookie])
    {
      if x != tm {
        assert x in s.w.timers && x.arg != i;
      }
    }
  }

  /** Sending more does not disturb the inbound side. */
  lemma LogGrows(s: System, v: System, c: nat)
    requires InboundOk(s) && v.log == s.log + [c] && v.read == s.read
    requires v.acks == s.acks && v.taken == s.taken && v.toWriter == s.toWriter && v.w.ack == s.w.ack
    requires forall k :: 0 <= k < |v.fates| && v.fates[k].Acked? ==> k < |s.fates| && s.fates[k].Acked?
    ensures InboundOk(v)
  {
    assert v.log[..v.read] == s.log[..s.read];
  }

  lemma InputKeepsCount(s: System, data: seq<byte>, at: int, t: TimeVal)
    requires SysInv(s) && Enabled(s, Input(data, at, t))
    ensures SendsCounted(Next(s, Input(data, at, t)))
  {
    assert s.w.msgid !in s.log;
  }

  lemma InputKeepsStreams(s: System, data: seq<byte>, at: int, t: TimeVal)
    requires SysInv(s) && Enabled(s, Input(data, at, t))
    ensures var v := Next(s, Input(data, at, t)); OutboundOk(v) && InboundOk(v)
  {
    var v := Next(s, Input(data, at, t));
    var c := s.w.msgid;
    assert v.log[s.read..] == s.log[s.read..] + [c];
    WireAppend(s.data, [data], s.log[s.read..], c);
    LogGrows(s, v, c);
  }

  // ---- one turn of the dispatch loop ----

  lemma TurnKeeps(s: System, at: int, t: TimeVal)
    requires SysInv(s) && Enabled(s, Turn(at, t))
    ensures SysInv(Next(s, Turn(at, t)))
  {
    FireKeepsInv(s.w, s.now, t);
    var head := s.w.timers[0];
    assert head in s.w.timers;
    ExpiryExact(s.now, head.tv);
    if head.func == LostAck {
      LostAckKeeps(s, at, t);
    } else {
      DropKeeps(s, at, t);
    }
  }

  /** `lost_ACK`: the second sending, with the bytes of the first. */
  lemma LostAckKeeps(s: System, at: int, t: TimeVal)
    requires SysInv(s) && Enabled(s, Turn(at, t)) && Inv(Fire(s.w, t).w)
    requires s.w.timers[0].func == LostAck && s.w.timers[0] in s.w.timers
    requires Micros(s.w.timers[0].tv) <= Micros(s.now)
    ensures SysInv(Next(s, Turn(at, t)))
  {
    LostAckKeepsHistory(s, at, t);
    InUseUpdate(s.w.mr, s.w.timers[0].arg, Fire(s.w, t).w.mr[s.w.timers[0].arg]);
    LostAckKeepsTimers(s, at, t);
    LostAckKeepsStreams(s, at, t);
    LostAckKeepsCount(s, at, t);
    LostAckKeepsRecorded(s, at, t);
  }

  lemma LostAckKeepsRecorded(s: System, at: int, t: TimeVal)
    requires SysInv(s) && Enabled(s, Turn(at, t)) && s.w.timers[0].func == LostAck
    ensures var v := Next(s, Turn(at, t)); RecordsLive(v) && LiveRecorded(v) && AcksSettle(v)
  {
    var v := Next(s, Turn(at, t));
    forall c | 0 <= c < |v.fates| && v.fates[c].Live? ensures InRecord(v.w.mr, c) {
      var k :| 0 <= k < |s.w.mr| && !s.w.mr[k].Free() && s.w.mr[k].cookie == c;
      assert !v.w.mr[k].Free() && v.w.mr[k].cookie == c;
    }
  }

  lemma LostAckKeepsCount(s: System, at: int, t: TimeVal)
    requires SysInv(s) && Enabled(s, Turn(at, t))
    requires s.w.timers[0].func == LostAck && s.w.timers[0] in s.w.timers
    ensures SendsCounted(Next(s, Turn(at, t)))
  {
  }

  lemma LostAckKeepsHistory(s: System, at: int, t: TimeVal)
    requires Inv(s.w) && HistoryOk(s) && RecordsLive(s) && TimersTimely(s.w, s.sends, s.armed)
    requires Enabled(s, Turn(at, t)) && s.w.timers[0].func == LostAck && s.w.timers[0] in s.w.timers
    requires Micros(s.w.timers[0].tv) <= Micros(s.now)
    ensures HistoryOk(Next(s, Turn(at, t)))
  {
    var c := s.w.mr[s.w.timers[0].arg].cookie;
    assert TimerTimely(s.w.timers[0], s.sends[c], s.armed[c]);
    ResendIsTimely(s.sends[c], s.armed[c], s.clock, at, Micros(t), s.now);
    assert forall k :: 0 <= k < |s.fates| ==> Timely(s.sends[k], s.armed[k], s.fates[k], s.clock);
  }

  lemma ResendIsTimely(sends: seq<int>, armed: int, clock: int, at: int, t: int, now: TimeVal)
    requires Timely(sends, armed, Live, clock) && |sends| == 1 && armed + T1_MICROS <= Micros(now) <= clock <= at <= t
    ensures Timely(sends + [at], t, Live, t)
  {
  }

  lemma LostAckKeepsStreams(s: System, at: int, t: TimeVal)
    requires Inv(s.w) && RecordsLive(s) && OutboundOk(s) && InboundOk(s) && Enabled(s, Turn(at, t))
    requires s.w.timers[0].func == LostAck && s.w.timers[0] in s.w.timers
    ensures var v := Next(s, Turn(at, t)); OutboundOk(v) && InboundOk(v)
  {
    var v := Next(s, Turn(at, t));
    var c := s.w.mr[s.w.timers[0].arg].cookie;
    assert v.log[s.read..] == s.log[s.read..] + [c];
    WireAppend(s.data, [], s.log[s.read..], c);
    assert s.data + [] == s.data;
    LogGrows(s, v, c);
  }

  lemma LostAckKeepsTimers(s: System, at: int, t: TimeVal)
    requires SysInv(s) && Enabled(s, Turn(at, t))
    requires s.w.timers[0].func == LostAck && s.w.timers[0] in s.w.timers
    ensures var v := Next(s, Turn(at, t)); TimersTimely(v.w, v.sends, v.armed)
  {
    FiredIsRetired(s.w, s.now, t);
    RearmedIsTimely(s.w, Fire(s.w, t).w, s.sends, s.armed, at, t);
  }

  /** The new timer is right for the message sent again, the others for the others. */
  lemma RearmedIsTimely(w: Writer, u: Writer, sends: seq<seq<int>>, armed: seq<int>, at: int, t: TimeVal)
    requires Inv(w) && |sends| == |armed| && TimersTimely(w, sends, armed) && Normal(t)
    requires w.timers != [] && w.timers[0] in w.timers && w.timers[0].func == LostAck
    requires w.timers[0].arg < |w.mr| && w.mr[w.timers[0].arg].cookie < |sends|
    requires u.timers == Insert(w.timers[1..], Timer(Deadline(t, T2), Drop, w.timers[0].arg, w.nextId))
    requires |u.mr| == |w.mr| && forall i :: 0 <= i < |w.mr| ==> u.mr[i].cookie == w.mr[i].cookie
    ensures var c := w.mr[w.timers[0].arg].cookie; TimersTimely(u, sends[c := sends[c] + [at]], armed[c := Micros(t)])
  {
    var head := w.timers[0];
    var c := w.mr[head.arg].cookie;
    var tm := Timer(Deadline(t, T2), Drop, head.arg, w.nextId);
    DeadlineExact(t, T2);
    InsertMembers(w.timers[1..], tm);
    TailKeepsTimers(w.timers, w.nextId);
    assert TimerTimely(head, sends[c], armed[c]);
    forall x | x in u.timers && x.arg < |u.mr| && u.mr[x.arg].cookie < |sends|
      ensures TimerTimely(x, sends[c := sends[c] + [at]][u.mr[x.arg].cookie], armed[c := Micros(t)][u.mr[x.arg].cookie])
    {
      if x != tm {
        OtherCookie(w, x, head);
      }
    }
  }

  /** Different timers serve messages with different cookies. */
  lemma OtherCookie(w: Writer, x: Timer, y: Timer)
    requires Inv(w) && x in w.timers && y in w.timers && x.id != y.id
    ensures x.arg != y.arg && w.mr[x.arg].cookie != w.mr[y.arg].cookie
  {
  }

  lemma DropKeeps(s: System, at: int, t: TimeVal)
    requires SysInv(s) && Enabled(s, Turn(at, t)) && Inv(Fire(s.w, t).w)
    requires s.w.timers[0].func == Drop && s.w.timers[0] in s.w.timers
    requires Micros(s.w.timers[0].tv) <= Micros(s.now)
    ensures SysInv(Next(s, Turn(at, t)))
  {
    var v := Next(s, Turn(at, t));
    var i := s.w.timers[0].arg;
    DropKeepsHistory(s, at, t);
    FreeingKeepsLive(s, v, i);
    FreeingKeepsRecorded(s, v, i);
    DropKeepsTimers(s, at, t);
    FreeingKeepsBalance(s, v, i);
  }

  lemma DropKeepsHistory(s: System, at: int, t: TimeVal)
    requires Inv(s.w) && HistoryOk(s) && RecordsLive(s) && TimersTimely(s.w, s.sends, s.armed)
    requires InboundOk(s) && AcksSettle(s) && Enabled(s, Turn(at, t))
    requires s.w.timers[0].func == Drop && s.w.timers[0] in s.w.timers
    requires Micros(s.w.timers[0].tv) <= Micros(s.now)
    ensures var v := Next(s, Turn(at, t)); HistoryOk(v) && AcksSettle(v) && InboundOk(v)
  {
    var c := s.w.mr[s.w.timers[0].arg].cookie;
    assert TimerTimely(s.w.timers[0], s.sends[c], s.armed[c]);
  }

  lemma DropKeepsTimers(s: System, at: int, t: TimeVal)
    requires SysInv(s) && Enabled(s, Turn(at, t)) && s.w.timers[0].func == Drop && s.w.timers[0] in s.w.timers
    ensures var v := Next(s, Turn(at, t)); TimersTimely(v.w, v.sends, v.armed)
  {
    TailKeepsTimers(s.w.timers, s.w.nextId);
    var v := Next(s, Turn(at, t));
    assert forall x :: x in v.w.timers ==> x in s.w.timers;
    FreeingKeepsTimers(s.w, v.w, s.w.timers[0].arg, s.sends, s.armed);
  }

  /** A message settled and a record freed. */
  lemma FreeingKeepsBalance(s: System, v: System, i: nat)
    requires Balanced(s) && i < |s.w.mr| && !s.w.mr[i].Free()
    requires s.w.mr[i].cookie < |s.fates| && s.fates[s.w.mr[i].cookie].Live?
    requires v.w.mr == FreeMsgRec(s.w.mr, i) && v.w.msgid == s.w.msgid
    requires |v.fates| == |s.fates| && !v.fates[s.w.mr[i].cookie].Live?
    requires v.fates == s.fates[s.w.mr[i].cookie := v.fates[s.w.mr[i].cookie]]
    ensures Balanced(v)
  {
    InUseUpdate(s.w.mr, i, v.w.mr[i]);
    SettledUpdate(s.fates, s.w.mr[i].cookie, v.fates[s.w.mr[i].cookie]);
  }

  /** Settling a message and freeing its record leaves the other records alone. */
  lemma FreeingKeepsLive(s: System, v: System, i: nat)
    requires SysInv(s) && i < |s.w.mr| && !s.w.mr[i].Free()
    requires v.w.mr == FreeMsgRec(s.w.mr, i) && v.w.msgid == s.w.msgid && v.data == s.data
    requires |v.fates| == |s.fates|
    requires forall c :: 0 <= c < |s.fates| && c != s.w.mr[i].cookie ==> v.fates[c] == s.fates[c]
    ensures RecordsLive(v)
  {
    forall k | 0 <= k < |v.w.mr| && !v.w.mr[k].Free()
      ensures v.fates[v.w.mr[k].cookie].Live?
    {
      assert k != i && s.w.mr[k].cookie != s.w.mr[i].cookie;
    }
  }

  /** Every other live message keeps its record. */
  lemma FreeingKeepsRecorded(s: System, v: System, i: nat)
    requires LiveRecorded(s) && i < |s.w.mr| && s.w.mr[i].cookie < |s.fates| == |v.fates|
    requires v.w.mr == FreeMsgRec(s.w.mr, i) && !v.fates[s.w.mr[i].cookie].Live?
    requires forall c :: 0 <= c < |s.fates| && c != s.w.mr[i].cookie ==> v.fates[c] == s.fates[c]
    ensures LiveRecorded(v)
  {
    forall c | 0 <= c < |v.fates| && v.fates[c].Live? ensures InRecord(v.w.mr, c) {
      assert s.fates[c].Live?;
      var k :| 0 <= k < |s.w.mr| && !s.w.mr[k].Free() && s.w.mr[k].cookie == c;
      assert v.w.mr[k] == s.w.mr[k];
    }
  }

  lemma FreeingKeepsTimers(w: Writer, v: Writer, i: nat, sends: seq<seq<int>>, armed: seq<int>)
    requires TimersTimely(w, sends, armed) && i < |w.mr| && v.mr == FreeMsgRec(w.mr, i)
    requires forall x :: x in v.timers ==> x in w.timers
    ensures TimersTimely(v, sends, armed)
  {
  }

  // ---- bytes from the peer ----

  /** A complete ACK is the frame of the next cookie on the list of acknowledgements. */
  lemma AckIsFrame(s: System, n: nat)
    requires SysInv(s) && 0 < n <= |s.toWriter| && |s.w.ack| + n == ACKSZ
    ensures s.taken < |s.acks| && s.acks[s.taken] < WORDS
    ensures var ack := s.w.ack + s.toWriter[..n];
            ack[0] == ACK && FromHost(ack[1..]) == s.acks[s.taken]
    ensures Below(s.acks[s.taken + 1..], WORDS)
    ensures s.toWriter[n..] == AckWire(s.acks[s.taken + 1..])
  {
    var rest := s.acks[s.taken..];
    var all := s.w.ack + s.toWriter;
    assert |all| != 0;
    assert rest[1..] == s.acks[s.taken + 1..];
    var frame := AckFrame(Host(rest[0]));
    assert all[..ACKSZ] == s.w.ack + s.toWriter[..n] == frame;
    assert all[ACKSZ..] == s.toWriter[n..] == AckWire(rest[1..]);
    assert frame[1..] == Host(rest[0]);
    HostRoundTrip(rest[0]);
  }

  lemma ReceivingKeeps(s: System, n: nat)
    requires SysInv(s) && Enabled(s, Receiving(n))
    ensures SysInv(Next(s, Receiving(n)))
  {
    ReceiveKeepsInv(s.w, s.toWriter[..n]);
    if |s.w.ack| + n < ACKSZ {
      PartialAckKeeps(s, n);
    } else {
      AckIsFrame(s, n);
      if FindRec(s.w.mr, s.acks[s.taken]) < |s.w.mr| {
        AckKeeps(s, Next(s, Receiving(n)), FindRec(s.w.mr, s.acks[s.taken]));
      } else {
        LateIsSettled(s);
        LateAckKeeps(s, Next(s, Receiving(n)));
      }
    }
  }

  lemma PartialAckKeeps(s: System, n: nat)
    requires SysInv(s) && Enabled(s, Receiving(n)) && |s.w.ack| + n < ACKSZ
    ensures SysInv(Next(s, Receiving(n)))
  {
    Associative(s.w.ack, s.toWriter[..n], s.toWriter[n..]);
    assert s.toWriter[..n] + s.toWriter[n..] == s.toWriter;
  }

  lemma TakenKeepsInbound(s: System, v: System)
    requires InboundOk(s) && s.taken < |s.acks| && Below(s.acks[s.taken + 1..], WORDS)
    requires v.w.ack == [] && v.toWriter == AckWire(s.acks[s.taken + 1..])
    requires v == s.(w := v.w, toWriter := v.toWriter, taken := s.taken + 1, fates := v.fates)
    requires forall c :: 0 <= c < |v.fates| && v.fates[c].Acked? ==>
               c == s.acks[s.taken] || (c < |s.fates| && s.fates[c].Acked?)
    ensures InboundOk(v)
  {
    assert s.acks[..s.taken + 1] == s.acks[..s.taken] + [s.acks[s.taken]];
    assert v.w.ack + v.toWriter == v.toWriter;
  }

  /** A message without a record is settled. */
  lemma LateIsSettled(s: System)
    requires SysInv(s) && s.taken < |s.acks| && FindRec(s.w.mr, s.acks[s.taken]) == |s.w.mr|
    ensures s.acks[s.taken] < |s.fates| && !s.fates[s.acks[s.taken]].Live?
  {
    assert s.acks[s.taken] in s.log[..s.read];
    assert !InRecord(s.w.mr, s.acks[s.taken]);
  }

  /** An ACK for a message already settled changes nothing but the place in the stream. */
  lemma LateAckKeeps(s: System, v: System)
    requires SysInv(s) && s.taken < |s.acks| && Below(s.acks[s.taken + 1..], WORDS)
    requires s.acks[s.taken] < |s.fates| && !s.fates[s.acks[s.taken]].Live?
    requires v == s.(w := s.w.(ack := []), toWriter := v.toWriter, taken := s.taken + 1)
    requires v.toWriter == AckWire(s.acks[s.taken + 1..])
    ensures SysInv(v)
  {
    TakenKeepsInbound(s, v);
    LateAckKeepsSettled(s, v);
  }

  lemma LateAckKeepsSettled(s: System, v: System)
    requires AcksSettle(s) && s.taken < |s.acks| && s.acks[s.taken] < |s.fates| && !s.fates[s.acks[s.taken]].Live?
    requires v.fates == s.fates && v.acks == s.acks && v.taken == s.taken + 1
    ensures AcksSettle(v)
  {
  }

  /** An ACK that finds its record: the message is settled, record and timer go. */
  lemma AckKeeps(s: System, v: System, i: nat)
    requires SysInv(s) && Inv(v.w) && s.taken < |s.acks| && i < |s.w.mr| && !s.w.mr[i].Free()
    requires s.w.mr[i].cookie == s.acks[s.taken] && Below(s.acks[s.taken + 1..], WORDS)
    requires v.w == s.w.(mr := FreeMsgRec(s.w.mr, i), timers := Remove(s.w.timers, s.w.mr[i].id), ack := [])
    requires v == s.(w := v.w, toWriter := v.toWriter, taken := s.taken + 1, fates := v.fates)
    requires v.fates == s.fates[s.w.mr[i].cookie := Acked]
    requires v.toWriter == AckWire(s.acks[s.taken + 1..])
    ensures SysInv(v)
  {
    TakenKeepsInbound(s, v);
    FreeingKeepsLive(s, v, i);
    FreeingKeepsRecorded(s, v, i);
    AckKeepsHistory(s, v, i);
    AckKeepsTimers(s, v, i);
    FreeingKeepsBalance(s, v, i);
  }

  lemma AckKeepsHistory(s: System, v: System, i: nat)
    requires SysInv(s) && s.taken < |s.acks| && i < |s.w.mr| && !s.w.mr[i].Free() && s.w.mr[i].cookie == s.acks[s.taken]
    requires v.w.msgid == s.w.msgid && v == s.(w := v.w, toWriter := v.toWriter, taken := s.taken + 1, fates := v.fates)
    requires v.fates == s.fates[s.w.mr[i].cookie := Acked]
    ensures HistoryOk(v) && AcksSettle(v) && OutboundOk(v) && SendsCounted(v)
  {
  }

  lemma AckKeepsTimers(s: System, v: System, i: nat)
    requires SysInv(s) && i < |s.w.mr| && v.w.mr == FreeMsgRec(s.w.mr, i)
    requires v.w.timers == Remove(s.w.timers, s.w.mr[i].id) && v.sends == s.sends && v.armed == s.armed
    ensures TimersTimely(v.w, v.sends, v.armed)
  {
    RemoveMembers(s.w.timers, s.w.mr[i].id);
    FreeingKeepsTimers(s.w, v.w, i, s.sends, s.armed);
  }

  // ---- the peer ----

  /** What the peer finds next is the packet of the first cookie it has not read. */
  lemma NextPacket(s: System)
    requires SysInv(s) && s.peerUp && s.toPeer != []
    ensures s.read < |s.log| && s.log[s.read] < |s.data|
    ensures var c := s.log[s.read];
            Below(s.log[s.read + 1..], |s.data|) &&
            NextRecord(s.toPeer, PEERBUF) ==
              (if COOKIESZ + |s.data[c]| <= PEERBUF then Record(Host(c) + s.data[c]) else TooLong,
               Wire(s.data, s.log[s.read + 1..]))
  {
    var rest := s.log[s.read..];
    assert rest[1..] == s.log[s.read + 1..];
    var c := rest[0];
    NextAfterFrame(Host(c) + s.data[c], Wire(s.data, rest[1..]), PEERBUF);
  }

  lemma PeerReadsKeeps(s: System, ignore: bool)
    requires SysInv(s) && Enabled(s, PeerReads(ignore))
    ensures SysInv(Next(s, PeerReads(ignore)))
  {
    NextPacket(s);
    PeerReadsKeepsStreams(s, ignore);
  }

  lemma PeerReadsKeepsStreams(s: System, ignore: bool)
    requires SysInv(s) && Enabled(s, PeerReads(ignore))
    ensures var v := Next(s, PeerReads(ignore)); OutboundOk(v) && InboundOk(v)
  {
    var v := Next(s, PeerReads(ignore));
    NextPacket(s);
    var c := s.log[s.read];
    if !v.peerUp {
    } else if ignore {
      assert s.log[..s.read + 1] == s.log[..s.read] + [c];
    } else {
      assert (Host(c) + s.data[c])[..COOKIESZ] == Host(c);
      HostRoundTrip(c);
      EchoKeepsInbound(s, v, c);
    }
  }

  lemma EchoKeepsInbound(s: System, v: System, c: nat)
    requires InboundOk(s) && s.read < |s.log| && s.log[s.read] == c < WORDS
    requires v == s.(toPeer := v.toPeer, read := s.read + 1, acks := s.acks + [c],
                     toWriter := s.toWriter + AckFrame(Host(c)))
    ensures InboundOk(v)
  {
    assert s.log[..s.read + 1] == s.log[..s.read] + [c];
    assert v.acks[s.taken..] == s.acks[s.taken..] + [c];
    assert v.acks[..s.taken] == s.acks[..s.taken];
    AckWireAppend(s.acks[s.taken..], c);
    Associative(s.w.ack, s.toWriter, AckFrame(Host(c)));
  }

  // ---- runs ----

  /** A run: the states passed through and the steps between them. */
  ghost predicate Run(states: seq<System>, steps: seq<Step>) {
    |states| == |steps| + 1 &&
    (exists now :: Normal(now) && states[0] == Start(now)) &&
    forall i :: 0 <= i < |steps| ==> Enabled(states[i], steps[i]) && states[i + 1] == Next(states[i], steps[i])
  }

  lemma StepKeeps(s: System, step: Step)
    requires SysInv(s) && Enabled(s, step)
    ensures SysInv(Next(s, step))
  {
    match step
    case Input(data, at, t) => InputKeeps(s, data, at, t);
    case Sample(now) => SampleKeeps(s, now);
    case Turn(at, t) => TurnKeeps(s, at, t);
    case Receiving(n) => ReceivingKeeps(s, n);
    case PeerReads(ignore) => PeerReadsKeeps(s, ignore);
  }

  /** The invariant holds in every state of every run. */
  lemma {:induction false} RunsAreSafe(states: seq<System>, steps: seq<Step>, i: nat)
    requires Run(states, steps) && i < |states|
    ensures SysInv(states[i])
  {
    if i == 0 {
      var now :| Normal(now) && states[0] == Start(now);
      StartOk(now);
    } else {
      RunsAreSafe(states, steps, i - 1);
      StepKeeps(states[i - 1], steps[i - 1]);
    }
  }

  /** Sent at most twice; T1 between the sendings, T2 between the second and giving up; a
      message acknowledged is one whose packet the peer read whole; none is unaccounted for. */
  lemma MessagesAreTreatedAlike(states: seq<System>, steps: seq<Step>, i: nat, c: nat)
    requires Run(states, steps) && i < |states| && c < states[i].w.msgid
    ensures var s := states[i];
            c < |s.sends| && c < |s.fates| && s.read <= |s.log| &&
            1 <= multiset(s.log)[c] == |s.sends[c]| <= 2 &&
            (|s.sends[c]| == 2 ==> s.sends[c][0] + T1_MICROS <= s.sends[c][1]) &&
            (s.fates[c].Dropped? ==> |s.sends[c]| == 2 && s.sends[c][1] + T2_MICROS <= s.fates[c].at) &&
            (s.fates[c].Acked? ==> c in s.log[..s.read])
    ensures states[i].w.msgid == Settled(states[i].fates) + InUse(states[i].w.mr)
  {
    RunsAreSafe(states, steps, i);
    var s := states[i];
    if s.fates[c].Acked? {
      var k :| 0 <= k < s.taken && s.acks[..s.taken][k] == c;
      assert s.acks[k] in s.log[..s.read];
    }
  }

  /** Cookies keep their meaning, settled messages stay settled and are not sent again. */
  ghost predicate Stable(a: System, b: System) {
    a.data <= b.data && |a.fates| <= |b.fates| && |a.sends| <= |b.sends| &&
    forall c :: 0 <= c < |a.fates| && c < |a.sends| && !a.fates[c].Live? ==> b.fates[c] == a.fates[c] && b.sends[c] == a.sends[c]
  }

  ghost predicate NoTimerDue(s: System) {
    Dispatch.NoneDue(s.w.timers, s.now)
  }

  /** A message is sent again, and dropped, as soon as the dispatcher has sampled the clock T1,
      or T2, after its timer was armed: a live one's time has not come. */
  lemma ServedInTime(states: seq<System>, steps: seq<Step>, i: nat, c: nat)
    requires Run(states, steps) && i < |states| && c < states[i].w.msgid
    requires NoTimerDue(states[i])
    ensures var s := states[i];
            c < |s.fates| && c < |s.sends| && c < |s.armed| &&
            (s.fates[c].Live? ==> Micros(s.now) < s.armed[c] + if |s.sends[c]| == 1 then T1_MICROS else T2_MICROS)
  {
    RunsAreSafe(states, steps, i);
    var s := states[i];
    if s.fates[c].Live? {
      var k :| 0 <= k < |s.w.mr| && !s.w.mr[k].Free() && s.w.mr[k].cookie == c;
      assert Armed(s.w.timers, k, s.w.mr[k].id);
      var t :| t in s.w.timers && t.arg == k && t.id == s.w.mr[k].id;
      assert TimerTimely(t, s.sends[c], s.armed[c]);
      ExpiryExact(s.now, t.tv);
    }
  }

  /** An ACK taken in settles its message: it was acknowledged now or earlier, or dropped. */
  lemma AcknowledgedIsSettled(states: seq<System>, steps: seq<Step>, i: nat, k: nat)
    requires Run(states, steps) && i < |states| && k < states[i].taken
    ensures var s := states[i];
            k < |s.acks| && s.acks[k] < |s.fates| && !s.fates[s.acks[k]].Live?
  {
    RunsAreSafe(states, steps, i);
  }

  /** What was typed in a run, in order. */
  function Inputs(steps: seq<Step>): seq<seq<byte>> {
    if steps == [] then []
    else
      var n := |steps| - 1;
      Inputs(steps[..n]) + if steps[n].Input? then [steps[n].data] else []
  }

  /** The cookies, in the order of sending, of the records the peer read and did not ignore. */
  ghost function Echoes(states: seq<System>, steps: seq<Step>): seq<nat>
    requires Run(states, steps)
  {
    if steps == [] then []
    else
      var n := |steps| - 1;
      Echoes(states[..n + 1], steps[..n]) +
      if steps[n] == PeerReads(false) && states[n].read < |states[n].log| && states[n + 1].peerUp then
        [states[n].log[states[n].read]] else []
  }

  /** Cookie c stands for the c-th message typed; and the peer acknowledges exactly what it
      reads and does not ignore. */
  lemma {:induction false} NothingIsMadeUp(states: seq<System>, steps: seq<Step>)
    requires Run(states, steps)
    ensures states[|steps|].data == Inputs(steps)
    ensures states[|steps|].acks == Echoes(states, steps)
    decreases |steps|
  {
    if steps != [] {
      var n := |steps| - 1;
      assert Run(states[..n + 1], steps[..n]);
      NothingIsMadeUp(states[..n + 1], steps[..n]);
      RunsAreSafe(states, steps, n);
      NothingIsMadeUpNow(states[n], steps[n]);
      assert Enabled(states[n], steps[n]) && states[n + 1] == Next(states[n], steps[n]);
    } else {
      var now :| Normal(now) && states[0] == Start(now);
    }
  }

  lemma NothingIsMadeUpNow(s: System, step: Step)
    requires SysInv(s) && Enabled(s, step)
    ensures Next(s, step).data == s.data + if step.Input? then [step.data] else []
    ensures var v := Next(s, step);
            v.acks == s.acks + if step == PeerReads(false) && s.read < |s.log| && v.peerUp then [s.log[s.read]] else []
  {
    if step.PeerReads? {
      PeerEchoes(s, step.ignore);
    }
  }

  /** The next record is the packet of the next cookie sent; unless it is ignored or too long
      the peer answers with its frame. */
  lemma PeerEchoes(s: System, ignore: bool)
    requires SysInv(s) && Enabled(s, PeerReads(ignore))
    ensures var v := Next(s, PeerReads(ignore));
            s.read < |s.log| && s.log[s.read] < |s.data| && s.log[s.read] < WORDS &&
            var c := s.log[s.read];
            (v.peerUp <==> COOKIESZ + |s.data[c]| <= PEERBUF) &&
            v.acks == s.acks + (if ignore || !v.peerUp then [] else [c]) &&
            v.toWriter == s.toWriter + (if ignore || !v.peerUp then [] else AckFrame(Host(c)))
  {
    NextPacket(s);
    var c := s.log[s.read];
    assert (Host(c) + s.data[c])[..COOKIESZ] == Host(c);
    HostRoundTrip(c);
    assert s.acks + [] == s.acks && s.toWriter + [] == s.toWriter;
  }

  lemma StableTrans(a: System, b: System, c: System)
    requires Stable(a, b) && Stable(b, c)
    ensures Stable(a, c)
  {
  }

  lemma {:induction false} StableChain(states: seq<System>, i: nat, j: nat)
    requires i <= j < |states|
    requires forall k :: i <= k < j ==> Stable(states[k], states[k + 1])
    ensures Stable(states[i], states[j])
    decreases j
  {
    if i < j {
      StableChain(states, i, j - 1);
      assert Stable(states[j - 1], states[j - 1 + 1]);
      StableTrans(states[i], states[j - 1], states[j]);
    }
  }

  /** What a cookie stands for never changes, and a settled message stays settled: so both
      sendings of a message carry the same bytes. */
  lemma HistoryIsStable(states: seq<System>, steps: seq<Step>, i: nat, j: nat)
    requires Run(states, steps) && i <= j < |states|
    ensures Stable(states[i], states[j])
  {
    forall k | i <= k < j
      ensures Stable(states[k], states[k + 1])
    {
      RunStepIsStable(states, steps, k);
    }
    StableChain(states, i, j);
  }

  lemma RunStepIsStable(states: seq<System>, steps: seq<Step>, k: nat)
    requires Run(states, steps) && k < |steps|
    ensures Stable(states[k], states[k + 1])
  {
    RunsAreSafe(states, steps, k);
    StepIsStable(states[k], steps[k]);
  }

  lemma StepIsStable(s: System, step: Step)
    requires SysInv(s) && Enabled(s, step)
    ensures Stable(s, Next(s, step))
  {
    match step
    case Turn(at, t) =>
      assert s.w.timers[0] in s.w.timers;
    case Receiving(n) =>
      if |s.w.ack| + n == ACKSZ { ReceivedIsStable(s, n); }
    case Input(data, at, t) =>
    case Sample(now) =>
    case PeerReads(ignore) =>
  }

  lemma ReceivedIsStable(s: System, n: nat)
    requires SysInv(s) && Enabled(s, Receiving(n)) && |s.w.ack| + n == ACKSZ
    ensures Stable(s, Next(s, Receiving(n)))
  {
    var i := FindRec(s.w.mr, FromHost((s.w.ack + s.toWriter[..n])[1..]));
    assert i < |s.w.mr| ==> s.fates[s.w.mr[i].cookie].Live?;
  }

  /** Every byte sequence `lost_ACK` sends is the packet first sent for the same message. */
  lemma ResendIsIdentical(s: System, at: int, t: TimeVal)
    requires SysInv(s) && Enabled(s, Turn(at, t)) && s.w.timers[0].func == LostAck
    ensures var c := s.w.mr[s.w.timers[0].arg].cookie;
            c < |s.data| && |s.data[c]| <= BUFSZ && c < WORDS &&
            Fire(s.w, t).sent == Packet(c, s.data[c])
  {
    assert s.w.timers[0] in s.w.timers;
  }

  /** A sending of a step: what it adds to the bytes on their way to the peer. */
  function Sending(s: System, step: Step): seq<byte>
    requires Enabled(s, step)
  {
    match step
    case Input(data, at, t) => Accept(s.w, data, t).sent
    case Turn(at, t) => Fire(s.w, t).sent
    case _ => []
  }

  /** Over every run the second sending of a cookie carries the bytes of the first. */
  lemma BothSendingsAreEqual(states: seq<System>, steps: seq<Step>, i: nat, j: nat)
    requires Run(states, steps) && i < j < |steps| && steps[i].Input? && steps[j].Turn?
    requires states[j].w.timers[0].func == LostAck
    requires states[j].w.mr[states[j].w.timers[0].arg].cookie == states[i].w.msgid
    ensures Sending(states[i], steps[i]) == Sending(states[j], steps[j]) != []
  {
    var c := states[i].w.msgid;
    RunsAreSafe(states, steps, i);
    RunsAreSafe(states, steps, j);
    assert states[i + 1].data == states[i].data + [steps[i].data];
    HistoryIsStable(states, steps, i + 1, j);
    ResendIsIdentical(states[j], steps[j].at, steps[j].t);
    assert states[j].data[c] == states[i + 1].data[c];
  }

  /** The program never leaves its good path except for want of a free record: no callback
      and no ACK makes it give up, no ACK is malformed, and every ACK read names a message
      whose packet the peer has read. */
  lemma OnlyExhaustionStops(states: seq<System>, steps: seq<Step>, i: nat)
    requires Run(states, steps) && i < |states|
    ensures var s := states[i];
            (forall t :: s.w.timers != [] && Normal(t) && !Before(s.now, s.w.timers[0].tv) && s.clock <= Micros(t) ==>
               Ready(s.w) && Fire(s.w, t).Ok?) &&
            (forall n :: 0 < n <= |s.toWriter| && |s.w.ack| + n <= ACKSZ ==> Receive(s.w, s.toWriter[..n]).Ok?) &&
            (forall n :: 0 < n <= |s.toWriter| && |s.w.ack| + n == ACKSZ ==>
               (s.w.ack + s.toWriter[..n])[0] == ACK &&
               FromHost((s.w.ack + s.toWriter[..n])[1..]) in s.log[..Min(s.read, |s.log|)])
    ensures var s := states[i];
            forall data, t :: |data| <= BUFSZ && s.w.msgid < WORDS && Normal(t) ==>
              (Accept(s.w, data, t).Exit? <==> InUse(s.w.mr) == MRSZ)
  {
    RunsAreSafe(states, steps, i);
    NoCallbackFails(states[i]);
    AcksAreSound(states[i]);
    InUseAll(states[i].w.mr);
  }

  lemma NoCallbackFails(s: System)
    requires SysInv(s)
    ensures forall t :: s.w.timers != [] && Normal(t) && !Before(s.now, s.w.timers[0].tv) && s.clock <= Micros(t) ==>
              Ready(s.w) && Fire(s.w, t).Ok?
  {
    forall t: TimeVal | s.w.timers != [] && Normal(t) && !Before(s.now, s.w.timers[0].tv) && s.clock <= Micros(t)
      ensures Ready(s.w) && Fire(s.w, t).Ok?
    {
      FireKeepsInv(s.w, s.now, t);
    }
  }

  lemma AcksAreSound(s: System)
    requires SysInv(s)
    ensures forall n :: 0 < n <= |s.toWriter| && |s.w.ack| + n <= ACKSZ ==> Receive(s.w, s.toWriter[..n]).Ok?
    ensures forall n :: 0 < n <= |s.toWriter| && |s.w.ack| + n == ACKSZ ==>
              (s.w.ack + s.toWriter[..n])[0] == ACK &&
              FromHost((s.w.ack + s.toWriter[..n])[1..]) in s.log[..Min(s.read, |s.log|)]
  {
    forall n | 0 < n <= |s.toWriter| && |s.w.ack| + n <= ACKSZ
      ensures Receive(s.w, s.toWriter[..n]).Ok?
    {
      AckIsSound(s, n);
    }
    forall n | 0 < n <= |s.toWriter| && |s.w.ack| + n == ACKSZ
      ensures (s.w.ack + s.toWriter[..n])[0] == ACK
      ensures FromHost((s.w.ack + s.toWriter[..n])[1..]) in s.log[..Min(s.read, |s.log|)]
    {
      AckIsSound(s, n);
    }
  }

  lemma AckIsSound(s: System, n: nat)
    requires SysInv(s) && 0 < n <= |s.toWriter| && |s.w.ack| + n <= ACKSZ
    ensures Enabled(s, Receiving(n)) && Receive(s.w, s.toWriter[..n]).Ok?
    ensures |s.w.ack| + n == ACKSZ ==>
              (s.w.ack + s.toWriter[..n])[0] == ACK &&
              FromHost((s.w.ack + s.toWriter[..n])[1..]) in s.log[..Min(s.read, |s.log|)]
  {
    ReceiveKeepsInv(s.w, s.toWriter[..n]);
    if |s.w.ack| + n == ACKSZ {
      AckIsFrame(s, n);
      assert s.acks[s.taken] in s.log[..s.read];
    }
  }

  lemma {:induction false} InUseAll(mr: seq<MsgRec>)
    ensures InUse(mr) <= |mr|
    ensures InUse(mr) == |mr| <==> FreeRec(mr) == |mr|
  {
    if mr != [] {
      InUseAll(mr[1..]);
    }
  }

  /** What is received changes nothing but the ACK buffer exactly if the ACK is not complete,
      or malformed, or for a message no longer in a record. */
  lemma LateAckIsHarmless(w: Writer, b: seq<byte>)
    requires Inv(w) && |w.ack| + |b| == ACKSZ
    ensures (w.ack + b)[0] != ACK ||
            (forall i :: 0 <= i < |w.mr| && !w.mr[i].Free() ==> w.mr[i].cookie != FromHost((w.ack + b)[1..]))
            <==> Receive(w, b) == Ok(w.(ack := []), [])
  {
    var mid := FromHost((w.ack + b)[1..]);
    var i := FindRec(w.mr, mid);
    if i < |w.mr| {
      assert !w.mr[i].Free() && FreeMsgRec(w.mr, i)[i] != w.mr[i];
    }
  }

  // ---- the dispatch loop of the program is a stretch of a run ----

  /** Dispatch turns at these clock readings, as far as they can happen. */
  ghost function Turned(s: System, rs: seq<TimeVal>): System {
    if rs == [] then s
    else
      var v := Turned(s, rs[..|rs| - 1]);
      var step := Turn(Micros(rs[|rs| - 1]), rs[|rs| - 1]);
      if Enabled(v, step) then Next(v, step) else v
  }

  ghost predicate Ticking(clock: int, rs: seq<TimeVal>) {
    (forall i :: 0 <= i < |rs| ==> Normal(rs[i]) && clock <= Micros(rs[i])) &&
    forall i, j :: 0 <= i < j < |rs| ==> Micros(rs[i]) <= Micros(rs[j])
  }

  /** Where the protocol and the program stand after the same turns. */
  ghost predicate InStep(s: System, rs: seq<TimeVal>, v: System) {
    var r := Dispatch.Pass(s.w, s.now, rs);
    SysInv(v) && r.Ok? && v.w == r.w && v.toPeer == s.toPeer + r.sent && v.now == s.now &&
    v.toWriter == s.toWriter && v.peerUp == s.peerUp &&
    v.clock == if rs == [] then s.clock else Micros(rs[|rs| - 1])
  }

  lemma TurnIsFire(v: System, t: TimeVal)
    requires SysInv(v) && Normal(t) && v.clock <= Micros(t)
    requires v.w.timers != [] && !Before(v.now, v.w.timers[0].tv) && Fire(v.w, t).Ok?
    ensures var step := Turn(Micros(t), t);
            Enabled(v, step) && SysInv(Next(v, step)) &&
            Next(v, step).w == Fire(v.w, t).w && Next(v, step).now == v.now &&
            Next(v, step).toPeer == v.toPeer + Fire(v.w, t).sent && Next(v, step).clock == Micros(t) &&
            Next(v, step).toWriter == v.toWriter && Next(v, step).peerUp == v.peerUp
  {
    assert v.w.timers[0] in v.w.timers;
    TurnKeeps(v, Micros(t), t);
    assert v.toPeer + [] == v.toPeer;
  }

  lemma InStepTurn(s: System, init: seq<TimeVal>, t: TimeVal, v: System)
    requires SysInv(s) && Ticking(s.clock, init + [t]) && |init| < DueCount(s.w.timers, s.now)
    requires InStep(s, init, v)
    ensures Enabled(v, Turn(Micros(t), t)) && InStep(s, init + [t], Next(v, Turn(Micros(t), t)))
  {
    var rs := init + [t];
    assert rs[|init|] == t && forall i :: 0 <= i < |init| ==> rs[i] == init[i];
    Dispatch.PassStep(s.w, s.now, init, t);
    TurnIsFire(v, t);
    Associative(s.toPeer, Dispatch.Pass(s.w, s.now, init).sent, Fire(v.w, t).sent);
  }

  /** One pass of the program's dispatch loop is a run of dispatch turns, each of them
      possible where it comes, with the same effect on the writer and on the wire. */
  lemma {:induction false} PassIsTurns(s: System, rs: seq<TimeVal>)
    requires SysInv(s) && Ticking(s.clock, rs) && |rs| <= DueCount(s.w.timers, s.now)
    ensures InStep(s, rs, Turned(s, rs))
    ensures rs != [] ==> Enabled(Turned(s, rs[..|rs| - 1]), Turn(Micros(rs[|rs| - 1]), rs[|rs| - 1]))
    decreases |rs|
  {
    if rs == [] {
      assert s.toPeer + [] == s.toPeer;
    } else {
      var init, t := rs[..|rs| - 1], rs[|rs| - 1];
      assert init + [t] == rs;
      PassIsTurns(s, init);
      InStepTurn(s, init, t, Turned(s, init));
    }
  }
}
