/** Producer `smbc.c` and consumer `smbs.c` passing shared buffers by index, under every
    interleaving of their steps. */
module BufferPassing {
  import opened Bytes
  import opened SharedBuffers

  /** Where the producer stands: about to allocate; holding a buffer to fill; holding a filled
      buffer to send; ended by end of input; ended for want of a buffer. */
  datatype Producer = Allocating | Filling(i: nat) | Sending(i: nat) | Finished(i: nat) | Starved

  /** Where the consumer stands: about to receive; about to print; about to free. */
  datatype Consumer = Waiting | Printing(i: nat) | Freeing(i: nat)

  /** Memory, the two programs, the bytes of the indices in flight, and the history: the lines
      read from standard input and what was printed; `chain` and `flight` name the buffers on the free list and
      in flight. */
  datatype World = World(
    m: Mem, producer: Producer, consumer: Consumer, channel: seq<byte>,
    read: seq<seq<byte>>, printed: seq<seq<byte>>, chain: seq<nat>, flight: seq<nat>)

  datatype Step = Allocate | Read(line: seq<byte>) | EndOfInput | Send | Receive | Print | Free

  /** The C string at the start of a buffer, or of a line. */
  function Text(cell: seq<byte>): (t: seq<byte>)
    ensures t <= cell && 0 !in t
    ensures |t| < |cell| ==> cell[|t|] == 0
  {
    if cell == [] || cell[0] == 0 then [] else [cell[0]] + Text(cell[1..])
  }

  /** `fgets`: the line, a NUL, and behind it what was there before. */
  function Filled(cell: seq<byte>, line: seq<byte>): (c: seq<byte>)
    requires |line| < |cell|
    ensures |c| == |cell|
  {
    line + [0] + cell[|line| + 1..]
  }

  ghost predicate Enabled(w: World, step: Step) {
    Sized(w.m) && w.m.free < NSMB &&
    match step
    case Allocate => w.producer.Allocating?
    case Read(line) => w.producer.Filling? && w.producer.i < NSMB && |line| < SMBUFSZ
    case EndOfInput => w.producer.Filling?
    case Send => w.producer.Sending? && w.producer.i < NSMB
    case Receive => w.consumer.Waiting? && INTSZ <= |w.channel| && 0 <= BytesInt(w.channel[..INTSZ])
    case Print => w.consumer.Printing? && w.consumer.i < NSMB
    case Free => w.consumer.Freeing? && w.consumer.i < NSMB
  }

  function Next(w: World, step: Step): World
    requires Enabled(w, step)
  {
    match step
    case Allocate =>
      (match Alloc(w.m)
       case OutOfBuffers => w.(producer := Starved)
       case Buffer(i, m) => w.(producer := Filling(i), m := m, chain := if w.chain == [] then [] else w.chain[1..]))
    case Read(line) =>
      var i := w.producer.i;
      w.(producer := Sending(i), m := w.m.(cells := w.m.cells[i := Filled(w.m.cells[i], line)]), read := w.read + [line])
    case EndOfInput => w.(producer := Finished(w.producer.i))
    case Send =>
      var i := w.producer.i;
      w.(producer := Allocating, channel := w.channel + IntBytes(i), flight := w.flight + [i])
    case Receive =>
      w.(consumer := Printing(BytesInt(w.channel[..INTSZ])), channel := w.channel[INTSZ..],
         flight := if w.flight == [] then [] else w.flight[1..])
    case Print => w.(consumer := Freeing(w.consumer.i), printed := w.printed + [Text(w.m.cells[w.consumer.i])])
    case Free =>
      w.(consumer := Waiting, m := Release(w.m, w.consumer.i), chain := [w.consumer.i] + w.chain)
  }

  // ---- the invariant ----

  function Held(p: Producer): seq<nat> {
    match p
    case Allocating => []
    case Starved => []
    case Filling(i) => [i]
    case Sending(i) => [i]
    case Finished(i) => [i]
  }

  function Used(c: Consumer): seq<nat> {
    match c
    case Waiting => []
    case Printing(i) => [i]
    case Freeing(i) => [i]
  }

  /** Each buffer is in exactly one of four lists, once, and nothing else is in any. */
  ghost predicate Partition(free: seq<nat>, held: seq<nat>, flight: seq<nat>, used: seq<nat>) {
    (forall b :: 0 <= b < NSMB ==> Places(free, held, flight, used, b) == 1) &&
    |free| + |held| + |flight| + |used| == NSMB
  }

  function Places(free: seq<nat>, held: seq<nat>, flight: seq<nat>, used: seq<nat>, b: nat): nat {
    Occurs(free, b) + Occurs(held, b) + Occurs(flight, b) + Occurs(used, b)
  }

  function Occurs(q: seq<nat>, b: nat): (n: nat)
    ensures 0 < n <==> b in q
  {
    if q == [] then 0 else (if q[0] == b then 1 else 0) + Occurs(q[1..], b)
  }

  lemma {:induction false} OccursAppend(q: seq<nat>, x: nat, b: nat)
    ensures Occurs(q + [x], b) == Occurs(q, b) + Occurs([x], b)
  {
    if q == [] {
      assert q + [x] == [x];
    } else {
      assert (q + [x])[1..] == q[1..] + [x];
      OccursAppend(q[1..], x, b);
    }
  }

  lemma OccursCons(q: seq<nat>, x: nat, b: nat)
    ensures Occurs([x] + q, b) == Occurs([x], b) + Occurs(q, b)
  {
    assert ([x] + q)[1..] == q;
  }

  /** The four ways a buffer changes hands. */
  lemma Allocated(free: seq<nat>, flight: seq<nat>, used: seq<nat>, x: nat)
    requires Partition([x] + free, [], flight, used)
    ensures Partition(free, [x], flight, used)
  {
    forall b | 0 <= b < NSMB ensures Places(free, [x], flight, used, b) == 1 {
      OccursCons(free, x, b);
      assert Places([x] + free, [], flight, used, b) == 1;
    }
  }

  lemma Sent(free: seq<nat>, flight: seq<nat>, used: seq<nat>, x: nat)
    requires Partition(free, [x], flight, used)
    ensures Partition(free, [], flight + [x], used)
  {
    forall b | 0 <= b < NSMB ensures Places(free, [], flight + [x], used, b) == 1 {
      OccursAppend(flight, x, b);
      assert Places(free, [x], flight, used, b) == 1;
    }
  }

  lemma Received(free: seq<nat>, held: seq<nat>, flight: seq<nat>, x: nat)
    requires Partition(free, held, [x] + flight, [])
    ensures Partition(free, held, flight, [x])
  {
    forall b | 0 <= b < NSMB ensures Places(free, held, flight, [x], b) == 1 {
      OccursCons(flight, x, b);
      assert Places(free, held, [x] + flight, [], b) == 1;
    }
  }

  lemma Freed(free: seq<nat>, held: seq<nat>, flight: seq<nat>, x: nat)
    requires Partition(free, held, flight, [x])
    ensures Partition([x] + free, held, flight, [])
  {
    forall b | 0 <= b < NSMB ensures Places([x] + free, held, flight, [], b) == 1 {
      OccursCons(free, x, b);
      assert Places(free, held, flight, [x], b) == 1;
    }
  }

  /** Nobody's buffer is anybody else's. */
  lemma HeldElsewhere(free: seq<nat>, held: seq<nat>, flight: seq<nat>, used: seq<nat>, x: nat)
    requires Partition(free, held, flight, used) && x < NSMB
    ensures x in held ==> x !in free && x !in flight && x !in used
    ensures x in used ==> x !in free && x !in flight && x !in held
  {
    assert Places(free, held, flight, used, x) == 1;
  }

  function IndexBytes(flight: seq<nat>): seq<byte>
    requires forall k :: 0 <= k < |flight| ==> flight[k] < NSMB
  {
    if flight == [] then [] else IntBytes(flight[0]) + IndexBytes(flight[1..])
  }

  function Texts(m: Mem, flight: seq<nat>): seq<seq<byte>>
    requires forall k :: 0 <= k < |flight| ==> flight[k] < |m.cells|
  {
    if flight == [] then [] else [Text(m.cells[flight[0]])] + Texts(m, flight[1..])
  }

  /** What the lines show when printed: what precedes the first NUL. */
  function Shown(lines: seq<seq<byte>>): (t: seq<seq<byte>>)
    ensures |t| == |lines| && forall k :: 0 <= k < |t| ==> t[k] == Text(lines[k])
  {
    seq(|lines|, k requires 0 <= k < |lines| => Text(lines[k]))
  }

  /** What was read but not yet printed, still lying in the buffers. */
  function Pending(w: World): seq<seq<byte>>
    requires forall k :: 0 <= k < |w.flight| ==> w.flight[k] < |w.m.cells|
    requires w.consumer.Printing? ==> w.consumer.i < |w.m.cells|
    requires w.producer.Sending? ==> w.producer.i < |w.m.cells|
  {
    (if w.consumer.Printing? then [Text(w.m.cells[w.consumer.i])] else []) + Texts(w.m, w.flight) + ToSend(w.m, w.producer)
  }

  function ToSend(m: Mem, p: Producer): seq<seq<byte>>
    requires p.Sending? ==> p.i < |m.cells|
  {
    if p.Sending? then [Text(m.cells[p.i])] else []
  }

  ghost predicate InRange(w: World) {
    (forall k :: 0 <= k < |w.flight| ==> w.flight[k] < NSMB) &&
    (Held(w.producer) != [] ==> Held(w.producer)[0] < NSMB) &&
    (Used(w.consumer) != [] ==> Used(w.consumer)[0] < NSMB)
  }

  /** The free list is what it should be; the channel holds the indices in flight; and what
      was read is what was printed and what is pending. */
  ghost predicate Inv(w: World) {
    FreeChain(w.m, w.chain) && Partition(w.chain, Held(w.producer), w.flight, Used(w.consumer)) && InRange(w) &&
    w.channel == IndexBytes(w.flight) &&
    Shown(w.read) == w.printed + Pending(w)
  }

  ghost predicate Starts(w: World) {
    FreeChain(w.m, w.chain) && Partition(w.chain, [], [], []) &&
    w.producer == Allocating && w.consumer == Waiting && w.channel == [] && w.flight == [] &&
    w.read == [] && w.printed == []
  }

  lemma {:induction false} OccursInRange(low: nat, n: nat, b: nat)
    ensures Occurs(seq(n, i requires 0 <= i < n => low + i), b) == if low <= b < low + n then 1 else 0
    decreases n
  {
    var q: seq<nat> := seq(n, i requires 0 <= i < n => low + i);
    if n != 0 {
      assert q[1..] == seq(n - 1, i requires 0 <= i < n - 1 => low + 1 + i);
      OccursInRange(low + 1, n - 1, b);
    }
  }

  /** With the memory as `init_smb` leaves it and both programs at their beginning, the two
      can start. */
  lemma InitialIsStart(m: Mem)
    requires FreeChain(m, seq(NSMB, i requires 0 <= i < NSMB => i))
    ensures Starts(World(m, Allocating, Waiting, [], [], [], seq(NSMB, i requires 0 <= i < NSMB => i), []))
  {
    var chain: seq<nat> := seq(NSMB, i requires 0 <= i < NSMB => i);
    assert chain == seq(NSMB, i requires 0 <= i < NSMB => 0 + i);
    forall b | 0 <= b < NSMB ensures Places(chain, [], [], [], b) == 1 {
      OccursInRange(0, NSMB, b);
    }
  }

  lemma StartInv(w: World)
    requires Starts(w)
    ensures Inv(w)
  {
  }

  lemma {:induction false} TextsKeep(m: Mem, v: Mem, flight: seq<nat>)
    requires |m.cells| == |v.cells| && forall k :: 0 <= k < |flight| ==> flight[k] < |m.cells|
    requires forall k :: 0 <= k < |flight| ==> v.cells[flight[k]] == m.cells[flight[k]]
    ensures Texts(v, flight) == Texts(m, flight)
  {
    if flight != [] {
      TextsKeep(m, v, flight[1..]);
    }
  }

  lemma {:induction false} TextsAppend(m: Mem, flight: seq<nat>, i: nat)
    requires i < |m.cells| && forall k :: 0 <= k < |flight| ==> flight[k] < |m.cells|
    ensures forall k :: 0 <= k < |flight + [i]| ==> (flight + [i])[k] < |m.cells|
    ensures Texts(m, flight + [i]) == Texts(m, flight) + [Text(m.cells[i])]
  {
    if flight == [] {
      assert flight + [i] == [i];
    } else {
      TextsAppend(m, flight[1..], i);
      assert (flight + [i])[1..] == flight[1..] + [i];
    }
  }

  lemma {:induction false} IndexBytesAppend(flight: seq<nat>, i: nat)
    requires i < NSMB && forall k :: 0 <= k < |flight| ==> flight[k] < NSMB
    ensures forall k :: 0 <= k < |flight + [i]| ==> (flight + [i])[k] < NSMB
    ensures IndexBytes(flight + [i]) == IndexBytes(flight) + IntBytes(i)
  {
    if flight == [] {
      assert flight + [i] == [i];
    } else {
      IndexBytesAppend(flight[1..], i);
      assert (flight + [i])[1..] == flight[1..] + [i];
      Associative(IntBytes(flight[0]), IndexBytes(flight[1..]), IntBytes(i));
    }
  }

  lemma AllocateKeeps(w: World)
    requires Inv(w) && Enabled(w, Allocate)
    ensures Inv(Next(w, Allocate))
    ensures Next(w, Allocate).producer.Starved? <==> w.chain == []
  {
    AllocPops(w.m, w.chain);
    if w.chain != [] {
      var v := Next(w, Allocate);
      assert w.chain == [w.chain[0]] + v.chain;
      AllocateKeepsPartition(w, w.chain[0], v.chain);
      AllocateKeepsTexts(w, v);
    }
  }

  lemma AllocateKeepsPartition(w: World, i: nat, rest: seq<nat>)
    requires Inv(w) && w.producer.Allocating? && w.chain == [i] + rest
    ensures i < NSMB && Partition(rest, [i], w.flight, Used(w.consumer))
  {
    Allocated(rest, w.flight, Used(w.consumer), i);
    assert w.chain[0] == i;
  }

  /** Taking a buffer off the list changes no buffer. */
  lemma AllocateKeepsTexts(w: World, v: World)
    requires Inv(w) && v.m.cells == w.m.cells && v.flight == w.flight && v.consumer == w.consumer
    requires w.producer.Allocating? && !v.producer.Sending? && v.read == w.read && v.printed == w.printed
    ensures Shown(v.read) == v.printed + Pending(v)
  {
    TextsKeep(w.m, v.m, w.flight);
  }

  lemma ReadKeeps(w: World, line: seq<byte>)
    requires Inv(w) && Enabled(w, Read(line))
    ensures Inv(Next(w, Read(line)))
  {
    var v := Next(w, Read(line));
    var i := w.producer.i;
    HeldElsewhere(w.chain, [i], w.flight, Used(w.consumer), i);
    OverwriteKeeps(w.m, w.chain, i, v.m.cells[i]);
    FilledShows(line, w.m.cells[i]);
    ReadKeepsHistory(w, v, i, line);
  }

  /** A buffer filled with a line shows the line, whatever was in it. */
  lemma {:induction false} FilledShows(line: seq<byte>, cell: seq<byte>)
    requires |line| < |cell|
    ensures Text(Filled(cell, line)) == Text(line)
  {
    if line != [] {
      assert Filled(cell, line)[1..] == Filled(cell[1..], line[1..]);
      FilledShows(line[1..], cell[1..]);
    }
  }

  /** The producer's buffer is not one whose contents still matter to the consumer. */
  lemma ReadKeepsHistory(w: World, v: World, i: nat, line: seq<byte>)
    requires Inv(w) && i < NSMB && i !in w.flight && i !in Used(w.consumer) && w.producer.Filling?
    requires |v.m.cells| == NSMB && forall k :: 0 <= k < NSMB && k != i ==> v.m.cells[k] == w.m.cells[k]
    requires v.flight == w.flight && v.consumer == w.consumer && v.printed == w.printed
    requires v.producer == Sending(i) && Text(v.m.cells[i]) == Text(line) && v.read == w.read + [line]
    ensures Shown(v.read) == v.printed + Pending(v)
  {
    assert forall k :: 0 <= k < |w.flight| ==> w.flight[k] in w.flight;
    TextsKeep(w.m, v.m, w.flight);
    assert w.consumer.Printing? ==> w.consumer.i in Used(w.consumer);
    assert Shown(v.read) == Shown(w.read) + [Text(line)];
    assert Pending(v) == Pending(w) + [Text(line)];
    Associative(w.printed, Pending(w), [Text(line)]);
  }

  lemma SendKeeps(w: World)
    requires Inv(w) && Enabled(w, Send)
    ensures Inv(Next(w, Send))
  {
    var v := Next(w, Send);
    var i := w.producer.i;
    Sent(w.chain, w.flight, Used(w.consumer), i);
    TextsAppend(w.m, w.flight, i);
    IndexBytesAppend(w.flight, i);
    SendKeepsHistory(w, v, Text(w.m.cells[i]));
  }

  /** The line moves from the producer's hands to the buffers in flight. */
  lemma SendKeepsHistory(w: World, v: World, text: seq<byte>)
    requires Inv(w) && InRange(v) && v.m == w.m && v.consumer == w.consumer && v.printed == w.printed && v.read == w.read
    requires w.producer.Sending? && !v.producer.Sending? && ToSend(w.m, w.producer) == [text]
    requires Texts(v.m, v.flight) == Texts(w.m, w.flight) + [text]
    ensures Shown(v.read) == v.printed + Pending(v)
  {
    var front := if w.consumer.Printing? then [Text(w.m.cells[w.consumer.i])] else [];
    Associative(front, Texts(w.m, w.flight), [text]);
    assert Pending(v) == Pending(w);
  }

  /** The first index in the channel is that of the first buffer in flight. */
  lemma NextIndex(w: World)
    requires Inv(w) && INTSZ <= |w.channel|
    ensures w.flight != [] && BytesInt(w.channel[..INTSZ]) == w.flight[0] < NSMB
    ensures w.channel[INTSZ..] == IndexBytes(w.flight[1..])
  {
    assert w.flight != [];
    assert w.channel[..INTSZ] == IntBytes(w.flight[0]);
    IntRoundTrip(w.flight[0]);
  }

  lemma ReceiveKeeps(w: World)
    requires Inv(w) && Enabled(w, Receive)
    ensures Inv(Next(w, Receive))
  {
    var v := Next(w, Receive);
    NextIndex(w);
    assert w.flight == [w.flight[0]] + v.flight;
    Received(w.chain, Held(w.producer), v.flight, w.flight[0]);
    ReceiveKeepsHistory(w, v);
  }

  lemma ReceiveKeepsHistory(w: World, v: World)
    requires Inv(w) && w.flight != [] && w.consumer.Waiting?
    requires v.consumer == Printing(w.flight[0]) && v.flight == w.flight[1..]
    requires v.m == w.m && v.producer == w.producer && v.read == w.read && v.printed == w.printed
    ensures Shown(v.read) == v.printed + Pending(v)
  {
    assert Texts(w.m, w.flight) == [Text(w.m.cells[w.flight[0]])] + Texts(w.m, v.flight);
    assert Pending(v) == Pending(w);
  }

  lemma PrintKeeps(w: World)
    requires Inv(w) && Enabled(w, Print)
    ensures Inv(Next(w, Print))
  {
    var v := Next(w, Print);
    assert Pending(w) == [Text(w.m.cells[w.consumer.i])] + Pending(v);
    Associative(w.printed, [Text(w.m.cells[w.consumer.i])], Pending(v));
  }

  lemma FreeKeeps(w: World)
    requires Inv(w) && Enabled(w, Free)
    ensures Inv(Next(w, Free))
  {
    var v := Next(w, Free);
    var i := w.consumer.i;
    HeldElsewhere(w.chain, Held(w.producer), w.flight, [i], i);
    ReleasePushes(w.m, w.chain, i);
    Freed(w.chain, Held(w.producer), w.flight, i);
    assert forall k :: 0 <= k < |w.flight| ==> w.flight[k] in w.flight;
    TextsKeep(w.m, v.m, w.flight);
  }

  lemma EndOfInputKeeps(w: World)
    requires Inv(w) && Enabled(w, EndOfInput)
    ensures Inv(Next(w, EndOfInput))
  {
  }

  ghost predicate Run(states: seq<World>, steps: seq<Step>) {
    |states| == |steps| + 1 && Starts(states[0]) &&
    forall i :: 0 <= i < |steps| ==> Enabled(states[i], steps[i]) && states[i + 1] == Next(states[i], steps[i])
  }

  lemma {:induction false} RunInv(states: seq<World>, steps: seq<Step>, i: nat)
    requires Run(states, steps) && i < |states|
    ensures Inv(states[i])
  {
    if i == 0 {
      StartInv(states[0]);
    } else {
      RunInv(states, steps, i - 1);
      StepInv(states[i - 1], steps[i - 1]);
    }
  }

  lemma StepInv(w: World, step: Step)
    requires Inv(w) && Enabled(w, step)
    ensures Inv(Next(w, step))
  {
    match step
    case Allocate => AllocateKeeps(w);
    case Read(line) => ReadKeeps(w, line);
    case EndOfInput => EndOfInputKeeps(w);
    case Send => SendKeeps(w);
    case Receive => ReceiveKeeps(w);
    case Print => PrintKeeps(w);
    case Free => FreeKeeps(w);
  }

  /** The lines that the producer reads in these steps. */
  function LinesRead(steps: seq<Step>): seq<seq<byte>> {
    if steps == [] then []
    else LinesRead(steps[..|steps| - 1]) + if steps[|steps| - 1].Read? then [steps[|steps| - 1].line] else []
  }

  lemma {:induction false} ReadIsLinesRead(states: seq<World>, steps: seq<Step>, i: nat)
    requires Run(states, steps) && i < |states|
    ensures states[i].read == LinesRead(steps[..i])
  {
    if 0 < i {
      ReadIsLinesRead(states, steps, i - 1);
      assert steps[..i][..i - 1] == steps[..i - 1];
      assert Enabled(states[i - 1], steps[i - 1]) && states[i] == Next(states[i - 1], steps[i - 1]);
    }
  }

  /** In every state of every run: what was printed is, line by line and each up to its first
      NUL, a prefix of what was read, and nothing else is pending than what lies in a buffer
      about to be sent, in flight or at the consumer. */
  lemma PrintedIsPrefix(states: seq<World>, steps: seq<Step>, i: nat)
    requires Run(states, steps) && i < |states|
    ensures states[i].printed <= Shown(LinesRead(steps[..i]))
    ensures |LinesRead(steps[..i])| - |states[i].printed| ==
            |states[i].flight| + (if states[i].consumer.Printing? then 1 else 0) + if states[i].producer.Sending? then 1 else 0
  {
    RunInv(states, steps, i);
    ReadIsLinesRead(states, steps, i);
    TextsLength(states[i].m, states[i].flight);
  }

  lemma {:induction false} TextsLength(m: Mem, flight: seq<nat>)
    requires forall k :: 0 <= k < |flight| ==> flight[k] < |m.cells|
    ensures |Texts(m, flight)| == |flight|
  {
    if flight != [] {
      TextsLength(m, flight[1..]);
    }
  }

  /** Each buffer is free, at the producer, in flight or at the consumer, and only one of
      these; an index received is always a buffer's; the producer starves exactly when
      the consumer and the channel hold every buffer. */
  lemma OneOwner(states: seq<World>, steps: seq<Step>, i: nat, b: nat)
    requires Run(states, steps) && i < |states| && b < NSMB
    ensures var w := states[i];
            Occurs(w.chain, b) + Occurs(Held(w.producer), b) + Occurs(w.flight, b) + Occurs(Used(w.consumer), b) == 1
    ensures var w := states[i];
            w.consumer.Waiting? && INTSZ <= |w.channel| ==> 0 <= BytesInt(w.channel[..INTSZ]) < NSMB
    ensures var w := states[i];
            Enabled(w, Allocate) ==>
              (Next(w, Allocate).producer.Starved? <==> |w.flight| + |Used(w.consumer)| == NSMB)
  {
    RunInv(states, steps, i);
    var w := states[i];
    assert Places(w.chain, Held(w.producer), w.flight, Used(w.consumer), b) == 1;
    if w.consumer.Waiting? && INTSZ <= |w.channel| {
      NextIndex(w);
    }
    if Enabled(w, Allocate) {
      AllocateKeeps(w);
    }
  }
}
