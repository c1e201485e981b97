/** Clock readings, timer deadlines and the wait handed to `select`, as
    `tselect.c` computes them on (seconds, microseconds) pairs. */
module TimeVals {
  const MILLION := 1_000_000

  datatype TimeVal = TimeVal(sec: int, usec: int)

  /** What `gettimeofday` returns. */
  predicate Normal(t: TimeVal) {
    0 <= t.usec < MILLION
  }

  /** What the timer list stores: the carry test is a strict comparison, so a full
      million microseconds can stay uncarried. */
  predicate Stored(t: TimeVal) {
    0 <= t.usec <= MILLION
  }

  function Micros(t: TimeVal): int {
    t.sec * MILLION + t.usec
  }

  /** `timercmp( &a, &b, < )` */
  predicate Before(a: TimeVal, b: TimeVal) {
    if a.sec == b.sec then a.usec < b.usec else a.sec < b.sec
  }

  /** The deadline of a timer armed at `now` for `ms` milliseconds. */
  function Deadline(now: TimeVal, ms: int): TimeVal
    requires Normal(now) && 0 <= ms
  {
    var usec := now.usec + ms * 1000;
    if usec > MILLION then TimeVal(now.sec + usec / MILLION, usec % MILLION)
    else TimeVal(now.sec, usec)
  }

  /** The wait `tselect` hands to `select` when `head` is the next deadline. */
  function Wait(head: TimeVal, now: TimeVal): TimeVal {
    var usec := head.usec - now.usec;
    if usec < 0 then TimeVal(head.sec - now.sec - 1, usec + MILLION)
    else TimeVal(head.sec - now.sec, usec)
  }

  /** A deadline is exactly `ms` milliseconds away, and it is stored uncarried in exactly
      one case. */
  lemma DeadlineExact(now: TimeVal, ms: int)
    requires Normal(now) && 0 <= ms
    ensures Stored(Deadline(now, ms))
    ensures Micros(Deadline(now, ms)) == Micros(now) + 1000 * ms
    ensures !Normal(Deadline(now, ms)) <==> now.usec + 1000 * ms == MILLION
  {
    var usec := now.usec + ms * 1000;
    assert usec == MILLION * (usec / MILLION) + usec % MILLION;
  }

  /** The expiry test agrees with absolute time even for an uncarried deadline. */
  lemma ExpiryExact(now: TimeVal, tv: TimeVal)
    requires Normal(now) && Stored(tv)
    ensures Before(now, tv) <==> Micros(now) < Micros(tv)
  {
    if now.sec < tv.sec {
      assert now.sec * MILLION + MILLION <= tv.sec * MILLION;
    } else if tv.sec < now.sec {
      assert tv.sec * MILLION + MILLION <= now.sec * MILLION;
    }
  }

  /** Between two stored deadlines the list order never contradicts absolute time; the two
      differ exactly when one of them is uncarried and names the next full second. */
  lemma OrderExact(a: TimeVal, b: TimeVal)
    requires Stored(a) && Stored(b)
    ensures Micros(a) < Micros(b) ==> Before(a, b)
    ensures Before(a, b) ==> Micros(a) <= Micros(b)
    ensures Before(a, b) && Micros(a) == Micros(b) <==>
            a.usec == MILLION && b == TimeVal(a.sec + 1, 0)
  {
    if a.sec < b.sec {
      assert a.sec * MILLION + MILLION <= b.sec * MILLION;
    } else if b.sec < a.sec {
      assert b.sec * MILLION + MILLION <= a.sec * MILLION;
    }
  }

  /** The wait is strictly positive and is the head's deadline minus the sampled time. */
  lemma WaitExact(head: TimeVal, now: TimeVal)
    requires Normal(now) && Stored(head)
    requires Before(now, head)
    ensures 0 < Micros(Wait(head, now)) == Micros(head) - Micros(now)
    ensures 0 <= Wait(head, now).sec && Stored(Wait(head, now))
    ensures !Normal(Wait(head, now)) <==> head.usec == MILLION && now.usec == 0
  {
    ExpiryExact(now, head);
  }

  /** A timer armed for a positive delay at or after `now` lies strictly beyond `now`. */
  lemma DeadlineLater(now: TimeVal, armed: TimeVal, ms: int)
    requires Normal(now) && Normal(armed) && 0 < ms
    requires Micros(now) <= Micros(armed)
    ensures Before(now, Deadline(armed, ms))
  {
    DeadlineExact(armed, ms);
    ExpiryExact(now, Deadline(armed, ms));
  }
}
