/** Time stamps and their arithmetic (src/timespec.c).  A time stamp denotes a number of
    nanoseconds; every operation is related to arithmetic on that number. */
module Time {
  const BILLION := 1_000_000_000

  datatype Timespec = Timespec(sec: int, nsec: int)

  /** The result of a subtraction: a magnitude and a sign. */
  datatype Timediff = Timediff(time: Timespec, sign: int)

  predicate Normal(t: Timespec) {
    0 <= t.sec && 0 <= t.nsec < BILLION
  }

  function Ns(t: Timespec): int {
    t.sec * BILLION + t.nsec
  }

  function Abs(x: int): nat {
    if x < 0 then -x else x
  }

  const MILLION := 1_000_000

  function Cmp(a: Timespec, b: Timespec): int {
    if a.sec < b.sec then -1
    else if a.sec > b.sec then 1
    else if a.nsec < b.nsec then -1
    else if a.nsec > b.nsec then 1
    else 0
  }

  /** The comparison is the order of the integers the stamps denote. */
  lemma CmpIsIntegerOrder(a: Timespec, b: Timespec)
    requires Normal(a) && Normal(b)
    ensures Cmp(a, b) < 0 <==> Ns(a) < Ns(b)
    ensures Cmp(a, b) == 0 <==> Ns(a) == Ns(b)
    ensures Cmp(a, b) == 0 <==> a == b
    ensures Cmp(a, b) > 0 <==> Ns(a) > Ns(b)
  {
  }

  /** The normalised sum. */
  function Add(t1: Timespec, t2: Timespec): (r: Timespec)
    requires 0 <= t1.sec && 0 <= t1.nsec && 0 <= t2.sec && 0 <= t2.nsec
    ensures Normal(r) && Ns(r) == Ns(t1) + Ns(t2)
  {
    var nsec := t1.nsec + t2.nsec;
    Timespec(t1.sec + t2.sec + nsec / BILLION, nsec % BILLION)
  }

  /** Two normalised stamps that denote the same instant are the same stamp. */
  lemma NsInjective(a: Timespec, b: Timespec)
    requires Normal(a) && Normal(b) && Ns(a) == Ns(b)
    ensures a == b
  {
  }

  /** The carry loop: accepts any non-negative nanosecond parts, normalised or not. */
  method TimeAdd(t1: Timespec, t2: Timespec) returns (r: Timespec)
    requires 0 <= t1.sec && 0 <= t1.nsec && 0 <= t2.sec && 0 <= t2.nsec
    ensures r == Add(t1, t2)
  {
    var sec := t2.sec + t1.sec;
    var nsec := t2.nsec + t1.nsec;
    while nsec >= BILLION
      invariant 0 <= sec && 0 <= nsec
      invariant sec * BILLION + nsec == Ns(t1) + Ns(t2)
    {
      nsec := nsec - BILLION;
      sec := sec + 1;
    }
    r := Timespec(sec, nsec);
    NsInjective(r, Add(t1, t2));
  }

  /** The difference, computed in unsigned arithmetic: the naturals below are the proof that
      nothing wraps around. */
  function TimeSub(t1: Timespec, t2: Timespec): (d: Timediff)
    requires Normal(t1) && Normal(t2)
    ensures Normal(d.time) && (d.sign == 1 || d.sign == -1)
    ensures d.sign * Ns(d.time) == Ns(t1) - Ns(t2)
    ensures Ns(t1) == Ns(t2) ==> d.sign == 1
  {
    var swap := Cmp(t1, t2) < 0;
    var hi := if swap then t2 else t1;
    var lo := if swap then t1 else t2;
    var sec: nat := hi.sec - lo.sec;
    var d: Timespec :=
      if hi.nsec >= lo.nsec then
        var nsec: nat := hi.nsec - lo.nsec;
        Timespec(sec, nsec)
      else
        var sec': nat := sec - 1;
        var nsec: nat := BILLION - lo.nsec + hi.nsec;
        Timespec(sec', nsec);
    Timediff(d, if swap then -1 else 1)
  }

  function OfMs(ms: nat): (t: Timespec)
    ensures Normal(t) && Ns(t) == ms * MILLION
  {
    Timespec(ms / 1000, ms % 1000 * MILLION)
  }

  function AddMs(t: Timespec, ms: nat): (r: Timespec)
    requires Normal(t)
    ensures Normal(r) && Ns(r) == Ns(t) + ms * MILLION
  {
    Add(t, OfMs(ms))
  }

  /** Subtracting more than there is yields the distance, not a negative time: the sign of the
      difference is dropped. */
  function SubMs(t: Timespec, ms: nat): (r: Timespec)
    requires Normal(t)
    ensures Normal(r) && Ns(r) == Abs(Ns(t) - ms * MILLION)
  {
    TimeSub(t, OfMs(ms)).time
  }

  predicate IsNear(t1: Timespec, t2: Timespec, ms: nat)
    requires Normal(t1) && Normal(t2)
  {
    || (Cmp(t2, AddMs(t1, ms)) <= 0 && Cmp(t2, t1) >= 0)
    || (Cmp(t2, SubMs(t1, ms)) >= 0 && Cmp(t2, t1) <= 0)
  }

  predicate Within(t1: Timespec, t2: Timespec, ms: nat) {
    Abs(Ns(t1) - Ns(t2)) <= ms * MILLION
  }

  /** Nearness always implies the distance; the converse holds for every t2 exactly when t1 lies
      at least ms after the epoch or on the epoch itself. */
  lemma IsNearExactly(t1: Timespec, ms: nat)
    requires Normal(t1)
    ensures forall t2 :: Normal(t2) && IsNear(t1, t2, ms) ==> Within(t1, t2, ms)
    ensures (forall t2 :: Normal(t2) ==> (IsNear(t1, t2, ms) <==> Within(t1, t2, ms)))
       <==> (Ns(t1) >= ms * MILLION || Ns(t1) == 0)
  {
    forall t2 | Normal(t2)
      ensures IsNear(t1, t2, ms) ==> Within(t1, t2, ms)
      ensures Ns(t1) >= ms * MILLION || Ns(t1) == 0 ==> (Within(t1, t2, ms) ==> IsNear(t1, t2, ms))
    {
      CmpIsIntegerOrder(t2, AddMs(t1, ms));
      CmpIsIntegerOrder(t2, SubMs(t1, ms));
      CmpIsIntegerOrder(t2, t1);
    }
    if !(Ns(t1) >= ms * MILLION || Ns(t1) == 0) {
      var epoch := Timespec(0, 0);
      CmpIsIntegerOrder(epoch, t1);
      CmpIsIntegerOrder(epoch, SubMs(t1, ms));
      assert Normal(epoch) && Within(t1, epoch, ms) && !IsNear(t1, epoch, ms);
    }
  }
}
