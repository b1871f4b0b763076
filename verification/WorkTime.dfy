/** The work-time settings and the number of cores the daemon offers: where the credit numbers come from. */
module WorkTime {
  import opened Wrappers

  const MINUTES: nat := 24 * 60

  type Hour = h: nat | h < 24
  type Minute = m: nat | m < 60

  /** A time element of the configuration: absent, not a time, or hours and minutes. */
  datatype TimeOfDay = Missing | Malformed | At(hour: Hour, minute: Minute)

  function Clamp(x: real): real {
    if x < 0.0 then 0.0 else if x > 100.0 then 100.0 else x
  }

  /** Of all percentages the nearest. */
  lemma {:induction false} ClampIsNearest(x: real, y: real)
    requires 0.0 <= y <= 100.0
    ensures var c := Clamp(x);
            && 0.0 <= c <= 100.0 && (0.0 <= x <= 100.0 ==> c == x)
            && (if x <= c then c - x else x - c) <= (if x <= y then y - x else x - y)
  {
  }

  /** The two-branch window test. */
  predicate Inside(now: nat, begin: nat, end: nat) {
    if begin < end then begin <= now && now <= end else begin <= now || now <= end
  }

  function MaxTasks(threads: int): int {
    if threads - 3 < 1 then 1 else threads - 3
  }

  /** What is offered at `percent` of the usable threads: a cast that cuts the fraction off. */
  function Offered(threads: int, percent: real): nat
    requires percent >= 0.0
  {
    (Share(MaxTasks(threads), percent) + 0.5).Floor
  }

  class Projects {
    var workBegin: nat
    var workEnd: nat
    var workBath: real
    var workDefault: real

    ghost predicate Valid()
      reads this
    {
      && workBegin < MINUTES && workEnd < MINUTES
      && 0.0 <= workBath <= 100.0 && 0.0 <= workDefault <= 100.0
    }

    constructor ()
      ensures Valid() && workBegin == workEnd == 0 && workBath == workDefault == 100.0
    {
      workBegin, workEnd, workBath, workDefault := 0, 0, 100.0, 100.0;
    }

    /** Settings are taken in order; a malformed time stops, with what came before it kept. */
    method LoadWorkTime(begin: TimeOfDay, end: TimeOfDay, bath: Option<real>, normal: Option<real>) returns (ok: bool)
      requires Valid()
      modifies this
      ensures Valid()
      ensures ok <==> !begin.Malformed? && !end.Malformed?
      ensures workBegin == if begin.At? then begin.hour * 60 + begin.minute else old(workBegin)
      ensures workEnd == if !begin.Malformed? && end.At? then end.hour * 60 + end.minute else old(workEnd)
      ensures workBath == if ok && bath.Some? then Clamp(bath.value) else old(workBath)
      ensures workDefault == if ok && normal.Some? then Clamp(normal.value) else old(workDefault)
      ensures forall x | 0.0 <= x <= 100.0 ::
                (ok && bath == Some(x) ==> workBath == x) && (ok && normal == Some(x) ==> workDefault == x)
    {
      if begin != Missing {
        if begin.Malformed? { return false; }
        workBegin := begin.hour * 60 + begin.minute;
      }
      if end != Missing {
        if end.Malformed? { return false; }
        workEnd := end.hour * 60 + end.minute;
      }
      if bath.Some? { workBath := Clamp(bath.value); }
      if normal.Some? { workDefault := Clamp(normal.value); }
      return true;
    }

    /** Inside the daily window, which may run over midnight, one percentage holds, outside it the other. */
    function GetWorkPercent(now: nat): (percent: real)
      requires Valid() && now < MINUTES
      reads this
      ensures percent == if workBegin == workEnd || (now - workBegin) % MINUTES <= (workEnd - workBegin) % MINUTES
                         then workBath else workDefault
    {
      WindowIsCyclic(MINUTES, now, workBegin, workEnd);
      if Inside(now, workBegin, workEnd) then workBath else workDefault
    }

    /** Never more than the usable threads, whatever the hour and the settings: the nearest whole number to
        the configured share of them, a half going up. */
    function GetFreeCore(threads: int, now: nat): (cores: nat)
      requires Valid() && now < MINUTES
      reads this
      ensures cores <= if threads > 4 then threads - 3 else 1
      ensures GetWorkPercent(now) == 100.0 ==> cores == if threads > 4 then threads - 3 else 1
      ensures var share := (if threads > 4 then threads - 3 else 1) as real * GetWorkPercent(now) / 100.0;
              share - 0.5 < cores as real <= share + 0.5
    {
      OfferedIsNearest(threads, GetWorkPercent(now));
      OfferedIsMonotone(threads, threads, 100.0, 100.0);
      Offered(threads, GetWorkPercent(now))
    }
  }

  function Share(m: int, percent: real): real {
    m as real * percent / 100.0
  }

  lemma {:induction false} ShareIsMonotone(m: int, n: int, p: real, q: real)
    requires 0 <= m <= n && 0.0 <= p <= q
    ensures 0.0 <= Share(m, p) <= Share(n, q) && Share(m, 100.0) == m as real
  {
    var x, y := m as real, n as real;
    assert x * p <= x * q;
    assert x * q <= y * q;
  }

  lemma {:induction false} RoundingIsMonotone(x: real, y: real)
    requires x <= y
    ensures (x + 0.5).Floor <= (y + 0.5).Floor
  {
    assert (x + 0.5).Floor as real < ((y + 0.5).Floor + 1) as real;
  }

  lemma {:induction false} RoundingWhole(m: int, x: real)
    requires x == m as real
    ensures (x + 0.5).Floor == m
  {
    assert m as real <= x + 0.5 < (m + 1) as real;
  }

  lemma {:induction false} OfferedIsNearest(threads: int, percent: real)
    requires 0.0 <= percent <= 100.0
    ensures 0 <= Offered(threads, percent) <= MaxTasks(threads)
    ensures var share := Share(MaxTasks(threads), percent);
            share - 0.5 < Offered(threads, percent) as real <= share + 0.5
  {
    var m := MaxTasks(threads);
    ShareIsMonotone(m, m, percent, 100.0);
    RoundingIsMonotone(Share(m, percent), Share(m, 100.0));
    RoundingWhole(m, Share(m, 100.0));
  }

  /** More of the machine, by either measure, never means fewer offered cores. Full share offers every
      usable thread, and a job request is ignored for want of cores exactly below half a core. */
  lemma {:induction false} OfferedIsMonotone(threads: int, threads': int, p: real, q: real)
    requires 0.0 <= p <= q <= 100.0 && threads <= threads'
    ensures Offered(threads, p) <= Offered(threads', q)
    ensures Offered(threads, 100.0) == MaxTasks(threads) == if threads > 4 then threads - 3 else 1
    ensures Offered(threads, p) == 0 <==> MaxTasks(threads) as real * p < 50.0
  {
    var m, m' := MaxTasks(threads), MaxTasks(threads');
    ShareIsMonotone(m, m', p, q);
    RoundingIsMonotone(Share(m, p), Share(m', q));
    RoundingWhole(m, Share(m, 100.0));
    var area := m as real * p;
    assert Share(m, p) == area / 100.0;
    assert area / 100.0 + 0.5 < 1.0 <==> area < 50.0;
  }

  /** On a clock of any length `day`, for a window whose ends differ, the two-branch test says whether `now`
      is reached from `begin` no later than `end` is; a window whose ends coincide is always open. */
  lemma {:induction false} WindowIsCyclic(day: nat, now: nat, begin: nat, end: nat)
    requires now < day && begin < day && end < day
    ensures Inside(now, begin, end) <==> begin == end || (now - begin) % day <= (end - begin) % day
  {
    Around(day, now, begin);
    Around(day, end, begin);
  }

  lemma {:induction false} Around(day: nat, x: nat, begin: nat)
    requires x < day && begin < day
    ensures (x - begin) % day == if x < begin then x - begin + day else x - begin
  {
    if x < begin {
      assert (x - begin + day) % day == (x - begin) % day;
    }
  }
}
