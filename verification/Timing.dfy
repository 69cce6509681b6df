/** Deadlines: the remaining time of PhysicalSocketServer::Wait and the timespecs of
    Event::Wait and ConditionVariable::SleepCS. */
module Timing {

  datatype Timeval = Timeval(sec: int, usec: int)
  datatype Timespec = Timespec(sec: int, nsec: int)

  const MICROS: int := 1_000_000
  const NANOS: int := 1_000_000_000

  predicate NormalV(t: Timeval) { 0 <= t.usec < MICROS }
  predicate NormalS(t: Timespec) { 0 <= t.nsec < NANOS }

  /** Microseconds, nanoseconds since the epoch. */
  function Micros(t: Timeval): int { t.sec * MICROS + t.usec }
  function Nanos(t: Timespec): int { t.sec * NANOS + t.nsec }

  /** C's division and remainder, which truncate toward zero. */
  function Quot(a: int, b: int): int
    requires b > 0
  {
    if a >= 0 then a / b else -((-a) / b)
  }

  function Rem(a: int, b: int): int
    requires b > 0
  {
    if a >= 0 then a % b else -((-a) % b)
  }

  lemma QuotRem(a: int, b: int)
    requires b > 0
    ensures a == Quot(a, b) * b + Rem(a, b) && -b < Rem(a, b) < b
    ensures a >= 0 ==> Rem(a, b) >= 0
    ensures a < 0 ==> Rem(a, b) <= 0
  {
    if a < 0 {
      assert -a == (-a) / b * b + (-a) % b;
    } else {
      assert a == a / b * b + a % b;
    }
  }

  /** What Wait sets up before its loop. */
  method StopTime(now: Timeval, cmsWait: int) returns (wait: Timeval, stop: Timeval)
    requires cmsWait > 0 && NormalV(now)
    ensures NormalV(wait) && Micros(wait) == cmsWait * 1000
    ensures NormalV(stop) && Micros(stop) == Micros(now) + cmsWait * 1000
  {
    QuotRem(cmsWait, 1000);
    wait := Timeval(Quot(cmsWait, 1000), Rem(cmsWait, 1000) * 1000);
    stop := Timeval(now.sec + wait.sec, now.usec + wait.usec);
    if stop.usec >= MICROS {
      stop := Timeval(stop.sec + 1, stop.usec - MICROS);
    }
  }

  /** What it gives the next select. */
  method Remaining(stop: Timeval, now: Timeval) returns (wait: Timeval)
    requires NormalV(stop) && NormalV(now)
    ensures NormalV(wait) && wait.sec >= 0
    ensures Micros(wait) == if Micros(stop) > Micros(now) then Micros(stop) - Micros(now) else 0
  {
    wait := Timeval(0, 0);
    if stop.sec > now.sec || (stop.sec == now.sec && stop.usec > now.usec) {
      wait := Timeval(stop.sec - now.sec, stop.usec - now.usec);
      if wait.usec < 0 {
        wait := Timeval(wait.sec - 1, wait.usec + MICROS);
      }
    }
  }

  /** The timeouts Wait gives its successive selects; `clock` is read once before the
      loop and once after every turn. The first is the whole delay; a later one is
      within it exactly when the clock has not gone back behind the start, and zero
      exactly when the delay is over. None is longer than the one before it unless the
      clock runs backwards. */
  method SelectTimeouts(cmsWait: int, clock: seq<Timeval>) returns (waits: seq<Timeval>)
    requires cmsWait > 0 && clock != [] && forall i :: 0 <= i < |clock| ==> NormalV(clock[i])
    ensures |waits| == |clock| && Micros(waits[0]) == cmsWait * 1000
    ensures forall i :: 0 <= i < |waits| ==> NormalV(waits[i]) && waits[i].sec >= 0
    ensures forall i :: 0 < i < |waits| ==>
              (Micros(waits[i]) <= cmsWait * 1000 <==> Micros(clock[i]) >= Micros(clock[0]))
    ensures forall i :: 0 < i < |waits| ==>
              (Micros(waits[i]) == 0 <==> Micros(clock[i]) >= Micros(clock[0]) + cmsWait * 1000)
    ensures forall i, j :: 0 <= i < j < |waits| && Micros(clock[i]) <= Micros(clock[j]) ==>
              Micros(waits[j]) <= Micros(waits[i])
  {
    var wait, stop := StopTime(clock[0], cmsWait);
    waits := [wait];
    while |waits| < |clock|
      invariant 1 <= |waits| <= |clock|
      invariant forall i :: 0 <= i < |waits| ==> NormalV(waits[i]) && waits[i].sec >= 0
      invariant forall i :: 0 <= i < |waits| ==>
                  Micros(waits[i]) == if Micros(stop) > Micros(clock[i]) then Micros(stop) - Micros(clock[i]) else 0
      decreases |clock| - |waits|
    {
      wait := Remaining(stop, clock[|waits|]);
      waits := waits + [wait];
    }
  }

  /** Event::Wait's absolute deadline; `sum` is tv_nsec before the carry. For a
      negative delay the result is normalised exactly when the sum is not negative. */
  method EventDeadline(now: Timeval, milliseconds: int) returns (ts: Timespec, sum: int)
    requires NormalV(now)
    ensures Nanos(ts) == Micros(now) * 1000 + milliseconds * 1_000_000
    ensures -0x8000_0000 <= sum < 0x8000_0000
    ensures NormalS(ts) <==> milliseconds >= 0 || now.usec * 1000 >= Rem(-milliseconds, 1000) * 1_000_000
  {
    QuotRem(milliseconds, 1000);
    sum := now.usec * 1000 + Rem(milliseconds, 1000) * 1_000_000;
    ts := Timespec(now.sec + Quot(milliseconds, 1000), sum);
    if ts.nsec >= NANOS {
      ts := Timespec(ts.sec + 1, ts.nsec - NANOS);
    }
  }

  /** SleepCS's absolute deadline, whose delay is unsigned. */
  method SleepDeadline(now: Timespec, maxTimeInMS: nat) returns (ts: Timespec, sum: int)
    requires NormalS(now)
    ensures NormalS(ts) && Nanos(ts) == Nanos(now) + maxTimeInMS * 1_000_000
    ensures 0 <= sum < 0x8000_0000
  {
    sum := now.nsec + (maxTimeInMS - maxTimeInMS / 1000 * 1000) * 1_000_000;
    ts := Timespec(now.sec + maxTimeInMS / 1000, sum);
    if ts.nsec >= NANOS {
      ts := Timespec(ts.sec + ts.nsec / NANOS, ts.nsec % NANOS);
    }
  }
}
