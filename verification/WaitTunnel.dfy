/** Polling the server through the tunnel (contrib/rootless/rootless.go, waitTunnel). Time is an
    integer that passes in dials and in sleeps. */
module WaitTunnel {

  /** One round: whether the dial succeeds and how long it takes, and whether the context is
      cancelled in the sleep behind it, and after how long. */
  datatype Round = Round(reached: bool, dialTime: int, cancelled: bool, cancelTime: int)

  datatype Outcome = Reached | TimedOut | Cancelled

  /** Every dial has the sleep time as its timeout. */
  ghost predicate Bounded(rounds: nat -> Round, sleep: int) {
    forall i :: 0 <= rounds(i).dialTime <= sleep && 0 <= rounds(i).cancelTime <= sleep
  }

  /** The least n with n * sleep >= duration. */
  function Ceiling(duration: int, sleep: int): (n: int)
    requires sleep > 0
    ensures (n - 1) * sleep < duration <= n * sleep
  {
    var n := (duration + sleep - 1) / sleep;
    assert (duration + sleep - 1) == n * sleep + (duration + sleep - 1) % sleep;
    Times(n, sleep);
    n
  }

  lemma Times(n: int, s: int)
    ensures (n + 1) * s == n * s + s && (n - 1) * s == n * s - s
  {
  }

  lemma LessTimes(a: int, b: int, s: int)
    requires s > 0
    ensures a <= b ==> a * s <= b * s
  {
    if a <= b {
      assert (b - a) * s >= 0;
      assert b * s == a * s + (b - a) * s;
    }
  }

  /** Returns what became of the wait, how often it dialled and how long it took. */
  method Wait(duration: int, sleep: int, rounds: nat -> Round) returns (r: Outcome, dials: nat, elapsed: int)
    requires sleep > 0 && duration > 0 && Bounded(rounds, sleep)
    ensures dials <= Ceiling(duration, sleep)
    ensures 0 <= elapsed < duration + 2 * sleep
    ensures r == TimedOut ==> elapsed >= duration && forall i :: 0 <= i < dials ==> !rounds(i).reached
    ensures r == TimedOut && (forall i :: rounds(i).dialTime == 0) ==> dials == Ceiling(duration, sleep)
    ensures r == Reached ==>
              dials > 0 && rounds(dials - 1).reached && forall i :: 0 <= i < dials - 1 ==> !rounds(i).reached
    ensures r == Cancelled ==>
              dials > 0 && rounds(dials - 1).cancelled && forall i :: 0 <= i < dials ==> !rounds(i).reached
  {
    elapsed, dials := 0, 0;
    while elapsed < duration
      invariant dials * sleep <= elapsed < duration + 2 * sleep
      invariant dials <= Ceiling(duration, sleep)
      invariant forall i :: 0 <= i < dials ==> !rounds(i).reached
      invariant (forall i :: rounds(i).dialTime == 0) ==> elapsed == dials * sleep
      decreases duration - elapsed
    {
      var round := rounds(dials);
      elapsed := elapsed + round.dialTime;
      Times(dials, sleep);
      LessTimes(Ceiling(duration, sleep), dials, sleep);
      dials := dials + 1;
      if round.reached {
        return Reached, dials, elapsed;
      }
      if round.cancelled {
        return Cancelled, dials, elapsed + round.cancelTime;
      }
      elapsed := elapsed + sleep;
    }
    if dials < Ceiling(duration, sleep) {
      Times(Ceiling(duration, sleep), sleep);
      LessTimes(dials, Ceiling(duration, sleep) - 1, sleep);
    }
    return TimedOut, dials, elapsed;
  }
}
