/** The fixed-window limiter on provisioning attempts per source address (internal/services/rbac.go:217-236). */
module JitLimiter {
  import opened Prelude

  /** `start` is None until the first attempt: the zero time lies further back than any window. */
  datatype Window = Window(start: Option<int>, counts: map<string, int>)

  function Count(counts: map<string, int>, ip: string): int { if ip in counts then counts[ip] else 0 }

  predicate Expired(w: Window, now: int, span: int) { w.start.None? || now - w.start.value > span }

  function Opened(w: Window, now: int, span: int): Window { if Expired(w, now, span) then Window(Some(now), map[]) else w }

  function Counted(w: Window, ip: string, now: int, span: int): Window {
    var o := Opened(w, now, span);
    o.(counts := o.counts[ip := Count(o.counts, ip) + 1])
  }

  class Limiter {
    var windowStart: Option<int>
    var counts: map<string, int>
    const limit: int
    const span: int

    ghost function Value(): Window
      reads this
    {
      Window(windowStart, counts)
    }

    constructor (limit: int, span: int)
      ensures Value() == Window(None, map[]) && this.limit == limit && this.span == span
    {
      windowStart, counts := None, map[];
      this.limit, this.span := limit, span;
    }

    method Limited(ip: string, now: int) returns (limited: bool)
      modifies this
      ensures Value() == Counted(old(Value()), ip, now, span)
      ensures limited <==> Count(counts, ip) > limit
    {
      if windowStart.None? || now - windowStart.value > span {
        windowStart := Some(now);
        counts := map[];
      }
      counts := counts[ip := (if ip in counts then counts[ip] else 0) + 1];
      limited := counts[ip] > limit;
    }

    /** Any sequence of attempts is the trace over values. */
    method Replay(attempts: seq<(string, int)>) returns (log: seq<Attempt>)
      requires Value() == Window(None, map[])
      modifies this
      ensures log == Trace(attempts, limit, span)
    {
      log := [];
      for i := 0 to |attempts|
        invariant log == Trace(attempts[..i], limit, span)
        invariant Value() == After(attempts[..i], span)
      {
        assert attempts[..i + 1][..i] == attempts[..i];
        var limited := Limited(attempts[i].0, attempts[i].1);
        log := log + [Attempt(attempts[i].0, attempts[i].1, windowStart.value, !limited)];
      }
      assert attempts[..|attempts|] == attempts;
    }
  }

  // ------------------------------------------------------------- runs

  /** An attempt, the start of the window it counted in, and whether it was admitted. */
  datatype Attempt = Attempt(ip: string, now: int, epoch: int, admitted: bool)

  function After(attempts: seq<(string, int)>, span: int): (w: Window)
    ensures attempts != [] ==> w.start.Some?
  {
    if attempts == [] then Window(None, map[])
    else
      var n := |attempts| - 1;
      Counted(After(attempts[..n], span), attempts[n].0, attempts[n].1, span)
  }

  function Trace(attempts: seq<(string, int)>, limit: int, span: int): (log: seq<Attempt>)
    ensures |log| == |attempts|
  {
    if attempts == [] then []
    else
      var n := |attempts| - 1;
      var w := After(attempts, span);
      Trace(attempts[..n], limit, span) + [Attempt(attempts[n].0, attempts[n].1, w.start.value, Count(w.counts, attempts[n].0) <= limit)]
  }

  predicate ClockOk(attempts: seq<(string, int)>) { forall i, j :: 0 <= i < j < |attempts| ==> attempts[i].1 <= attempts[j].1 }

  function Max0(x: int): nat { if x < 0 then 0 else x }

  /** Admitted attempts of one address in one window. */
  function InEpoch(log: seq<Attempt>, ip: string, epoch: int): nat {
    if log == [] then 0
    else
      var n := |log| - 1;
      InEpoch(log[..n], ip, epoch) + (if log[n].ip == ip && log[n].epoch == epoch && log[n].admitted then 1 else 0)
  }

  /** Admitted attempts of one address at times in [from, upto]. */
  function InInterval(log: seq<Attempt>, ip: string, from: int, upto: int): nat {
    if log == [] then 0
    else
      var n := |log| - 1;
      InInterval(log[..n], ip, from, upto) + (if log[n].ip == ip && from <= log[n].now <= upto && log[n].admitted then 1 else 0)
  }

  /** Windows follow one another more than a span apart, and hold their attempts' times. */
  predicate Spaced(log: seq<Attempt>, span: int) {
    && (forall i :: 0 <= i < |log| ==> log[i].epoch <= log[i].now)
    && forall i, j :: 0 <= i < j < |log| ==>
         && log[i].now <= log[j].now && log[i].epoch <= log[j].epoch
         && (log[i].epoch < log[j].epoch ==> log[i].now <= log[j].epoch && log[j].epoch - log[i].epoch > span)
  }

  ghost predicate Bounded(log: seq<Attempt>, w: Window, limit: int, ip: string) {
    && (forall e :: InEpoch(log, ip, e) <= Max0(limit))
    && (w.start.Some? ==> InEpoch(log, ip, w.start.value) <= Max0(Count(w.counts, ip)))
  }

  lemma SpacedStep(log: seq<Attempt>, w: Window, span: int, last: Attempt)
    requires Spaced(log, span) && span >= 0
    requires log == [] ==> w.start.None?
    requires log != [] ==> w.start == Some(log[|log| - 1].epoch) && log[|log| - 1].now <= last.now
    requires last.epoch == if Expired(w, last.now, span) then last.now else w.start.value
    ensures Spaced(log + [last], span)
  {
    var n := |log|;
    var more := log + [last];
    forall i | 0 <= i < n
      ensures more[i].now <= last.now && more[i].epoch <= last.epoch
      ensures more[i].epoch < last.epoch ==> more[i].now <= last.epoch && last.epoch - more[i].epoch > span
    {
      assert i < n - 1 ==> log[i].now <= log[n - 1].now && log[i].epoch <= log[n - 1].epoch;
    }
  }

  lemma EmptyTrace(limit: int, span: int)
    ensures Trace([], limit, span) == [] && After([], span) == Window(None, map[])
  {
  }

  lemma TraceStep(attempts: seq<(string, int)>, limit: int, span: int)
    requires attempts != []
    ensures var n := |attempts| - 1;
            var w, log := After(attempts[..n], span), Trace(attempts, limit, span);
            && log == Trace(attempts[..n], limit, span) + [log[n]] && log[n].now == attempts[n].1
            && log[n].epoch == After(attempts, span).start.value
            && log[n].epoch == if Expired(w, attempts[n].1, span) then attempts[n].1 else w.start.value
  {
  }

  lemma {:induction false} TraceSpaced(attempts: seq<(string, int)>, limit: int, span: int)
    requires ClockOk(attempts) && span >= 0
    ensures Spaced(Trace(attempts, limit, span), span)
    ensures attempts != [] ==> Trace(attempts, limit, span)[|attempts| - 1].epoch == After(attempts, span).start.value
    ensures attempts != [] ==> Trace(attempts, limit, span)[|attempts| - 1].now == attempts[|attempts| - 1].1
  {
    if attempts != [] {
      var n := |attempts| - 1;
      var init, w := Trace(attempts[..n], limit, span), After(attempts[..n], span);
      EmptyTrace(limit, span);
      TraceSpaced(attempts[..n], limit, span);
      TraceStep(attempts, limit, span);
      hide Spaced, Trace, After, Expired;
      SpacedStep(init, w, span, Trace(attempts, limit, span)[n]);
    }
  }

  lemma {:induction false} NoneInEpoch(log: seq<Attempt>, ip: string, epoch: int)
    requires forall i :: 0 <= i < |log| ==> log[i].epoch != epoch
    ensures InEpoch(log, ip, epoch) == 0
  {
    if log != [] { NoneInEpoch(log[..|log| - 1], ip, epoch); }
  }

  lemma BoundedStep(log: seq<Attempt>, w: Window, limit: int, span: int, ip: string, who: string, now: int)
    requires Bounded(log, w, limit, ip) && Count(w.counts, ip) >= 0
    requires Expired(w, now, span) ==> InEpoch(log, ip, now) == 0
    ensures var v := Counted(w, who, now, span);
            var last := Attempt(who, now, v.start.value, Count(v.counts, who) <= limit);
            Bounded(log + [last], v, limit, ip) && Count(v.counts, ip) >= 0
  {
    var o := Opened(w, now, span);
    var v := Counted(w, who, now, span);
    var last := Attempt(who, now, v.start.value, Count(v.counts, who) <= limit);
    var c := Count(o.counts, ip);
    assert c >= 0 && Count(v.counts, ip) == if who == ip then c + 1 else c;
    assert InEpoch(log, ip, last.epoch) <= c;
    hide Expired, Counted, Opened, InEpoch, Count;
    forall e ensures InEpoch(log + [last], ip, e) <= Max0(limit) { InEpochSnoc(log, last, ip, e); }
    InEpochSnoc(log, last, ip, last.epoch);
  }

  lemma InEpochSnoc(log: seq<Attempt>, last: Attempt, ip: string, epoch: int)
    ensures InEpoch(log + [last], ip, epoch) == InEpoch(log, ip, epoch) + (if last.ip == ip && last.epoch == epoch && last.admitted then 1 else 0)
  {
    assert (log + [last])[..|log|] == log;
  }

  lemma {:induction false} TraceBounded(attempts: seq<(string, int)>, limit: int, span: int, ip: string)
    requires ClockOk(attempts) && span >= 0
    ensures Bounded(Trace(attempts, limit, span), After(attempts, span), limit, ip)
    ensures Count(After(attempts, span).counts, ip) >= 0
  {
    if attempts != [] {
      var n := |attempts| - 1;
      var init, w := Trace(attempts[..n], limit, span), After(attempts[..n], span);
      TraceBounded(attempts[..n], limit, span, ip);
      TraceSpaced(attempts[..n], limit, span);
      if Expired(w, attempts[n].1, span) {
        NoneInEpoch(init, ip, attempts[n].1);
      }
      hide Bounded, Expired, Count, Counted;
      BoundedStep(init, w, limit, span, ip, attempts[n].0, attempts[n].1);
    }
  }

  lemma {:induction false} TwoEpochs(log: seq<Attempt>, ip: string, from: int, upto: int, e1: int, e2: int)
    requires forall i :: 0 <= i < |log| && from <= log[i].now <= upto ==> log[i].epoch == e1 || log[i].epoch == e2
    ensures InInterval(log, ip, from, upto) <= InEpoch(log, ip, e1) + InEpoch(log, ip, e2)
  {
    if log != [] { TwoEpochs(log[..|log| - 1], ip, from, upto, e1, e2); }
  }

  lemma {:induction false} Ends(log: seq<Attempt>, from: int, upto: int) returns (i: nat, j: nat)
    requires exists k :: 0 <= k < |log| && from <= log[k].now <= upto
    ensures i < |log| && from <= log[i].now <= upto && j < |log| && from <= log[j].now <= upto
    ensures forall k :: 0 <= k < |log| && from <= log[k].now <= upto ==> i <= k <= j
  {
    var n := |log| - 1;
    if exists k :: 0 <= k < n && from <= log[..n][k].now <= upto {
      i, j := Ends(log[..n], from, upto);
      if from <= log[n].now <= upto { j := n; }
      forall k | 0 <= k < |log| && from <= log[k].now <= upto ensures i <= k <= j {
        if k < n { assert log[..n][k] == log[k]; }
      }
    } else {
      i, j := n, n;
      assert forall k :: 0 <= k < n ==> log[..n][k] == log[k];
    }
  }

  /** For every sequence of attempts on a clock that does not go back, at most `limit` attempts of an address are
      admitted per window, and at most twice that in any interval no longer than a window. */
  lemma AdmissionBounds(attempts: seq<(string, int)>, limit: int, span: int, ip: string, epoch: int, from: int, upto: int)
    requires ClockOk(attempts) && span >= 0 && upto - from <= span
    ensures InEpoch(Trace(attempts, limit, span), ip, epoch) <= Max0(limit)
    ensures InInterval(Trace(attempts, limit, span), ip, from, upto) <= 2 * Max0(limit)
  {
    var log := Trace(attempts, limit, span);
    TraceSpaced(attempts, limit, span);
    TraceBounded(attempts, limit, span, ip);
    AtMostTwice(log, After(attempts, span), limit, span, ip, from, upto);
  }

  lemma AtMostTwice(log: seq<Attempt>, w: Window, limit: int, span: int, ip: string, from: int, upto: int)
    requires Spaced(log, span) && Bounded(log, w, limit, ip) && upto - from <= span
    ensures InInterval(log, ip, from, upto) <= 2 * Max0(limit)
  {
    hide Spaced, InEpoch, InInterval, Max0;
    if exists k :: 0 <= k < |log| && from <= log[k].now <= upto {
      var i, j := Ends(log, from, upto);
      forall k | 0 <= k < |log| && from <= log[k].now <= upto ensures log[k].epoch == log[i].epoch || log[k].epoch == log[j].epoch {
        NoThirdEpoch(log, span, i, k, j);
      }
      TwoEpochs(log, ip, from, upto, log[i].epoch, log[j].epoch);
    } else {
      TwoEpochs(log, ip, from, upto, 0, 0);
    }
  }

  /** Attempts no more than a span apart lie in at most two windows. */
  lemma NoThirdEpoch(log: seq<Attempt>, span: int, i: nat, k: nat, j: nat)
    requires Spaced(log, span) && i <= k <= j < |log| && log[j].now - log[i].now <= span
    ensures log[k].epoch == log[i].epoch || log[k].epoch == log[j].epoch
  {
  }

  // ------------------------------------------------------------- the second bound is reached

  function Repeated(a: (string, int), n: nat): seq<(string, int)> { if n == 0 then [] else Repeated(a, n - 1) + [a] }

  lemma {:induction false} RepeatedIs(a: (string, int), n: nat)
    ensures |Repeated(a, n)| == n && forall i :: 0 <= i < n ==> Repeated(a, n)[i] == a
  {
    if n > 0 { RepeatedIs(a, n - 1); }
  }

  /** `n` more attempts at one time of an open window are admitted up to the limit. */
  lemma {:induction false} Burst(before: seq<(string, int)>, ip: string, now: int, n: nat, limit: int, span: int)
    requires before != [] && now - After(before, span).start.value <= span && Count(After(before, span).counts, ip) + n <= limit
    ensures After(before + Repeated((ip, now), n), span).start == After(before, span).start
    ensures Count(After(before + Repeated((ip, now), n), span).counts, ip) == Count(After(before, span).counts, ip) + n
    ensures forall from, upto :: from <= now <= upto ==>
      InInterval(Trace(before + Repeated((ip, now), n), limit, span), ip, from, upto)
      == InInterval(Trace(before, limit, span), ip, from, upto) + n
  {
    if n == 0 {
      assert before + Repeated((ip, now), 0) == before;
    } else {
      Burst(before, ip, now, n - 1, limit, span);
      assert before + Repeated((ip, now), n) == (before + Repeated((ip, now), n - 1)) + [(ip, now)];
      OneMore(before + Repeated((ip, now), n - 1), ip, now, limit, span);
    }
  }

  lemma OneMore(before: seq<(string, int)>, ip: string, now: int, limit: int, span: int)
    requires var w := Opened(After(before, span), now, span); Count(w.counts, ip) + 1 <= limit
    ensures var w, all := Opened(After(before, span), now, span), before + [(ip, now)];
            && After(all, span) == w.(counts := w.counts[ip := Count(w.counts, ip) + 1])
            && forall from, upto :: from <= now <= upto ==>
                 InInterval(Trace(all, limit, span), ip, from, upto) == InInterval(Trace(before, limit, span), ip, from, upto) + 1
  {
    var all := before + [(ip, now)];
    assert all[..|before|] == before;
    var log := Trace(all, limit, span);
    assert log[..|before|] == Trace(before, limit, span);
  }

  lemma FirstAttempt(ip: string, limit: int, span: int, from: int, upto: int)
    requires limit >= 1 && from > 0
    ensures After([(ip, 0)], span) == Window(Some(0), map[ip := 1])
    ensures forall other :: InInterval(Trace([(ip, 0)], limit, span), other, from, upto) == 0
  {
    assert [(ip, 0)][..0] == [];
    assert Trace([(ip, 0)], limit, span)[..0] == [];
  }

  lemma BurstsInOrder(n: nat, span: int)
    requires span >= 1
    ensures ClockOk([("b", 0)] + Repeated(("a", span), n) + Repeated(("a", span + 1), n))
  {
    hide Repeated;
    RepeatedIs(("a", span), n);
    RepeatedIs(("a", span + 1), n);
  }

  /** For every limit of at least one and every window: `limit` attempts at the end of one window and as many at the
      start of the next are all admitted, twice the limit within a unit of time. */
  lemma DoubleBurst(limit: int, span: int)
    requires limit >= 1 && span >= 1
    ensures var attempts := [("b", 0)] + Repeated(("a", span), limit) + Repeated(("a", span + 1), limit);
            ClockOk(attempts) && InInterval(Trace(attempts, limit, span), "a", span, span + 1) == 2 * limit
  {
    hide ClockOk, Repeated, Trace, After, InInterval;
    var open := [("b", 0)];
    var first := open + Repeated(("a", span), limit);
    var next := first + [("a", span + 1)];
    FirstAttempt("b", limit, span, span, span + 1);
    Burst(open, "a", span, limit, limit, span);
    OneMore(first, "a", span + 1, limit, span);
    Burst(next, "a", span + 1, limit - 1, limit, span);
    RepeatedFront(("a", span + 1), limit);
    assert next + Repeated(("a", span + 1), limit - 1) == first + Repeated(("a", span + 1), limit);
    BurstsInOrder(limit, span);
  }

  lemma RepeatedFront(a: (string, int), n: nat)
    requires n > 0
    ensures Repeated(a, n) == [a] + Repeated(a, n - 1)
  {
    RepeatedIs(a, n);
    RepeatedIs(a, n - 1);
  }
}
