/** Polling with a geometric backoff and a deadline (components/dashboard/src/util.ts). */
module Polling {

  /** Times are in seconds. */
  datatype Options = Options(
    backoffFactor: real, warningInSeconds: real, retryUntilSeconds: real, hasWarn: bool, hasStop: bool)

  datatype CallbackResult = Done | NotDone | Throws

  /** The world: how late each timer fires, how long each call of the callback takes, and how it ends. */
  datatype World = World(late: nat -> real, takes: nat -> real, ends: nat -> CallbackResult)

  datatype Action = Warn | Call(n: nat) | Success | Stop

  /** Timers never fire early, and calls do not take negative time. */
  ghost predicate Causal(w: World) {
    forall n :: w.late(n) >= 0.0 && w.takes(n) >= 0.0
  }

  /** An upper bound on the checks that can still pass. */
  function ChecksLeft(elapsed: real, until: real, delay: real): int
    requires delay > 0.0
  {
    if elapsed > until then 0 else ((until - elapsed) / delay).Floor + 1
  }

  lemma Product(a: real, b: real, d: real)
    requires d > 0.0 && a < b
    ensures a * d < b * d
  {}

  lemma Distribute(x: real, d: real)
    ensures (x + 1.0) * d == x * d + d
  {}

  lemma Division(a: real, b: real, d: real)
    requires d > 0.0 && a + d <= b
    ensures a / d + 1.0 <= b / d
  {
    var x, y := a / d, b / d;
    assert x * d == a && y * d == b;
    if y < x + 1.0 {
      Product(y, x + 1.0, d);
      Distribute(x, d);
      assert false;
    }
  }

  lemma FewerChecksLeft(elapsed: real, later: real, until: real, delay: real)
    requires delay > 0.0 && elapsed + delay <= later && elapsed <= until
    ensures 0 <= ChecksLeft(later, until, delay) < ChecksLeft(elapsed, until, delay)
  {
    assert 0.0 <= (until - elapsed) / delay;
    if later <= until {
      Division(until - later, until - elapsed, delay);
      assert 0.0 <= (until - later) / delay;
    }
  }

  /** One check and what follows from it; `least` is the first delay, which no later one undercuts. */
  function DoPoll(w: World, o: Options, n: nat, elapsed: real, delay: real, ghost least: real): seq<Action>
    requires Causal(w) && o.backoffFactor >= 1.0 && 0.0 < least <= delay
    decreases ChecksLeft(elapsed, o.retryUntilSeconds, least)
  {
    if elapsed > o.retryUntilSeconds then
      if o.hasStop then [Stop] else []
    else
      (if elapsed > o.warningInSeconds && o.hasWarn then [Warn] else []) + [Call(n)] +
      match w.ends(n)
      case Throws => []
      case Done => [Success]
      case NotDone =>
        FewerChecksLeft(elapsed, elapsed + delay + w.late(n) + w.takes(n), o.retryUntilSeconds, least);
        LongerDelay(o.backoffFactor, delay);
        DoPoll(w, o, n + 1, elapsed + delay + w.late(n) + w.takes(n), NextDelay(o.backoffFactor, delay), least)
  }

  function NextDelay(f: real, delay: real): real {
    f * delay
  }

  lemma LongerDelay(f: real, delay: real)
    requires f >= 1.0 && delay > 0.0
    ensures NextDelay(f, delay) >= delay
  {}

  function Poll(w: World, o: Options, initialDelay: real): seq<Action>
    requires Causal(w) && o.backoffFactor >= 1.0 && initialDelay > 0.0
  {
    DoPoll(w, o, 0, 0.0, initialDelay, initialDelay)
  }

  // ---- Bounds ----

  function Calls(t: seq<Action>): nat {
    if t == [] then 0 else (if t[0].Call? then 1 else 0) + Calls(t[1..])
  }

  function Ends(t: seq<Action>): nat {
    if t == [] then 0 else (if t[0].Success? || t[0].Stop? then 1 else 0) + Ends(t[1..])
  }

  lemma {:induction false} CountsConcat(s: seq<Action>, t: seq<Action>)
    ensures Calls(s + t) == Calls(s) + Calls(t) && Ends(s + t) == Ends(s) + Ends(t)
  {
    if s == [] {
      assert s + t == t;
    } else {
      assert (s + t)[1..] == s[1..] + t;
      CountsConcat(s[1..], t);
    }
  }

  /** d + d*f + ... with n terms. */
  function Sum(d: real, f: real, n: nat): real
    decreases n
  {
    if n == 0 then 0.0 else d + Sum(NextDelay(f, d), f, n - 1)
  }

  function Power(f: real, n: nat): real {
    if n == 0 then 1.0 else f * Power(f, n - 1)
  }

  /** The sum in closed form. */
  lemma {:induction false} SumIsGeometric(d: real, f: real, n: nat)
    ensures (f - 1.0) * Sum(d, f, n) == d * (Power(f, n) - 1.0)
    decreases n
  {
    if n > 0 {
      SumIsGeometric(NextDelay(f, d), f, n - 1);
      var s, p := Sum(NextDelay(f, d), f, n - 1), Power(f, n - 1);
      assert (f - 1.0) * (d + s) == (f - 1.0) * d + (f - 1.0) * s;
      assert (f * d) * (p - 1.0) == d * (f * p) - f * d;
      assert d * (f * p - 1.0) == d * (f * p) - d;
    }
  }

  lemma SumGrows(d: real, f: real, n: nat)
    requires d > 0.0 && f >= 1.0
    ensures 0.0 <= Sum(d, f, n) < Sum(d, f, n + 1)
    decreases n
  {
    LongerDelay(f, d);
    if n > 0 {
      SumGrows(NextDelay(f, d), f, n - 1);
    }
  }

  /** The actions of one check that passes. */
  function Attempt(w: World, o: Options, n: nat, elapsed: real): seq<Action> {
    (if elapsed > o.warningInSeconds && o.hasWarn then [Warn] else []) + [Call(n)]
  }

  lemma OneCall(w: World, o: Options, n: nat, elapsed: real, rest: seq<Action>)
    ensures Calls(Attempt(w, o, n, elapsed) + rest) == 1 + Calls(rest)
    ensures Ends(Attempt(w, o, n, elapsed) + rest) == Ends(rest)
  {
    CountsConcat(Attempt(w, o, n, elapsed), rest);
    CountsConcat(if elapsed > o.warningInSeconds && o.hasWarn then [Warn] else [], [Call(n)]);
  }

  lemma {:induction false} DoPollBounds(w: World, o: Options, n: nat, elapsed: real, delay: real, least: real)
    requires Causal(w) && o.backoffFactor >= 1.0 && 0.0 < least <= delay
    ensures var t := DoPoll(w, o, n, elapsed, delay, least);
      && (Calls(t) > 0 ==> elapsed + Sum(delay, o.backoffFactor, Calls(t) - 1) <= o.retryUntilSeconds)
      && Ends(t) <= 1
    decreases ChecksLeft(elapsed, o.retryUntilSeconds, least)
  {
    hide ChecksLeft, NextDelay;
    if elapsed <= o.retryUntilSeconds {
      var later := elapsed + delay + w.late(n) + w.takes(n);
      FewerChecksLeft(elapsed, later, o.retryUntilSeconds, least);
      LongerDelay(o.backoffFactor, delay);
      match w.ends(n)
      case NotDone =>
        DoPollBounds(w, o, n + 1, later, NextDelay(o.backoffFactor, delay), least);
        OneCall(w, o, n, elapsed, DoPoll(w, o, n + 1, later, NextDelay(o.backoffFactor, delay), least));
      case Done => OneCall(w, o, n, elapsed, [Success]);
      case Throws => OneCall(w, o, n, elapsed, []);
    }
  }

  /** Polling ends; k calls fit only if the first k-1 delays fit before the deadline; and `success` and `stop`
      together run at most once. */
  lemma PollingIsBounded(w: World, o: Options, d: real)
    requires Causal(w) && o.backoffFactor >= 1.0 && d > 0.0
    ensures var k := Calls(Poll(w, o, d));
      k > 0 ==> Sum(d, o.backoffFactor, k - 1) <= o.retryUntilSeconds
    ensures Ends(Poll(w, o, d)) <= 1
  {
    DoPollBounds(w, o, 0, 0.0, d, d);
  }

  /** With punctual timers and instant callbacks that never finish, the bound is exact: k calls are made if and
      only if k-1 delays fit before the deadline and k do not. */
  lemma {:induction false} PunctualCalls(w: World, o: Options, n: nat, elapsed: real, delay: real, least: real, k: nat)
    requires Causal(w) && o.backoffFactor >= 1.0 && 0.0 < least <= delay
    requires forall i :: w.late(i) == 0.0 && w.takes(i) == 0.0 && w.ends(i).NotDone?
    ensures Calls(DoPoll(w, o, n, elapsed, delay, least)) == k
      <==> && (k > 0 ==> elapsed + Sum(delay, o.backoffFactor, k - 1) <= o.retryUntilSeconds)
           && elapsed + Sum(delay, o.backoffFactor, k) > o.retryUntilSeconds
    decreases ChecksLeft(elapsed, o.retryUntilSeconds, least)
  {
    var f := o.backoffFactor;
    LongerDelay(f, delay);
    if elapsed > o.retryUntilSeconds {
      if k > 0 {
        SumGrows(delay, f, k - 1);
      }
    } else {
      var rest := DoPoll(w, o, n + 1, elapsed + delay, NextDelay(f, delay), least);
      FewerChecksLeft(elapsed, elapsed + delay, o.retryUntilSeconds, least);
      OneCall(w, o, n, elapsed, rest);
      if k > 0 {
        PunctualCalls(w, o, n + 1, elapsed + delay, NextDelay(f, delay), least, k - 1);
        if k == 1 {
          SumGrows(delay, f, 0);
        }
      }
    }
  }

  /** Every call is directly preceded by a warning. */
  predicate AllWarned(t: seq<Action>) {
    forall i | 0 <= i < |t| && t[i].Call? :: i > 0 && t[i - 1].Warn?
  }

  /** Once the warning time is over, no call is made without a warning; before that, none is given. */
  lemma {:induction false} WarnsWhenLate(w: World, o: Options, n: nat, elapsed: real, delay: real, least: real)
    requires Causal(w) && o.backoffFactor >= 1.0 && 0.0 < least <= delay && o.hasWarn
    ensures var t := DoPoll(w, o, n, elapsed, delay, least);
      && (elapsed > o.warningInSeconds ==> AllWarned(t))
      && (t != [] && t[0].Warn? <==> o.warningInSeconds < elapsed <= o.retryUntilSeconds)
    decreases ChecksLeft(elapsed, o.retryUntilSeconds, least)
  {
    hide ChecksLeft, NextDelay;
    if elapsed <= o.retryUntilSeconds && w.ends(n).NotDone? {
      var later := elapsed + delay + w.late(n) + w.takes(n);
      FewerChecksLeft(elapsed, later, o.retryUntilSeconds, least);
      LongerDelay(o.backoffFactor, delay);
      WarnsWhenLate(w, o, n + 1, later, NextDelay(o.backoffFactor, delay), least);
      var rest := DoPoll(w, o, n + 1, later, NextDelay(o.backoffFactor, delay), least);
      if elapsed > o.warningInSeconds {
        assert AllWarned([Warn, Call(n)] + rest);
      }
    }
  }

  // ---- How polling ends ----

  /** The time at which the check after `k` further calls is made. */
  function CheckTime(w: World, f: real, n: nat, elapsed: real, delay: real, k: nat): real
    decreases k
  {
    if k == 0 then elapsed
    else CheckTime(w, f, n + 1, elapsed + delay + w.late(n) + w.takes(n), NextDelay(f, delay), k - 1)
  }

  /** Call number i is the i-th, and follows a check within the deadline; each but the last has not been done. */
  ghost predicate CallsInOrder(w: World, o: Options, n: nat, elapsed: real, delay: real, t: seq<Action>) {
    && (forall i | 0 <= i < |t| && t[i].Call? ::
          && t[i].n == n + Calls(t[..i])
          && CheckTime(w, o.backoffFactor, n, elapsed, delay, Calls(t[..i])) <= o.retryUntilSeconds)
    && (forall i, j | 0 <= i < j < |t| && t[i].Call? && t[j].Call? :: w.ends(t[i].n).NotDone?)
  }

  /** Whether every call was not done, and whether some call was. */
  ghost predicate AllNotDone(w: World, t: seq<Action>) {
    forall i | 0 <= i < |t| && t[i].Call? :: w.ends(t[i].n).NotDone?
  }

  ghost predicate SomeDone(w: World, t: seq<Action>) {
    exists i :: 0 <= i < |t| && t[i].Call? && w.ends(t[i].n).Done?
  }

  /** `success` runs exactly when a call was done, right after it; `stop` runs exactly when there is one, no call was
      done or has thrown, and the deadline has passed at the check after the last call. */
  ghost predicate EndsRightly(w: World, o: Options, n: nat, elapsed: real, delay: real, t: seq<Action>) {
    && (Success in t <==> SomeDone(w, t))
    && (forall i | 0 <= i < |t| && t[i].Success? :: i == |t| - 1 && i > 0 && t[i - 1].Call? && w.ends(t[i - 1].n).Done?)
    && (Stop in t <==> && o.hasStop && AllNotDone(w, t)
                       && CheckTime(w, o.backoffFactor, n, elapsed, delay, Calls(t)) > o.retryUntilSeconds)
    && (forall i | 0 <= i < |t| && t[i].Stop? :: i == |t| - 1)
  }

  lemma CallsPrefix(s: seq<Action>, t: seq<Action>, i: nat)
    requires |s| <= i <= |s| + |t|
    ensures Calls((s + t)[..i]) == Calls(s) + Calls(t[..i - |s|])
  {
    assert (s + t)[..i] == s + t[..i - |s|];
    CountsConcat(s, t[..i - |s|]);
  }

  lemma AttemptShape(w: World, o: Options, n: nat, elapsed: real)
    ensures var head := Attempt(w, o, n, elapsed);
      && (head == [Call(n)] || head == [Warn, Call(n)])
      && Calls(head) == 1 && Calls(head[..|head| - 1]) == 0
  {
    var head := Attempt(w, o, n, elapsed);
    assert [Call(n)][..0] == [] && [Warn, Call(n)][..1] == [Warn];
    assert [Call(n)][1..] == [] && Calls([Call(n)]) == 1;
    assert [Warn, Call(n)][1..] == [Call(n)] && Calls([Warn, Call(n)]) == 1;
  }

  lemma OneMoreCallInOrder(w: World, o: Options, n: nat, elapsed: real, delay: real, rest: seq<Action>)
    requires elapsed <= o.retryUntilSeconds && (w.ends(n).NotDone? || forall a | a in rest :: !a.Call?)
    requires CallsInOrder(w, o, n + 1, elapsed + delay + w.late(n) + w.takes(n),
                          NextDelay(o.backoffFactor, delay), rest)
    ensures CallsInOrder(w, o, n, elapsed, delay, Attempt(w, o, n, elapsed) + rest)
  {
    hide Attempt, NextDelay;
    var head, t := Attempt(w, o, n, elapsed), Attempt(w, o, n, elapsed) + rest;
    AttemptShape(w, o, n, elapsed);
    forall i | 0 <= i < |t| && t[i].Call?
      ensures t[i].n == n + Calls(t[..i])
           && CheckTime(w, o.backoffFactor, n, elapsed, delay, Calls(t[..i])) <= o.retryUntilSeconds
    {
      if i < |head| {
        assert t[..i] == head[..i] && i == |head| - 1;
      } else {
        CallsPrefix(head, rest, i);
        assert rest[i - |head|].Call?;
      }
    }
    forall i, j | 0 <= i < j < |t| && t[i].Call? && t[j].Call? ensures w.ends(t[i].n).NotDone? {
      if i < |head| {
        assert rest[j - |head|] in rest;
      } else {
        assert rest[i - |head|].Call? && rest[j - |head|].Call?;
      }
    }
  }

  lemma AttemptBefore(w: World, o: Options, n: nat, elapsed: real, rest: seq<Action>)
    requires w.ends(n).NotDone?
    ensures var t := Attempt(w, o, n, elapsed) + rest;
      && (SomeDone(w, t) <==> SomeDone(w, rest))
      && (AllNotDone(w, t) <==> AllNotDone(w, rest))
      && (Success in t <==> Success in rest) && (Stop in t <==> Stop in rest)
      && Calls(t) == 1 + Calls(rest)
  {
    hide Attempt;
    var head, t := Attempt(w, o, n, elapsed), Attempt(w, o, n, elapsed) + rest;
    AttemptShape(w, o, n, elapsed);
    CountsConcat(head, rest);
    assert forall i | 0 <= i < |rest| :: rest[i] == t[|head| + i];
    if SomeDone(w, rest) {
      var i :| 0 <= i < |rest| && rest[i].Call? && w.ends(rest[i].n).Done?;
      assert t[|head| + i].Call?;
    }
    if AllNotDone(w, t) {
      forall i | 0 <= i < |rest| && rest[i].Call? ensures w.ends(rest[i].n).NotDone? {
        assert t[|head| + i].Call?;
      }
    }
  }

  lemma OneMoreCallEndsRightly(w: World, o: Options, n: nat, elapsed: real, delay: real, rest: seq<Action>)
    requires w.ends(n).NotDone?
    requires EndsRightly(w, o, n + 1, elapsed + delay + w.late(n) + w.takes(n), NextDelay(o.backoffFactor, delay), rest)
    ensures EndsRightly(w, o, n, elapsed, delay, Attempt(w, o, n, elapsed) + rest)
  {
    hide Attempt, NextDelay, SomeDone, AllNotDone, Calls;
    AttemptShape(w, o, n, elapsed);
    AttemptBefore(w, o, n, elapsed, rest);
    var head, t := Attempt(w, o, n, elapsed), Attempt(w, o, n, elapsed) + rest;
    assert forall i | |head| <= i < |t| :: t[i] == rest[i - |head|];
    forall i | 0 <= i < |t| && t[i].Success?
      ensures i == |t| - 1 && i > 0 && t[i - 1].Call? && w.ends(t[i - 1].n).Done?
    {
      assert rest[i - |head|].Success?;
    }
  }

  lemma LastCallEndsRightly(w: World, o: Options, n: nat, elapsed: real, delay: real)
    requires !w.ends(n).NotDone?
    ensures EndsRightly(w, o, n, elapsed, delay, Attempt(w, o, n, elapsed) + if w.ends(n).Done? then [Success] else [])
  {
    hide Attempt, NextDelay, CheckTime, Calls;
    AttemptShape(w, o, n, elapsed);
    var head := Attempt(w, o, n, elapsed);
    var t := head + if w.ends(n).Done? then [Success] else [];
    assert t[|head| - 1] == Call(n);
  }

  lemma {:induction false} DoPollEndsRightly(w: World, o: Options, n: nat, elapsed: real, delay: real, least: real)
    requires Causal(w) && o.backoffFactor >= 1.0 && 0.0 < least <= delay
    ensures var t := DoPoll(w, o, n, elapsed, delay, least);
      CallsInOrder(w, o, n, elapsed, delay, t) && EndsRightly(w, o, n, elapsed, delay, t)
    decreases ChecksLeft(elapsed, o.retryUntilSeconds, least)
  {
    hide ChecksLeft, NextDelay, CallsInOrder, EndsRightly;
    if elapsed > o.retryUntilSeconds {
      StopEndsRightly(w, o, n, elapsed, delay);
    } else {
      var later := elapsed + delay + w.late(n) + w.takes(n);
      FewerChecksLeft(elapsed, later, o.retryUntilSeconds, least);
      LongerDelay(o.backoffFactor, delay);
      if w.ends(n).NotDone? {
        DoPollEndsRightly(w, o, n + 1, later, NextDelay(o.backoffFactor, delay), least);
        var rest := DoPoll(w, o, n + 1, later, NextDelay(o.backoffFactor, delay), least);
        assert DoPoll(w, o, n, elapsed, delay, least) == Attempt(w, o, n, elapsed) + rest;
        OneMoreCallInOrder(w, o, n, elapsed, delay, rest);
        OneMoreCallEndsRightly(w, o, n, elapsed, delay, rest);
      } else {
        var rest := if w.ends(n).Done? then [Success] else [];
        assert DoPoll(w, o, n, elapsed, delay, least) == Attempt(w, o, n, elapsed) + rest;
        NoCallsInOrder(w, o, n + 1, later, NextDelay(o.backoffFactor, delay), rest);
        OneMoreCallInOrder(w, o, n, elapsed, delay, rest);
        LastCallEndsRightly(w, o, n, elapsed, delay);
      }
    }
  }

  lemma NoCallsInOrder(w: World, o: Options, n: nat, elapsed: real, delay: real, t: seq<Action>)
    requires forall a | a in t :: !a.Call?
    ensures CallsInOrder(w, o, n, elapsed, delay, t)
  {
    assert forall i | 0 <= i < |t| :: t[i] in t;
  }

  lemma StopEndsRightly(w: World, o: Options, n: nat, elapsed: real, delay: real)
    requires elapsed > o.retryUntilSeconds
    ensures var t := if o.hasStop then [Stop] else [];
      CallsInOrder(w, o, n, elapsed, delay, t) && EndsRightly(w, o, n, elapsed, delay, t)
  {
    var t: seq<Action> := if o.hasStop then [Stop] else [];
    assert Calls(t) == 0;
  }

  /** Which end polling comes to: each call follows a check within the deadline, `success` follows a call that was
      done, and `stop` the first check beyond the deadline. */
  lemma PollEndsRightly(w: World, o: Options, d: real)
    requires Causal(w) && o.backoffFactor >= 1.0 && d > 0.0
    ensures CallsInOrder(w, o, 0, 0.0, d, Poll(w, o, d)) && EndsRightly(w, o, 0, 0.0, d, Poll(w, o, d))
  {
    DoPollEndsRightly(w, o, 0, 0.0, d, d);
  }

  /** One of `success` and `stop` comes last and only there, or a last call after which nothing runs. */
  ghost predicate ProperEnd(w: World, o: Options, t: seq<Action>) {
    t != [] && match t[|t| - 1]
      case Success => Ends(t) == 1
      case Stop => Ends(t) == 1 && o.hasStop
      case Call(k) => Ends(t) == 0 && (w.ends(k).Throws? || (w.ends(k).NotDone? && !o.hasStop))
      case Warn => false
  }

  lemma AttemptThen(w: World, o: Options, n: nat, elapsed: real, rest: seq<Action>)
    requires ProperEnd(w, o, rest) || (rest == [] && (w.ends(n).Throws? || (w.ends(n).NotDone? && !o.hasStop)))
    ensures ProperEnd(w, o, Attempt(w, o, n, elapsed) + rest)
  {
    hide Attempt, Ends;
    AttemptShape(w, o, n, elapsed);
    OneCall(w, o, n, elapsed, rest);
    NothingEnds();
  }

  lemma NothingEnds()
    ensures Ends([]) == 0 && Ends([Success]) == 1 && Ends([Stop]) == 1
  {
    assert [Success][1..] == [] && [Stop][1..] == [];
  }

  /** How polling ends: with exactly one of `success` and `stop` as the last action, or silently, when a callback
      throws or when the deadline passes and there is no `stop`. */
  lemma {:induction false} EndsOnce(w: World, o: Options, n: nat, elapsed: real, delay: real, least: real)
    requires Causal(w) && o.backoffFactor >= 1.0 && 0.0 < least <= delay
    ensures var t := DoPoll(w, o, n, elapsed, delay, least);
      if t == [] then elapsed > o.retryUntilSeconds && !o.hasStop else ProperEnd(w, o, t)
    decreases ChecksLeft(elapsed, o.retryUntilSeconds, least)
  {
    hide ChecksLeft, NextDelay, Ends;
    NothingEnds();
    if elapsed <= o.retryUntilSeconds {
      var later := elapsed + delay + w.late(n) + w.takes(n);
      FewerChecksLeft(elapsed, later, o.retryUntilSeconds, least);
      LongerDelay(o.backoffFactor, delay);
      var rest := [];
      if w.ends(n).NotDone? {
        EndsOnce(w, o, n + 1, later, NextDelay(o.backoffFactor, delay), least);
        rest := DoPoll(w, o, n + 1, later, NextDelay(o.backoffFactor, delay), least);
      } else if w.ends(n).Done? {
        rest := [Success];
      }
      assert DoPoll(w, o, n, elapsed, delay, least) == Attempt(w, o, n, elapsed) + rest;
      AttemptThen(w, o, n, elapsed, rest);
    }
  }
}
