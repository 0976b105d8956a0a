/** The sliding-window limiters of `mm0web/src/web.rs`, per client address.
    The clock is a parameter of each call; times are in its smallest unit. */
module RateLimiter {

  type Address = nat

  datatype Call = Call(ip: Address, now: nat, allowed: bool)

  /** `duration_since` saturates at zero. */
  function Elapsed(now: nat, t: nat): nat { if now >= t then now - t else 0 }

  function Retain(times: seq<nat>, now: nat, window: nat): seq<nat> {
    if times == [] then [] else
      var rest := Retain(times[..|times| - 1], now, window);
      if Elapsed(now, times[|times| - 1]) < window then rest + [times[|times| - 1]] else rest
  }

  /** The times of the accepted calls of one address, in the order of the log. */
  function Accepted(log: seq<Call>, ip: Address): seq<nat> {
    if log == [] then [] else
      var front, c := log[..|log| - 1], log[|log| - 1];
      if c.ip == ip && c.allowed then Accepted(front, ip) + [c.now] else Accepted(front, ip)
  }

  /** What is left of them: every call of the address drops those that are too old. */
  function Survivors(log: seq<Call>, ip: Address, window: nat): seq<nat> {
    if log == [] then [] else
      var front, c := log[..|log| - 1], log[|log| - 1];
      if c.ip != ip then Survivors(front, ip, window) else
        Retain(Survivors(front, ip, window), c.now, window) + (if c.allowed then [c.now] else [])
  }

  /** Every answer in the log was decided by the survivors of its address. */
  ghost predicate Faithful(log: seq<Call>, max: nat, window: nat) {
    forall i :: 0 <= i < |log| ==> Decided(log, i, max, window)
  }

  ghost predicate Decided(log: seq<Call>, i: nat, max: nat, window: nat)
    requires i < |log|
  {
    log[i].allowed <==> |Retain(Survivors(log[..i], log[i].ip, window), log[i].now, window)| < max
  }

  predicate IsAccepted(log: seq<Call>, i: nat, ip: Address) { i < |log| && log[i].ip == ip && log[i].allowed }

  /** No call of the address has dropped an accepted time that still counts at `now`. */
  ghost predicate NothingLost(log: seq<Call>, ip: Address, now: nat, window: nat) {
    forall i, j :: 0 <= i < j < |log| && IsAccepted(log, i, ip) && log[j].ip == ip ==>
                     Elapsed(log[j].now, log[i].now) >= window ==> Elapsed(now, log[i].now) >= window
  }

  /** Nothing was lost by the time any call of the address was accepted. */
  ghost predicate Prompt(log: seq<Call>, ip: Address, window: nat) {
    forall k :: 0 <= k < |log| && IsAccepted(log, k, ip) ==> NothingLost(log[..k], ip, log[k].now, window)
  }

  /** The readings of one address never go back. */
  ghost predicate OrderedFor(log: seq<Call>, ip: Address) {
    forall i, j :: 0 <= i < j < |log| && log[i].ip == ip == log[j].ip ==> log[i].now <= log[j].now
  }

  /** How many of `times` lie in the half-open interval [lo, hi). */
  function Count(times: seq<nat>, lo: nat, hi: nat): nat {
    if times == [] then 0 else
      Count(times[..|times| - 1], lo, hi) + (if lo <= times[|times| - 1] < hi then 1 else 0)
  }

  // ----- filtering -----

  lemma {:induction false} RetainConcat(a: seq<nat>, b: seq<nat>, now: nat, window: nat)
    ensures Retain(a + b, now, window) == Retain(a, now, window) + Retain(b, now, window)
  {
    if b == [] {
      assert a + b == a;
    } else {
      assert (a + b)[..|a + b| - 1] == a + b[..|b| - 1];
      RetainConcat(a, b[..|b| - 1], now, window);
    }
  }

  /** Dropping at another time first can only lose, and loses nothing exactly when every
      time that counts now counted then. */
  lemma {:induction false} RetainTwice(times: seq<nat>, other: nat, now: nat, window: nat)
    ensures var both, once := Retain(Retain(times, other, window), now, window), Retain(times, now, window);
            && |both| <= |once|
            && (|both| == |once| <==>
                forall t :: t in times && Elapsed(other, t) >= window ==> Elapsed(now, t) >= window)
            && (|both| == |once| ==> both == once)
  {
    if times != [] {
      var front, t := times[..|times| - 1], times[|times| - 1];
      RetainTwice(front, other, now, window);
      RetainConcat(Retain(front, other, window), [t], now, window);
      assert times == front + [t];
    }
  }

  lemma {:induction false} Retained(times: seq<nat>, now: nat, window: nat)
    ensures forall t :: t in Retain(times, now, window) <==> t in times && Elapsed(now, t) < window
  {
    if times != [] {
      Retained(times[..|times| - 1], now, window);
      assert times == times[..|times| - 1] + [times[|times| - 1]];
    }
  }

  lemma {:induction false} AcceptedTimes(log: seq<Call>, ip: Address)
    ensures forall t :: t in Accepted(log, ip) <==>
        exists i :: 0 <= i < |log| && IsAccepted(log, i, ip) && log[i].now == t
  {
    if log != [] {
      var front, c := log[..|log| - 1], log[|log| - 1];
      AcceptedTimes(front, ip);
      forall t ensures t in Accepted(log, ip) <==>
          exists i :: 0 <= i < |log| && IsAccepted(log, i, ip) && log[i].now == t {
        if t in Accepted(front, ip) {
          var i :| 0 <= i < |front| && IsAccepted(front, i, ip) && front[i].now == t;
          assert IsAccepted(log, i, ip) && log[i].now == t;
        }
        if t in Accepted(log, ip) && t !in Accepted(front, ip) {
          assert IsAccepted(log, |log| - 1, ip) && log[|log| - 1].now == t;
        }
        if i :| 0 <= i < |log| && IsAccepted(log, i, ip) && log[i].now == t {
          if i < |front| { assert IsAccepted(front, i, ip) && front[i].now == t; }
        }
      }
    }
  }

  lemma LostPush(front: seq<Call>, c: Call, ip: Address, now: nat, window: nat)
    ensures NothingLost(front + [c], ip, now, window)
       <==> && NothingLost(front, ip, now, window)
            && (c.ip == ip ==> forall t ::
                t in Accepted(front, ip) && Elapsed(c.now, t) >= window ==> Elapsed(now, t) >= window)
  {
    hide Accepted, Elapsed;
    var log := front + [c];
    AcceptedTimes(front, ip);
    assert forall i :: 0 <= i < |front| ==> log[i] == front[i];
    assert forall i :: 0 <= i < |front| ==> IsAccepted(log, i, ip) == IsAccepted(front, i, ip);
    if NothingLost(log, ip, now, window) && c.ip == ip {
      forall t | t in Accepted(front, ip) && Elapsed(c.now, t) >= window ensures Elapsed(now, t) >= window {
        var i :| 0 <= i < |front| && IsAccepted(front, i, ip) && front[i].now == t;
        assert IsAccepted(log, i, ip) && log[|front|] == c;
      }
    }
  }

  /** The stored list never counts more than the full history, and it decides as the history
      would exactly when no call has dropped an accepted time that still counts. */
  lemma {:induction false} SurvivorsDecideAsHistory(log: seq<Call>, ip: Address, now: nat, window: nat)
    ensures var kept, all := Retain(Survivors(log, ip, window), now, window), Retain(Accepted(log, ip), now, window);
            && |kept| <= |all|
            && (|kept| == |all| <==> NothingLost(log, ip, now, window))
            && (|kept| == |all| ==> kept == all)
  {
    hide NothingLost, Elapsed, Retain;
    if log == [] {
      Empty(ip, window);
    } else {
      var front, c := log[..|log| - 1], log[|log| - 1];
      assert log == front + [c];
      SurvivorsDecideAsHistory(front, ip, now, window);
      LostPush(front, c, ip, now, window);
      if c.ip == ip {
        var stored, tail := Survivors(front, ip, window), if c.allowed then [c.now] else [];
        RetainConcat(Retain(stored, c.now, window), tail, now, window);
        RetainConcat(Accepted(front, ip), tail, now, window);
        assert Accepted(log, ip) == Accepted(front, ip) + tail;
        assert Survivors(log, ip, window) == Retain(stored, c.now, window) + tail;
        RetainTwice(stored, c.now, now, window);
        SurvivorsAreAccepted(front, ip, window);
        Retained(stored, now, window);
        Retained(Accepted(front, ip), now, window);
      }
    }
  }

  lemma {:induction false} SurvivorsAreAccepted(log: seq<Call>, ip: Address, window: nat)
    ensures forall t :: t in Survivors(log, ip, window) ==> t in Accepted(log, ip)
  {
    if log != [] {
      var front, c := log[..|log| - 1], log[|log| - 1];
      SurvivorsAreAccepted(front, ip, window);
      Retained(Survivors(front, ip, window), c.now, window);
    }
  }

  /** Readings of the address in order are enough; those of others may overtake them. */
  lemma OrderedIsPrompt(log: seq<Call>, ip: Address, window: nat)
    requires OrderedFor(log, ip)
    ensures Prompt(log, ip, window)
    ensures forall now ::
        (forall i :: 0 <= i < |log| && log[i].ip == ip ==> log[i].now <= now) ==> NothingLost(log, ip, now, window)
  {
  }

  // ----- the bound on every window -----

  lemma {:induction false} WindowIsRetained(times: seq<nat>, start: nat, now: nat, window: nat)
    requires start <= now < start + window
    ensures Count(times, start, start + window) <= |Retain(times, now, window)|
  {
    if times != [] { WindowIsRetained(times[..|times| - 1], start, now, window); }
  }

  /** No half-open interval one window long holds more than `max` accepted calls of an address. */
  lemma {:induction false} AtMostMaxPerWindow(log: seq<Call>, ip: Address, start: nat, max: nat, window: nat)
    requires Faithful(log, max, window) && Prompt(log, ip, window)
    ensures Count(Accepted(log, ip), start, start + window) <= max
  {
    if log != [] {
      var front, c := log[..|log| - 1], log[|log| - 1];
      FaithfulPrefix(log, |log| - 1, max, window);
      PromptPrefix(log, |log| - 1, ip, window);
      AtMostMaxPerWindow(front, ip, start, max, window);
      if c.ip == ip && c.allowed && start <= c.now < start + window {
        assert Decided(log, |log| - 1, max, window) && IsAccepted(log, |log| - 1, ip);
        SurvivorsDecideAsHistory(front, ip, c.now, window);
        WindowIsRetained(Accepted(front, ip), start, c.now, window);
      }
    }
  }

  lemma FaithfulPrefix(log: seq<Call>, n: nat, max: nat, window: nat)
    requires Faithful(log, max, window) && n <= |log|
    ensures Faithful(log[..n], max, window)
  {
    forall i | 0 <= i < n ensures Decided(log[..n], i, max, window) {
      assert Decided(log, i, max, window) && log[..n][..i] == log[..i];
    }
  }

  lemma PromptPrefix(log: seq<Call>, n: nat, ip: Address, window: nat)
    requires Prompt(log, ip, window) && n <= |log|
    ensures Prompt(log[..n], ip, window)
  {
    hide NothingLost;
    forall k | 0 <= k < n && IsAccepted(log[..n], k, ip)
      ensures NothingLost(log[..n][..k], ip, log[..n][k].now, window)
    {
      assert IsAccepted(log, k, ip) && log[..n][..k] == log[..k];
    }
  }

  lemma FaithfulExtends(log: seq<Call>, c: Call, max: nat, window: nat)
    requires Faithful(log, max, window) && Decided(log + [c], |log|, max, window)
    ensures Faithful(log + [c], max, window)
  {
    forall i | 0 <= i < |log| ensures Decided(log + [c], i, max, window) {
      assert Decided(log, i, max, window) && (log + [c])[..i] == log[..i];
    }
  }

  // ----- which limits keep the bound whatever the clock does -----

  lemma {:induction false} NoneBelow(times: seq<nat>, lo: nat, hi: nat)
    requires forall i :: 0 <= i < |times| ==> times[i] < lo
    ensures Count(times, lo, hi) == 0
  {
    if times != [] { NoneBelow(times[..|times| - 1], lo, hi); }
  }

  /** Each time at least a window after the one before it. */
  ghost predicate Spaced(times: seq<nat>, window: nat) {
    forall i, j :: 0 <= i < j < |times| ==> times[i] + window <= times[j]
  }

  lemma {:induction false} SpacedFillsOnce(times: seq<nat>, start: nat, window: nat)
    requires Spaced(times, window)
    ensures Count(times, start, start + window) <= 1
  {
    if times != [] {
      var front, last := times[..|times| - 1], times[|times| - 1];
      SpacedFillsOnce(front, start, window);
      if start <= last < start + window { NoneBelow(front, start, start + window); }
    }
  }

  /** With max 1 only the latest accepted time is stored, and the next comes a window later,
      for a call that drops the stored time is itself accepted. */
  lemma {:induction false} OneAtATime(log: seq<Call>, ip: Address, window: nat)
    requires Faithful(log, 1, window) && window > 0
    ensures Spaced(Accepted(log, ip), window)
    ensures var times := Accepted(log, ip);
            Survivors(log, ip, window) == if times == [] then [] else [times[|times| - 1]]
  {
    if log != [] {
      var front, c := log[..|log| - 1], log[|log| - 1];
      FaithfulPrefix(log, |log| - 1, 1, window);
      OneAtATime(front, ip, window);
      if c.ip == ip {
        assert Decided(log, |log| - 1, 1, window);
        Empty(ip, window);
        var times := Accepted(front, ip);
        if times != [] {
          var last := times[|times| - 1];
          Kept([], last, c.now, window);
          assert [] + [last] == [last];
        }
      }
    }
  }

  lemma {:induction false} NothingAccepted(log: seq<Call>, ip: Address, window: nat)
    requires Faithful(log, 0, window)
    ensures Accepted(log, ip) == []
  {
    if log != [] {
      FaithfulPrefix(log, |log| - 1, 0, window);
      NothingAccepted(log[..|log| - 1], ip, window);
      assert Decided(log, |log| - 1, 0, window);
    }
  }

  /** n times over: a call a window later than the last, overtaken by a reading of 0. */
  function Overtaking(ip: Address, window: nat, n: nat): seq<Call> {
    if n == 0 then []
    else Overtaking(ip, window, n - 1) + [Call(ip, n * window, true)] + [Call(ip, 0, true)]
  }

  /** From max 2 on every call of that log is accepted: each reading drops all that is stored. */
  lemma {:induction false} OvertakingIsAccepted(ip: Address, max: nat, window: nat, n: nat)
    requires max >= 2 && window > 0
    ensures Faithful(Overtaking(ip, window, n), max, window)
    ensures Survivors(Overtaking(ip, window, n), ip, window) == if n == 0 then [] else [n * window, 0]
    ensures Count(Accepted(Overtaking(ip, window, n), ip), 0, window) == n
  {
    Empty(ip, window);
    if n > 0 {
      OvertakingIsAccepted(ip, max, window, n - 1);
      OvertakingStep(Overtaking(ip, window, n - 1), ip, max, window, (n - 1) * window, n == 1);
      assert n * window == (n - 1) * window + window;
    }
  }

  lemma OvertakingStep(log: seq<Call>, ip: Address, max: nat, window: nat, t: nat, first: bool)
    requires max >= 2 && window > 0 && Faithful(log, max, window)
    requires Survivors(log, ip, window) == if first then [] else [t, 0]
    ensures var next := log + [Call(ip, t + window, true)] + [Call(ip, 0, true)];
            && Faithful(next, max, window) && Survivors(next, ip, window) == [t + window, 0]
            && Count(Accepted(next, ip), 0, window) == Count(Accepted(log, ip), 0, window) + 1
  {
    hide Survivors, Accepted, Count, Retain, Faithful;
    var late, early := Call(ip, t + window, true), Call(ip, 0, true);
    Empty(ip, window);
    if !first {
      Kept([], t, late.now, window);
      Kept([t], 0, late.now, window);
      assert [] + [t] == [t] && [t] + [0] == [t, 0];
    }
    Pushed(log, late, ip, max, window, []);
    assert [] + [late.now] == [late.now];
    Kept([], late.now, 0, window);
    Pushed(log + [late], early, ip, max, window, [late.now]);
    assert [late.now] + [0] == [t + window, 0];
    Counted(Accepted(log, ip), late.now, 0, window);
    Counted(Accepted(log, ip) + [late.now], 0, 0, window);
  }

  /** How many calls of the address were accepted in the window that starts at `start`. */
  function InWindow(log: seq<Call>, ip: Address, start: nat, window: nat): nat {
    Count(Accepted(log, ip), start, start + window)
  }

  /** No log of any order overfills a window exactly when the limit is at most one call, or
      the window is empty. */
  lemma BoundHoldsIff(ip: Address, max: nat, window: nat)
    ensures (forall log, start :: Faithful(log, max, window) ==> InWindow(log, ip, start, window) <= max)
       <==> max <= 1 || window == 0
  {
    hide Faithful, Accepted, Count, Survivors;
    if max <= 1 || window == 0 {
      forall log, start | Faithful(log, max, window) ensures InWindow(log, ip, start, window) <= max {
        AlwaysBounded(log, ip, max, window, start);
      }
    } else {
      var log := ExcessIsUnbounded(ip, max, window, max + 1);
      assert InWindow(log, ip, 0, window) > max;
    }
  }

  /** Otherwise one window can hold any number of accepted calls. */
  lemma ExcessIsUnbounded(ip: Address, max: nat, window: nat, n: nat) returns (log: seq<Call>)
    requires max > 1 && window > 0
    ensures Faithful(log, max, window) && InWindow(log, ip, 0, window) == n
  {
    log := Overtaking(ip, window, n);
    OvertakingIsAccepted(ip, max, window, n);
  }

  lemma AlwaysBounded(log: seq<Call>, ip: Address, max: nat, window: nat, start: nat)
    requires Faithful(log, max, window) && (max <= 1 || window == 0)
    ensures Count(Accepted(log, ip), start, start + window) <= max
  {
    hide Faithful, Accepted, Survivors;
    if window == 0 {
      EmptyWindow(Accepted(log, ip), start);
    } else if max == 0 {
      NothingAccepted(log, ip, window);
    } else {
      OneAtATime(log, ip, window);
      SpacedFillsOnce(Accepted(log, ip), start, window);
    }
  }

  lemma {:induction false} EmptyWindow(times: seq<nat>, start: nat)
    ensures Count(times, start, start) == 0
  {
    if times != [] { EmptyWindow(times[..|times| - 1], start); }
  }

  lemma OvertakenIsNotPrompt(log: seq<Call>, ip: Address)
    requires |log| == 4 && IsAccepted(log, 0, ip) && IsAccepted(log, 2, ip) && IsAccepted(log, 3, ip)
    requires log[0].now == 0 && log[2].now == 10 && log[3].now == 1
    ensures !Prompt(log, ip, 10)
  {
    assert IsAccepted(log[..3], 0, ip) && log[..3][2] == log[2];
    assert !NothingLost(log[..3], ip, 1, 10);
  }

  /** The clock is read before the lock is taken, so a slow caller can log an earlier
      time after a later one.  Here are four calls that overfill a window. */
  lemma OvertakenReadingBreaksTheBound(ip: Address)
    ensures var log := [Call(ip, 0, true), Call(ip, 0, true), Call(ip, 10, true), Call(ip, 1, true)];
            Faithful(log, 2, 10) && !Prompt(log, ip, 10) && Count(Accepted(log, ip), 0, 10) == 3
  {
    hide Survivors, Accepted, Count, Retain, Prompt, Faithful, NothingLost, Decided;
    var a, b, c, d := Call(ip, 0, true), Call(ip, 0, true), Call(ip, 10, true), Call(ip, 1, true);
    Empty(ip, 10);
    EmptyIsFaithful(2, 10);
    Pushed([], a, ip, 2, 10, []);
    assert [] + [0] == [0] && [] + [a] == [a];
    Kept([], 0, 0, 10);
    Pushed([a], b, ip, 2, 10, [0]);
    assert [0] + [0] == [0, 0] && [a] + [b] == [a, b];
    Kept([], 0, 10, 10);
    Kept([0], 0, 10, 10);
    Pushed([a, b], c, ip, 2, 10, []);
    assert [] + [10] == [10] && [a, b] + [c] == [a, b, c];
    Kept([], 10, 1, 10);
    Pushed([a, b, c], d, ip, 2, 10, [10]);
    assert [a, b, c] + [d] == [a, b, c, d];
    OvertakenIsNotPrompt([a, b, c, d], ip);
    assert Accepted([a, b, c, d], ip) == [0, 0, 10] + [1] && [0, 0, 10] == [0, 0] + [10];
    ThreeInTen();
  }

  lemma ThreeInTen()
    ensures Count([0, 0, 10] + [1], 0, 10) == 3
  {
    hide Count;
    assert [0] == [] + [0] && [0, 0] == [0] + [0] && [0, 0, 10] == [0, 0] + [10];
    Empty(0, 10);
    Counted([], 0, 0, 10);
    Counted([0], 0, 0, 10);
    Counted([0, 0], 10, 0, 10);
    Counted([0, 0, 10], 1, 0, 10);
  }

  lemma EmptyIsFaithful(max: nat, window: nat)
    ensures Faithful([], max, window)
  {
  }

  lemma Empty(ip: Address, window: nat)
    ensures Survivors([], ip, window) == [] && Accepted([], ip) == []
    ensures forall now :: Retain([], now, window) == []
    ensures forall lo, hi :: Count([], lo, hi) == 0
    ensures forall now :: NothingLost([], ip, now, window)
  {
  }

  lemma Pushed(front: seq<Call>, c: Call, ip: Address, max: nat, window: nat, kept: seq<nat>)
    requires Faithful(front, max, window) && c.ip == ip && c.allowed
    requires Retain(Survivors(front, ip, window), c.now, window) == kept && |kept| < max
    ensures Faithful(front + [c], max, window)
    ensures Survivors(front + [c], ip, window) == kept + [c.now]
    ensures Accepted(front + [c], ip) == Accepted(front, ip) + [c.now]
  {
    hide Retain;
    assert (front + [c])[..|front|] == front;
    FaithfulExtends(front, c, max, window);
  }

  lemma Kept(front: seq<nat>, t: nat, now: nat, window: nat)
    ensures Retain(front + [t], now, window)
         == Retain(front, now, window) + (if Elapsed(now, t) < window then [t] else [])
  {
    assert (front + [t])[..|front|] == front;
  }

  lemma Counted(front: seq<nat>, t: nat, lo: nat, hi: nat)
    ensures Count(front + [t], lo, hi) == Count(front, lo, hi) + (if lo <= t < hi then 1 else 0)
  {
    assert (front + [t])[..|front|] == front;
  }

  // ----- addresses do not affect each other -----

  /** The calls of one address. */
  function Only(log: seq<Call>, ip: Address): seq<Call> {
    if log == [] then [] else
      var front, c := log[..|log| - 1], log[|log| - 1];
      if c.ip == ip then Only(front, ip) + [c] else Only(front, ip)
  }

  lemma {:induction false} OthersDoNotCount(log: seq<Call>, ip: Address, window: nat)
    ensures Survivors(log, ip, window) == Survivors(Only(log, ip), ip, window)
  {
    if log != [] {
      var front, c := log[..|log| - 1], log[|log| - 1];
      OthersDoNotCount(front, ip, window);
      if c.ip == ip {
        assert Only(log, ip)[..|Only(log, ip)| - 1] == Only(front, ip);
      }
    }
  }

  /** Two runs in which an address asks at the same times answer it alike, whoever else asks. */
  lemma {:induction false} AddressesAreIndependent(log: seq<Call>, other: seq<Call>, ip: Address, max: nat, window: nat)
    requires Faithful(log, max, window) && Faithful(other, max, window)
    requires Times(Only(log, ip)) == Times(Only(other, ip))
    ensures Only(log, ip) == Only(other, ip)
    decreases |log| + |other|
  {
    if log != [] && log[|log| - 1].ip != ip {
      FaithfulPrefix(log, |log| - 1, max, window);
      AddressesAreIndependent(log[..|log| - 1], other, ip, max, window);
    } else if other != [] && other[|other| - 1].ip != ip {
      FaithfulPrefix(other, |other| - 1, max, window);
      AddressesAreIndependent(log, other[..|other| - 1], ip, max, window);
    } else if log != [] && other != [] {
      var m, n := |log| - 1, |other| - 1;
      FaithfulPrefix(log, m, max, window);
      FaithfulPrefix(other, n, max, window);
      TimesOfPush(Only(log[..m], ip), log[m]);
      TimesOfPush(Only(other[..n], ip), other[n]);
      AddressesAreIndependent(log[..m], other[..n], ip, max, window);
      OthersDoNotCount(log[..m], ip, window);
      OthersDoNotCount(other[..n], ip, window);
      assert Decided(log, m, max, window) && Decided(other, n, max, window);
    } else if log != [] {
      TimesOfPush(Only(log[..|log| - 1], ip), log[|log| - 1]);
    } else if other != [] {
      TimesOfPush(Only(other[..|other| - 1], ip), other[|other| - 1]);
    }
  }

  function Times(log: seq<Call>): seq<nat> { seq(|log|, i requires 0 <= i < |log| => log[i].now) }

  lemma TimesOfPush(log: seq<Call>, c: Call)
    ensures Times(log + [c]) == Times(log) + [c.now]
    ensures Times(log + [c])[..|log|] == Times(log) && Times(log + [c])[|log|] == c.now
  {
  }

  // ----- the two limiters -----

  class RateLimiter {
    const window: nat
    const max: nat
    var hits: map<Address, seq<nat>>
    ghost var log: seq<Call>

    ghost predicate Valid()
      reads this
    {
      Faithful(log, max, window) && forall ip: Address :: Hits(hits, ip) == Survivors(log, ip, window)
    }

    constructor (max: nat, window: nat)
      ensures Valid() && log == [] && this.max == max && this.window == window
    {
      this.max, this.window, hits, log := max, window, map[], [];
    }

    /** The clock may be any.  A call that the history allows is allowed; unless an overtaken
        reading has lost an accepted time, a call is refused exactly when `max` calls of its
        address were accepted within the last window. */
    method Allow(ip: Address, now: nat) returns (ok: bool)
      requires Valid()
      modifies this
      ensures Valid() && log == old(log) + [Call(ip, now, ok)]
      ensures |Retain(Accepted(old(log), ip), now, window)| < max ==> ok
      ensures NothingLost(old(log), ip, now, window) ==> (ok <==> |Retain(Accepted(old(log), ip), now, window)| < max)
    {
      var entry := if ip in hits then hits[ip] else [];
      entry := Retain(entry, now, window);
      ok := |entry| < max;
      if ok { entry := entry + [now]; }
      hits := hits[ip := entry];
      ghost var before := log;
      log := log + [Call(ip, now, ok)];
      assert log[..|log| - 1] == before && log[..|before|] == before;
      FaithfulExtends(before, Call(ip, now, ok), max, window);
      SurvivorsDecideAsHistory(before, ip, now, window);
    }
  }

  function Hits(hits: map<Address, seq<nat>>, ip: Address): seq<nat> { if ip in hits then hits[ip] else [] }

  /** As the limiter, but `max == 0` switches it off and nothing is recorded. */
  class DailyCap {
    const window: nat
    const max: nat
    var hits: map<Address, seq<nat>>
    ghost var log: seq<Call>

    ghost predicate Valid()
      reads this
    {
      Faithful(log, max, window) && forall ip: Address :: Hits(hits, ip) == Survivors(log, ip, window)
    }

    constructor (max: nat, window: nat)
      ensures Valid() && log == [] && this.max == max && this.window == window
    {
      this.max, this.window, hits, log := max, window, map[], [];
    }

    method Allow(ip: Address, now: nat) returns (ok: bool)
      requires Valid()
      modifies this
      ensures Valid()
      ensures max == 0 ==> ok && hits == old(hits) && log == old(log)
      ensures max > 0 ==> log == old(log) + [Call(ip, now, ok)]
      ensures |Retain(Accepted(old(log), ip), now, window)| < max ==> ok
      ensures max > 0 && NothingLost(old(log), ip, now, window) ==>
                (ok <==> |Retain(Accepted(old(log), ip), now, window)| < max)
    {
      if max == 0 { return true; }
      var entry := if ip in hits then hits[ip] else [];
      entry := Retain(entry, now, window);
      ok := |entry| < max;
      if ok { entry := entry + [now]; }
      hits := hits[ip := entry];
      ghost var before := log;
      log := log + [Call(ip, now, ok)];
      assert log[..|log| - 1] == before && log[..|before|] == before;
      FaithfulExtends(before, Call(ip, now, ok), max, window);
      SurvivorsDecideAsHistory(before, ip, now, window);
    }
  }
}
