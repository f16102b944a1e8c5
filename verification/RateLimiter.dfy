/** The sliding-window rate limiter: a pruned list of timestamps per client. */
module RateLimiter {
  type Table = map<string, seq<real>>

  /** A defaultdict read: a missing client has no timestamps. */
  function Lookup(table: Table, key: string): seq<real> {
    if key in table then table[key] else []
  }

  /** What is left after popping from the front while the first entry is before the cutoff. */
  function Prune(times: seq<real>, cutoff: real): seq<real> {
    if times == [] || times[0] >= cutoff then times else Prune(times[1..], cutoff)
  }

  datatype Limits = Limits(maxRequests: int, window: int)

  predicate Admits(limits: Limits, table: Table, key: string, now: real) {
    |Prune(Lookup(table, key), now - limits.window as real)| < limits.maxRequests
  }

  function TableAfter(limits: Limits, table: Table, key: string, now: real): Table {
    var times := Prune(Lookup(table, key), now - limits.window as real);
    table[key := if Admits(limits, table, key, now) then times + [now] else times]
  }

  class Limiter {
    const limits: Limits
    var requests: Table

    constructor (maxRequests: int, windowSeconds: int)
      ensures limits == Limits(maxRequests, windowSeconds) && requests == map[]
    {
      limits, requests := Limits(maxRequests, windowSeconds), map[];
    }

    /** _cleanup: pops the expired timestamps and drops an empty list. */
    method Cleanup(key: string, now: real)
      modifies this
      ensures
        var times := Prune(Lookup(old(requests), key), now - limits.window as real);
        requests == if times == [] then old(requests) - {key} else old(requests)[key := times]
    {
      var cutoff := now - limits.window as real;
      var times := Lookup(requests, key);
      while times != [] && times[0] < cutoff
        invariant Prune(times, cutoff) == Prune(Lookup(old(requests), key), cutoff)
        decreases |times|
      {
        times := times[1..];
      }
      if times == [] {
        requests := requests - {key};
      } else {
        requests := requests[key := times];
      }
    }

    /** __call__: False stands for the 429 answer. */
    method Call(key: string, now: real) returns (admitted: bool)
      modifies this
      ensures admitted == Admits(limits, old(requests), key, now)
      ensures requests == TableAfter(limits, old(requests), key, now)
    {
      Cleanup(key, now);
      var times := Lookup(requests, key);
      requests := requests[key := times];
      if |times| >= limits.maxRequests {
        return false;
      }
      requests := requests[key := times + [now]];
      return true;
    }
  }

  // ---------------------------------------------------------------------------------------
  // The full log the pruned lists stand for
  // ---------------------------------------------------------------------------------------

  datatype Request = Request(key: string, time: real)

  /** The limiter's table and, beside it, every admission ever made. */
  datatype State = State(table: Table, log: seq<Request>)

  function Step(limits: Limits, s: State, r: Request): State {
    State(TableAfter(limits, s.table, r.key, r.time),
          if Admits(limits, s.table, r.key, r.time) then s.log + [r] else s.log)
  }

  function Run(limits: Limits, requests: seq<Request>): State {
    if requests == [] then State(map[], [])
    else Step(limits, Run(limits, requests[..|requests| - 1]), requests[|requests| - 1])
  }

  /** One client's entries of a request sequence. */
  function Of(requests: seq<Request>, key: string): seq<Request> {
    if requests == [] then []
    else Of(requests[..|requests| - 1], key)
         + (if requests[|requests| - 1].key == key then [requests[|requests| - 1]] else [])
  }

  function Times(requests: seq<Request>, key: string): seq<real> {
    if requests == [] then []
    else Times(requests[..|requests| - 1], key)
         + (if requests[|requests| - 1].key == key then [requests[|requests| - 1].time] else [])
  }

  /** The entries no older than the cutoff. */
  function Recent(times: seq<real>, cutoff: real): seq<real> {
    if times == [] then []
    else Recent(times[..|times| - 1], cutoff) + (if times[|times| - 1] >= cutoff then [times[|times| - 1]] else [])
  }

  predicate Sorted(times: seq<real>) {
    forall i, j :: 0 <= i < j < |times| ==> times[i] <= times[j]
  }

  predicate ClockNeverGoesBack(requests: seq<Request>) {
    forall i, j :: 0 <= i < j < |requests| ==> requests[i].time <= requests[j].time
  }

  /** A list that keeps exactly the entries from some point on, all dropped ones being before the cutoff. */
  predicate Covers(kept: seq<real>, all: seq<real>, cutoff: real) {
    && |kept| <= |all| && kept == all[|all| - |kept|..]
    && (forall i :: 0 <= i < |all| - |kept| ==> all[i] < cutoff)
  }

  lemma {:induction false} RecentOfSorted(times: seq<real>, cutoff: real, d: nat)
    requires d <= |times|
    requires forall i :: 0 <= i < d ==> times[i] < cutoff
    requires forall i :: d <= i < |times| ==> times[i] >= cutoff
    ensures Recent(times, cutoff) == times[d..]
  {
    if times == [] {
    } else if d == |times| {
      RecentOfSorted(times[..|times| - 1], cutoff, d - 1);
    } else {
      RecentOfSorted(times[..|times| - 1], cutoff, d);
      assert times[d..] == times[..|times| - 1][d..] + [times[|times| - 1]];
    }
  }

  /** Pruning a list that covers the sorted log leaves exactly the recent entries of the log. */
  lemma {:induction false} PruneIsRecent(kept: seq<real>, all: seq<real>, earlier: real, cutoff: real)
    requires Sorted(all) && Covers(kept, all, earlier) && earlier <= cutoff
    ensures Prune(kept, cutoff) == Recent(all, cutoff)
    ensures Covers(Prune(kept, cutoff), all, cutoff)
    decreases |kept|
  {
    var d := |all| - |kept|;
    if kept == [] || kept[0] >= cutoff {
      assert forall i :: d <= i < |all| ==> all[i] >= all[d];
      RecentOfSorted(all, cutoff, d);
    } else {
      assert kept[1..] == all[d + 1..];
      assert all[d] == kept[0];
      PruneIsRecent(kept[1..], all, cutoff, cutoff);
    }
  }

  /** Each admission found fewer than the maximum among the earlier ones no older than the window. */
  predicate Spaced(max: int, w: real, all: seq<real>) {
    forall j :: 0 <= j < |all| ==> |Recent(all[..j], all[j] - w)| < max
  }

  /** What a client's list and its log of admissions have to do with each other when the clock shows t. */
  predicate ClientOk(max: int, w: real, kept: seq<real>, all: seq<real>, t: real) {
    && Sorted(all)
    && (forall i :: 0 <= i < |all| ==> all[i] <= t)
    && Covers(kept, all, t - w)
    && Spaced(max, w, all)
  }

  lemma ClientAdmitted(max: int, w: real, kept: seq<real>, all: seq<real>, t: real, now: real)
    requires ClientOk(max, w, kept, all, t) && t <= now && |Prune(kept, now - w)| < max
    ensures ClientOk(max, w, Prune(kept, now - w) + [now], all + [now], now)
  {
    PruneIsRecent(kept, all, t - w, now - w);
    SpacedAppend(max, w, all, now);
    CoversAppend(Prune(kept, now - w), all, now - w, now);
    hide Recent, Prune, Spaced, Covers;
  }

  lemma CoversAppend(kept: seq<real>, all: seq<real>, cutoff: real, now: real)
    requires Covers(kept, all, cutoff)
    ensures Covers(kept + [now], all + [now], cutoff)
  {
    var kept', all' := kept + [now], all + [now];
    assert all'[|all'| - |kept'|..] == kept';
  }

  lemma SpacedAppend(max: int, w: real, all: seq<real>, now: real)
    requires Spaced(max, w, all) && |Recent(all, now - w)| < max
    ensures Spaced(max, w, all + [now])
  {
    hide Recent;
    var longer := all + [now];
    forall j | 0 <= j < |longer|
      ensures |Recent(longer[..j], longer[j] - w)| < max
    {
      if j < |all| {
        assert longer[..j] == all[..j];
      } else {
        assert longer[..j] == all;
      }
    }
  }

  lemma ClientRejected(max: int, w: real, kept: seq<real>, all: seq<real>, t: real, now: real)
    requires ClientOk(max, w, kept, all, t) && t <= now
    ensures ClientOk(max, w, Prune(kept, now - w), all, now)
  {
    hide Recent, Prune;
    PruneIsRecent(kept, all, t - w, now - w);
  }

  lemma ClientIdle(max: int, w: real, kept: seq<real>, all: seq<real>, t: real, now: real)
    requires ClientOk(max, w, kept, all, t) && t <= now
    ensures ClientOk(max, w, kept, all, now)
  {
  }

  ghost predicate Inv(limits: Limits, s: State, t: real) {
    forall key: string ::
      ClientOk(limits.maxRequests, limits.window as real, Lookup(s.table, key), Times(s.log, key), t)
  }

  lemma TimesAppend(log: seq<Request>, r: Request, key: string)
    ensures Times(log + [r], key) == if r.key == key then Times(log, key) + [r.time] else Times(log, key)
  {
    assert (log + [r])[..|log + [r]| - 1] == log;
  }

  lemma StepKeepsInv(limits: Limits, s: State, t: real, r: Request)
    requires Inv(limits, s, t) && t <= r.time
    ensures Inv(limits, Step(limits, s, r), r.time)
  {
    hide ClientOk, Prune;
    var s', max, w := Step(limits, s, r), limits.maxRequests, limits.window as real;
    forall key: string
      ensures ClientOk(max, w, Lookup(s'.table, key), Times(s'.log, key), r.time)
    {
      TimesAppend(s.log, r, key);
      var kept, all := Lookup(s.table, key), Times(s.log, key);
      if r.key != key {
        ClientIdle(max, w, kept, all, t, r.time);
      } else if Admits(limits, s.table, key, r.time) {
        ClientAdmitted(max, w, kept, all, t, r.time);
      } else {
        ClientRejected(max, w, kept, all, t, r.time);
      }
    }
  }

  lemma {:induction false} RunKeepsInv(limits: Limits, requests: seq<Request>, t: real)
    requires ClockNeverGoesBack(requests)
    requires requests != [] ==> requests[|requests| - 1].time <= t
    ensures Inv(limits, Run(limits, requests), t)
  {
    hide Step;
    if requests == [] {
    } else {
      var before, r := requests[..|requests| - 1], requests[|requests| - 1];
      RunKeepsInv(limits, before, r.time);
      StepKeepsInv(limits, Run(limits, before), r.time, r);
      InvLater(limits, Run(limits, requests), r.time, t);
    }
  }

  lemma InvLater(limits: Limits, s: State, t: real, later: real)
    requires Inv(limits, s, t) && t <= later
    ensures Inv(limits, s, later)
  {
    hide ClientOk;
    forall key: string
      ensures ClientOk(limits.maxRequests, limits.window as real, Lookup(s.table, key), Times(s.log, key), later)
    {
      ClientIdle(limits.maxRequests, limits.window as real, Lookup(s.table, key), Times(s.log, key), t, later);
    }
  }

  lemma RecentIsPruned(limits: Limits, s: State, next: Request)
    requires Inv(limits, s, next.time)
    ensures
      var cutoff := next.time - limits.window as real;
      Prune(Lookup(s.table, next.key), cutoff) == Recent(Times(s.log, next.key), cutoff)
  {
    var max, w, kept, all := limits.maxRequests, limits.window as real, Lookup(s.table, next.key), Times(s.log, next.key);
    assert ClientOk(max, w, kept, all, next.time);
    PruneIsRecent(kept, all, next.time - w, next.time - w);
  }

  // ---------------------------------------------------------------------------------------
  // The limit over any window
  // ---------------------------------------------------------------------------------------

  /** How many of the entries lie in the closed interval. */
  function CountIn(times: seq<real>, from: real, to: real): nat {
    if times == [] then 0
    else CountIn(times[..|times| - 1], from, to)
         + (if from <= times[|times| - 1] <= to then 1 else 0)
  }

  lemma {:induction false} CountInAtMostRecent(times: seq<real>, from: real, to: real, cutoff: real)
    requires cutoff <= from
    ensures CountIn(times, from, to) <= |Recent(times, cutoff)|
  {
    if times != [] {
      CountInAtMostRecent(times[..|times| - 1], from, to, cutoff);
    }
  }

  lemma {:induction false} SpacedCount(max: nat, w: real, all: seq<real>, from: real)
    requires Spaced(max, w, all)
    ensures CountIn(all, from, from + w) <= max
  {
    if all != [] {
      var before, last := all[..|all| - 1], all[|all| - 1];
      if last <= from + w {
        assert |Recent(all[..|all| - 1], all[|all| - 1] - w)| < max;
        CountInAtMostRecent(before, from, from + w, last - w);
      } else {
        SpacedPrefix(max, w, all);
        SpacedCount(max, w, before, from);
      }
    }
  }

  lemma SpacedPrefix(max: int, w: real, all: seq<real>)
    requires all != [] && Spaced(max, w, all)
    ensures Spaced(max, w, all[..|all| - 1])
  {
    hide Recent;
    var before := all[..|all| - 1];
    forall j | 0 <= j < |before|
      ensures |Recent(before[..j], before[j] - w)| < max
    {
      assert before[..j] == all[..j] && before[j] == all[j];
    }
  }

  lemma {:induction false} CountOfRecent(times: seq<real>, from: real, to: real)
    requires forall i :: 0 <= i < |times| ==> times[i] <= to
    ensures CountIn(times, from, to) == |Recent(times, from)|
  {
    if times != [] {
      CountOfRecent(times[..|times| - 1], from, to);
    }
  }

  lemma RecentIsCounted(limits: Limits, s: State, next: Request)
    requires Inv(limits, s, next.time)
    ensures
      var cutoff := next.time - limits.window as real;
      CountIn(Times(s.log, next.key), cutoff, next.time) == |Recent(Times(s.log, next.key), cutoff)|
  {
    var all := Times(s.log, next.key);
    assert ClientOk(limits.maxRequests, limits.window as real, Lookup(s.table, next.key), all, next.time);
    CountOfRecent(all, next.time - limits.window as real, next.time);
  }

  /**
    With a clock that never goes back, the next request is rejected exactly when the client already
    has the maximum number of admissions in the closed window that ends now, and afterwards its list is
    exactly its admissions no older than the window.
   */
  lemma RejectsExactlyWhenFull(limits: Limits, requests: seq<Request>, next: Request)
    requires ClockNeverGoesBack(requests)
    requires requests != [] ==> requests[|requests| - 1].time <= next.time
    ensures
      var s := Run(limits, requests);
      var cutoff := next.time - limits.window as real;
      var recent := Recent(Times(s.log, next.key), cutoff);
      var s' := Run(limits, requests + [next]);
      && |recent| == CountIn(Times(s.log, next.key), cutoff, next.time)
      && if |recent| >= limits.maxRequests then s'.log == s.log && Lookup(s'.table, next.key) == recent
      else s'.log == s.log + [next] && Lookup(s'.table, next.key) == recent + [next.time]
  {
    var s, cutoff, longer := Run(limits, requests), next.time - limits.window as real, requests + [next];
    hide Prune, Recent, Times, Inv, CountIn;
    RunKeepsInv(limits, requests, next.time);
    RecentIsPruned(limits, s, next);
    RecentIsCounted(limits, s, next);
    assert longer[..|longer| - 1] == requests;
    assert Run(limits, longer) == Step(limits, s, next);
    hide Run;
  }

  /** Any closed interval of window length holds at most maxRequests admissions of a client. */
  lemma AtMostMaxPerWindow(limits: Limits, requests: seq<Request>, key: string, from: real)
    requires ClockNeverGoesBack(requests) && limits.maxRequests >= 0
    ensures CountIn(Times(Run(limits, requests).log, key), from, from + limits.window as real) <= limits.maxRequests
  {
    hide CountIn, Run, Times;
    var t, s, w := if requests == [] then 0.0 else requests[|requests| - 1].time, Run(limits, requests), limits.window as real;
    RunKeepsInv(limits, requests, t);
    assert ClientOk(limits.maxRequests, w, Lookup(s.table, key), Times(s.log, key), t);
    SpacedCount(limits.maxRequests, w, Times(s.log, key), from);
  }

  // ---------------------------------------------------------------------------------------
  // Clients do not affect each other
  // ---------------------------------------------------------------------------------------

  lemma StepElsewhere(limits: Limits, s: State, r: Request, key: string)
    requires r.key != key
    ensures
      var s' := Step(limits, s, r);
      Lookup(s'.table, key) == Lookup(s.table, key) && Times(s'.log, key) == Times(s.log, key)
  {
    hide Prune;
    TimesAppend(s.log, r, key);
  }

  lemma StepDependsOnOwnList(limits: Limits, s: State, alone: State, r: Request)
    requires Lookup(s.table, r.key) == Lookup(alone.table, r.key) && Times(s.log, r.key) == Times(alone.log, r.key)
    ensures
      var s', alone' := Step(limits, s, r), Step(limits, alone, r);
      Lookup(s'.table, r.key) == Lookup(alone'.table, r.key) && Times(s'.log, r.key) == Times(alone'.log, r.key)
  {
    hide Prune;
    TimesAppend(s.log, r, r.key);
    TimesAppend(alone.log, r, r.key);
  }

  /** A client's admissions and list are those it would have had alone. */
  lemma {:induction false} ClientsAreIndependent(limits: Limits, requests: seq<Request>, key: string)
    ensures
      var s, alone := Run(limits, requests), Run(limits, Of(requests, key));
      && Lookup(s.table, key) == Lookup(alone.table, key)
      && Times(s.log, key) == Times(alone.log, key)
  {
    hide Step;
    if requests != [] {
      var before, r := requests[..|requests| - 1], requests[|requests| - 1];
      var s, own := Run(limits, before), Of(before, key);
      ClientsAreIndependent(limits, before, key);
      if r.key == key {
        assert (own + [r])[..|own + [r]| - 1] == own;
        StepDependsOnOwnList(limits, s, Run(limits, own), r);
      } else {
        StepElsewhere(limits, s, r, key);
        assert Of(requests, key) == own;
      }
    }
  }
}
