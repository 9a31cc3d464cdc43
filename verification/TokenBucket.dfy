/**
 The rate limiter (src/util/token-bucket.ts), over the reals: a bucket refilled continuously and
 emptied by one token for each request granted.
 */
module TokenBucket {

  /** The capacity, the window in milliseconds, and when the bucket was created. */
  datatype Limit = Limit(capacity: real, windowMs: real, start: real) {
    ghost predicate Valid() { capacity >= 0.0 && windowMs > 0.0 }
  }

  datatype State = State(tokens: real, last: real)

  function Rate(limit: Limit): real
    requires limit.Valid()
  {
    limit.capacity / limit.windowMs
  }

  function Min(a: real, b: real): real { if a <= b then a else b }

  function Fresh(limit: Limit): State { State(limit.capacity, limit.start) }

  function Refilled(s: State, limit: Limit, now: real): real
    requires limit.Valid()
  {
    Min(limit.capacity, s.tokens + (now - s.last) * Rate(limit))
  }

  /** One call at time `now`: the new state and the decision. */
  function Called(s: State, limit: Limit, now: real): (State, bool)
    requires limit.Valid()
  {
    var tokens := Refilled(s, limit, now);
    if tokens >= 1.0 then (State(tokens - 1.0, now), true) else (State(tokens, now), false)
  }

  class Bucket {
    const limit: Limit
    var tokens: real
    var last: real

    constructor (capacity: real, windowMs: real, now: real)
      requires Limit(capacity, windowMs, now).Valid()
      ensures limit == Limit(capacity, windowMs, now) && State(tokens, last) == Fresh(limit)
    {
      limit := Limit(capacity, windowMs, now);
      tokens, last := capacity, now;
    }

    method Allow(now: real) returns (granted: bool)
      requires limit.Valid()
      modifies this
      ensures (State(tokens, last), granted) == Called(old(State(tokens, last)), limit, now)
    {
      var delta := now - last;
      last := now;
      var refillRate := limit.capacity / limit.windowMs;
      tokens := Min(limit.capacity, tokens + delta * refillRate);
      assert tokens == Refilled(old(State(tokens, last)), limit, now);
      if tokens >= 1.0 {
        tokens := tokens - 1.0;
        granted := true;
      } else {
        granted := false;
      }
    }
  }

  // ---------------------------------------------------------------- the same bucket with time measured in tokens

  /** One call at `now`, when one token flows in per unit of time. */
  function Metered(s: State, capacity: real, now: real): (State, bool) {
    var tokens := Min(capacity, s.tokens + (now - s.last));
    if tokens >= 1.0 then (State(tokens - 1.0, now), true) else (State(tokens, now), false)
  }

  function MeteredAfter(capacity: real, start: real, times: seq<real>): State {
    if times == [] then State(capacity, start)
    else Metered(MeteredAfter(capacity, start, times[..|times| - 1]), capacity, times[|times| - 1]).0
  }

  /** The tokens the `k`-th call finds. */
  function Found(capacity: real, start: real, times: seq<real>, k: nat): real
    requires k < |times|
  {
    var s := MeteredAfter(capacity, start, times[..k]);
    Min(capacity, s.tokens + (times[k] - s.last))
  }

  function MeteredGrants(capacity: real, start: real, times: seq<real>, i: nat, k: nat): nat
    requires i <= k <= |times|
    decreases k
  {
    if k == i then 0
    else
      MeteredGrants(capacity, start, times, i, k - 1)
      + (if Found(capacity, start, times, k - 1) >= 1.0 then 1 else 0)
  }

  ghost predicate Ordered(start: real, times: seq<real>) {
    && (forall i :: 0 <= i < |times| ==> start <= times[i])
    && forall i, j :: 0 <= i < j < |times| ==> times[i] <= times[j]
  }

  lemma MeteredOneMore(capacity: real, start: real, times: seq<real>, k: nat)
    requires k < |times|
    ensures MeteredAfter(capacity, start, times[..k + 1])
         == State(
              Found(capacity, start, times, k) - (if Found(capacity, start, times, k) >= 1.0 then 1.0 else 0.0),
              times[k])
  {
    var upTo := times[..k + 1];
    assert upTo[..|upTo| - 1] == times[..k];
  }

  lemma {:induction false} MeteredInRange(capacity: real, start: real, times: seq<real>)
    requires capacity >= 0.0 && Ordered(start, times)
    ensures 0.0 <= MeteredAfter(capacity, start, times).tokens <= capacity
    ensures MeteredAfter(capacity, start, times).last == if times == [] then start else times[|times| - 1]
  {
    if times != [] {
      MeteredInRange(capacity, start, times[..|times| - 1]);
    }
  }

  lemma FoundNext(capacity: real, start: real, times: seq<real>, k: nat)
    requires 0 < k < |times|
    ensures var before := Found(capacity, start, times, k - 1);
            Found(capacity, start, times, k)
            == Min(capacity, before - (if before >= 1.0 then 1.0 else 0.0) + (times[k] - times[k - 1]))
  {
    MeteredOneMore(capacity, start, times, k - 1);
  }

  /** What is left of the budget of the window from `from` to call `k`, of which `i` is the first call. */
  function LeftOver(capacity: real, start: real, times: seq<real>, from: real, i: nat, k: nat): real
    requires i <= k < |times|
  {
    capacity + (times[k] - from) - MeteredGrants(capacity, start, times, i, k) as real
  }

  /** What a call finds is the least that any window ending at it has left over. */
  lemma {:induction false} FoundIsTheLeast(capacity: real, start: real, times: seq<real>, k: nat)
    requires Ordered(start, times) && k < |times|
    ensures Found(capacity, start, times, k) <= LeftOver(capacity, start, times, start, 0, k)
    ensures forall i :: 0 <= i <= k ==>
              Found(capacity, start, times, k) <= LeftOver(capacity, start, times, times[i], i, k)
    ensures || Found(capacity, start, times, k) == LeftOver(capacity, start, times, start, 0, k)
            || exists i :: 0 <= i <= k
                 && Found(capacity, start, times, k) == LeftOver(capacity, start, times, times[i], i, k)
  {
    var found := Found(capacity, start, times, k);
    assert LeftOver(capacity, start, times, times[k], k, k) == capacity;
    if k == 0 {
      assert times[..0] == [];
    } else {
      FoundIsTheLeast(capacity, start, times, k - 1);
      FoundNext(capacity, start, times, k);
      forall i | 0 <= i < k ensures found <= LeftOver(capacity, start, times, times[i], i, k) {
        assert Found(capacity, start, times, k - 1) <= LeftOver(capacity, start, times, times[i], i, k - 1);
      }
      if found != capacity
         && Found(capacity, start, times, k - 1) != LeftOver(capacity, start, times, start, 0, k - 1) {
        var i :| 0 <= i <= k - 1
              && Found(capacity, start, times, k - 1) == LeftOver(capacity, start, times, times[i], i, k - 1);
        assert found == LeftOver(capacity, start, times, times[i], i, k);
      }
    }
  }

  // ---------------------------------------------------------------- runs

  /** The state after calls at the given times. */
  function After(limit: Limit, times: seq<real>): State
    requires limit.Valid()
  {
    if times == [] then Fresh(limit)
    else Called(After(limit, times[..|times| - 1]), limit, times[|times| - 1]).0
  }

  /** Whether the `k`-th call is granted. */
  predicate Granted(limit: Limit, times: seq<real>, k: nat)
    requires limit.Valid() && k < |times|
  {
    Called(After(limit, times[..k]), limit, times[k]).1
  }

  /** The calls granted from the `i`-th up to and excluding the `k`-th. */
  function Grants(limit: Limit, times: seq<real>, i: nat, k: nat): nat
    requires limit.Valid() && i <= k <= |times|
    decreases k
  {
    if k == i then 0 else Grants(limit, times, i, k - 1) + (if Granted(limit, times, k - 1) then 1 else 0)
  }

  /** What the limit allows from time `from` to time `to`: a full bucket and what flows in meanwhile. */
  function Budget(limit: Limit, from: real, to: real): real
    requires limit.Valid()
  {
    limit.capacity + (to - from) * (limit.capacity / limit.windowMs)
  }

  /** The time measured in tokens. */
  function Clock(limit: Limit, time: real): real
    requires limit.Valid()
  {
    time * Rate(limit)
  }

  function InTokens(limit: Limit, times: seq<real>): (r: seq<real>)
    requires limit.Valid()
    ensures |r| == |times| && forall i :: 0 <= i < |r| ==> r[i] == Clock(limit, times[i])
  {
    seq(|times|, i requires 0 <= i < |times| => Clock(limit, times[i]))
  }

  lemma ClockFlows(limit: Limit, a: real, b: real)
    requires limit.Valid()
    ensures (b - a) * Rate(limit) == Clock(limit, b) - Clock(limit, a)
    ensures a <= b ==> Clock(limit, a) <= Clock(limit, b)
  {
    Scale(Rate(limit), a, b);
  }

  lemma Scale(rate: real, a: real, b: real)
    requires rate >= 0.0
    ensures (b - a) * rate == b * rate - a * rate
    ensures a <= b ==> a * rate <= b * rate
  {
    if a <= b {
      assert (b - a) * rate >= 0.0;
    }
  }

  lemma InTokensOrdered(limit: Limit, times: seq<real>)
    requires limit.Valid() && Ordered(limit.start, times)
    ensures Ordered(Clock(limit, limit.start), InTokens(limit, times))
  {
    var units := InTokens(limit, times);
    forall i | 0 <= i < |units| ensures Clock(limit, limit.start) <= units[i] {
      ClockFlows(limit, limit.start, times[i]);
    }
    forall i, j | 0 <= i < j < |units| ensures units[i] <= units[j] {
      ClockFlows(limit, times[i], times[j]);
    }
  }

  lemma InTokensPrefix(limit: Limit, times: seq<real>, n: nat)
    requires limit.Valid() && n <= |times|
    ensures InTokens(limit, times)[..n] == InTokens(limit, times[..n])
  {
  }

  /** Measuring time in tokens changes no decision. */
  lemma {:induction false} MeteredAlike(limit: Limit, times: seq<real>)
    requires limit.Valid()
    ensures var s := After(limit, times);
            var m := MeteredAfter(limit.capacity, Clock(limit, limit.start), InTokens(limit, times));
            s.tokens == m.tokens && Clock(limit, s.last) == m.last
  {
    if times != [] {
      var n := |times| - 1;
      MeteredAlike(limit, times[..n]);
      ClockFlows(limit, After(limit, times[..n]).last, times[n]);
      InTokensPrefix(limit, times, n);
    }
  }

  lemma FoundAlike(limit: Limit, times: seq<real>, k: nat)
    requires limit.Valid() && k < |times|
    ensures Refilled(After(limit, times[..k]), limit, times[k])
         == Found(limit.capacity, Clock(limit, limit.start), InTokens(limit, times), k)
  {
    hide Refilled, Clock, After, MeteredAfter, InTokens;
    MeteredAlike(limit, times[..k]);
    InTokensPrefix(limit, times, k);
    var m := MeteredAfter(limit.capacity, Clock(limit, limit.start), InTokens(limit, times[..k]));
    RefilledAlike(limit, After(limit, times[..k]), m, times[k]);
  }

  lemma RefilledAlike(limit: Limit, s: State, m: State, now: real)
    requires limit.Valid() && s.tokens == m.tokens && Clock(limit, s.last) == m.last
    ensures Refilled(s, limit, now) == Min(limit.capacity, m.tokens + (Clock(limit, now) - m.last))
  {
    ClockFlows(limit, s.last, now);
  }

  lemma {:induction false} GrantsAlike(limit: Limit, times: seq<real>, i: nat, k: nat)
    requires limit.Valid() && i <= k <= |times|
    ensures Grants(limit, times, i, k)
         == MeteredGrants(limit.capacity, Clock(limit, limit.start), InTokens(limit, times), i, k)
    decreases k
  {
    if i < k {
      GrantsAlike(limit, times, i, k - 1);
      FoundAlike(limit, times, k - 1);
    }
  }

  lemma BudgetFlows(limit: Limit, from: real, to: real)
    requires limit.Valid()
    ensures Budget(limit, from, to) == limit.capacity + (Clock(limit, to) - Clock(limit, from))
  {
    ClockFlows(limit, from, to);
  }

  lemma LeftOverAlike(limit: Limit, times: seq<real>, from: real, i: nat, k: nat)
    requires limit.Valid() && i <= k < |times|
    ensures LeftOver(limit.capacity, Clock(limit, limit.start), InTokens(limit, times), Clock(limit, from), i, k)
         == Budget(limit, from, times[k]) - Grants(limit, times, i, k) as real
  {
    hide Budget, Clock;
    BudgetFlows(limit, from, times[k]);
    GrantsAlike(limit, times, i, k);
  }

  lemma TokensInRange(limit: Limit, times: seq<real>)
    requires limit.Valid() && Ordered(limit.start, times)
    ensures 0.0 <= After(limit, times).tokens <= limit.capacity
  {
    MeteredAlike(limit, times);
    InTokensOrdered(limit, times);
    MeteredInRange(limit.capacity, Clock(limit, limit.start), InTokens(limit, times));
  }

  /**
   A call is granted exactly when, counting it, every window that ends at it - from the creation of
   the bucket or from any earlier call - stays within its budget.
   */
  lemma GrantedIffWithinEveryBudget(limit: Limit, times: seq<real>, k: nat)
    requires limit.Valid() && Ordered(limit.start, times) && k < |times|
    ensures Granted(limit, times, k) <==>
            && (Grants(limit, times, 0, k) + 1) as real <= Budget(limit, limit.start, times[k])
            && forall i :: 0 <= i <= k ==> (Grants(limit, times, i, k) + 1) as real <= Budget(limit, times[i], times[k])
  {
    var capacity, start, units := limit.capacity, Clock(limit, limit.start), InTokens(limit, times);
    InTokensOrdered(limit, times);
    FoundAlike(limit, times, k);
    FoundIsTheLeast(capacity, start, units, k);
    LeftOverAlike(limit, times, limit.start, 0, k);
    forall i | 0 <= i <= k
      ensures LeftOver(capacity, start, units, units[i], i, k)
              == Budget(limit, times[i], times[k]) - Grants(limit, times, i, k) as real
    {
      LeftOverAlike(limit, times, times[i], i, k);
    }
  }

  /** No window of calls is granted more than its budget. */
  lemma {:induction false} WindowsAreBounded(limit: Limit, times: seq<real>, i: nat, j: nat)
    requires limit.Valid() && Ordered(limit.start, times) && i <= j < |times|
    ensures Grants(limit, times, i, j + 1) as real <= Budget(limit, times[i], times[j])
    decreases j
  {
    if Granted(limit, times, j) {
      GrantedIffWithinEveryBudget(limit, times, j);
    } else if i < j {
      WindowsAreBounded(limit, times, i, j - 1);
      BudgetGrows(limit, times[i], times[j - 1], times[j]);
    } else {
      assert Budget(limit, times[i], times[j]) == limit.capacity;
    }
  }

  lemma BudgetGrows(limit: Limit, from: real, mid: real, to: real)
    requires limit.Valid() && mid <= to
    ensures Budget(limit, from, mid) <= Budget(limit, from, to)
  {
    hide Budget;
    ClockFlows(limit, mid, to);
    BudgetFlows(limit, from, mid);
    BudgetFlows(limit, from, to);
  }

  // ---------------------------------------------------------------- denied calls leave no trace

  lemma RefillTwice(limit: Limit, s: State, mid: real, now: real)
    requires limit.Valid() && s.last <= mid <= now
    ensures Refilled(State(Refilled(s, limit, mid), mid), limit, now) == Refilled(s, limit, now)
  {
    ClockFlows(limit, s.last, mid);
    ClockFlows(limit, mid, now);
    ClockFlows(limit, s.last, now);
  }

  /** The decisions on calls at `times` from state `s`. */
  function Decisions(limit: Limit, s: State, times: seq<real>): (r: seq<bool>)
    requires limit.Valid()
    ensures |r| == |times|
    decreases |times|
  {
    if times == [] then []
    else var (next, granted) := Called(s, limit, times[0]); [granted] + Decisions(limit, next, times[1..])
  }

  lemma DecisionsCons(limit: Limit, s: State, now: real, rest: seq<real>)
    requires limit.Valid()
    ensures Decisions(limit, s, [now] + rest)
         == [Called(s, limit, now).1] + Decisions(limit, Called(s, limit, now).0, rest)
  {
    assert ([now] + rest)[1..] == rest;
  }

  lemma OrderedTail(s: State, limit: Limit, now: real, rest: seq<real>)
    requires limit.Valid() && Ordered(s.last, [now] + rest)
    ensures Ordered(Called(s, limit, now).0.last, rest)
  {
    var all := [now] + rest;
    assert forall i :: 0 <= i < |rest| ==> all[0] <= all[i + 1] && all[i + 1] == rest[i];
  }

  /** Deleting a denied call from a run changes no other decision. */
  lemma {:induction false} DeniedCallsDoNotMatter(
    limit: Limit, s: State, before: seq<real>, denied: real, after: seq<real>)
    requires limit.Valid() && Ordered(s.last, before + [denied] + after)
    requires !Decisions(limit, s, before + [denied] + after)[|before|]
    ensures var all := Decisions(limit, s, before + [denied] + after);
            Decisions(limit, s, before + after) == all[..|before|] + all[|before| + 1..]
    decreases |before|
  {
    hide Called, Ordered, Decisions;
    if before == [] {
      assert before + [denied] + after == [denied] + after && before + after == after;
      DeniedFirst(limit, s, denied, after);
    } else {
      var now, next := before[0], Called(s, limit, before[0]).0;
      assert before + [denied] + after == [now] + (before[1..] + [denied] + after);
      assert before + after == [now] + (before[1..] + after);
      DecisionsCons(limit, s, now, before[1..] + [denied] + after);
      DecisionsCons(limit, s, now, before[1..] + after);
      OrderedTail(s, limit, now, before[1..] + [denied] + after);
      DeniedCallsDoNotMatter(limit, next, before[1..], denied, after);
    }
  }

  lemma DeniedFirst(limit: Limit, s: State, denied: real, after: seq<real>)
    requires limit.Valid() && Ordered(s.last, [denied] + after)
    requires !Decisions(limit, s, [denied] + after)[0]
    ensures Decisions(limit, s, after) == Decisions(limit, s, [denied] + after)[1..]
  {
    hide Called, Refilled, Ordered, Decisions;
    DecisionsCons(limit, s, denied, after);
    var next := Called(s, limit, denied).0;
    if after != [] {
      var now, rest := after[0], after[1..];
      assert after == [now] + rest;
      DeniedOnlyRefills(s, limit, denied);
      RefillAfterDenial(limit, s, denied, now, after);
      SameRefillSameCall(next, s, limit, now);
      DecisionsCons(limit, next, now, rest);
      DecisionsCons(limit, s, now, rest);
    }
  }

  lemma DeniedOnlyRefills(s: State, limit: Limit, now: real)
    requires limit.Valid() && !Called(s, limit, now).1
    ensures Called(s, limit, now).0 == State(Refilled(s, limit, now), now)
  {
  }

  lemma SameRefillSameCall(s: State, t: State, limit: Limit, now: real)
    requires limit.Valid() && Refilled(s, limit, now) == Refilled(t, limit, now)
    ensures Called(s, limit, now) == Called(t, limit, now)
  {
  }

  lemma RefillAfterDenial(limit: Limit, s: State, denied: real, now: real, after: seq<real>)
    requires limit.Valid() && Ordered(s.last, [denied] + after) && after != [] && now == after[0]
    ensures Refilled(State(Refilled(s, limit, denied), denied), limit, now) == Refilled(s, limit, now)
  {
    var all := [denied] + after;
    assert all[0] == denied && all[1] == now;
    RefillTwice(limit, s, denied, now);
  }
}
