/**
 The circuit breaker (harness2/circuit.py): after the failure that trips it, a caller that
 keeps failing is let through ever more rarely, at times bounded by doubling cooldowns.
 */
module Circuit {
  import opened Wrappers

  type Time = real

  datatype State = Closed | Open | HalfOpen

  datatype Row = Row(state: State, failures: nat, openedAt: Option<Time>, cooldown: real)

  /** What a key without a row reads as. */
  const ABSENT: Row := Row(Closed, 0, None, 30.0)

  datatype Limits = Limits(threshold: nat, base: real, most: real)

  predicate Valid(l: Limits) {
    1 <= l.threshold && 1.0 <= l.base <= l.most
  }

  function Least(a: real, b: real): real {
    if a < b then a else b
  }

  function Greatest(a: real, b: real): real {
    if a < b then b else a
  }

  // ----- one row

  /** `before`: an open circuit whose cooldown is over becomes half open. */
  function Seen(row: Row, now: Time): Row {
    if row.state == Open && row.openedAt.Some? && now - row.openedAt.value >= row.cooldown then row.(state := HalfOpen) else row
  }

  predicate Lets(row: Row) {
    row.state != Open
  }

  function NextCooldown(l: Limits, cooldown: real): real {
    Least(l.most, Greatest(l.base, cooldown * 2.0))
  }

  function Failed(l: Limits, row: Row, now: Time): Row {
    if row.failures + 1 >= l.threshold || row.state == HalfOpen
    then Row(Open, row.failures + 1, Some(now), NextCooldown(l, row.cooldown))
    else row.(failures := row.failures + 1)
  }

  function Succeeded(l: Limits): Row {
    Row(Closed, 0, None, l.base)
  }

  /** Closed exactly below the threshold; otherwise it is known when it was opened, and the cooldown is within its limits. */
  predicate RowOk(l: Limits, row: Row) {
    && (row.state == Closed <==> row.failures < l.threshold)
    && (row.state != Closed ==> row.openedAt.Some? && l.base <= row.cooldown <= l.most)
  }

  /** Every operation keeps a row sound, in any order. */
  lemma RowKept(l: Limits, row: Row, now: Time)
    requires Valid(l) && RowOk(l, row)
    ensures ABSENT == Row(Closed, 0, None, 30.0)
    ensures RowOk(l, Seen(row, now)) && RowOk(l, Failed(l, row, now)) && RowOk(l, Succeeded(l)) && RowOk(l, ABSENT)
  {
  }

  // ----- the breaker

  datatype View = View(state: State, failures: nat, allowed: bool, cooldown: real)

  class CircuitBreaker {
    const limits: Limits
    var rows: map<string, Row>

    constructor (threshold: int, base: real, most: real)
      ensures Valid(limits) && rows == map[]
      ensures limits.threshold == if threshold < 1 then 1 else threshold
      ensures limits.base == Greatest(1.0, base) && limits.most == Greatest(limits.base, most)
    {
      var floor := Greatest(1.0, base);
      limits := Limits(if threshold < 1 then 1 else threshold, floor, Greatest(floor, most));
      rows := map[];
    }

    function Load(key: string): Row
      reads this
    {
      if key in rows then rows[key] else ABSENT
    }

    method Before(key: string, now: Time) returns (view: View)
      modifies this
      ensures Load(key) == Seen(old(Load(key)), now)
      ensures view == View(Load(key).state, Load(key).failures, Lets(Load(key)), Load(key).cooldown)
      ensures forall k :: k != key ==> Load(k) == old(Load(k))
    {
      var value := Load(key);
      var state := value.state;
      if state == Open && value.openedAt.Some? {
        if now - value.openedAt.value >= value.cooldown {
          state := HalfOpen;
          rows := rows[key := value.(state := state)];
        }
      }
      return View(state, value.failures, state != Open, value.cooldown);
    }

    method Success(key: string)
      modifies this
      ensures Load(key) == Succeeded(limits) == Row(Closed, 0, None, limits.base)
      ensures forall k :: k != key ==> Load(k) == old(Load(k))
    {
      rows := rows[key := Row(Closed, 0, None, limits.base)];
    }

    /** The failure is recorded at one time and the view taken at a later one. */
    method Failure(key: string, now: Time, later: Time) returns (view: View)
      modifies this
      ensures Load(key) == Seen(Failed(limits, old(Load(key)), now), later)
      ensures view == View(Load(key).state, Load(key).failures, Lets(Load(key)), Load(key).cooldown)
      ensures forall k :: k != key ==> Load(k) == old(Load(k))
    {
      var value := Load(key);
      var failures := value.failures + 1;
      var row := value.(failures := failures);
      if failures >= limits.threshold || value.state == HalfOpen {
        row := Row(Open, failures, Some(now), Least(limits.most, Greatest(limits.base, value.cooldown * 2.0)));
      }
      rows := rows[key := row];
      view := Before(key, later);
    }
  }

  // ----- a caller that keeps failing

  /** One call: it looks, and if it is let through it fails and looks again. */
  datatype Call = Call(started: Time, failedAt: Time, viewedAt: Time)

  /** Each call begins after the one before has ended. */
  predicate Sequential(calls: seq<Call>, from: Time) {
    calls == [] ||
    (from <= calls[0].started <= calls[0].failedAt <= calls[0].viewedAt && Sequential(calls[1..], calls[0].viewedAt))
  }

  function AfterCall(l: Limits, row: Row, call: Call): Row {
    var seen := Seen(row, call.started);
    if Lets(seen) then Seen(Failed(l, seen, call.failedAt), call.viewedAt) else seen
  }

  /** When the calls that were let through started. */
  function LetThrough(l: Limits, row: Row, calls: seq<Call>): seq<Time>
    decreases |calls|
  {
    if calls == [] then []
    else
      (if Lets(Seen(row, calls[0].started)) then [calls[0].started] else [])
      + LetThrough(l, AfterCall(l, row, calls[0]), calls[1..])
  }

  /** The sum of the next n cooldowns. */
  function Total(l: Limits, cooldown: real, n: nat): real
    decreases n
  {
    if n == 0 then 0.0 else cooldown + Total(l, NextCooldown(l, cooldown), n - 1)
  }

  /** The circuit is open since the given time, or half open again because its cooldown was over by then. */
  predicate Tripped(l: Limits, row: Row, tripped: Time, seenAt: Time) {
    RowOk(l, row) && row.state != Closed && row.openedAt == Some(tripped) && (row.state == HalfOpen ==> seenAt - tripped >= row.cooldown)
  }

  lemma LetThroughOnce(l: Limits, row: Row, tripped: Time, seenAt: Time, call: Call)
    requires Valid(l) && Tripped(l, row, tripped, seenAt) && seenAt <= call.started <= call.failedAt <= call.viewedAt
    ensures var after := AfterCall(l, row, call);
      if Lets(Seen(row, call.started)) then
        && call.started >= tripped + row.cooldown
        && Tripped(l, after, call.failedAt, call.viewedAt) && after.cooldown == NextCooldown(l, row.cooldown)
      else Tripped(l, after, tripped, call.viewedAt) && after == row
  {
  }

  /** Once tripped, a call is let through exactly when the cooldown is over. */
  lemma ProbeExact(l: Limits, row: Row, tripped: Time, seenAt: Time, now: Time)
    requires Tripped(l, row, tripped, seenAt) && seenAt <= now
    ensures Lets(Seen(row, now)) <==> now >= tripped + row.cooldown
    ensures Seen(row, now) == row.(state := if now >= tripped + row.cooldown then HalfOpen else Open)
  {
  }

  /** A look changes no closed circuit, and of an open one at most the state. */
  lemma LookExact(row: Row, now: Time)
    ensures Seen(row, now) == row.(state := Seen(row, now).state)
    ensures Seen(row, now).state ==
      if row.state == Open && row.openedAt.Some? && row.openedAt.value + row.cooldown <= now then HalfOpen else row.state
  {
  }

  /** A failure counts one more; the one that reaches the threshold, and any of a half-open circuit, opens it for a longer time. */
  lemma FailureExact(l: Limits, row: Row, now: Time)
    requires Valid(l) && RowOk(l, row)
    ensures var after := Failed(l, row, now);
      && after.failures == row.failures + 1
      && (after.state == Open <==> row.state != Closed || row.failures + 1 >= l.threshold)
      && (after.state == Open ==> after.openedAt == Some(now))
      && (after.state == Open ==> after.cooldown == Least(l.most, Greatest(l.base, 2.0 * row.cooldown)))
      && (after.state != Open ==> after == row.(failures := row.failures + 1))
  {
  }

  /** The j-th start is no earlier than the sum of the first j cooldowns after the given time. */
  ghost predicate Spaced(l: Limits, starts: seq<Time>, from: Time, cooldown: real) {
    forall j :: 0 <= j < |starts| ==> starts[j] >= from + Total(l, cooldown, j + 1)
  }

  lemma SpacedBefore(l: Limits, started: Time, rest: seq<Time>, tripped: Time, failedAt: Time, cooldown: real)
    requires Spaced(l, rest, failedAt, NextCooldown(l, cooldown)) && tripped + cooldown <= started <= failedAt
    ensures Spaced(l, [started] + rest, tripped, cooldown)
  {
    var starts := [started] + rest;
    forall j | 0 <= j < |starts|
      ensures starts[j] >= tripped + Total(l, cooldown, j + 1)
    {
      if j > 0 {
        assert rest[j - 1] >= failedAt + Total(l, NextCooldown(l, cooldown), j - 1 + 1);
      } else {
        assert Total(l, NextCooldown(l, cooldown), 0) == 0.0;
      }
    }
  }

  /** Once tripped, a circuit lets failing calls through only after cooldown upon cooldown. */
  lemma {:induction false} Backoff(l: Limits, row: Row, tripped: Time, seenAt: Time, calls: seq<Call>)
    requires Valid(l) && Tripped(l, row, tripped, seenAt) && Sequential(calls, seenAt)
    ensures Spaced(l, LetThrough(l, row, calls), tripped, row.cooldown)
    decreases |calls|
  {
    if calls != [] {
      var call := calls[0];
      var after := AfterCall(l, row, call);
      LetThroughOnce(l, row, tripped, seenAt, call);
      if Lets(Seen(row, call.started)) {
        Backoff(l, after, call.failedAt, call.viewedAt, calls[1..]);
        SpacedBefore(l, call.started, LetThrough(l, after, calls[1..]), tripped, call.failedAt, row.cooldown);
      } else {
        Backoff(l, after, tripped, call.viewedAt, calls[1..]);
        assert LetThrough(l, row, calls) == LetThrough(l, after, calls[1..]);
      }
    }
  }

  /** A closed circuit lets calls through until the threshold, and opens with the failure that reaches it. */
  lemma {:induction false} Trips(l: Limits, row: Row, from: Time, calls: seq<Call>)
    requires Valid(l) && RowOk(l, row) && row.state == Closed && Sequential(calls, from)
    requires |calls| >= l.threshold - row.failures
    ensures var n := l.threshold - row.failures;
      var starts := LetThrough(l, row, calls);
      && |starts| >= n
      && (forall i :: 0 <= i < n ==> starts[i] == calls[i].started)
      && Spaced(l, starts[n..], calls[n - 1].failedAt, NextCooldown(l, row.cooldown))
    decreases |calls|
  {
    var call := calls[0];
    var after := AfterCall(l, row, call);
    var rest := LetThrough(l, after, calls[1..]);
    var starts, n := LetThrough(l, row, calls), l.threshold - row.failures;
    assert starts == [call.started] + rest;
    if n == 1 {
      Backoff(l, after, call.failedAt, call.viewedAt, calls[1..]);
      assert starts[1..] == rest;
    } else {
      Trips(l, after, call.viewedAt, calls[1..]);
      assert starts[n..] == rest[n - 1..] && calls[1..][n - 2] == calls[n - 1];
      forall i | 0 < i < n
        ensures starts[i] == calls[i].started
      {
        assert rest[i - 1] == calls[1..][i - 1].started;
      }
    }
  }

  // ----- the cooldowns in closed form

  /** x * 2^n. */
  function Doubled(x: real, n: nat): real
    decreases n
  {
    if n == 0 then x else 2.0 * Doubled(x, n - 1)
  }

  function Cooldown(l: Limits, first: real, i: nat): real {
    if i == 0 then first else NextCooldown(l, Cooldown(l, first, i - 1))
  }

  /** The i-th cooldown after the first has doubled i times, up to the limit. */
  lemma {:induction false} CooldownExact(l: Limits, first: real, i: nat)
    requires Valid(l) && l.base <= first <= l.most
    ensures Cooldown(l, first, i) == Least(l.most, Doubled(first, i)) && Doubled(first, i) >= first
  {
    if i > 0 {
      CooldownExact(l, first, i - 1);
    }
  }

  /** The total is the sum of the cooldowns, one after the other. */
  lemma {:induction false} TotalExact(l: Limits, first: real, n: nat)
    requires Valid(l) && l.base <= first <= l.most
    ensures Total(l, first, n + 1) == Total(l, first, n) + Cooldown(l, first, n)
    decreases n
  {
    if n == 0 {
      assert Total(l, first, 1) == first + Total(l, NextCooldown(l, first), 0);
    } else {
      TotalExact(l, NextCooldown(l, first), n - 1);
      CooldownShift(l, first, n - 1);
    }
  }

  lemma {:induction false} CooldownShift(l: Limits, first: real, i: nat)
    ensures Cooldown(l, NextCooldown(l, first), i) == Cooldown(l, first, i + 1)
  {
    if i > 0 {
      CooldownShift(l, first, i - 1);
    }
  }
}
