/**
 The candidate loop of the orchestrator (harness2/orchestrator.py): engines are tried in
 order, each behind its circuit and with a bounded number of retries, until one succeeds.
 */
module Fallback {
  import opened Circuit
  import opened Wrappers

  datatype Answer = Answer(success: bool, errorCode: string)

  const TRANSIENT: set<string> :=
    {"timeout", "process_error", "spawn_error", "daemon_unavailable", "unavailable", "local_error"}

  /** An engine as the loop meets it: its answers to one call after the other, and the clock when its circuit is used. */
  datatype Candidate = Candidate(
    name: string, registered: bool, key: string, answers: nat -> Answer, lookedAt: Time, endedAt: Time, viewedAt: Time)

  type Rows = map<string, Row>

  function At(rows: Rows, key: string): Row {
    if key in rows then rows[key] else ABSENT
  }

  predicate WorthRetrying(a: Answer) {
    !a.success && a.errorCode in TRANSIENT
  }

  /** The number of calls made, after some have been: it ends with the first answer that is not worth retrying, or with the last retry. */
  function Calls(answers: nat -> Answer, made: nat, retries: nat): (n: nat)
    requires 0 < made <= retries + 1
    ensures made <= n <= retries + 1
    ensures forall i :: made - 1 <= i < n - 1 ==> WorthRetrying(answers(i))
    ensures n <= retries ==> !WorthRetrying(answers(n - 1))
    decreases retries + 1 - made
  {
    if WorthRetrying(answers(made - 1)) && made <= retries then Calls(answers, made + 1, retries) else made
  }

  /** Another call is made exactly after a transient failure, while retries are left. */
  lemma {:induction false} CallsExact(answers: nat -> Answer, made: nat, retries: nat)
    requires 0 < made <= retries + 1
    ensures var n := Calls(answers, made, retries);
      && made <= n <= retries + 1
      && (forall i :: made - 1 <= i < n - 1 ==> IsTransient(answers(i)))
      && (n <= retries ==> !IsTransient(answers(n - 1)))
    decreases retries + 1 - made
  {
    if WorthRetrying(answers(made - 1)) && made <= retries {
      CallsExact(answers, made + 1, retries);
    }
  }

  predicate IsTransient(a: Answer) {
    && !a.success
    && (a.errorCode == "timeout" || a.errorCode == "process_error" || a.errorCode == "spawn_error"
        || a.errorCode == "daemon_unavailable" || a.errorCode == "unavailable" || a.errorCode == "local_error")
  }

  datatype Tried = Tried(index: nat, calls: nat, success: bool)

  function Result(c: Candidate, retries: nat): Answer {
    c.answers(Calls(c.answers, 1, retries) - 1)
  }

  /** Whether the loop calls the candidate's engine at all. */
  predicate IsCalled(rows: Rows, c: Candidate) {
    c.registered && Lets(Seen(At(rows, c.key), c.lookedAt))
  }

  /** The circuits after one candidate. */
  function RowsAfter(l: Limits, rows: Rows, c: Candidate, retries: nat): Rows {
    if !c.registered then rows
    else
      var seen := rows[c.key := Seen(At(rows, c.key), c.lookedAt)];
      if !Lets(seen[c.key]) then seen
      else if Result(c, retries).success then seen[c.key := Succeeded(l)]
      else seen[c.key := Seen(Failed(l, seen[c.key], c.endedAt), c.viewedAt)]
  }

  /** All that is tried from a candidate on, and the circuits at the end. */
  function Play(l: Limits, rows: Rows, candidates: seq<Candidate>, retries: nat, from: nat): (seq<Tried>, Rows)
    requires from <= |candidates|
    decreases |candidates| - from
  {
    if from == |candidates| then ([], rows)
    else
      var c := candidates[from];
      var after := RowsAfter(l, rows, c, retries);
      if !IsCalled(rows, c) then Play(l, after, candidates, retries, from + 1)
      else
        var tried := Tried(from, Calls(c.answers, 1, retries), Result(c, retries).success);
        if tried.success then ([tried], after)
        else
          var rest := Play(l, after, candidates, retries, from + 1);
          ([tried] + rest.0, rest.1)
  }

  /** The circuits as they are when the loop comes to a candidate. */
  function RowsBefore(l: Limits, rows: Rows, candidates: seq<Candidate>, retries: nat, from: nat, i: nat): Rows
    requires from <= i <= |candidates|
    decreases i - from
  {
    if i == from then rows else RowsBefore(l, RowsAfter(l, rows, candidates[from], retries), candidates, retries, from + 1, i)
  }

  ghost predicate IsTried(tried: seq<Tried>, i: nat) {
    exists k :: 0 <= k < |tried| && tried[k].index == i
  }

  /** Only the last engine tried can have succeeded. */
  ghost predicate StopsAtSuccess(tried: seq<Tried>) {
    forall k :: 0 <= k < |tried| - 1 ==> !tried[k].success
  }

  ghost predicate Succeeds(tried: seq<Tried>) {
    tried != [] && tried[|tried| - 1].success
  }

  /** In order, at most once each, within the retries, and nothing after a success. */
  ghost predicate Ordered(tried: seq<Tried>, from: nat, end: nat, retries: nat) {
    && (forall k :: 0 <= k < |tried| ==> from <= tried[k].index < end && 1 <= tried[k].calls <= retries + 1)
    && (forall j, k :: 0 <= j < k < |tried| ==> tried[j].index < tried[k].index)
    && StopsAtSuccess(tried)
  }

  /** Up to a success, tried are exactly the candidates whose circuits let them through when their turn comes. */
  ghost predicate Complete(l: Limits, rows: Rows, candidates: seq<Candidate>, retries: nat, from: nat, tried: seq<Tried>)
    requires from <= |candidates|
  {
    forall i :: from <= i < |candidates| && (!Succeeds(tried) || i <= tried[|tried| - 1].index) ==>
      (IsTried(tried, i) <==> IsCalled(RowsBefore(l, rows, candidates, retries, from, i), candidates[i]))
  }

  /**
   Candidates are tried in order and at most once, only through a circuit that lets them,
   with at most one call more than there are retries; the loop stops at the first success,
   and short of one it passes over no candidate whose circuit would have let it through.
   */
  lemma {:induction false} FallbackExact(l: Limits, rows: Rows, candidates: seq<Candidate>, retries: nat, from: nat)
    requires from <= |candidates|
    ensures var tried := Play(l, rows, candidates, retries, from).0;
      Ordered(tried, from, |candidates|, retries) && Complete(l, rows, candidates, retries, from, tried)
    decreases |candidates| - from
  {
    hide RowsAfter, IsCalled, Calls, Result, Complete, Ordered;
    if from < |candidates| {
      var c := candidates[from];
      var rest := Play(l, RowsAfter(l, rows, c, retries), candidates, retries, from + 1).0;
      FallbackExact(l, RowsAfter(l, rows, c, retries), candidates, retries, from + 1);
      if !IsCalled(rows, c) {
        SkippedComplete(l, rows, candidates, retries, from, rest);
        OrderedLater(rest, from, |candidates|, retries);
      } else {
        var first := Tried(from, Calls(c.answers, 1, retries), Result(c, retries).success);
        if first.success {
          LastComplete(l, rows, candidates, retries, from, first);
          OrderedFirst(first, [], from, |candidates|, retries);
          assert [first] + [] == [first];
        } else {
          TriedComplete(l, rows, candidates, retries, from, first, rest);
          OrderedFirst(first, rest, from, |candidates|, retries);
        }
      }
    } else {
      NoneLeft(l, rows, candidates, retries);
    }
  }

  lemma OrderedFirst(first: Tried, rest: seq<Tried>, from: nat, end: nat, retries: nat)
    requires first.index == from < end && 1 <= first.calls <= retries + 1 && (first.success ==> rest == [])
    requires rest == [] || Ordered(rest, from + 1, end, retries)
    ensures Ordered([first] + rest, from, end, retries)
  {
  }

  lemma OrderedLater(tried: seq<Tried>, from: nat, end: nat, retries: nat)
    requires Ordered(tried, from + 1, end, retries)
    ensures Ordered(tried, from, end, retries)
  {
  }

  lemma NoneLeft(l: Limits, rows: Rows, candidates: seq<Candidate>, retries: nat)
    ensures Complete(l, rows, candidates, retries, |candidates|, []) && Ordered([], |candidates|, |candidates|, retries)
  {
  }

  lemma SkippedComplete(l: Limits, rows: Rows, candidates: seq<Candidate>, retries: nat, from: nat, rest: seq<Tried>)
    requires from < |candidates| && !IsCalled(rows, candidates[from]) && Ordered(rest, from + 1, |candidates|, retries)
    requires Complete(l, RowsAfter(l, rows, candidates[from], retries), candidates, retries, from + 1, rest)
    ensures Complete(l, rows, candidates, retries, from, rest)
  {
    hide RowsAfter, IsCalled;
  }

  lemma LastComplete(l: Limits, rows: Rows, candidates: seq<Candidate>, retries: nat, from: nat, first: Tried)
    requires from < |candidates| && IsCalled(rows, candidates[from]) && first.index == from && first.success
    ensures Complete(l, rows, candidates, retries, from, [first])
  {
    hide RowsAfter, IsCalled;
    assert [first][0].index == from;
  }

  lemma TriedComplete(l: Limits, rows: Rows, candidates: seq<Candidate>, retries: nat, from: nat, first: Tried, rest: seq<Tried>)
    requires from < |candidates| && IsCalled(rows, candidates[from]) && first.index == from && !first.success
    requires Ordered(rest, from + 1, |candidates|, retries)
    requires Complete(l, RowsAfter(l, rows, candidates[from], retries), candidates, retries, from + 1, rest)
    ensures Complete(l, rows, candidates, retries, from, [first] + rest)
  {
    hide RowsAfter, IsCalled;
    FirstTried(first, rest, from);
  }

  lemma FirstTried(first: Tried, rest: seq<Tried>, from: nat)
    requires first.index == from && forall k :: 0 <= k < |rest| ==> rest[k].index > from
    ensures forall i :: IsTried([first] + rest, i) <==> i == from || IsTried(rest, i)
    ensures !IsTried(rest, from)
  {
    var tried := [first] + rest;
    assert tried[0].index == from;
    forall i | IsTried(rest, i)
      ensures IsTried(tried, i)
    {
      var k :| 0 <= k < |rest| && rest[k].index == i;
      assert tried[k + 1].index == i;
    }
  }

  // ----- the circuits

  /** What one candidate's turn does to the circuits: only its own changes, by what came of it. */
  lemma TurnExact(l: Limits, rows: Rows, c: Candidate, retries: nat)
    ensures var after, looked := RowsAfter(l, rows, c, retries), Seen(At(rows, c.key), c.lookedAt);
      && (forall key :: key != c.key ==> At(after, key) == At(rows, key))
      && At(after, c.key) ==
           if !c.registered then At(rows, c.key)
           else if looked.state == Open then looked
           else if c.answers(Calls(c.answers, 1, retries) - 1).success then Row(Closed, 0, None, l.base)
           else Seen(Failed(l, looked, c.endedAt), c.viewedAt)
  {
  }

  /** A failed engine's circuit counts one more failure, and every other candidate's as many as before. */
  lemma FailuresCounted(l: Limits, rows: Rows, c: Candidate, retries: nat)
    ensures At(RowsAfter(l, rows, c, retries), c.key).failures ==
      if !IsCalled(rows, c) then At(rows, c.key).failures
      else if Result(c, retries).success then 0 else At(rows, c.key).failures + 1
  {
    TurnExact(l, rows, c, retries);
  }

  /** The turns that are taken: up to a success, and otherwise all. */
  function TurnsTaken(tried: seq<Tried>, end: nat): nat {
    if tried != [] && tried[|tried| - 1].success then tried[|tried| - 1].index + 1 else end
  }

  /** In the end the circuits are as the turns that were taken left them. */
  lemma {:induction false} CircuitsExact(l: Limits, rows: Rows, candidates: seq<Candidate>, retries: nat, from: nat)
    requires from <= |candidates|
    ensures var (tried, after) := Play(l, rows, candidates, retries, from);
      var end := TurnsTaken(tried, |candidates|);
      from <= end <= |candidates| && after == RowsBefore(l, rows, candidates, retries, from, end)
    decreases |candidates| - from
  {
    hide RowsAfter, IsCalled, Calls, Result;
    if from < |candidates| {
      CircuitsExact(l, RowsAfter(l, rows, candidates[from], retries), candidates, retries, from + 1);
    }
  }

  // ----- the decision and the result that are recorded

  /** The engine of the decision, and the engine and verdict of the result. */
  datatype Route = Route(chosen: string, last: string, success: bool, errorCode: string)

  function Unrouted(decision: string): Route {
    Route(decision, decision, false, "unavailable")
  }

  /** One candidate: a call sets both, an open circuit the result only. */
  function RouteAfter(rows: Rows, c: Candidate, retries: nat, route: Route): Route {
    if !c.registered then route
    else if !IsCalled(rows, c) then route.(last := c.name, success := false, errorCode := "circuit_open")
    else Route(c.name, c.name, Result(c, retries).success, Result(c, retries).errorCode)
  }

  function Routed(l: Limits, rows: Rows, candidates: seq<Candidate>, retries: nat, from: nat, route: Route): Route
    requires from <= |candidates|
    decreases |candidates| - from
  {
    if from == |candidates| then route
    else
      var c := candidates[from];
      var next := RouteAfter(rows, c, retries, route);
      if IsCalled(rows, c) && next.success then next
      else Routed(l, RowsAfter(l, rows, c, retries), candidates, retries, from + 1, next)
  }

  predicate IsLastRegistered(candidates: seq<Candidate>, from: nat, m: nat) {
    from <= m < |candidates| && candidates[m].registered && forall i :: m < i < |candidates| ==> !candidates[i].registered
  }

  predicate Within(tried: seq<Tried>, from: nat, end: nat) {
    forall k :: 0 <= k < |tried| ==> from <= tried[k].index < end
  }

  /** The decision is that of the last engine tried; the result that of the last one the loop came to, tried or not. */
  ghost predicate RouteMatches(candidates: seq<Candidate>, from: nat, tried: seq<Tried>, before: Route, route: Route)
    requires Within(tried, from, |candidates|)
  {
    && route.chosen == (if tried == [] then before.chosen else candidates[tried[|tried| - 1].index].name)
    && (if Succeeds(tried) then route.success && route.last == route.chosen
        else
          && (forall m: nat :: IsLastRegistered(candidates, from, m) ==>
                !route.success && route.last == candidates[m].name && (IsTried(tried, m) || route.errorCode == "circuit_open"))
          && ((forall i :: from <= i < |candidates| ==> !candidates[i].registered) ==> route == before))
  }

  lemma {:induction false} RouteExact(l: Limits, rows: Rows, candidates: seq<Candidate>, retries: nat, from: nat, route: Route)
    requires from <= |candidates|
    ensures var tried := Play(l, rows, candidates, retries, from).0;
      && Within(tried, from, |candidates|)
      && RouteMatches(candidates, from, tried, route, Routed(l, rows, candidates, retries, from, route))
    decreases |candidates| - from
  {
    hide RowsAfter, Seen, Lets, Calls, Result, RouteMatches, Within;
    if from < |candidates| {
      var c := candidates[from];
      var after, next := RowsAfter(l, rows, c, retries), RouteAfter(rows, c, retries, route);
      RouteExact(l, after, candidates, retries, from + 1, next);
      var rest, end := Play(l, after, candidates, retries, from + 1).0, Routed(l, after, candidates, retries, from + 1, next);
      if !IsCalled(rows, c) {
        RoutePassed(candidates, from, rest, route, end);
      } else {
        var first := Tried(from, Calls(c.answers, 1, retries), Result(c, retries).success);
        if first.success {
          RouteSettled(candidates, from, first, route, next);
        } else {
          RouteFailed(candidates, from, first, rest, route, next, end);
        }
      }
    } else {
      RouteEnds(candidates, route);
    }
  }

  lemma RouteEnds(candidates: seq<Candidate>, route: Route)
    ensures Within([], |candidates|, |candidates|) && RouteMatches(candidates, |candidates|, [], route, route)
  {
  }

  /** Past a candidate that is not called. */
  lemma RoutePassed(candidates: seq<Candidate>, from: nat, rest: seq<Tried>, route: Route, end: Route)
    requires from < |candidates| && Within(rest, from + 1, |candidates|)
    requires var c := candidates[from];
      RouteMatches(candidates, from + 1, rest,
        if c.registered then route.(last := c.name, success := false, errorCode := "circuit_open") else route, end)
    ensures Within(rest, from, |candidates|) && RouteMatches(candidates, from, rest, route, end)
  {
    forall m: nat | !Succeeds(rest) && IsLastRegistered(candidates, from, m)
      ensures !end.success && end.last == candidates[m].name && (IsTried(rest, m) || end.errorCode == "circuit_open")
    {
      assert m == from || IsLastRegistered(candidates, from + 1, m);
    }
  }

  lemma RouteSettled(candidates: seq<Candidate>, from: nat, first: Tried, route: Route, end: Route)
    requires from < |candidates| && first.index == from && first.success
    requires end.success && end.chosen == end.last == candidates[from].name
    ensures Within([first], from, |candidates|) && RouteMatches(candidates, from, [first], route, end)
  {
  }

  /** Past a candidate whose call failed. */
  lemma RouteFailed(candidates: seq<Candidate>, from: nat, first: Tried, rest: seq<Tried>, route: Route, next: Route, end: Route)
    requires from < |candidates| && first.index == from && !first.success && candidates[from].registered
    requires Within(rest, from + 1, |candidates|) && RouteMatches(candidates, from + 1, rest, next, end)
    requires !next.success && next.chosen == next.last == candidates[from].name
    ensures Within([first] + rest, from, |candidates|) && RouteMatches(candidates, from, [first] + rest, route, end)
  {
    var tried := [first] + rest;
    FirstTried(first, rest, from);
    assert Succeeds(tried) == Succeeds(rest);
    forall m: nat | !Succeeds(rest) && IsLastRegistered(candidates, from, m)
      ensures !end.success && end.last == candidates[m].name && (IsTried(tried, m) || end.errorCode == "circuit_open")
    {
      assert m == from || IsLastRegistered(candidates, from + 1, m);
    }
  }

  /**
   The recorded result and decision name the same engine exactly when the loop succeeded or
   the last registered candidate has the name of the decision: a candidate that is passed
   over behind its circuit after the last call changes the result and not the decision.
   */
  lemma SameEngine(l: Limits, rows: Rows, candidates: seq<Candidate>, retries: nat, decision: string)
    ensures var tried := Play(l, rows, candidates, retries, 0).0;
      var route := Routed(l, rows, candidates, retries, 0, Unrouted(decision));
      && (route.success <==> Succeeds(tried))
      && (route.chosen == route.last <==>
            Succeeds(tried) || forall m: nat :: IsLastRegistered(candidates, 0, m) ==> candidates[m].name == route.chosen)
  {
    hide Play, Routed;
    RouteExact(l, rows, candidates, retries, 0, Unrouted(decision));
    LastRegistered(candidates);
  }

  /** One engine fails and the circuit of the next is open: the decision names the one, the result the other. */
  lemma MixedRoute(l: Limits, rows: Rows, a: Candidate, b: Candidate, retries: nat, decision: string)
    requires IsCalled(rows, a) && !Result(a, retries).success && b.registered && !IsCalled(RowsAfter(l, rows, a, retries), b)
    ensures Routed(l, rows, [a, b], retries, 0, Unrouted(decision)) == Route(a.name, b.name, false, "circuit_open")
  {
    hide RowsAfter, Seen, Lets, Calls, Result;
    assert RouteAfter(rows, a, retries, Unrouted(decision)).chosen == a.name;
    assert Routed(l, RowsAfter(l, rows, a, retries), [a, b], retries, 1, RouteAfter(rows, a, retries, Unrouted(decision)))
        == Route(a.name, b.name, false, "circuit_open");
  }

  lemma {:induction false} LastRegistered(candidates: seq<Candidate>)
    ensures (exists m: nat :: IsLastRegistered(candidates, 0, m)) || forall i :: 0 <= i < |candidates| ==> !candidates[i].registered
    decreases |candidates|
  {
    if candidates != [] {
      var n := |candidates| - 1;
      if candidates[n].registered {
        assert IsLastRegistered(candidates, 0, n);
      } else {
        LastRegistered(candidates[..n]);
        if m: nat :| IsLastRegistered(candidates[..n], 0, m) {
          assert IsLastRegistered(candidates, 0, m);
        }
      }
    }
  }

  // ----- the loop as it runs

  /** The breaker's rows are these, row by row. */
  ghost predicate Holds(breaker: CircuitBreaker, rows: Rows)
    reads breaker
  {
    forall key :: breaker.Load(key) == At(rows, key)
  }

  /** The candidates that were tried, each after its retries, and what is recorded; an engine's answers are read one by one. */
  method RunCandidates(breaker: CircuitBreaker, candidates: seq<Candidate>, requested: int, decision: string)
    returns (tried: seq<Tried>, route: Route)
    modifies breaker
    ensures route == Routed(breaker.limits, old(breaker.rows), candidates, AtLeastZero(requested), 0, Unrouted(decision))
    ensures tried == Play(breaker.limits, old(breaker.rows), candidates, AtLeastZero(requested), 0).0
    ensures Holds(breaker, Play(breaker.limits, old(breaker.rows), candidates, AtLeastZero(requested), 0).1)
  {
    hide Calls, Seen, Failed, Succeeded;
    var retries := AtLeastZero(requested);
    tried, route := [], Unrouted(decision);
    ghost var rows := breaker.rows;
    ghost var all := Play(breaker.limits, rows, candidates, retries, 0);
    ghost var end := Routed(breaker.limits, rows, candidates, retries, 0, route);
    assert [] + all.0 == all.0;
    for i := 0 to |candidates|
      invariant Holds(breaker, rows)
      invariant all.0 == tried + Play(breaker.limits, rows, candidates, retries, i).0
      invariant all.1 == Play(breaker.limits, rows, candidates, retries, i).1
      invariant end == Routed(breaker.limits, rows, candidates, retries, i, route)
    {
      ghost var rest := Play(breaker.limits, RowsAfter(breaker.limits, rows, candidates[i], retries), candidates, retries, i + 1).0;
      var c := candidates[i];
      ghost var before := rows;
      rows := RowsAfter(breaker.limits, rows, c, retries);
      if !c.registered {
        continue;
      }
      var view := breaker.Before(c.key, c.lookedAt);
      if !view.allowed {
        route := route.(last := c.name, success := false, errorCode := "circuit_open");
        continue;
      }
      var calls, result := CallEngine(c.answers, retries);
      LeftAssociated(tried, [Tried(i, calls, result.success)], rest);
      tried := tried + [Tried(i, calls, result.success)];
      route := Route(c.name, c.name, result.success, result.errorCode);
      if result.success {
        breaker.Success(c.key);
        return;
      }
      var _ := breaker.Failure(c.key, c.endedAt, c.viewedAt);
    }
  }

  function AtLeastZero(n: int): nat {
    if n < 0 then 0 else n
  }

  lemma LeftAssociated(a: seq<Tried>, b: seq<Tried>, c: seq<Tried>)
    ensures a + (b + c) == (a + b) + c
  {
  }

  method CallEngine(answers: nat -> Answer, retries: nat) returns (calls: nat, result: Answer)
    ensures calls == Calls(answers, 1, retries) && result == answers(calls - 1)
  {
    result := answers(0);
    var attempt := 0;
    while WorthRetrying(result) && attempt < retries
      invariant attempt <= retries && result == answers(attempt)
      invariant Calls(answers, 1, retries) == Calls(answers, attempt + 1, retries)
    {
      attempt := attempt + 1;
      result := answers(attempt);
    }
    calls := attempt + 1;
  }
}
