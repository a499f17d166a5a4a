/**
 Reading the event log in pages: the pages of a consumer that continues after the last event
 it has seen make up the filtered log, without gap or repetition, however the log grows
 between pages; and a consumer that crashes before it acknowledges sees every event again.
 */
module Replay {
  import opened EventLog
  import opened Tables

  // ----- what one page holds

  ghost predicate Ascending(s: seq<nat>) {
    forall i, j :: 0 <= i < j < |s| ==> s[i] < s[j]
  }

  ghost predicate Within(s: seq<nat>, low: nat, high: nat) {
    forall i :: 0 <= i < |s| ==> low < s[i] <= high
  }

  /** The selected numbers are the matching ones of the range, in ascending order. */
  lemma {:induction false} SelectedRange(events: seq<Event>, low: nat, high: nat, f: Filter)
    requires high <= |events|
    ensures var s := Selected(events, low, high, f); Ascending(s) && Within(s, low, high)
    ensures forall n :: low < n <= high ==> (Matches(events[n - 1], f) <==> n in Selected(events, low, high, f))
    decreases high
  {
    if high > low {
      SelectedRange(events, low, high - 1, f);
      var before := Selected(events, low, high - 1, f);
      assert high !in before;
    }
  }

  lemma {:induction false} SelectedSplit(events: seq<Event>, low: nat, mid: nat, high: nat, f: Filter)
    requires low <= mid <= high <= |events|
    ensures Selected(events, low, high, f) == Selected(events, low, mid, f) + Selected(events, mid, high, f)
    decreases high
  {
    if high > mid {
      SelectedSplit(events, low, mid, high - 1, f);
    }
  }

  lemma {:induction false} SelectedGrows(events: seq<Event>, longer: seq<Event>, low: nat, high: nat, f: Filter)
    requires events <= longer && high <= |events|
    ensures Selected(events, low, high, f) == Selected(longer, low, high, f)
    decreases high
  {
    if high > low {
      SelectedGrows(events, longer, low, high - 1, f);
      assert longer[high - 1] == events[high - 1];
    }
  }

  /** The first k selected numbers are those up to the k-th. */
  lemma SelectedTake(events: seq<Event>, low: nat, f: Filter, k: nat)
    requires 0 < k <= |Selected(events, low, |events|, f)|
    ensures var all := Selected(events, low, |events|, f);
      low < all[k - 1] <= |events| && Selected(events, low, all[k - 1], f) == all[..k]
  {
    var all := Selected(events, low, |events|, f);
    SelectedRange(events, low, |events|, f);
    var last := all[k - 1];
    SelectedSplit(events, low, last, |events|, f);
    SelectedRange(events, low, last, f);
    SelectedRange(events, last, |events|, f);
    Prefix(all, Selected(events, low, last, f), Selected(events, last, |events|, f), low, |events|, k);
  }

  /** A sequence split at the value of its k-th element is split after k elements. */
  lemma Prefix(all: seq<nat>, s: seq<nat>, rest: seq<nat>, low: nat, high: nat, k: nat)
    requires all == s + rest && 0 < k <= |all| && Ascending(all)
    requires Within(s, low, all[k - 1]) && Within(rest, all[k - 1], high)
    ensures s == all[..k]
  {
    forall i | 0 <= i < |all|
      ensures i < |s| <==> all[i] <= all[k - 1]
    {
      assert all[i] == if i < |s| then s[i] else rest[i - |s|];
    }
    assert all[k - 1] <= all[k - 1];
    assert k < |all| ==> all[k - 1] < all[k];
  }

  /** Where a reader stands after a page. */
  function Next(page: seq<nat>, after: nat): nat {
    if page == [] then after else page[|page| - 1]
  }

  /** An event that the reader asks for: of the type and of the task that it names, if it names one. */
  predicate IsAsked(e: Event, f: Filter) {
    (f.eventType != "" ==> e.eventType == f.eventType) && (f.taskId != "" ==> e.taskId.Some? && e.taskId.value == f.taskId)
  }

  /** The page holds, in order, the number of every event asked for up to high. */
  ghost predicate Holds(page: seq<nat>, events: seq<Event>, after: nat, high: nat, f: Filter)
    requires high <= |events|
  {
    Ascending(page) && Within(page, after, high) && forall n :: after < n <= high ==> (n in page <==> IsAsked(events[n - 1], f))
  }

  /** Selected once more, by the fields of the events. */
  lemma SelectedHolds(events: seq<Event>, after: nat, high: nat, f: Filter)
    requires high <= |events|
    ensures Holds(Selected(events, after, high, f), events, after, high, f)
  {
    SelectedRange(events, after, high, f);
    hide Selected;
  }

  /**
   A page holds exactly the events asked for between where its reader stood and stands; a page
   that is not full, so also an empty one, ends the log.
   */
  lemma PageExact(events: seq<Event>, after: nat, limit: int, f: Filter)
    ensures var page := Page(events, after, limit, f);
      && (page != [] ==> after < Next(page, after) <= |events| && page == Selected(events, after, Next(page, after), f))
      && (page == [] ==> Selected(events, after, |events|, f) == [])
      && |page| <= Max(1, Min(limit, 1000))
      && (|page| < Max(1, Min(limit, 1000)) ==> page == Selected(events, after, |events|, f))
    ensures var page := Page(events, after, limit, f);
      && (page != [] ==> Holds(page, events, after, Next(page, after), f))
      && (|page| < Max(1, Min(limit, 1000)) ==> Holds(page, events, after, |events|, f))
  {
    hide Holds;
    var all := Selected(events, after, |events|, f);
    var most := Max(1, Min(limit, 1000));
    if all != [] {
      SelectedTake(events, after, f, if |all| <= most then |all| else most);
      SelectedHolds(events, after, Next(Page(events, after, limit, f), after), f);
    }
    SelectedHolds(events, after, |events|, f);
  }

  // ----- reading on and on

  /** One reading: the log as it was then, the page limit, and whether the reader crashed before moving on. */
  datatype Reading = Reading(log: seq<Event>, limit: int, crashed: bool)

  /** Every reading sees at least what the readings before it saw, and all of them are within one log. */
  ghost predicate Growing(readings: seq<Reading>, seen: seq<Event>, log: seq<Event>) {
    if readings == [] then seen <= log
    else seen <= readings[0].log && Growing(readings[1..], readings[0].log, log)
  }

  /** All that the reader was given, and where it stands in the end. */
  function ReadAll(readings: seq<Reading>, after: nat, f: Filter): (seq<nat>, nat) {
    if readings == [] then ([], after)
    else
      var page := Page(readings[0].log, after, readings[0].limit, f);
      var rest := ReadAll(readings[1..], if readings[0].crashed then after else Next(page, after), f);
      (page + rest.0, rest.1)
  }

  lemma {:induction false} GrowingWithin(readings: seq<Reading>, seen: seq<Event>, log: seq<Event>)
    requires Growing(readings, seen, log)
    ensures seen <= log
  {
    if readings != [] {
      GrowingWithin(readings[1..], readings[0].log, log);
    }
  }

  lemma PageInLog(readings: seq<Reading>, seen: seq<Event>, log: seq<Event>, after: nat, f: Filter)
    requires readings != [] && Growing(readings, seen, log) && after <= |log|
    ensures var page := Page(readings[0].log, after, readings[0].limit, f);
      after <= Next(page, after) <= |log| && page == Selected(log, after, Next(page, after), f)
  {
    var page := Page(readings[0].log, after, readings[0].limit, f);
    GrowingWithin(readings[1..], readings[0].log, log);
    PageExact(readings[0].log, after, readings[0].limit, f);
    if page != [] {
      SelectedGrows(readings[0].log, log, after, Next(page, after), f);
    }
  }

  /** Without crashes, the pages together are the filtered log up to where the reader stands. */
  lemma {:induction false} PagesExact(readings: seq<Reading>, seen: seq<Event>, log: seq<Event>, after: nat, f: Filter)
    requires Growing(readings, seen, log) && after <= |log| && forall r :: r in readings ==> !r.crashed
    ensures var (given, stands) := ReadAll(readings, after, f);
      after <= stands <= |log| && given == Selected(log, after, stands, f)
    decreases |readings|
  {
    if readings != [] {
      PageInLog(readings, seen, log, after, f);
      var next := Next(Page(readings[0].log, after, readings[0].limit, f), after);
      PagesExact(readings[1..], readings[0].log, log, next, f);
      SelectedSplit(log, after, next, ReadAll(readings, after, f).1, f);
    } else {
      GrowingWithin(readings, seen, log);
    }
  }

  /** With crashes, everything up to where the reader stands was given to it at least once. */
  lemma {:induction false} AtLeastOnce(readings: seq<Reading>, seen: seq<Event>, log: seq<Event>, after: nat, f: Filter)
    requires Growing(readings, seen, log) && after <= |log|
    ensures var (given, stands) := ReadAll(readings, after, f);
      && after <= stands <= |log|
      && forall n :: after < n <= stands && Matches(log[n - 1], f) ==> n in given
    decreases |readings|
  {
    if readings != [] {
      PageInLog(readings, seen, log, after, f);
      var page := Page(readings[0].log, after, readings[0].limit, f);
      var next := if readings[0].crashed then after else Next(page, after);
      SelectedRange(log, after, Next(page, after), f);
      AtLeastOnce(readings[1..], readings[0].log, log, next, f);
    } else {
      GrowingWithin(readings, seen, log);
    }
  }

  /** On a log that no longer grows, more pages than events reach the end, whatever their limits are. */
  lemma {:induction false} PagesEnd(log: seq<Event>, readings: seq<Reading>, after: nat, f: Filter)
    requires after <= |log| && |readings| > |log| - after
    requires forall r :: r in readings ==> r.log == log && !r.crashed
    ensures ReadAll(readings, after, f).0 == Selected(log, after, |log|, f)
    decreases |readings|
  {
    var page := Page(readings[0].log, after, readings[0].limit, f);
    assert readings[0] in readings;
    PageExact(log, after, readings[0].limit, f);
    if page != [] {
      PagesEnd(log, readings[1..], Next(page, after), f);
      SelectedSplit(log, after, Next(page, after), |log|, f);
    } else if |readings| > 1 && |readings[1..]| > |log| - after {
      PagesEnd(log, readings[1..], after, f);
    } else {
      NothingLeft(log, readings[1..], after, f);
    }
  }

  lemma {:induction false} NothingLeft(log: seq<Event>, readings: seq<Reading>, after: nat, f: Filter)
    requires after <= |log| && Selected(log, after, |log|, f) == []
    requires forall r :: r in readings ==> r.log == log && !r.crashed
    ensures ReadAll(readings, after, f) == ([], after)
    decreases |readings|
  {
    if readings != [] {
      assert readings[0] in readings;
      EmptyPage(log, readings[0].limit, after, f);
      NothingLeft(log, readings[1..], after, f);
      var page := Page(readings[0].log, after, readings[0].limit, f);
      assert page == [] && page + [] == [];
    }
  }

  lemma EmptyPage(log: seq<Event>, limit: int, after: nat, f: Filter)
    requires Selected(log, after, |log|, f) == []
    ensures Page(log, after, limit, f) == []
  {
  }

  // ----- cursors

  ghost predicate CursorInv(db: Db) {
    forall c :: c in db.cursors ==> db.cursors[c] <= |db.events|
  }

  /** An acknowledgement is accepted exactly up to the high-water mark, moves one cursor, and never moves it back. */
  lemma AckExact(db: Db, consumer: string, through: int)
    requires CursorInv(db)
    ensures var o := Ack(db, consumer, through);
      && (o.Done? <==> !Blank(consumer) && 0 <= through <= |db.events|)
      && (o.Done? ==>
            && CursorInv(o.db) && o.db == db.(cursors := o.db.cursors)
            && o.value == Cursor(o.db, consumer) <= |db.events|
            && through <= o.value && Cursor(db, consumer) <= o.value
            && (o.value == through || o.value == Cursor(db, consumer))
            && forall c :: c != consumer ==> Cursor(o.db, c) == Cursor(db, c))
  {
  }
}
