/** The append-only event log (harness2/kernel/event_bus.py). */
module EventLog {
  import opened Tables
  import opened Wrappers
  import Text

  /** The first event that holds a source's deduplication key. */
  function FindKey(events: seq<Event>, source: string, key: string): (r: Option<nat>)
    ensures r.Some? ==> r.value < |events|
    ensures r.Some? ==> events[r.value].source == source && events[r.value].dedupKey == Some(key)
    ensures r.None? ==> !KeyUsed(events, source, key)
  {
    if events == [] then None
    else
      var n := |events| - 1;
      var earlier := FindKey(events[..n], source, key);
      if earlier.Some? then earlier
      else if events[n].source == source && events[n].dedupKey == Some(key) then Some(n)
      else None
  }

  function FindId(events: seq<Event>, id: string): (r: Option<nat>)
    ensures r.Some? ==> r.value < |events| && events[r.value].id == id
    ensures r.None? ==> !IdUsed(events, id)
  {
    if events == [] then None
    else
      var n := |events| - 1;
      var earlier := FindId(events[..n], id);
      if earlier.Some? then earlier else if events[n].id == id then Some(n) else None
  }

  ghost predicate KeyUsed(events: seq<Event>, source: string, key: string) {
    exists i :: 0 <= i < |events| && events[i].source == source && events[i].dedupKey == Some(key)
  }

  ghost predicate IdUsed(events: seq<Event>, id: string) {
    exists i :: 0 <= i < |events| && events[i].id == id
  }

  /** An event equivalent to a recorded one is answered by it; a different one conflicts. */
  function Existing(events: seq<Event>, i: nat, e: Event): Result<(seq<Event>, Event), Error>
    requires i < |events|
  {
    if events[i] == e then Success((events, events[i])) else Failure(EventConflict)
  }

  function AppendTo(events: seq<Event>, e: Event): Result<(seq<Event>, Event), Error> {
    var byKey := if e.dedupKey.Some? then FindKey(events, e.source, e.dedupKey.value) else None;
    if byKey.Some? then Existing(events, byKey.value, e)
    else
      var byId := FindId(events, e.id);
      if byId.Some? then Existing(events, byId.value, e) else Success((events + [e], e))
  }

  function Append(db: Db, e: Event): Outcome<Event> {
    match AppendTo(db.events, e)
    case Failure(error) => Raised(error)
    case Success((events, recorded)) => Done(db.(events := events), recorded)
  }

  lemma AppendOnly(db: Db, e: Event)
    ensures Commit(db, Append(db, e)) == db.(events := Commit(db, Append(db, e)).events)
  {
    hide AppendTo;
  }

  ghost predicate Clashes(events: seq<Event>, e: Event) {
    IdUsed(events, e.id) || (e.dedupKey.Some? && KeyUsed(events, e.source, e.dedupKey.value))
  }

  /** No event identifier and no deduplication key of one source occurs twice. */
  ghost predicate DistinctEvents(events: seq<Event>) {
    forall i, j :: 0 <= i < j < |events| ==>
      && events[i].id != events[j].id
      && (events[i].dedupKey.Some? ==>
            !(events[i].source == events[j].source && events[i].dedupKey == events[j].dedupKey))
  }

  lemma AppendFresh(events: seq<Event>, e: Event)
    requires !Clashes(events, e)
    ensures AppendTo(events, e) == Success((events + [e], e))
  {
  }

  /** What one append does to a log without repetitions, for every event. */
  lemma AppendKeeps(events: seq<Event>, e: Event)
    requires DistinctEvents(events)
    ensures match AppendTo(events, e)
      case Success((after, recorded)) =>
        && recorded == e && e in after && DistinctEvents(after)
        && after == (if Clashes(events, e) then events else events + [e])
      case Failure(error) => error == EventConflict && Clashes(events, e) && e !in events
  {
    if e in events {
      var i :| 0 <= i < |events| && events[i] == e;
      assert events[i].id == e.id;
    }
  }

  /** Appending an event again changes nothing and answers with the recorded event. */
  lemma AppendTwice(events: seq<Event>, e: Event)
    requires DistinctEvents(events) && AppendTo(events, e).Success?
    ensures AppendTo(AppendTo(events, e).value.0, e) == AppendTo(events, e)
  {
    AppendKeeps(events, e);
    var after := AppendTo(events, e).value.0;
    AppendKeeps(after, e);
    var i :| 0 <= i < |after| && after[i] == e;
    assert after[i].id == e.id;
  }

  // ----- consumers

  function Cursor(db: Db, consumer: string): nat {
    if consumer in db.cursors then db.cursors[consumer] else 0
  }

  predicate Blank(s: string) {
    Text.Strip(s) == ""
  }

  /** An event's sequence number is its position in the log, from 1. */
  function Ack(db: Db, consumer: string, through: int): Outcome<nat> {
    if Blank(consumer) || through < 0 || through > |db.events| then Raised(InvalidAcknowledgement)
    else
      var last := Max(Cursor(db, consumer), through);
      Done(db.(cursors := db.cursors[consumer := last]), last)
  }

  /** An empty text filters nothing. */
  datatype Filter = Filter(eventType: string, taskId: string)

  predicate Matches(e: Event, f: Filter) {
    (f.eventType == "" || e.eventType == f.eventType) && (f.taskId == "" || e.taskId == Some(f.taskId))
  }

  /** The matching sequence numbers above low and up to high, in order. */
  function Selected(events: seq<Event>, low: nat, high: nat, f: Filter): seq<nat>
    requires high <= |events|
  {
    if high <= low then []
    else Selected(events, low, high - 1, f) + if Matches(events[high - 1], f) then [high] else []
  }

  /** `replay`: the sequence numbers of one page. */
  function Page(events: seq<Event>, after: int, limit: int, f: Filter): seq<nat> {
    var all := Selected(events, Max(0, after), |events|, f);
    var most := Max(1, Min(limit, 1000));
    if |all| <= most then all else all[..most]
  }
}
