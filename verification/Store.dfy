/**
 The database as the repositories hold it: tables that are changed in place, and
 transactions that are undone as a whole when they fail (harness2/store.py).
 */
module Database {
  import opened Tables
  import opened Wrappers
  import EventLog
  import Text

  class Store {
    var tasks: map<string, Task>
    var attempts: map<string, Attempt>
    var transitions: seq<TransitionRow>
    var events: seq<Event>
    var cursors: map<string, nat>
    var references: map<string, Reference>
    var inputs: map<string, string>
    var checkpoints: seq<Checkpoint>
    var jobs: map<string, Job>
    var mappings: map<string, Mapping>
    var objects: map<string, StoredObject>

    constructor ()
      ensures Snapshot() == EMPTY
    {
      tasks, attempts, transitions, events := map[], map[], [], [];
      cursors, references, inputs, checkpoints := map[], map[], map[], [];
      jobs, mappings, objects := map[], map[], map[];
    }

    function Snapshot(): Db
      reads this
    {
      Db(tasks, attempts, transitions, events, cursors, references, inputs, checkpoints, jobs, mappings, objects)
    }

    /** Back to the state at the start of a failed transaction. */
    method Restore(saved: Db)
      modifies this
      ensures Snapshot() == saved
    {
      tasks, attempts, transitions, events := saved.tasks, saved.attempts, saved.transitions, saved.events;
      cursors, references, inputs, checkpoints := saved.cursors, saved.references, saved.inputs, saved.checkpoints;
      jobs, mappings, objects := saved.jobs, saved.mappings, saved.objects;
    }
  }

  class EventBus {
    const store: Store

    constructor (store: Store)
      ensures this.store == store
    {
      this.store := store;
    }

    method Append(e: Event) returns (r: Result<Event, Error>)
      modifies store
      ensures store.Snapshot() == Commit(old(store.Snapshot()), EventLog.Append(old(store.Snapshot()), e))
      ensures r == Answer(EventLog.Append(old(store.Snapshot()), e))
    {
      if e.dedupKey.Some? {
        var byKey := EventLog.FindKey(store.events, e.source, e.dedupKey.value);
        if byKey.Some? {
          return if store.events[byKey.value] == e then Success(e) else Failure(EventConflict);
        }
      }
      var byId := EventLog.FindId(store.events, e.id);
      if byId.Some? {
        return if store.events[byId.value] == e then Success(e) else Failure(EventConflict);
      }
      store.events := store.events + [e];
      return Success(e);
    }

    method Ack(consumer: string, through: int) returns (r: Result<nat, Error>)
      modifies store
      ensures store.Snapshot() == Commit(old(store.Snapshot()), EventLog.Ack(old(store.Snapshot()), consumer, through))
      ensures r == Answer(EventLog.Ack(old(store.Snapshot()), consumer, through))
    {
      if Text.Strip(consumer) == "" || through < 0 {
        return Failure(InvalidAcknowledgement);
      }
      if through > |store.events| {
        return Failure(InvalidAcknowledgement);
      }
      var last := if consumer in store.cursors then store.cursors[consumer] else 0;
      store.cursors := store.cursors[consumer := Max(last, through)];
      return Success(store.cursors[consumer]);
    }

    /** One page of the log, read row by row. */
    method Replay(after: int, limit: int, f: EventLog.Filter) returns (page: seq<nat>)
      ensures page == EventLog.Page(store.events, after, limit, f)
    {
      var start := Max(0, after);
      var all: seq<nat> := [];
      var n := start;
      while n < |store.events|
        invariant start <= n
        invariant n <= |store.events| || n == start
        invariant all == if n <= |store.events| then EventLog.Selected(store.events, start, n, f) else []
      {
        n := n + 1;
        if EventLog.Matches(store.events[n - 1], f) {
          all := all + [n];
        }
      }
      if n > |store.events| {
        assert EventLog.Selected(store.events, start, |store.events|, f) == [];
      }
      var most := Max(1, Min(limit, 1000));
      return if |all| <= most then all else all[..most];
    }
  }
}
