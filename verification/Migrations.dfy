/**
 Schema migrations (harness2/kernel/migrations.py): processes that migrate one database at
 the same time, and fail anywhere, leave a history that is always a prefix of the list of
 migrations, each of them carried out once and in order.
 */
module Migrations {
  import opened Wrappers

  datatype Migration = Migration(version: nat, name: string, checksum: string, statements: seq<string>)

  datatype Record = Record(version: nat, name: string, checksum: string)

  /** The history table, and the statements that have taken effect. */
  datatype Schema = Schema(history: seq<Record>, effects: seq<string>)

  datatype MigrationError = SchemaTooNew | NotContiguous | Drift | Unexpected | StatementFailed

  /** The constructor's check: versions from 1, one after the other. */
  predicate IsList(list: seq<Migration>) {
    forall i :: 0 <= i < |list| ==> list[i].version == i + 1
  }

  function RecordOf(m: Migration): Record {
    Record(m.version, m.name, m.checksum)
  }

  function Records(list: seq<Migration>): seq<Record> {
    seq(|list|, i requires 0 <= i < |list| => RecordOf(list[i]))
  }

  function Statements(list: seq<Migration>): seq<string> {
    if list == [] then [] else Statements(list[..|list| - 1]) + list[|list| - 1].statements
  }

  // ----- one transaction

  function Verify(history: seq<Record>, list: seq<Migration>): Result<nat, MigrationError> {
    if history != [] && history[|history| - 1].version > |list| then Failure(SchemaTooNew)
    else if exists i :: 0 <= i < |history| && history[i].version != i + 1 then Failure(NotContiguous)
    else if exists i :: 0 <= i < |history| && i < |list| && (history[i].name != list[i].name || history[i].checksum != list[i].checksum)
    then Failure(Drift)
    else Success(|history|)
  }

  /** A history is accepted exactly when it records the first migrations of the list, unchanged. */
  lemma VerifyExact(history: seq<Record>, list: seq<Migration>)
    requires IsList(list)
    ensures Verify(history, list).Success? <==> |history| <= |list| && history == Records(list[..|history|])
    ensures Verify(history, list).Success? ==> Verify(history, list).value == |history|
  {
    if Verify(history, list).Success? {
      if history != [] {
        assert history[|history| - 1].version == |history|;
      }
      forall i | 0 <= i < |history|
        ensures history[i] == Records(list[..|history|])[i]
      {
        assert history[i].version == i + 1 && list[i].version == i + 1;
      }
    }
    if |history| <= |list| && history == Records(list[..|history|]) {
      forall i | 0 <= i < |history|
        ensures history[i] == RecordOf(list[i])
      {
        assert history[i] == Records(list[..|history|])[i];
      }
    }
  }

  /** Why a history is refused: its last version is too new; else its versions have gaps; else a name or checksum differs. */
  lemma RefusalExact(history: seq<Record>, list: seq<Migration>)
    requires IsList(list)
    ensures Verify(history, list) == Failure(SchemaTooNew) <==> history != [] && history[|history| - 1].version > |list|
    ensures Verify(history, list) == Failure(NotContiguous) <==>
      && (history == [] || history[|history| - 1].version <= |list|)
      && exists i :: 0 <= i < |history| && history[i].version != i + 1
    ensures Verify(history, list) == Failure(Drift) <==>
      && |history| <= |list| && (forall i :: 0 <= i < |history| ==> history[i].version == i + 1)
      && exists i :: 0 <= i < |history| && history[i] != RecordOf(list[i])
    ensures Verify(history, list).Failure? ==> Verify(history, list).error in {SchemaTooNew, NotContiguous, Drift}
  {
    if forall i :: 0 <= i < |history| ==> history[i].version == i + 1 {
      assert history != [] ==> history[|history| - 1].version == |history|;
      if |history| <= |list| {
        forall i | 0 <= i < |history|
          ensures history[i] == RecordOf(list[i]) <==> history[i].name == list[i].name && history[i].checksum == list[i].checksum
        {
          assert history[i].version == i + 1 && list[i].version == i + 1;
        }
      }
    }
  }

  predicate NameTaken(history: seq<Record>, name: string) {
    exists i :: 0 <= i < |history| && history[i].name == name
  }

  datatype Applied = Applied(schema: Schema, version: nat) | Refused(error: MigrationError)

  /** One migration in its transaction; works says whether all its statements do. */
  function Apply(s: Schema, list: seq<Migration>, m: Migration, works: bool): Applied {
    match Verify(s.history, list)
    case Failure(e) => Refused(e)
    case Success(current) =>
      if current >= m.version then Applied(s, current)
      else if current != m.version - 1 then Refused(Unexpected)
      else if !works || NameTaken(s.history, m.name) then Refused(StatementFailed)
      else Applied(Schema(s.history + [RecordOf(m)], s.effects + m.statements), m.version)
  }

  // ----- the invariant of the schema

  /** The first migrations of the list, each recorded and carried out once and in order. */
  predicate IsSound(s: Schema, list: seq<Migration>) {
    |s.history| <= |list| && s.history == Records(list[..|s.history|]) && s.effects == Statements(list[..|s.history|])
  }

  lemma RecordsAppend(list: seq<Migration>, k: nat)
    requires k < |list|
    ensures Records(list[..k + 1]) == Records(list[..k]) + [RecordOf(list[k])]
    ensures Statements(list[..k + 1]) == Statements(list[..k]) + list[k].statements
  {
    assert list[..k + 1][..k] == list[..k];
  }

  /** A transaction keeps the schema sound, and moves it forward by the one migration or not at all. */
  lemma ApplyKeeps(s: Schema, list: seq<Migration>, i: nat, works: bool)
    requires IsList(list) && IsSound(s, list) && i < |list| && i <= |s.history|
    ensures match Apply(s, list, list[i], works)
      case Refused(e) => e == StatementFailed && i == |s.history|
      case Applied(after, version) =>
        && IsSound(after, list) && version == |after.history| >= i + 1
        && (if i < |s.history| then after == s else |after.history| == i + 1)
  {
    VerifyExact(s.history, list);
    if i == |s.history| {
      RecordsAppend(list, i);
    }
  }

  /** The name is that of one of the first i migrations. */
  predicate NamedBefore(list: seq<Migration>, i: nat, name: string)
    requires i <= |list|
  {
    exists j :: 0 <= j < i && list[j].name == name
  }

  /** A migration that is next is refused exactly if a statement of it fails or an earlier one has its name. */
  lemma ApplyExact(s: Schema, list: seq<Migration>, i: nat, works: bool)
    requires IsList(list) && IsSound(s, list) && i < |list| && i <= |s.history|
    ensures Apply(s, list, list[i], works).Refused? <==> i == |s.history| && (!works || NamedBefore(list, i, list[i].name))
  {
    VerifyExact(s.history, list);
    forall j | 0 <= j < |s.history|
      ensures s.history[j].name == list[j].name
    {
      assert s.history[j] == Records(list[..|s.history|])[j];
    }
  }

  // ----- processes

  /** Where a call of `migrate` stands: which versions it has dealt with, and the version it last saw. */
  datatype Process =
    | Running(goal: nat, current: nat, next: nat)
    | Returned(goal: nat, version: nat)
    | Stopped(error: MigrationError)

  function Begin(s: Schema, list: seq<Migration>, target: Option<int>): Process {
    var goal := if target.None? then |list| else target.value;
    if goal < 0 || goal > |list| then Stopped(SchemaTooNew)
    else
      match Verify(s.history, list)
      case Failure(e) => Stopped(e)
      case Success(current) => Running(goal, current, 0)
  }

  /** The next turn of the loop: a version that is skipped, a transaction, or the return. */
  function Turn(s: Schema, list: seq<Migration>, p: Process, works: bool): (Schema, Process)
    requires p.Running?
  {
    if p.next >= |list| then (s, Returned(p.goal, p.current))
    else
      var m := list[p.next];
      if m.version <= p.current || m.version > p.goal then (s, p.(next := p.next + 1))
      else
        match Apply(s, list, m, works)
        case Refused(e) => (s, Stopped(e))
        case Applied(after, version) => (after, p.(current := version, next := p.next + 1))
  }

  /** What a process knows is still so: the schema never goes back. */
  predicate Knows(s: Schema, list: seq<Migration>, p: Process) {
    match p
    case Running(goal, current, next) =>
      && goal <= |list| && current <= |s.history| && next <= |list|
      && (next <= current || goal <= current)
    case Returned(goal, version) => goal <= version <= |s.history|
    case Stopped(_) => true
  }

  lemma BeginKnows(s: Schema, list: seq<Migration>, target: Option<int>)
    requires IsList(list)
    ensures Knows(s, list, Begin(s, list, target))
  {
    VerifyExact(s.history, list);
  }

  /** A process of a sound schema starts at its version, toward the target or the end of the list; only a target outside the list is refused. */
  lemma BeginExact(s: Schema, list: seq<Migration>, target: Option<int>)
    requires IsList(list) && IsSound(s, list)
    ensures var p := Begin(s, list, target);
      && (p.Stopped? <==> target.Some? && (target.value < 0 || target.value > |list|)) && (p.Stopped? ==> p.error == SchemaTooNew)
      && (!p.Stopped? ==> p.Running? && p.current == |s.history| && p.next == 0)
      && (!p.Stopped? ==> p.goal == if target.Some? then target.value else |list|)
  {
    VerifyExact(s.history, list);
  }

  /**
   A process that is not at the end of the list goes on to the next version: past it, if it
   has it or does not want it, and else by its transaction, which stops the process if it fails.
   */
  lemma TurnExact(s: Schema, list: seq<Migration>, p: Process, works: bool)
    requires IsList(list) && IsSound(s, list) && p.Running? && Knows(s, list, p)
    ensures var (after, q) := Turn(s, list, p, works);
      && (q.Returned? <==> p.next == |list|) && (q.Returned? ==> q.version == p.current && after == s)
      && (q.Running? ==> q.next == p.next + 1 && q.goal == p.goal)
      && (q.Running? && (p.next < p.current || p.goal <= p.next) ==> q.current == p.current && after == s)
      && (q.Running? && p.current <= p.next < p.goal ==> q.current == |after.history| > p.next)
      && (q.Stopped? <==>
           p.current <= p.next < p.goal && p.next == |s.history| && (!works || NamedBefore(list, p.next, list[p.next].name)))
  {
    if p.next < |list| && p.current < list[p.next].version <= p.goal {
      ApplyKeeps(s, list, p.next, works);
      ApplyExact(s, list, p.next, works);
      hide Apply;
    }
  }

  lemma TurnKeeps(s: Schema, list: seq<Migration>, p: Process, works: bool)
    requires IsList(list) && IsSound(s, list) && p.Running? && Knows(s, list, p)
    ensures var (after, q) := Turn(s, list, p, works);
      && IsSound(after, list) && Knows(after, list, q)
      && s.history <= after.history && s.effects <= after.effects
      && (q.Stopped? ==> q.error == StatementFailed && after == s)
  {
    if p.next < |list| && p.current < list[p.next].version <= p.goal {
      ApplyKeeps(s, list, p.next, works);
      if |s.history| == p.next {
        RecordsAppend(list, p.next);
      }
    }
  }

  // ----- any number of processes

  datatype World = World(schema: Schema, processes: map<nat, Process>)

  /** A process begins, or takes its next turn, or is killed between two turns. */
  datatype Event = Begins(process: nat, target: Option<int>) | Turns(process: nat, works: bool) | Dies(process: nat)

  predicate CanHappen(w: World, e: Event) {
    match e
    case Begins(p, _) => p !in w.processes
    case Turns(p, _) => p in w.processes && w.processes[p].Running?
    case Dies(p) => p in w.processes
  }

  function Happen(w: World, list: seq<Migration>, e: Event): World
    requires CanHappen(w, e)
  {
    match e
    case Begins(p, target) => w.(processes := w.processes[p := Begin(w.schema, list, target)])
    case Turns(p, works) =>
      var (after, q) := Turn(w.schema, list, w.processes[p], works);
      World(after, w.processes[p := q])
    case Dies(p) => w.(processes := map q | q in w.processes && q != p :: w.processes[q])
  }

  predicate IsHistory(w: World, list: seq<Migration>, events: seq<Event>)
    decreases |events|
  {
    events == [] || (CanHappen(w, events[0]) && IsHistory(Happen(w, list, events[0]), list, events[1..]))
  }

  function EndOf(w: World, list: seq<Migration>, events: seq<Event>): World
    requires IsHistory(w, list, events)
    decreases |events|
  {
    if events == [] then w else EndOf(Happen(w, list, events[0]), list, events[1..])
  }

  ghost predicate WorldOk(w: World, list: seq<Migration>) {
    IsSound(w.schema, list) && forall p :: p in w.processes ==> Knows(w.schema, list, w.processes[p])
  }

  lemma HappenKeeps(w: World, list: seq<Migration>, e: Event)
    requires IsList(list) && WorldOk(w, list) && CanHappen(w, e)
    ensures var after := Happen(w, list, e);
      && WorldOk(after, list) && w.schema.history <= after.schema.history && w.schema.effects <= after.schema.effects
  {
    match e {
      case Begins(p, target) => BeginKnows(w.schema, list, target);
      case Turns(p, works) =>
        TurnKeeps(w.schema, list, w.processes[p], works);
        forall q | q in w.processes && q != p
          ensures Knows(Happen(w, list, e).schema, list, w.processes[q])
        {
        }
      case Dies(_) =>
    }
  }

  /**
   However processes interleave, fail and die, the history stays a prefix of the list that
   only grows, with each recorded migration carried out once and in order; and whoever
   returns has reached its goal.
   */
  lemma {:induction false} MigrationsInterleave(w: World, list: seq<Migration>, events: seq<Event>)
    requires IsList(list) && WorldOk(w, list) && IsHistory(w, list, events)
    ensures var end := EndOf(w, list, events);
      && WorldOk(end, list)
      && w.schema.history <= end.schema.history && w.schema.effects <= end.schema.effects
      && forall p :: p in end.processes && end.processes[p].Returned? ==>
           end.processes[p].goal <= end.processes[p].version <= |end.schema.history|
    decreases |events|
  {
    hide IsSound;
    if events != [] {
      HappenKeeps(w, list, events[0]);
      hide Happen;
      MigrationsInterleave(Happen(w, list, events[0]), list, events[1..]);
    }
  }

  // ----- one process as it runs

  class Migrator {
    const list: seq<Migration>
    var history: seq<Record>
    var effects: seq<string>

    constructor (list: seq<Migration>)
      requires IsList(list)
      ensures this.list == list && IsSound(Schema(history, effects), list) && history == []
    {
      this.list := list;
      history, effects := [], [];
    }

    /** Executes the statements in order; fails says which ones do not work, and then nothing of the transaction stays. */
    method ApplyOne(m: Migration, fails: nat -> bool) returns (r: Result<nat, MigrationError>)
      modifies this
      ensures var works := forall i :: 0 <= i < |m.statements| ==> !fails(i);
        match Apply(old(Schema(history, effects)), list, m, works)
        case Refused(e) => r == Failure(e) && history == old(history) && effects == old(effects)
        case Applied(after, version) => r == Success(version) && Schema(history, effects) == after
    {
      var current := Verify(history, list);
      if current.Failure? {
        return Failure(current.error);
      }
      if current.value >= m.version {
        return Success(current.value);
      }
      if current.value != m.version - 1 {
        return Failure(Unexpected);
      }
      var saved := effects;
      for i := 0 to |m.statements|
        invariant effects == saved + m.statements[..i] && history == old(history)
        invariant forall j :: 0 <= j < i ==> !fails(j)
      {
        if fails(i) {
          effects := saved;
          return Failure(StatementFailed);
        }
        effects := effects + [m.statements[i]];
      }
      assert m.statements[..|m.statements|] == m.statements;
      if NameTaken(history, m.name) {
        effects := saved;
        return Failure(StatementFailed);
      }
      history := history + [RecordOf(m)];
      return Success(m.version);
    }

    /**
     A whole call with no other process about, on any history: one that is refused stays as
     it is; from one that is accepted it reaches its goal, or stops where a statement fails.
     */
    method Migrate(target: Option<int>, fails: (nat, nat) -> bool) returns (r: Result<nat, MigrationError>)
      requires IsList(list)
      modifies this
      ensures var goal := if target.None? then |list| else target.value;
        if goal < 0 || goal > |list| then r == Failure(SchemaTooNew) && history == old(history) && effects == old(effects)
        else if Verify(old(history), list).Failure?
        then r == Failure(Verify(old(history), list).error) && history == old(history) && effects == old(effects)
        else
          && IsForward(list, old(Schema(history, effects)), Schema(history, effects))
          && if r.Success? then r.value == |history| && |history| == if goal < |old(history)| then |old(history)| else goal
             else r.error == StatementFailed && |history| < goal
      ensures IsSound(old(Schema(history, effects)), list) ==> IsSound(Schema(history, effects), list)
    {
      ghost var before := Schema(history, effects);
      SoundForward(list, before);
      var goal := if target.None? then |list| else target.value;
      if goal < 0 || goal > |list| {
        return Failure(SchemaTooNew);
      }
      var verified := Verify(history, list);
      if verified.Failure? {
        return Failure(verified.error);
      }
      VerifyExact(history, list);
      var current := verified.value;
      hide IsSound;
      for i := 0 to |list|
        invariant IsForward(list, before, Schema(history, effects))
        invariant current == |history| == Reached(|before.history|, goal, i)
      {
        if list[i].version > current && list[i].version <= goal {
          var failsHere := (j: nat) => fails(i, j);
          ghost var works := forall j :: 0 <= j < |list[i].statements| ==> !failsHere(j);
          ApplyForward(before, Schema(history, effects), list, works);
          hide Apply, IsForward;
          var applied := ApplyOne(list[i], failsHere);
          if applied.Failure? {
            return Failure(applied.error);
          }
          current := applied.value;
        }
      }
      return Success(current);
    }
  }

  /** The history records the first migrations of the list, those of before and perhaps more, which alone took effect since. */
  predicate IsForward(list: seq<Migration>, before: Schema, after: Schema) {
    && |before.history| <= |after.history| <= |list|
    && before.history == Records(list[..|before.history|]) && after.history == Records(list[..|after.history|])
    && after.effects == before.effects + Statements(list[|before.history|..|after.history|])
  }

  lemma {:induction false} StatementsSplit(list: seq<Migration>, a: nat, b: nat)
    requires a <= b <= |list|
    ensures Statements(list[..a]) + Statements(list[a..b]) == Statements(list[..b])
    decreases b
  {
    if a < b {
      assert list[a..b][..b - a - 1] == list[a..b - 1] && list[..b][..b - 1] == list[..b - 1];
      StatementsSplit(list, a, b - 1);
    } else {
      assert list[a..b] == [];
    }
  }

  lemma SoundForward(list: seq<Migration>, before: Schema)
    ensures forall after :: IsSound(before, list) && IsForward(list, before, after) ==> IsSound(after, list)
  {
    forall after | IsSound(before, list) && IsForward(list, before, after)
      ensures IsSound(after, list)
    {
      StatementsSplit(list, |before.history|, |after.history|);
    }
  }

  lemma ApplyForward(before: Schema, s: Schema, list: seq<Migration>, works: bool)
    requires IsList(list) && IsForward(list, before, s) && |s.history| < |list|
    ensures var i := |s.history|;
      match Apply(s, list, list[i], works)
      case Refused(e) => e == StatementFailed
      case Applied(after, version) => IsForward(list, before, after) && version == |after.history| == i + 1
  {
    var a, i := |before.history|, |s.history|;
    VerifyExact(s.history, list);
    RecordsAppend(list, i);
    assert list[a..i + 1][..i - a] == list[a..i];
  }

  /** How far a lone process has come after dealing with i versions. */
  function Reached(start: nat, goal: int, i: nat): nat {
    if goal <= start || i <= start then start else if i <= goal then i else goal
  }
}
