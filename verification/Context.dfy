/**
 Bounded history reconstruction (harness2/sessions.py, SessionContextBuilder): the newest
 turns that fit, each as one canonical JSON line, in chronological order.
 */
module SessionContext {
  import opened Json
  import opened Policy
  import Utf8

  datatype Turn = Turn(
    number: int, role: string, status: string, content: string,
    sensitive: bool, untrusted: bool)

  datatype Limits = Limits(turns: nat, bytes: nat)

  datatype Context = Context(
    text: string, included: seq<int>, sensitive: bool, untrusted: bool, truncated: bool)

  predicate IsEligible(turn: Turn) {
    turn.role in ["user", "assistant", "summary"] && turn.status == "completed"
  }

  function Eligible(turns: seq<Turn>): seq<Turn> {
    if turns == [] then []
    else if IsEligible(turns[0]) then [turns[0]] + Eligible(turns[1..])
    else Eligible(turns[1..])
  }

  /** The completed turns of user, assistant and summary, in their order. */
  lemma EligibleExact(turns: seq<Turn>, turn: Turn)
    ensures Eligible([]) == []
    ensures Eligible(turns + [turn]) ==
      Eligible(turns) + if (turn.role == "user" || turn.role == "assistant" || turn.role == "summary") && turn.status == "completed"
                        then [turn] else []
  {
    if turns == [] {
      assert turns + [turn] == [turn] && Eligible([turn][1..]) == [];
    } else {
      assert (turns + [turn])[1..] == turns[1..] + [turn];
      EligibleExact(turns[1..], turn);
    }
  }

  function Fields(turn: Turn): Json {
    Obj(map["role" := Str(turn.role), "seq" := Int(turn.number), "content" := Str(turn.content)])
  }

  function Line(turn: Turn): string {
    Dumps(Fields(turn))
  }

  /** The bytes a turn takes with its line separator. */
  function Cost(turn: Turn): nat {
    |Utf8.Encode(Line(turn))| + 1
  }

  // ----- which turns are chosen

  /** The bytes taken by the chosen turns newer than turn j. */
  ghost function NewerCost(turns: seq<Turn>, chosen: set<nat>, j: int): nat
    requires -1 <= j < |turns|
    decreases |turns| - j
  {
    if j + 1 == |turns| then 0
    else NewerCost(turns, chosen, j + 1) + if j + 1 in chosen then Cost(turns[j + 1]) else 0
  }

  ghost function NewerCount(turns: seq<Turn>, chosen: set<nat>, j: int): nat
    requires -1 <= j < |turns|
    decreases |turns| - j
  {
    if j + 1 == |turns| then 0
    else NewerCount(turns, chosen, j + 1) + if j + 1 in chosen then 1 else 0
  }

  /** Turn j is taken exactly when the turns chosen after it leave it a place and enough bytes. */
  ghost predicate IsTaken(turns: seq<Turn>, chosen: set<nat>, limits: Limits, j: nat)
    requires j < |turns|
  {
    NewerCount(turns, chosen, j) < limits.turns
    && NewerCost(turns, chosen, j) + Cost(turns[j]) <= limits.bytes
  }

  ghost predicate IsSelection(turns: seq<Turn>, chosen: set<nat>, limits: Limits) {
    && (forall j :: j in chosen ==> j < |turns|)
    && (forall j: nat {:trigger IsTaken(turns, chosen, limits, j)} ::
          j < |turns| ==> (j in chosen <==> IsTaken(turns, chosen, limits, j)))
  }

  function LinesOf(turns: seq<Turn>): seq<string> {
    if turns == [] then [] else [Line(turns[0])] + LinesOf(turns[1..])
  }

  function NumbersOf(turns: seq<Turn>): seq<int> {
    if turns == [] then [] else [turns[0].number] + NumbersOf(turns[1..])
  }

  /** The chosen turns among turns[from..]. */
  ghost function ChosenFrom(turns: seq<Turn>, chosen: set<nat>, from: nat): seq<Turn>
    requires from <= |turns|
    decreases |turns| - from
  {
    if from == |turns| then []
    else (if from in chosen then [turns[from]] else []) + ChosenFrom(turns, chosen, from + 1)
  }

  function Reversed(s: seq<Turn>): seq<Turn> {
    if s == [] then [] else [s[|s| - 1]] + Reversed(s[..|s| - 1])
  }

  lemma NewerAgree(turns: seq<Turn>, a: set<nat>, b: set<nat>, j: int)
    requires -1 <= j < |turns|
    requires forall k: nat :: j < k < |turns| ==> (k in a <==> k in b)
    ensures NewerCost(turns, a, j) == NewerCost(turns, b, j)
    ensures NewerCount(turns, a, j) == NewerCount(turns, b, j)
    decreases |turns| - j
  {
    if j + 1 < |turns| {
      NewerAgree(turns, a, b, j + 1);
    }
  }

  lemma ChosenAgree(turns: seq<Turn>, a: set<nat>, b: set<nat>, from: nat)
    requires from <= |turns|
    requires forall k: nat :: from <= k < |turns| ==> (k in a <==> k in b)
    ensures ChosenFrom(turns, a, from) == ChosenFrom(turns, b, from)
    decreases |turns| - from
  {
    if from < |turns| {
      ChosenAgree(turns, a, b, from + 1);
    }
  }

  /** The rule holds for the turns from i on, and no older turn is chosen. */
  ghost predicate SelectedFrom(turns: seq<Turn>, chosen: set<nat>, limits: Limits, i: nat) {
    && i <= |turns|
    && (forall j :: j in chosen ==> i <= j < |turns|)
    && (forall j: nat :: i <= j < |turns| ==> (j in chosen <==> IsTaken(turns, chosen, limits, j)))
  }

  ghost predicate OmitsFrom(turns: seq<Turn>, chosen: set<nat>, i: nat) {
    exists j: nat :: i <= j < |turns| && j !in chosen
  }

  lemma TakeOlder(turns: seq<Turn>, chosen: set<nat>, limits: Limits, i: nat)
    requires i < |turns| && SelectedFrom(turns, chosen, limits, i + 1) && IsTaken(turns, chosen, limits, i)
    ensures SelectedFrom(turns, chosen + {i}, limits, i)
    ensures NewerCost(turns, chosen + {i}, i - 1) == NewerCost(turns, chosen, i) + Cost(turns[i])
    ensures NewerCount(turns, chosen + {i}, i - 1) == NewerCount(turns, chosen, i) + 1
    ensures ChosenFrom(turns, chosen + {i}, i) == [turns[i]] + ChosenFrom(turns, chosen, i + 1)
    ensures OmitsFrom(turns, chosen + {i}, i) <==> OmitsFrom(turns, chosen, i + 1)
  {
    hide Cost, IsTaken, SelectedFrom, OmitsFrom;
    TakenLater(turns, chosen, limits, i);
    SelectedLater(turns, chosen, limits, i);
    NewerAgree(turns, chosen + {i}, chosen, i);
    ChosenAgree(turns, chosen + {i}, chosen, i + 1);
  }

  lemma SelectedLater(turns: seq<Turn>, chosen: set<nat>, limits: Limits, i: nat)
    requires i < |turns| && SelectedFrom(turns, chosen, limits, i + 1)
    requires forall j: nat :: i <= j < |turns| ==> (j in chosen + {i} <==> IsTaken(turns, chosen + {i}, limits, j))
    ensures SelectedFrom(turns, chosen + {i}, limits, i)
    ensures OmitsFrom(turns, chosen + {i}, i) <==> OmitsFrom(turns, chosen, i + 1)
  {
    hide IsTaken;
  }

  lemma TakenLater(turns: seq<Turn>, chosen: set<nat>, limits: Limits, i: nat)
    requires i < |turns| && SelectedFrom(turns, chosen, limits, i + 1) && IsTaken(turns, chosen, limits, i)
    ensures forall j: nat :: i <= j < |turns| ==> (j in chosen + {i} <==> IsTaken(turns, chosen + {i}, limits, j))
  {
    hide Cost, NewerCost, NewerCount;
    forall j: nat | i <= j < |turns|
      ensures j in chosen + {i} <==> IsTaken(turns, chosen + {i}, limits, j)
    {
      NewerAgree(turns, chosen + {i}, chosen, j);
    }
  }

  lemma SkipOlder(turns: seq<Turn>, chosen: set<nat>, limits: Limits, i: nat)
    requires i < |turns| && SelectedFrom(turns, chosen, limits, i + 1) && !IsTaken(turns, chosen, limits, i)
    ensures SelectedFrom(turns, chosen, limits, i)
    ensures NewerCost(turns, chosen, i - 1) == NewerCost(turns, chosen, i)
    ensures NewerCount(turns, chosen, i - 1) == NewerCount(turns, chosen, i)
    ensures ChosenFrom(turns, chosen, i) == ChosenFrom(turns, chosen, i + 1)
    ensures OmitsFrom(turns, chosen, i)
  {
  }

  /** When no turn before i is chosen, the count and the list below i stay what they are at i. */
  lemma NoneOlder(turns: seq<Turn>, chosen: set<nat>, i: nat, j: nat)
    requires j <= i <= |turns| && forall k :: k in chosen ==> k >= i
    ensures NewerCount(turns, chosen, j - 1) == NewerCount(turns, chosen, i - 1)
    ensures ChosenFrom(turns, chosen, j) == ChosenFrom(turns, chosen, i)
    decreases i - j
  {
    if j < i {
      NoneOlder(turns, chosen, i, j + 1);
    }
  }

  lemma StopOlder(turns: seq<Turn>, chosen: set<nat>, limits: Limits, i: nat)
    requires 0 < i && SelectedFrom(turns, chosen, limits, i) && NewerCount(turns, chosen, i - 1) >= limits.turns
    ensures SelectedFrom(turns, chosen, limits, 0) && OmitsFrom(turns, chosen, 0)
    ensures ChosenFrom(turns, chosen, 0) == ChosenFrom(turns, chosen, i)
  {
    forall j: nat | j < i
      ensures !IsTaken(turns, chosen, limits, j)
    {
      NoneOlder(turns, chosen, i, j + 1);
    }
    NoneOlder(turns, chosen, i, 0);
    assert i - 1 !in chosen;
  }

  lemma NothingChosen(turns: seq<Turn>, limits: Limits)
    ensures SelectedFrom(turns, {}, limits, |turns|) && !OmitsFrom(turns, {}, |turns|)
  {
  }

  lemma AllDecided(turns: seq<Turn>, chosen: set<nat>, limits: Limits)
    requires SelectedFrom(turns, chosen, limits, 0)
    ensures IsSelection(turns, chosen, limits)
  {
    hide IsTaken;
  }

  /** The context that tells the turns the limits choose, and whether any other was left out. */
  ghost predicate Tells(context: Context, turns: seq<Turn>, limits: Limits, chosen: set<nat>,
                        currentSensitive: bool, currentUntrusted: bool)
  {
    var selected := ChosenFrom(turns, chosen, 0);
    && IsSelection(turns, chosen, limits)
    && context.text == JoinLines(LinesOf(selected))
    && context.included == NumbersOf(selected)
    && (context.sensitive <==> currentSensitive || exists t :: t in selected && t.sensitive)
    && (context.untrusted <==> currentUntrusted || exists t :: t in selected && t.untrusted)
    && (context.truncated <==> OmitsFrom(turns, chosen, 0))
  }

  method Build(turns: seq<Turn>, limits: Limits, currentSensitive: bool, currentUntrusted: bool)
    returns (context: Context)
    ensures exists chosen :: Tells(context, Eligible(turns), limits, chosen, currentSensitive, currentUntrusted)
  {
    hide Cost, LinesOf, NumbersOf, JoinLines, Eligible, SelectedFrom, OmitsFrom, IsSelection;
    var eligible := Eligible(turns);
    var selectedReversed: seq<Turn> := [];
    var budget: int := limits.bytes;
    var truncated := false;
    ghost var chosen: set<nat> := {};
    NothingChosen(eligible, limits);
    var i := |eligible|;
    while i > 0
      invariant 0 <= i <= |eligible|
      invariant SelectedFrom(eligible, chosen, limits, i)
      invariant budget == limits.bytes - NewerCost(eligible, chosen, i - 1)
      invariant |selectedReversed| == NewerCount(eligible, chosen, i - 1)
      invariant Reversed(selectedReversed) == ChosenFrom(eligible, chosen, i)
      invariant truncated <==> OmitsFrom(eligible, chosen, i)
    {
      if |selectedReversed| >= limits.turns {
        truncated := true;
        StopOlder(eligible, chosen, limits, i);
        break;
      }
      i := i - 1;
      var turn := eligible[i];
      var cost := Cost(turn);
      if cost > budget {
        SkipOlder(eligible, chosen, limits, i);
        truncated := true;
      } else {
        TakeOlder(eligible, chosen, limits, i);
        ReversedAppend(selectedReversed, turn);
        selectedReversed := selectedReversed + [turn];
        budget := budget - cost;
        chosen := chosen + {i};
      }
    }
    var selected := Reversed(selectedReversed);
    context := Context(
      JoinLines(LinesOf(selected)), NumbersOf(selected),
      currentSensitive || exists t :: t in selected && t.sensitive,
      currentUntrusted || exists t :: t in selected && t.untrusted,
      truncated);
    AllDecided(eligible, chosen, limits);
    assert Tells(context, eligible, limits, chosen, currentSensitive, currentUntrusted);
  }

  lemma ReversedAppend(s: seq<Turn>, t: Turn)
    ensures Reversed(s + [t]) == [t] + Reversed(s)
  {
    assert (s + [t])[..|s|] == s;
  }

  // ----- what every selection satisfies

  ghost function TotalCost(turns: seq<Turn>): nat {
    if turns == [] then 0 else Cost(turns[0]) + TotalCost(turns[1..])
  }

  lemma {:induction false} ChosenTotals(turns: seq<Turn>, chosen: set<nat>, limits: Limits, from: nat)
    requires from <= |turns| && IsSelection(turns, chosen, limits)
    ensures |ChosenFrom(turns, chosen, from)| == NewerCount(turns, chosen, from - 1) <= limits.turns
    ensures TotalCost(ChosenFrom(turns, chosen, from)) == NewerCost(turns, chosen, from - 1) <= limits.bytes
    decreases |turns| - from
  {
    hide Cost;
    if from < |turns| {
      ChosenTotals(turns, chosen, limits, from + 1);
      assert from in chosen <==> IsTaken(turns, chosen, limits, from);
      var later := ChosenFrom(turns, chosen, from + 1);
      if from in chosen {
        assert ([turns[from]] + later)[1..] == later;
      } else {
        assert [] + later == later;
      }
    }
  }

  lemma {:induction false} JoinedSize(turns: seq<Turn>)
    requires turns != []
    ensures |Utf8.Encode(JoinLines(LinesOf(turns)))| + 1 == TotalCost(turns)
  {
    var lines := LinesOf(turns);
    if |turns| > 1 {
      JoinedSize(turns[1..]);
      assert lines[1..] == LinesOf(turns[1..]);
      Utf8.EncodeAppend(lines[0], "\n");
      Utf8.EncodeAppend(lines[0] + "\n", JoinLines(lines[1..]));
    } else {
      assert TotalCost(turns[1..]) == 0 && LinesOf(turns[1..]) == [];
    }
  }

  /** The text obeys both limits. */
  lemma SelectionFits(turns: seq<Turn>, chosen: set<nat>, limits: Limits)
    requires IsSelection(turns, chosen, limits)
    ensures var selected := ChosenFrom(turns, chosen, 0);
      && |selected| <= limits.turns
      && |Utf8.Encode(JoinLines(LinesOf(selected)))| <= limits.bytes
  {
    ChosenTotals(turns, chosen, limits, 0);
    var selected := ChosenFrom(turns, chosen, 0);
    if selected != [] {
      JoinedSize(selected);
    }
  }

  lemma {:induction false} NewerGrows(turns: seq<Turn>, chosen: set<nat>, i: int, j: int)
    requires -1 <= i <= j < |turns|
    ensures NewerCost(turns, chosen, j) <= NewerCost(turns, chosen, i)
    ensures NewerCount(turns, chosen, j) <= NewerCount(turns, chosen, i)
    decreases j - i
  {
    if i < j {
      NewerGrows(turns, chosen, i + 1, j);
    }
  }

  /** Below the turn limit, no omitted turn fits into the bytes that are left. */
  lemma SelectionMaximal(turns: seq<Turn>, chosen: set<nat>, limits: Limits, j: nat)
    requires IsSelection(turns, chosen, limits) && j < |turns| && j !in chosen
    requires |ChosenFrom(turns, chosen, 0)| < limits.turns
    ensures TotalCost(ChosenFrom(turns, chosen, 0)) + Cost(turns[j]) > limits.bytes
  {
    ChosenTotals(turns, chosen, limits, 0);
    NewerGrows(turns, chosen, -1, j);
    assert !IsTaken(turns, chosen, limits, j);
  }

  /** The limits determine the selection. */
  lemma {:induction false} SelectionUnique(turns: seq<Turn>, a: set<nat>, b: set<nat>, limits: Limits, from: nat)
    requires IsSelection(turns, a, limits) && IsSelection(turns, b, limits) && from <= |turns|
    ensures forall k: nat :: from <= k < |turns| ==> (k in a <==> k in b)
    ensures from == 0 ==> a == b
    decreases |turns| - from
  {
    if from < |turns| {
      SelectionUnique(turns, a, b, limits, from + 1);
      NewerAgree(turns, a, b, from);
      assert IsTaken(turns, a, limits, from) <==> IsTaken(turns, b, limits, from);
    }
  }

  // ----- the text decodes to the chosen turns

  /** str.split("\n") */
  function SplitNewlines(s: string): seq<string> {
    if s == "" then [""]
    else
      var rest := SplitNewlines(s[1..]);
      if s[0] == '\n' then [""] + rest
      else if rest == [] then [[s[0]]]
      else [[s[0]] + rest[0]] + rest[1..]
  }

  function DecodeLines(lines: seq<string>): seq<Loaded> {
    if lines == [] then [] else [Loads(lines[0])] + DecodeLines(lines[1..])
  }

  function FieldsOf(turns: seq<Turn>): seq<Loaded> {
    if turns == [] then [] else [Loaded(Fields(turns[0]))] + FieldsOf(turns[1..])
  }

  lemma {:induction false} SplitLine(line: string, rest: string)
    requires Printable(line)
    ensures SplitNewlines(line) == [line]
    ensures SplitNewlines(line + "\n" + rest) == [line] + SplitNewlines(rest)
  {
    var s := line + "\n" + rest;
    if line == "" {
      assert s[1..] == rest && s[0] == '\n';
    } else {
      SplitLine(line[1..], rest);
      assert s[1..] == line[1..] + "\n" + rest;
      assert [line[0]] + line[1..] == line;
      assert ([line[1..]] + SplitNewlines(rest))[1..] == SplitNewlines(rest);
    }
  }

  /** Splitting the history on newlines and decoding each line gives back exactly the chosen turns. */
  lemma {:induction false} HistoryDecodes(turns: seq<Turn>)
    requires turns != []
    ensures DecodeLines(SplitNewlines(JoinLines(LinesOf(turns)))) == FieldsOf(turns)
  {
    var lines := LinesOf(turns);
    LoadsDumps(Fields(turns[0]));
    DumpsPrintable(Fields(turns[0]));
    if |turns| == 1 {
      SplitLine(lines[0], "");
      assert LinesOf(turns[1..]) == [] && FieldsOf(turns[1..]) == [];
      assert DecodeLines([lines[0]]) == [Loads(lines[0])] by { DecodeFirst(lines[0], []); }
    } else {
      HistoryDecodes(turns[1..]);
      assert lines[1..] == LinesOf(turns[1..]);
      SplitLine(lines[0], JoinLines(lines[1..]));
      DecodeFirst(lines[0], SplitNewlines(JoinLines(lines[1..])));
    }
  }

  lemma DecodeFirst(line: string, rest: seq<string>)
    ensures DecodeLines([line] + rest) == [Loads(line)] + DecodeLines(rest)
  {
    assert ([line] + rest)[1..] == rest;
  }

  /** A line of the history is read as the turn's role, number and text. */
  lemma LineReads(turn: Turn)
    ensures Loads(Line(turn)) ==
      Loaded(Obj(map["role" := Str(turn.role), "seq" := Int(turn.number), "content" := Str(turn.content)]))
  {
    LoadsDumps(Fields(turn));
  }

  /** Turns that differ in role, number or text never share a line. */
  lemma LineInjective(a: Turn, b: Turn)
    requires Line(a) == Line(b)
    ensures a.role == b.role && a.number == b.number && a.content == b.content
  {
    DumpsInjective(Fields(a), Fields(b));
    FieldsInjective(a, b);
  }

  lemma FieldsInjective(a: Turn, b: Turn)
    requires Fields(a) == Fields(b)
    ensures a.role == b.role && a.number == b.number && a.content == b.content
  {
    var x, y := Fields(a).fields, Fields(b).fields;
    assert x["role"] == y["role"] && x["seq"] == y["seq"] && x["content"] == y["content"];
  }
}
