/**
 The current user task inside a Harness session prompt (harness2/policy.py): the JSON
 string after the last line equal to the current-request header, or a refusal.
 */
module Policy {
  import opened Json
  import opened Text
  import opened Wrappers

  const CURRENT_REQUEST_HEADER: string := "[harness:current-request]"

  // ----- Python's str.splitlines and str.join

  predicate IsLineBreak(c: char) {
    c == '\n' || c == '\r' || c == '\U{0B}' || c == '\U{0C}' || '\U{1C}' <= c <= '\U{1E}'
    || c == '\U{85}' || c == '\U{2028}' || c == '\U{2029}'
  }

  /** The length of the first line of s. */
  function FirstLine(s: string): (n: nat)
    ensures n <= |s|
    ensures forall i :: 0 <= i < n ==> !IsLineBreak(s[i])
    ensures n < |s| ==> IsLineBreak(s[n])
  {
    if s == "" || IsLineBreak(s[0]) then 0 else 1 + FirstLine(s[1..])
  }

  /** A carriage return and a line feed together end one line. */
  function BreakLength(s: string, n: nat): nat
    requires n < |s|
  {
    if s[n] == '\r' && n + 1 < |s| && s[n + 1] == '\n' then 2 else 1
  }

  function SplitLines(s: string): seq<string>
    decreases |s|
  {
    if s == "" then []
    else
      var n := FirstLine(s);
      if n == |s| then [s] else [s[..n]] + SplitLines(s[n + BreakLength(s, n)..])
  }

  function JoinLines(lines: seq<string>): string {
    if lines == [] then ""
    else if |lines| == 1 then lines[0]
    else lines[0] + "\n" + JoinLines(lines[1..])
  }

  // ----- policy_task_text

  datatype Refusal = MissingSection | EmptySection | NotJson | NotString

  /** The task in the text below the header. */
  function SectionTask(section: string): Result<string, Refusal> {
    var remainder := Strip(section);
    if remainder == "" then Failure(EmptySection)
    else
      match Loads(remainder)
      case Malformed => Failure(NotJson)
      case Loaded(value) => if value.Str? then Success(value.s) else Failure(NotString)
  }

  predicate IsSpace(s: string) {
    forall i :: 0 <= i < |s| ==> IsWhitespace(s[i])
  }

  /** The text without the white space around it. */
  ghost predicate IsStripped(s: string, core: string) {
    && (core != "" ==> !IsWhitespace(core[0]) && !IsWhitespace(core[|core| - 1]))
    && exists before, after :: s == before + core + after && IsSpace(before) && IsSpace(after)
  }

  lemma StripExact(s: string)
    ensures IsStripped(s, Strip(s))
    ensures Strip(s) == "" <==> IsSpace(s)
  {
    hide LeftStrip, RightStrip;
    var left := LeftStrip(s);
    var core := RightStrip(left);
    var before, after := s[..|s| - |left|], left[|core|..];
    assert IsSpace(before) && IsSpace(after) && s == before + core + after;
    assert core != "" ==> core[0] == left[0];
    if left != "" {
      assert s[|s| - |left|] == left[0];
      assert !IsSpace(s);
    }
  }

  /**
   What stands below the header is a task if it is the JSON text of a string, and it is
   refused as empty, as no JSON or as no string otherwise.
   */
  lemma SectionExact(section: string)
    ensures SectionTask(section) == Failure(EmptySection) <==> IsSpace(section)
    ensures SectionTask(section) == Failure(NotJson) <==> !IsSpace(section) && Loads(Strip(section)).Malformed?
    ensures SectionTask(section) == Failure(NotString) <==>
      !IsSpace(section) && exists value :: Loads(Strip(section)) == Loaded(value) && !value.Str?
    ensures forall task :: SectionTask(section) == Success(task) <==> !IsSpace(section) && Loads(Strip(section)) == Loaded(Str(task))
    ensures IsStripped(section, Strip(section))
  {
    StripExact(section);
    hide Strip, Loads, IsStripped, IsSpace;
  }

  predicate IsLastHeader(lines: seq<string>, k: nat) {
    k < |lines| && lines[k] == CURRENT_REQUEST_HEADER
    && forall i :: k < i < |lines| ==> lines[i] != CURRENT_REQUEST_HEADER
  }

  /** A request outside a session is its own task; a session prompt carries one below its last header. */
  ghost predicate TaskOf(session: Option<string>, prompt: string, r: Result<string, Refusal>) {
    if session.None? then r == Success(prompt)
    else
      var lines := SplitLines(prompt);
      && (CURRENT_REQUEST_HEADER !in lines ==> r == Failure(MissingSection))
      && (forall k: nat | IsLastHeader(lines, k) :: r == SectionTask(JoinLines(lines[k + 1..])))
  }

  method PolicyTaskText(session: Option<string>, prompt: string) returns (r: Result<string, Refusal>)
    ensures TaskOf(session, prompt, r)
  {
    hide SplitLines, JoinLines, SectionTask;
    if session.None? {
      return Success(prompt);
    }
    var lines := SplitLines(prompt);
    var headerIndex: Option<nat> := None;
    for index := |lines| downto 0
      invariant headerIndex.None?
      invariant forall i :: index <= i < |lines| ==> lines[i] != CURRENT_REQUEST_HEADER
    {
      if lines[index] == CURRENT_REQUEST_HEADER {
        headerIndex := Some(index);
        break;
      }
    }
    match headerIndex
    case None => r := Failure(MissingSection);
    case Some(k) =>
      assert forall j: nat :: IsLastHeader(lines, j) ==> j == k;
      r := SectionTask(JoinLines(lines[k + 1..]));
  }

  // ----- facts about lines

  lemma FirstLineIs(s: string, n: nat)
    requires n <= |s|
    requires forall i :: 0 <= i < n ==> !IsLineBreak(s[i])
    requires n < |s| ==> IsLineBreak(s[n])
    ensures FirstLine(s) == n
  {
  }

  /** brk ends a line that rest follows: the two-character break is taken whole. */
  predicate IsBreak(brk: string, rest: string) {
    brk == "\r\n" || (|brk| == 1 && IsLineBreak(brk[0]) && !(brk == "\r" && rest != "" && rest[0] == '\n'))
  }

  predicate NoBreaks(s: string) {
    forall i :: 0 <= i < |s| ==> !IsLineBreak(s[i])
  }

  lemma SplitStep(line: string, brk: string, rest: string)
    requires NoBreaks(line) && IsBreak(brk, rest)
    ensures SplitLines(line + (brk + rest)) == [line] + SplitLines(rest)
  {
    var s := line + (brk + rest);
    var n := |line|;
    assert s[n] == brk[0];
    FirstLineIs(s, n);
    assert s[..n] == line;
    assert n + 1 < |s| ==> s[n + 1] == (brk + rest)[1];
    assert BreakLength(s, n) == |brk|;
    assert s[n + |brk|..] == rest;
  }

  /** The first line of s, its break and what follows. */
  lemma Decompose(s: string) returns (line: string, brk: string, rest: string)
    ensures NoBreaks(line)
    ensures s == line + (brk + rest)
    ensures (brk == "" && rest == "" && line == s) || IsBreak(brk, rest)
  {
    var n := FirstLine(s);
    line := s[..n];
    if n == |s| {
      brk, rest := "", "";
    } else {
      var cut := n + BreakLength(s, n);
      brk, rest := s[n..cut], s[cut..];
    }
  }

  lemma Shift(a: string, b: string, c: string, d: string)
    ensures (a + (b + c)) + d == a + (b + (c + d))
  {
  }

  lemma Prepend(a: string, b: string, c: string)
    ensures a + (b + c) == (a + b) + c
  {
  }

  lemma PrependLine(line: string, front: seq<string>, back: seq<string>)
    ensures [line] + (front + back) == ([line] + front) + back
  {
  }

  predicate EndsLine(s: string) {
    s != "" && s[|s| - 1] == '\n'
  }

  lemma Ending(line: string, brk: string, rest: string)
    requires EndsLine(line + (brk + rest)) && NoBreaks(line)
    ensures rest != "" ==> EndsLine(rest)
    ensures rest == "" ==> EndsLine(brk)
  {
    var s := line + (brk + rest);
    assert rest != "" ==> s[|s| - 1] == rest[|rest| - 1];
    assert rest == "" && brk != "" ==> s[|s| - 1] == brk[|brk| - 1];
  }

  lemma SplitAppendStep(line: string, brk: string, rest: string, y: string)
    requires NoBreaks(line) && IsBreak(brk, rest) && IsBreak(brk, rest + y)
    requires SplitLines(rest + y) == SplitLines(rest) + SplitLines(y)
    ensures SplitLines(line + (brk + rest) + y) == SplitLines(line + (brk + rest)) + SplitLines(y)
  {
    var front, back := SplitLines(rest), SplitLines(y);
    SplitStep(line, brk, rest);
    Shift(line, brk, rest, y);
    SplitStep(line, brk, rest + y);
    PrependLine(line, front, back);
  }

  lemma {:induction false} SplitAfterBreak(x: string, y: string)
    requires EndsLine(x)
    ensures SplitLines(x + y) == SplitLines(x) + SplitLines(y)
    decreases |x|
  {
    var line, brk, rest := Decompose(x);
    Ending(line, brk, rest);
    if rest == "" {
      assert rest + y == y && SplitLines(rest) == [];
    } else {
      SplitAfterBreak(rest, y);
    }
    SplitAppendStep(line, brk, rest, y);
  }

  lemma SplitWhole(s: string)
    requires s != "" && NoBreaks(s)
    ensures SplitLines(s) == [s]
  {
    FirstLineIs(s, |s|);
  }

  /** Characters before the first break join the first line. */
  lemma SplitAfterText(x: string, y: string)
    requires y != "" && NoBreaks(x)
    ensures SplitLines(y) != []
    ensures SplitLines(x + y) == [x + SplitLines(y)[0]] + SplitLines(y)[1..]
  {
    var line, brk, rest := Decompose(y);
    if brk == "" {
      SplitWhole(y);
      SplitWhole(x + y);
    } else {
      SplitStep(line, brk, rest);
      SplitStep(x + line, brk, rest);
      Prepend(x, line, brk + rest);
    }
  }

  lemma HeaderLine()
    ensures |CURRENT_REQUEST_HEADER| == 25
    ensures CURRENT_REQUEST_HEADER[0] == '[' && CURRENT_REQUEST_HEADER[24] == ']'
    ensures NoBreaks(CURRENT_REQUEST_HEADER)
  {
  }

  /** Text that starts a line with the header, followed by a line feed, splits there. */
  lemma SplitAtHeader(before: string, after: string)
    requires EndsLine(before)
    ensures SplitLines(before + (CURRENT_REQUEST_HEADER + "\n" + after))
         == SplitLines(before) + [CURRENT_REQUEST_HEADER] + SplitLines(after)
  {
    hide SplitLines;
    var h := CURRENT_REQUEST_HEADER;
    HeaderLine();
    SplitAfterBreak(before, h + "\n" + after);
    SplitAfterBreak(h + "\n", after);
    assert h + "\n" + after == (h + "\n") + after;
    SplitAfterText(h, "\n");
    SplitLineFeed();
    assert h + "" == h && [h] + [""][1..] == [h];
  }

  lemma SplitLineFeed()
    ensures SplitLines("\n") == [""]
  {
    assert FirstLine("\n") == 0;
  }
}
