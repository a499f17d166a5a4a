/**
 Session prompts (harness2/sessions.py). The envelope written by
 `assemble_session_prompt` is read back by `policy_task_text`: exactly the prompt, or a
 refusal.
 */
module Envelope {
  import opened Json
  import opened Policy
  import opened Text
  import opened Wrappers

  const HISTORY_HEADER: string := "[harness:session-history]"
  const SEMANTICS_HEADER: string := "[harness:session-semantics]"

  /** The fixed semantics section: its header and the text below it, which the proofs never look at. */
  function Semantics(text: string): string {
    SEMANTICS_HEADER + "\n" + text
  }

  /** Everything before the current-request header. */
  function Framing(semantics: string, context: string): string {
    if context == "" then Semantics(semantics) + "\n\n"
    else Semantics(semantics) + "\n\n" + (HISTORY_HEADER + "\n" + context) + "\n\n"
  }

  function AssembleSessionPrompt(semantics: string, context: string, prompt: string): string {
    Framing(semantics, context) + (CURRENT_REQUEST_HEADER + "\n" + Dumps(Str(prompt)))
  }

  /** No character that the JSON printer leaves raw and splitlines treats as a line break. */
  predicate Unbroken(prompt: string) {
    forall i :: 0 <= i < |prompt| ==> prompt[i] !in ['\U{85}', '\U{2028}', '\U{2029}']
  }

  /** The text of the request value after its opening quote. */
  function Body(prompt: string): string {
    Escape(prompt) + [QUOTE]
  }

  // ----- lines of the request value

  lemma EscapeCharBreaks(c: char)
    ensures IsLineBreak(c) && c !in ['\n', '\r', '\U{0B}', '\U{0C}', '\U{1C}', '\U{1D}', '\U{1E}']
        ==> EscapeChar(c) == [c] && c in ['\U{85}', '\U{2028}', '\U{2029}']
    ensures c !in ['\U{85}', '\U{2028}', '\U{2029}'] ==> NoBreaks(EscapeChar(c))
  {
  }

  lemma BodyStep(prompt: string)
    requires prompt != ""
    ensures Body(prompt) == EscapeChar(prompt[0]) + Body(prompt[1..])
  {
  }

  lemma SplitBreakChar(c: char, rest: string)
    requires c in ['\U{85}', '\U{2028}', '\U{2029}']
    ensures SplitLines([c] + rest) == [""] + SplitLines(rest)
  {
    SplitStep("", [c], rest);
    assert "" + ([c] + rest) == [c] + rest;
  }

  lemma JoinPrepend(x: string, lines: seq<string>)
    requires lines != []
    ensures JoinLines([x + lines[0]] + lines[1..]) == x + JoinLines(lines)
  {
    var more := [x + lines[0]] + lines[1..];
    assert more[1..] == lines[1..];
    if |lines| > 1 {
      Prepend(x, lines[0], "\n");
      Prepend(x, lines[0] + "\n", JoinLines(lines[1..]));
    }
  }

  lemma JoinEmptyFirst(lines: seq<string>)
    requires lines != []
    ensures JoinLines([""] + lines) == "\n" + JoinLines(lines)
  {
    assert ([""] + lines)[1..] == lines;
  }

  lemma BodySplits(prompt: string)
    ensures SplitLines(Body(prompt)) != []
  {
  }

  /** How the lines of the body arise from those of its tail. */
  lemma BodyLines(prompt: string)
    requires prompt != ""
    ensures var tail := SplitLines(Body(prompt[1..]));
      && tail != []
      && SplitLines(Body(prompt)) ==
         if prompt[0] in ['\U{85}', '\U{2028}', '\U{2029}'] then [""] + tail
         else [EscapeChar(prompt[0]) + tail[0]] + tail[1..]
  {
    BodyStep(prompt);
    BodySplits(prompt[1..]);
    EscapeCharBreaks(prompt[0]);
    if prompt[0] in ['\U{85}', '\U{2028}', '\U{2029}'] {
      SplitBreakChar(prompt[0], Body(prompt[1..]));
    } else {
      SplitAfterText(EscapeChar(prompt[0]), Body(prompt[1..]));
    }
  }

  /** Parsing the rejoined lines of a body gives the prompt, or fails at the first rejoined break. */
  lemma {:induction false} RejoinedBodyParses(prompt: string)
    ensures var text := JoinLines(SplitLines(Body(prompt)));
      && text != "" && text[|text| - 1] == QUOTE
      && ParseString(text) == if Unbroken(prompt) then Ok(prompt, "") else Fail
    decreases |prompt|
  {
    if prompt == "" {
      EmptyBodyParses();
    } else {
      hide SplitLines, JoinLines, Body, EscapeChar, ParseString, Unbroken;
      assert [prompt[0]] + prompt[1..] == prompt;
      BodyLines(prompt);
      RejoinedBodyParses(prompt[1..]);
      var tail := SplitLines(Body(prompt[1..]));
      UnbrokenStep(prompt);
      if prompt[0] in ['\U{85}', '\U{2028}', '\U{2029}'] {
        JoinEmptyFirst(tail);
        RawBreakFails(JoinLines(tail));
      } else {
        JoinPrepend(EscapeChar(prompt[0]), tail);
        ParseAfterEscape(prompt[0], JoinLines(tail));
        LastOf(EscapeChar(prompt[0]), JoinLines(tail));
      }
    }
  }

  lemma LastOf(x: string, t: string)
    requires t != ""
    ensures x + t != "" && (x + t)[|x + t| - 1] == t[|t| - 1]
  {
  }

  /** A raw line break is not allowed inside a JSON string. */
  lemma RawBreakFails(t: string)
    requires t != ""
    ensures ParseString("\n" + t) == Fail && (("\n" + t)[|"\n" + t| - 1]) == t[|t| - 1]
  {
  }

  lemma EmptyBodyParses()
    ensures var text := JoinLines(SplitLines(Body("")));
      text == [QUOTE] && ParseString(text) == Ok("", "")
  {
    SplitWhole([QUOTE]);
    assert Body("") == [QUOTE] && JoinLines([[QUOTE]]) == [QUOTE];
  }

  lemma UnbrokenStep(prompt: string)
    requires prompt != ""
    ensures Unbroken(prompt) <==> prompt[0] !in ['\U{85}', '\U{2028}', '\U{2029}'] && Unbroken(prompt[1..])
  {
  }

  lemma ParseAfterEscape(c: char, rest: string)
    ensures ParseString(EscapeChar(c) + rest) ==
      match ParseString(rest) case Fail => Fail case Ok(t, end) => Ok([c] + t, end)
  {
    EscapeCharParses(c, rest);
    var s := EscapeChar(c) + rest;
    if EscapeChar(c)[0] == BACKSLASH {
      assert s[1..] == EscapeChar(c)[1..] + rest;
    } else {
      assert s[1..] == rest;
    }
  }

  // ----- a line inside the value that equals the header

  /** Every quote except a final one follows a backslash. */
  predicate Guarded(t: string) {
    forall i :: 0 <= i < |t| - 1 && t[i] == QUOTE ==> i > 0 && t[i - 1] == BACKSLASH
  }

  lemma GuardedEscape(c: char, t: string)
    requires Guarded(t) && t != ""
    ensures Guarded(EscapeChar(c) + t)
  {
  }

  lemma DropPrepended(first: string, lines: seq<string>, j: nat)
    requires 0 < j <= |lines| + 1
    ensures ([first] + lines)[j..] == lines[j - 1..]
  {
  }

  lemma DropReplaced(first: string, lines: seq<string>, j: nat)
    requires 0 < j <= |lines|
    ensures ([first] + lines[1..])[j..] == lines[j..]
  {
  }

  lemma DropNone(lines: seq<string>)
    ensures lines[0..] == lines
  {
  }

  lemma {:induction false} RejoinedSuffixGuarded(prompt: string, j: nat)
    requires j <= |SplitLines(Body(prompt))|
    ensures Guarded(JoinLines(SplitLines(Body(prompt))[j..]))
    ensures j < |SplitLines(Body(prompt))| ==> JoinLines(SplitLines(Body(prompt))[j..]) != ""
    decreases |prompt|
  {
    if prompt == "" {
      SplitWhole([QUOTE]);
      assert Body(prompt) == [QUOTE];
      DropNone([[QUOTE]]);
    } else {
      BodyLines(prompt);
      var tail := SplitLines(Body(prompt[1..]));
      var broken := prompt[0] in ['\U{85}', '\U{2028}', '\U{2029}'];
      if j > 0 {
        if broken {
          DropPrepended("", tail, j);
          RejoinedSuffixGuarded(prompt[1..], j - 1);
        } else {
          DropReplaced(EscapeChar(prompt[0]) + tail[0], tail, j);
          RejoinedSuffixGuarded(prompt[1..], j);
        }
      } else {
        RejoinedSuffixGuarded(prompt[1..], 0);
        DropNone(tail);
        DropNone(SplitLines(Body(prompt)));
        if broken {
          JoinEmptyFirst(tail);
          GuardedPrependBreak(JoinLines(tail));
        } else {
          JoinPrepend(EscapeChar(prompt[0]), tail);
          GuardedEscape(prompt[0], JoinLines(tail));
        }
      }
    }
  }

  lemma GuardedPrependBreak(t: string)
    requires Guarded(t) && t != ""
    ensures Guarded("\n" + t)
  {
  }

  /** A guarded text is never the JSON text of a string. */
  lemma GuardedRefused(t: string)
    requires Guarded(t)
    ensures SectionTask(t).Failure?
  {
    hide ParseValue, LeftStrip, RightStrip;
    var text := Strip(t);
    if text != "" {
      StrippedStart(t);
      if text[0] == QUOTE {
        GuardedQuote(t);
        LoneQuote();
      } else {
        NotAString(text);
      }
    }
  }

  lemma StrippedStart(t: string)
    requires Strip(t) != ""
    ensures LeftStrip(t) != "" && Strip(t)[0] == LeftStrip(t)[0] && SkipSpace(Strip(t)) == Strip(t)
  {
    hide LeftStrip, RightStrip;
    assert !IsWhitespace(LeftStrip(t)[0]);
  }

  /** A quote at the start of a guarded text can only be its last character. */
  lemma GuardedQuote(t: string)
    requires Guarded(t) && Strip(t) != "" && Strip(t)[0] == QUOTE
    ensures Strip(t) == [QUOTE]
  {
    StrippedStart(t);
    hide LeftStrip, RightStrip;
    var left := LeftStrip(t);
    var i := |t| - |left|;
    assert t[i] == QUOTE;
    assert i > 0 ==> IsWhitespace(t[i - 1]);
    assert |left| == 1;
  }

  lemma LoneQuote()
    ensures Loads([QUOTE]) == Malformed
  {
    assert [QUOTE][1..] == "";
    assert ParseString("") == Fail;
  }

  lemma NotAString(text: string)
    requires text != "" && text[0] != QUOTE
    ensures ParseValue(text).Ok? ==> !ParseValue(text).value.Str?
  {
  }

  // ----- what the envelope holds

  /** The sections in their order, with a blank line between them; the history is left out when there is none. */
  lemma AssembledText(semantics: string, context: string, prompt: string)
    ensures AssembleSessionPrompt(semantics, context, prompt)
      == "[harness:session-semantics]" + "\n" + semantics + "\n\n"
         + (if context == "" then "" else "[harness:session-history]" + "\n" + context + "\n\n")
         + "[harness:current-request]" + "\n" + Dumps(Str(prompt))
  {
  }

  /** What stands before and after the history section. */
  function Before(semantics: string): string {
    "[harness:session-semantics]" + "\n" + semantics + "\n\n"
  }

  function Behind(prompt: string): string {
    "[harness:current-request]" + "\n" + Dumps(Str(prompt))
  }

  /** Between the semantics and the request stands the history, from which the context is read back; or nothing. */
  lemma ContextReadBack(semantics: string, context: string, prompt: string)
    ensures var text, low := AssembleSessionPrompt(semantics, context, prompt), |Before(semantics)|;
      var high := |text| - |Behind(prompt)|;
      && low <= high && text[..low] == Before(semantics) && text[high..] == Behind(prompt)
      && (if context == "" then low == high
          else
            var header := "[harness:session-history]" + "\n";
            && low + |header| + 2 <= high && text[low..low + |header|] == header
            && text[low + |header|..high - 2] == context && text[high - 2..high] == "\n\n")
  {
    AssembledText(semantics, context, prompt);
    var text, before, behind := AssembleSessionPrompt(semantics, context, prompt), Before(semantics), Behind(prompt);
    hide AssembleSessionPrompt, Before, Behind;
    if context == "" {
      assert before + "" == before;
      assert text == before + behind by {
        SectionsJoin(semantics, "", prompt);
      }
    } else {
      var header := "[harness:session-history]" + "\n";
      assert text == before + header + context + "\n\n" + behind by {
        SectionsJoin(semantics, header + context + "\n\n", prompt);
      }
    }
  }

  lemma SectionsJoin(semantics: string, middle: string, prompt: string)
    ensures "[harness:session-semantics]" + "\n" + semantics + "\n\n" + middle + "[harness:current-request]" + "\n" + Dumps(Str(prompt))
      == Before(semantics) + middle + Behind(prompt)
  {
  }

  /** What follows the last line feed of a text, and what stands before it. */
  lemma LastLineSplits(x: string, a: string, y: string, b: string)
    requires x + "\n" + a == y + "\n" + b
    requires (forall i :: 0 <= i < |a| ==> a[i] != '\n') && (forall i :: 0 <= i < |b| ==> b[i] != '\n')
    ensures x == y && a == b
  {
    var s := x + "\n" + a;
    assert s[|x|] == '\n' && s[|y|] == '\n';
    assert s[..|x|] == x && s[..|y|] == y;
    assert s[|x| + 1..] == a && s[|y| + 1..] == b;
  }

  /** Under one semantics text, different contexts or prompts never give the same text. */
  lemma AssembleInjective(semantics: string, context: string, prompt: string, otherContext: string, otherPrompt: string)
    requires AssembleSessionPrompt(semantics, context, prompt) == AssembleSessionPrompt(semantics, otherContext, otherPrompt)
    ensures context == otherContext && prompt == otherPrompt
  {
    hide AssembleSessionPrompt, Before, Behind;
    DumpsPrintable(Str(prompt));
    DumpsPrintable(Str(otherPrompt));
    RequestLast(semantics, context, prompt);
    RequestLast(semantics, otherContext, otherPrompt);
    LastLineSplits(Framing(semantics, context) + CURRENT_REQUEST_HEADER, Dumps(Str(prompt)),
                   Framing(semantics, otherContext) + CURRENT_REQUEST_HEADER, Dumps(Str(otherPrompt)));
    DumpsInjective(Str(prompt), Str(otherPrompt));
    ContextReadBack(semantics, context, prompt);
    ContextReadBack(semantics, otherContext, otherPrompt);
  }

  lemma RequestLast(semantics: string, context: string, prompt: string)
    ensures AssembleSessionPrompt(semantics, context, prompt)
      == Framing(semantics, context) + CURRENT_REQUEST_HEADER + "\n" + Dumps(Str(prompt))
  {
    hide Framing;
  }

  // ----- the envelope theorem

  lemma QuoteLines(prompt: string)
    ensures var body := SplitLines(Body(prompt));
      && body != []
      && SplitLines(Dumps(Str(prompt))) == [[QUOTE] + body[0]] + body[1..]
  {
    SplitAfterText([QUOTE], Body(prompt));
    BodySplits(prompt);
    assert Dumps(Str(prompt)) == [QUOTE] + Body(prompt);
  }

  lemma StripQuoted(text: string)
    requires text != "" && text[0] == QUOTE && text[|text| - 1] == QUOTE
    ensures Strip(text) == text && SkipSpace(text) == text
  {
  }

  lemma LoadsQuoted(text: string)
    requires text != "" && text[0] == QUOTE
    ensures Loads(text) ==
      match ParseString(text[1..])
      case Fail => Malformed
      case Ok(s, rest) => if SkipSpace(rest) == "" then Loaded(Str(s)) else Malformed
  {
    assert SkipSpace(text) == text;
  }

  lemma QuotedSection(text: string)
    requires text != "" && text[0] == QUOTE && text[|text| - 1] == QUOTE
    ensures SectionTask(text) ==
      match ParseString(text[1..])
      case Fail => Failure(NotJson)
      case Ok(s, rest) => if SkipSpace(rest) == "" then Success(s) else Failure(NotJson)
  {
    StripQuoted(text);
    LoadsQuoted(text);
  }

  lemma Uncons(c: char, s: string)
    requires s != ""
    ensures ([c] + s)[1..] == s && ([c] + s)[0] == c && ([c] + s)[|[c] + s| - 1] == s[|s| - 1]
  {
  }

  /** The section that starts at the first line of the value. */
  lemma WholeValueTask(prompt: string)
    ensures SectionTask(JoinLines(SplitLines(Dumps(Str(prompt))))) ==
            if Unbroken(prompt) then Success(prompt) else Failure(NotJson)
  {
    QuoteLines(prompt);
    var lines := SplitLines(Body(prompt));
    JoinPrepend([QUOTE], lines);
    RejoinedBodyParses(prompt);
    Uncons(QUOTE, JoinLines(lines));
    QuotedSection([QUOTE] + JoinLines(lines));
  }

  lemma {:induction false} UnbrokenBodyLines(prompt: string)
    requires Unbroken(prompt)
    ensures |SplitLines(Body(prompt))| == 1
    decreases |prompt|
  {
    if prompt == "" {
      SplitWhole([QUOTE]);
      assert Body(prompt) == [QUOTE];
    } else {
      BodyLines(prompt);
      UnbrokenBodyLines(prompt[1..]);
    }
  }

  lemma FramingEndsLine(semantics: string, context: string)
    ensures EndsLine(Framing(semantics, context))
  {
  }

  /** The lines of an assembled prompt: framing, the genuine header, then the value. */
  lemma AssembledLines(semantics: string, context: string, prompt: string)
    ensures SplitLines(AssembleSessionPrompt(semantics, context, prompt))
         == SplitLines(Framing(semantics, context)) + [CURRENT_REQUEST_HEADER] + SplitLines(Dumps(Str(prompt)))
  {
    FramingEndsLine(semantics, context);
    SplitAtHeader(Framing(semantics, context), Dumps(Str(prompt)));
  }

  /** The last header of front, header, value: the last one in value, or else the genuine one. */
  lemma LastHeader(front: seq<string>, value: seq<string>)
    ensures var lines := front + [CURRENT_REQUEST_HEADER] + value;
      && (forall i: nat :: IsLastHeader(value, i) ==>
            IsLastHeader(lines, |front| + 1 + i) && lines[|front| + 1 + i + 1..] == value[i + 1..])
      && (CURRENT_REQUEST_HEADER !in value ==> IsLastHeader(lines, |front|) && lines[|front| + 1..] == value)
  {
    var lines := front + [CURRENT_REQUEST_HEADER] + value;
    forall i: nat | IsLastHeader(value, i)
      ensures IsLastHeader(lines, |front| + 1 + i) && lines[|front| + 1 + i + 1..] == value[i + 1..]
    {
      assert forall j :: |front| + 1 + i < j < |lines| ==> lines[j] == value[j - |front| - 1];
    }
  }

  /**
   For every context text and every prompt, what the policy reads from the assembled
   prompt is exactly the prompt when no character of it is a raw line break, and a
   refusal otherwise: never another task.
   */
  lemma EnvelopeSafety(semantics: string, context: string, prompt: string, session: string,
                       r: Result<string, Refusal>)
    requires TaskOf(Some(session), AssembleSessionPrompt(semantics, context, prompt), r)
    ensures if Unbroken(prompt) then r == Success(prompt) else r.Failure?
  {
    var front := SplitLines(Framing(semantics, context));
    var value := SplitLines(Dumps(Str(prompt)));
    AssembledLines(semantics, context, prompt);
    LastHeader(front, value);
    if CURRENT_REQUEST_HEADER in value {
      var i := LastIndex(value, CURRENT_REQUEST_HEADER);
      assert IsLastHeader(value, i);
      ForgedHeaderRefused(prompt, i);
      BrokenIfForged(prompt, i);
    } else {
      WholeValueTask(prompt);
    }
  }

  lemma BrokenIfForged(prompt: string, i: nat)
    requires var value := SplitLines(Dumps(Str(prompt)));
      0 < i < |value|
    ensures !Unbroken(prompt)
  {
    QuoteLines(prompt);
    if Unbroken(prompt) {
      UnbrokenBodyLines(prompt);
    }
  }

  lemma LastIndex(lines: seq<string>, line: string) returns (k: nat)
    requires exists i :: 0 <= i < |lines| && lines[i] == line
    ensures k < |lines| && lines[k] == line
    ensures forall i :: k < i < |lines| ==> lines[i] != line
  {
    k := |lines| - 1;
    while lines[k] != line
      invariant 0 <= k < |lines|
      decreases k
      invariant exists i :: 0 <= i <= k && lines[i] == line
      invariant forall i :: k < i < |lines| ==> lines[i] != line
    {
      k := k - 1;
    }
  }

  /** A header line inside the value never yields a task. */
  lemma ForgedHeaderRefused(prompt: string, i: nat)
    requires var value := SplitLines(Dumps(Str(prompt)));
      i < |value| && value[i] == CURRENT_REQUEST_HEADER
    ensures i > 0
    ensures SectionTask(JoinLines(SplitLines(Dumps(Str(prompt)))[i + 1..])).Failure?
  {
    hide SplitLines, JoinLines, SectionTask, Guarded;
    QuoteLines(prompt);
    HeaderLine();
    var value, body := SplitLines(Dumps(Str(prompt))), SplitLines(Body(prompt));
    assert i > 0;
    assert value[i + 1..] == body[i + 1..];
    RejoinedSuffixGuarded(prompt, i + 1);
    GuardedRefused(JoinLines(body[i + 1..]));
  }
}
