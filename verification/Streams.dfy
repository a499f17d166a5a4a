/** What the parser of Prime event streams tells, in terms of the raw lines and of the fields of their events. */
module Streams {
  import opened Json
  import opened Prime
  import opened Text
  import opened Wrappers

  // ----- the counters

  /** The line is no event, or, to a strict parser, lacks what its type needs. */
  predicate IsMalformed(raw: string, read: Reader, strict: bool) {
    !IsBlank(raw) && (read(Strip(raw)).None? || (strict && !HasShape(read(Strip(raw)).value)))
  }

  predicate HasShape(v: Json) {
    && v.Obj?
    && (Get(v, "type") == Str("agent_end") ==> "messages" in v.fields && v.fields["messages"].Arr?)
    && (Get(v, "type") in {Str("message_end"), Str("turn_end")} ==> "message" in v.fields && v.fields["message"].Obj?)
  }

  predicate EndsRun(raw: string, read: Reader, strict: bool) {
    !IsBlank(raw) && !IsMalformed(raw, read, strict) && Get(read(Strip(raw)).value, "type") == Str("agent_end")
  }

  /** The line is not blank and follows an end of the run. */
  predicate IsTrailing(raws: seq<string>, read: Reader, strict: bool, i: nat)
    requires i < |raws|
  {
    !IsBlank(raws[i]) && exists j :: 0 <= j < i && EndsRun(raws[j], read, strict)
  }

  function Malformed(raws: seq<string>, read: Reader, strict: bool): set<nat> {
    set i | 0 <= i < |raws| && IsMalformed(raws[i], read, strict)
  }

  function Ends(raws: seq<string>, read: Reader, strict: bool): set<nat> {
    set i | 0 <= i < |raws| && EndsRun(raws[i], read, strict)
  }

  function Trailing(raws: seq<string>, read: Reader, strict: bool): set<nat> {
    set i | 0 <= i < |raws| && IsTrailing(raws, read, strict, i)
  }

  lemma LineExact(raw: string, read: Reader, strict: bool)
    ensures var line := Classify(raw, read, strict);
      && (line.Blank? <==> IsBlank(raw)) && (line.Broken? <==> IsMalformed(raw, read, strict))
      && (IsEnd(line) <==> EndsRun(raw, read, strict))
      && (line.Event? ==> read(Strip(raw)) == Some(line.event))
      && (line.Other? ==> read(Strip(raw)).Some? && !read(Strip(raw)).value.Obj?)
  {
    hide Strip;
  }

  /** One more line, one more number or none. */
  lemma CountOne(before: set<nat>, after: set<nat>, n: nat, counts: bool)
    requires n !in before && after == if counts then before + {n} else before
    ensures |after| == |before| + if counts then 1 else 0
  {
  }

  /** The counters count the lines: the malformed ones, the ends, and those after an end that are not blank. */
  lemma {:induction false} CountersExact(raws: seq<string>, read: Reader, strict: bool)
    ensures CountMalformed(Lines(raws, read, strict)) == |Malformed(raws, read, strict)|
    ensures CountEnds(Lines(raws, read, strict)) == |Ends(raws, read, strict)|
    ensures CountTrailing(Lines(raws, read, strict)) == |Trailing(raws, read, strict)|
    decreases |raws|
  {
    hide Classify, IsMalformed, EndsRun, IsBlank, IsEnd;
    if raws == [] {
      assert Malformed(raws, read, strict) == {} && Ends(raws, read, strict) == {} && Trailing(raws, read, strict) == {};
    } else {
      var n := |raws| - 1;
      var before, last := raws[..n], Classify(raws[n], read, strict);
      CountersExact(before, read, strict);
      LineExact(raws[n], read, strict);
      assert Lines(raws, read, strict) == Lines(before, read, strict) + [last];
      CountAppend(Lines(before, read, strict), last);
      LastMalformed(raws, read, strict);
      LastEnds(raws, read, strict);
      LastTrailing(raws, read, strict);
    }
  }

  lemma LastMalformed(raws: seq<string>, read: Reader, strict: bool)
    requires raws != []
    ensures |Malformed(raws, read, strict)|
      == |Malformed(raws[..|raws| - 1], read, strict)| + if IsMalformed(raws[|raws| - 1], read, strict) then 1 else 0
  {
    hide IsMalformed;
    var n := |raws| - 1;
    CountOne(Malformed(raws[..n], read, strict), Malformed(raws, read, strict), n, IsMalformed(raws[n], read, strict));
  }

  lemma LastEnds(raws: seq<string>, read: Reader, strict: bool)
    requires raws != []
    ensures |Ends(raws, read, strict)| == |Ends(raws[..|raws| - 1], read, strict)| + if EndsRun(raws[|raws| - 1], read, strict) then 1 else 0
  {
    hide EndsRun;
    var n := |raws| - 1;
    CountOne(Ends(raws[..n], read, strict), Ends(raws, read, strict), n, EndsRun(raws[n], read, strict));
  }

  lemma TrailsBefore(raws: seq<string>, read: Reader, strict: bool, n: nat, i: nat)
    requires i < n <= |raws|
    ensures IsTrailing(raws, read, strict, i) <==> IsTrailing(raws[..n], read, strict, i)
  {
    hide EndsRun, IsBlank;
    assert forall j :: 0 <= j < n ==> raws[..n][j] == raws[j];
  }

  lemma SomeEnd(raws: seq<string>, read: Reader, strict: bool)
    ensures |Ends(raws, read, strict)| > 0 <==> exists j :: 0 <= j < |raws| && EndsRun(raws[j], read, strict)
  {
    hide EndsRun;
    if j :| 0 <= j < |raws| && EndsRun(raws[j], read, strict) {
      assert j in Ends(raws, read, strict);
    } else {
      assert Ends(raws, read, strict) == {};
    }
  }

  lemma TrailsLast(raws: seq<string>, read: Reader, strict: bool)
    requires raws != []
    ensures var n := |raws| - 1;
      IsTrailing(raws, read, strict, n) <==> |Ends(raws[..n], read, strict)| > 0 && !IsBlank(raws[n])
  {
    hide EndsRun, IsBlank, Ends;
    var n := |raws| - 1;
    SomeEnd(raws[..n], read, strict);
    assert forall j :: 0 <= j < n ==> raws[..n][j] == raws[j];
  }

  lemma TrailingGrows(raws: seq<string>, read: Reader, strict: bool)
    requires raws != []
    ensures var n := |raws| - 1;
      Trailing(raws, read, strict)
      == if IsTrailing(raws, read, strict, n) then Trailing(raws[..n], read, strict) + {n} else Trailing(raws[..n], read, strict)
  {
    hide IsTrailing;
    var n := |raws| - 1;
    forall i | 0 <= i < n
      ensures IsTrailing(raws, read, strict, i) <==> IsTrailing(raws[..n], read, strict, i)
    {
      TrailsBefore(raws, read, strict, n, i);
    }
  }

  lemma LastTrailing(raws: seq<string>, read: Reader, strict: bool)
    requires raws != []
    ensures var n := |raws| - 1;
      |Trailing(raws, read, strict)|
      == |Trailing(raws[..n], read, strict)| + if |Ends(raws[..n], read, strict)| > 0 && !IsBlank(raws[n]) then 1 else 0
  {
    var n := |raws| - 1;
    TrailsLast(raws, read, strict);
    TrailingGrows(raws, read, strict);
    assert n !in Trailing(raws[..n], read, strict);
    hide *;
  }

  // ----- the error told

  /** The message at k is an error, told by this text and code, and no later message is one. */
  ghost predicate IsLastError(messages: seq<Json>, k: nat, error: (string, string)) {
    && k < |messages| && IsError(messages[k], error.0)
    && ((exists code :: IsCode(messages[k], code) && code != "" && error.1 == code)
        || (error.1 == "provider_error" && forall code :: IsCode(messages[k], code) ==> code == ""))
    && forall i :: k < i < |messages| ==> !IsFaulty(messages[i])
  }

  lemma CodeTold(m: Json)
    ensures (exists code :: IsCode(m, code) && code != "" && ErrorCode(m) == code)
      || (ErrorCode(m) == "provider_error" && forall code :: IsCode(m, code) ==> code == "")
  {
    CodeExact(m);
    hide IsCode, ErrorCode;
  }

  /** The error told is that of the last message that is one. */
  lemma {:induction false} LastErrorExact(messages: seq<Json>)
    ensures LastError(messages).None? <==> forall m :: m in messages ==> !IsFaulty(m)
    ensures LastError(messages).Some? ==> exists k :: IsLastError(messages, k, LastError(messages).value)
  {
    hide ErrorText, ErrorCode, IsError, IsCode, IsFaulty;
    if messages != [] {
      var n := |messages| - 1;
      var before, last := messages[..n], messages[n];
      LastErrorExact(before);
      ErrorExact(last);
      CodeTold(last);
      assert messages == before + [last];
      LastErrorAppend(before, last);
      if ErrorOf(last).Some? {
        assert IsLastError(messages, n, ErrorOf(last).value);
      } else if LastError(before).Some? {
        var k :| IsLastError(before, k, LastError(before).value);
        assert IsLastError(messages, k, LastError(messages).value);
      }
    }
  }

  /** A strict parse without a message that is an error tells malformed lines first, and then what follows the end of the run. */
  lemma StrictTold(raws: seq<string>, read: Reader)
    ensures var lines := Lines(raws, read, true);
      LastError(AllScanned(lines)).None? ==>
        StrictError(LastError(AllScanned(lines)), CountMalformed(lines), CountTrailing(lines)) ==
        if exists i :: 0 <= i < |raws| && IsMalformed(raws[i], read, true)
        then Some(("provider stream contained malformed JSON events", "malformed_stream"))
        else if exists i :: 0 <= i < |raws| && IsTrailing(raws, read, true, i)
        then Some(("provider stream contained records after its terminal event", "trailing_stream"))
        else None
    ensures forall error: Option<(string, string)>, malformed, trailing :: error.Some? ==> StrictError(error, malformed, trailing) == error
  {
    CountersExact(raws, read, true);
    SomeCounted(raws, read, true);
    hide IsMalformed, IsTrailing, AllScanned, LastError, Malformed, Trailing, CountMalformed, CountTrailing, Lines;
  }

  lemma SomeCounted(raws: seq<string>, read: Reader, strict: bool)
    ensures |Malformed(raws, read, strict)| > 0 <==> exists i :: 0 <= i < |raws| && IsMalformed(raws[i], read, strict)
    ensures |Trailing(raws, read, strict)| > 0 <==> exists i :: 0 <= i < |raws| && IsTrailing(raws, read, strict, i)
  {
    hide IsMalformed, IsTrailing;
    if i :| 0 <= i < |raws| && IsMalformed(raws[i], read, strict) {
      assert i in Malformed(raws, read, strict);
    } else {
      assert Malformed(raws, read, strict) == {};
    }
    if i :| 0 <= i < |raws| && IsTrailing(raws, read, strict, i) {
      assert i in Trailing(raws, read, strict);
    } else {
      assert Trailing(raws, read, strict) == {};
    }
  }

  // ----- the session told

  /** The event names this session: itself, under the first of its keys that holds a string, or else by its message. */
  ghost predicate IsNamed(event: Json, s: string) {
    || IsFirstStr(event, ["sessionId", "session_id", "sessionID"], s)
    || (NoName(event) && Get(event, "type") in {Str("message_end"), Str("turn_end")}
        && Get(event, "message").Obj? && IsFirstStr(Get(event, "message"), ["sessionId", "session_id", "sessionID"], s))
  }

  ghost predicate NoName(event: Json) {
    forall s :: !IsFirstStr(event, ["sessionId", "session_id", "sessionID"], s)
  }

  lemma NamedExact(event: Json)
    ensures forall s :: SessionOf(Event(event)) == Some(s) <==> IsNamed(event, s)
  {
    FirstStrExact(event, ["sessionId", "session_id", "sessionID"]);
    FirstStrExact(Get(event, "message"), ["sessionId", "session_id", "sessionID"]);
    hide FirstStr, IsFirstStr;
    var own := FirstStr(event, ["sessionId", "session_id", "sessionID"]);
    assert own.Some? ==> IsFirstStr(event, ["sessionId", "session_id", "sessionID"], own.value);
  }
}
