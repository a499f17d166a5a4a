/**
 The parser of Prime event streams (harness2/events.py). The reader that turns a line into
 a JSON value, or refuses it, is a parameter: what is proved holds for every reader.
 */
module Prime {
  import opened Json
  import opened Text
  import opened Wrappers

  type Reader = string -> Option<Json>

  // ----- Python's dict.get and the first string under some keys

  function Get(v: Json, key: string): Json {
    if v.Obj? && key in v.fields then v.fields[key] else Null
  }

  function FirstStr(v: Json, keys: seq<string>): Option<string> {
    if keys == [] then None else if Get(v, keys[0]).Str? then Some(Get(v, keys[0]).s) else FirstStr(v, keys[1..])
  }

  // ----- one message

  /** Only the assistant's messages, and those of no one, carry text. */
  predicate IsAssistant(m: Json) {
    m.Obj? && (Get(m, "role") == Str("assistant") || Get(m, "role") == Null)
  }

  datatype Fingerprint = Fingerprint(role: Json, stopReason: Json, errorMessage: Json, content: Json)

  function PrintOf(m: Json): Fingerprint {
    Fingerprint(Get(m, "role"), Get(m, "stopReason"), Get(m, "errorMessage"), Get(m, "content"))
  }

  function BlockText(block: Json): string {
    match block
    case Str(s) => s
    case Obj(_) =>
      if Get(block, "type") in {Null, Str("text"), Str("input_text")} && Get(block, "text").Str? then Get(block, "text").s else ""
    case _ => ""
  }

  function BlocksText(blocks: seq<Json>): string {
    if blocks == [] then "" else BlocksText(blocks[..|blocks| - 1]) + BlockText(blocks[|blocks| - 1])
  }

  function MessageText(m: Json): string {
    match Get(m, "content")
    case Str(s) => s
    case Arr(blocks) => BlocksText(blocks)
    case _ => ""
  }

  predicate StopsBadly(m: Json) {
    Get(m, "stopReason") in {Str("error"), Str("aborted")}
  }

  /** The text of the message's errorMessage, if there is one. */
  function OwnError(m: Json): Option<string> {
    var e := Get(m, "errorMessage");
    var text := if e.Obj? then FirstStr(e, ["message", "error", "detail"]) else if e.Str? then Some(e.s) else None;
    if text == Some("") then None else text
  }

  /** A nested error object speaks when the message itself does not, and a bad stop when neither does; an empty text silences. */
  function ErrorText(m: Json): Option<string> {
    var own := OwnError(m);
    var found := if own.None? && Get(m, "error").Obj? then FirstStr(Get(m, "error"), ["message", "error", "detail"]) else own;
    var text := if found.None? && StopsBadly(m) then Some("Agent stopped with reason: " + Get(m, "stopReason").s) else found;
    if text == Some("") then None else text
  }

  function ErrorCode(m: Json): string {
    var nested := if Get(m, "error").Obj? then FirstStr(Get(m, "error"), ["code", "name", "errorCode"]) else None;
    var flat := if nested.None? then FirstStr(m, ["errorCode", "error_code"]) else nested;
    var code := if flat.None? && StopsBadly(m) then Some(Get(m, "stopReason").s) else flat;
    if code.None? || code.value == "" then "provider_error" else code.value
  }

  function ErrorOf(m: Json): Option<(string, string)> {
    match ErrorText(m)
    case None => None
    case Some(text) => Some((text, ErrorCode(m)))
  }

  // ----- what makes a message an error, in its own fields

  /** The string s is the first one that stands under one of the keys. */
  ghost predicate IsFirstStr(v: Json, keys: seq<string>, s: string) {
    exists i :: 0 <= i < |keys| && Get(v, keys[i]) == Str(s) && forall j :: 0 <= j < i ==> !Get(v, keys[j]).Str?
  }

  lemma {:induction false} FirstStrExact(v: Json, keys: seq<string>)
    ensures forall s :: FirstStr(v, keys) == Some(s) <==> IsFirstStr(v, keys, s)
    decreases |keys|
  {
    if keys != [] {
      FirstStrExact(v, keys[1..]);
      forall s
        ensures FirstStr(v, keys) == Some(s) <==> IsFirstStr(v, keys, s)
      {
        FirstStrStep(v, keys, s);
      }
    }
  }

  lemma FirstStrStep(v: Json, keys: seq<string>, s: string)
    requires keys != []
    ensures IsFirstStr(v, keys, s) <==> if Get(v, keys[0]).Str? then Get(v, keys[0]) == Str(s) else IsFirstStr(v, keys[1..], s)
  {
    if Get(v, keys[0]).Str? {
      assert IsFirstStr(v, keys, s) <== Get(v, keys[0]) == Str(s);
    } else {
      if IsFirstStr(v, keys[1..], s) {
        var i :| 0 <= i < |keys[1..]| && Get(v, keys[1..][i]) == Str(s) && forall j :: 0 <= j < i ==> !Get(v, keys[1..][j]).Str?;
        assert forall j :: 0 < j <= i ==> keys[j] == keys[1..][j - 1];
        assert keys[i + 1] == keys[1..][i];
      }
      if IsFirstStr(v, keys, s) {
        var i :| 0 <= i < |keys| && Get(v, keys[i]) == Str(s) && forall j :: 0 <= j < i ==> !Get(v, keys[j]).Str?;
        assert keys[1..][i - 1] == keys[i];
        assert forall j :: 0 <= j < i - 1 ==> keys[1..][j] == keys[j + 1];
      }
    }
  }

  /** The message's own text: under errorMessage, as a string or in an object. */
  ghost predicate OwnText(m: Json, s: string) {
    var e := Get(m, "errorMessage");
    s != "" && (e == Str(s) || (e.Obj? && IsFirstStr(e, ["message", "error", "detail"], s)))
  }

  /** The text of the message's error object. */
  ghost predicate NestedText(m: Json, s: string) {
    Get(m, "error").Obj? && IsFirstStr(Get(m, "error"), ["message", "error", "detail"], s)
  }

  ghost predicate StopsWith(m: Json, reason: string) {
    Get(m, "stopReason") == Str(reason) && reason in ["error", "aborted"]
  }

  /**
   The message is an error with this text: its own; or without one that of its error object,
   unless it is empty; or, when there is no text at all, a bad stop.
   */
  ghost predicate IsError(m: Json, text: string) {
    || OwnText(m, text)
    || ((forall s :: !OwnText(m, s)) && NestedText(m, text) && text != "")
    || ((forall s :: !OwnText(m, s) && !NestedText(m, s))
        && exists reason :: StopsWith(m, reason) && text == "Agent stopped with reason: " + reason)
  }

  ghost predicate IsFaulty(m: Json) {
    exists text :: IsError(m, text)
  }

  lemma OwnExact(m: Json)
    ensures forall s :: OwnError(m) == Some(s) <==> OwnText(m, s)
  {
    FirstStrExact(Get(m, "errorMessage"), ["message", "error", "detail"]);
    hide FirstStr, IsFirstStr;
  }

  lemma NestedExact(m: Json)
    ensures forall s :: (Get(m, "error").Obj? && FirstStr(Get(m, "error"), ["message", "error", "detail"]) == Some(s)) <==> NestedText(m, s)
  {
    FirstStrExact(Get(m, "error"), ["message", "error", "detail"]);
    hide FirstStr, IsFirstStr;
  }

  /** The error that the parser records of a message is the one its fields make. */
  lemma ErrorExact(m: Json)
    ensures forall text :: ErrorText(m) == Some(text) <==> IsError(m, text)
    ensures ErrorOf(m).Some? <==> IsFaulty(m)
    ensures ErrorOf(m).Some? ==> IsError(m, ErrorOf(m).value.0)
  {
    hide ErrorText, IsError, ErrorCode;
    forall text
      ensures ErrorText(m) == Some(text) <==> IsError(m, text)
    {
      ErrorTextExact(m, text);
    }
    if ErrorText(m).Some? {
      assert IsError(m, ErrorText(m).value);
    }
  }

  lemma ErrorTextExact(m: Json, text: string)
    ensures ErrorText(m) == Some(text) <==> IsError(m, text)
  {
    OwnExact(m);
    NestedExact(m);
    hide FirstStr, OwnError, OwnText, NestedText;
    var own := OwnError(m);
    var nested := if Get(m, "error").Obj? then FirstStr(Get(m, "error"), ["message", "error", "detail"]) else None;
    if own.Some? {
      assert OwnText(m, own.value);
      NotEmpty(m, own.value);
    } else if nested.Some? {
      assert NestedText(m, nested.value);
    } else if StopsBadly(m) {
      assert StopsWith(m, Get(m, "stopReason").s);
    }
  }

  lemma NotEmpty(m: Json, s: string)
    requires OwnText(m, s)
    ensures s != ""
  {
  }

  /** The code: that of the error object, of the message, or of a bad stop, the first that there is; an empty one stands for none. */
  ghost predicate IsCode(m: Json, code: string) {
    || (Get(m, "error").Obj? && IsFirstStr(Get(m, "error"), ["code", "name", "errorCode"], code))
    || (NoNestedCode(m) && IsFirstStr(m, ["errorCode", "error_code"], code))
    || (NoNestedCode(m) && (forall c :: !IsFirstStr(m, ["errorCode", "error_code"], c)) && StopsWith(m, code))
  }

  ghost predicate NoNestedCode(m: Json) {
    Get(m, "error").Obj? ==> forall c :: !IsFirstStr(Get(m, "error"), ["code", "name", "errorCode"], c)
  }

  lemma CodeExact(m: Json)
    ensures forall code :: IsCode(m, code) ==> ErrorCode(m) == if code == "" then "provider_error" else code
    ensures (forall code :: !IsCode(m, code)) ==> ErrorCode(m) == "provider_error"
  {
    FirstStrExact(Get(m, "error"), ["code", "name", "errorCode"]);
    FirstStrExact(m, ["errorCode", "error_code"]);
    hide FirstStr, IsFirstStr;
    var nested := FirstStr(Get(m, "error"), ["code", "name", "errorCode"]);
    var flat := FirstStr(m, ["errorCode", "error_code"]);
    if Get(m, "error").Obj? && nested.Some? {
      assert IsCode(m, nested.value);
    } else if flat.Some? {
      assert IsCode(m, flat.value);
    } else if StopsBadly(m) {
      assert IsCode(m, Get(m, "stopReason").s);
    }
  }

  // ----- what a message says

  /** What one block of a message's content adds to its text. */
  lemma BlockTextExact(block: Json)
    ensures BlockText(block) ==
      if block.Str? then block.s
      else if block.Obj? && "text" in block.fields && block.fields["text"].Str?
        && ("type" !in block.fields || block.fields["type"] in {Null, Str("text"), Str("input_text")}) then block.fields["text"].s
      else ""
  {
  }

  /** The text of a message: its content, or the texts of its content's blocks, one after the other. */
  lemma MessageTextExact(m: Json)
    ensures MessageText(m) ==
      if m.Obj? && "content" in m.fields && m.fields["content"].Str? then m.fields["content"].s
      else if m.Obj? && "content" in m.fields && m.fields["content"].Arr? then BlocksText(m.fields["content"].items)
      else ""
    ensures BlocksText([]) == "" && forall blocks, block :: BlocksText(blocks + [block]) == BlocksText(blocks) + BlockText(block)
  {
    forall blocks, block
      ensures BlocksText(blocks + [block]) == BlocksText(blocks) + BlockText(block)
    {
      assert (blocks + [block])[..|blocks|] == blocks;
    }
  }

  // ----- one line

  datatype Line = Blank | Broken | Other | Event(event: Json)

  predicate EndsStream(event: Json) {
    Get(event, "type") == Str("agent_end")
  }

  predicate EndsMessage(event: Json) {
    Get(event, "type") in {Str("message_end"), Str("turn_end")}
  }

  predicate WellShaped(event: Json) {
    && event.Obj?
    && (EndsStream(event) ==> Get(event, "messages").Arr?)
    && (EndsMessage(event) ==> Get(event, "message").Obj?)
  }

  /** What a line is; a strict parser counts every value that is not a well-shaped event as malformed. */
  function Classify(raw: string, read: Reader, strict: bool): Line {
    var line := Strip(raw);
    if line == "" then Blank
    else
      match read(line)
      case None => Broken
      case Some(v) =>
        if strict && !WellShaped(v) then Broken
        else if v.Obj? then Event(v)
        else Other
  }

  function LastAssistant(messages: seq<Json>): (last: seq<Json>)
    ensures |last| <= 1
  {
    if messages == [] then []
    else if IsAssistant(messages[|messages| - 1]) then [messages[|messages| - 1]]
    else LastAssistant(messages[..|messages| - 1])
  }

  function OnlyObjects(messages: seq<Json>): seq<Json> {
    if messages == [] then []
    else
      OnlyObjects(messages[..|messages| - 1])
      + if messages[|messages| - 1].Obj? then [messages[|messages| - 1]] else []
  }

  /** The messages of an event that are searched for errors. */
  function Scanned(line: Line): seq<Json> {
    if !line.Event? then []
    else if EndsStream(line.event) then
      if Get(line.event, "messages").Arr? then OnlyObjects(Get(line.event, "messages").items) else []
    else if EndsMessage(line.event) && Get(line.event, "message").Obj? then [Get(line.event, "message")]
    else []
  }

  /** The message of an event whose text counts, if there is one. */
  function Spoken(line: Line): seq<Json> {
    if !line.Event? then []
    else if EndsStream(line.event) then
      if Get(line.event, "messages").Arr? then LastAssistant(Get(line.event, "messages").items) else []
    else if EndsMessage(line.event) && IsAssistant(Get(line.event, "message")) then [Get(line.event, "message")]
    else []
  }

  const SESSION_KEYS: seq<string> := ["sessionId", "session_id", "sessionID"]

  /** The session an event names: itself, or by its message. */
  function SessionOf(line: Line): Option<string> {
    if !line.Event? then None
    else
      var own := FirstStr(line.event, SESSION_KEYS);
      if own.None? && EndsMessage(line.event) && Get(line.event, "message").Obj?
      then FirstStr(Get(line.event, "message"), SESSION_KEYS)
      else own
  }

  predicate IsEnd(line: Line) {
    line.Event? && EndsStream(line.event)
  }

  // ----- what a stream says

  /** The lines as the parser takes them. */
  function Lines(raws: seq<string>, read: Reader, strict: bool): (lines: seq<Line>)
    ensures |lines| == |raws| && forall i :: 0 <= i < |raws| ==> lines[i] == Classify(raws[i], read, strict)
  {
    seq(|raws|, i requires 0 <= i < |raws| => Classify(raws[i], read, strict))
  }

  function AllSpoken(lines: seq<Line>): seq<Json> {
    if lines == [] then [] else AllSpoken(lines[..|lines| - 1]) + Spoken(lines[|lines| - 1])
  }

  function AllScanned(lines: seq<Line>): seq<Json> {
    if lines == [] then [] else AllScanned(lines[..|lines| - 1]) + Scanned(lines[|lines| - 1])
  }

  /** A message repeated at once is the same message, told by another event. */
  function Collapsed(messages: seq<Json>): seq<Json> {
    if messages == [] then []
    else
      var n := |messages| - 1;
      Collapsed(messages[..n])
      + if n == 0 || PrintOf(messages[n]) != PrintOf(messages[n - 1]) then [messages[n]] else []
  }

  /** The session that the first event names one that names any. */
  function Session(lines: seq<Line>): Option<string> {
    if lines == [] then None
    else
      var earlier := Session(lines[..|lines| - 1]);
      if earlier.Some? then earlier else SessionOf(lines[|lines| - 1])
  }

  /** The message of an event that counts: the assistant's own, or the last of the assistant's when the run ends. */
  lemma SpokenExact(event: Json, m: Json)
    ensures m in Spoken(Event(event)) <==>
      if Get(event, "type") == Str("agent_end") then Get(event, "messages").Arr? && IsLastAssistant(Get(event, "messages").items, m)
      else Get(event, "type") in {Str("message_end"), Str("turn_end")} && m == Get(event, "message") && FromAssistant(m)
    ensures |Spoken(Event(event))| <= 1
  {
    if Get(event, "messages").Arr? {
      LastAssistantExact(Get(event, "messages").items, m);
    }
  }

  /** The message names the assistant as its role, or no role. */
  predicate FromAssistant(m: Json) {
    m.Obj? && ("role" !in m.fields || m.fields["role"] in {Null, Str("assistant")})
  }

  ghost predicate IsLastAssistant(messages: seq<Json>, m: Json) {
    exists i :: 0 <= i < |messages| && messages[i] == m && FromAssistant(m) && forall j :: i < j < |messages| ==> !FromAssistant(messages[j])
  }

  lemma {:induction false} LastAssistantExact(messages: seq<Json>, m: Json)
    ensures m in LastAssistant(messages) <==> IsLastAssistant(messages, m)
    decreases |messages|
  {
    if messages != [] {
      var n := |messages| - 1;
      var before, last := messages[..n], messages[n];
      LastAssistantExact(before, m);
      if FromAssistant(last) {
        assert IsLastAssistant(messages, last);
      } else {
        if IsLastAssistant(before, m) {
          var i :| 0 <= i < |before| && before[i] == m && FromAssistant(m) && forall j :: i < j < |before| ==> !FromAssistant(before[j]);
          assert messages[i] == m && forall j :: i < j < n ==> messages[j] == before[j];
        }
        if IsLastAssistant(messages, m) {
          var i :| 0 <= i < |messages| && messages[i] == m && FromAssistant(m)
            && forall j :: i < j < |messages| ==> !FromAssistant(messages[j]);
          assert before[i] == m && forall j :: i < j < n ==> messages[j] == before[j];
        }
      }
    }
  }

  /** The messages that count, in their order, each unless it equals the one before in role, stop reason, error and content. */
  lemma TranscriptGrows(messages: seq<Json>, m: Json)
    ensures Transcript(Collapsed(messages + [m])) == Transcript(Collapsed(messages)) +
      if messages != [] && SameTelling(messages[|messages| - 1], m) then "" else MessageText(m)
    ensures Transcript(Collapsed([])) == ""
  {
    hide MessageText, Collapsed, Transcript, Get;
    assert Transcript(Collapsed([])) == "" by {
      NothingTold();
    }
    CollapsedAppend(messages, m);
    TranscriptAppend(Collapsed(messages), m);
    SameMeansRepeated(messages, m);
  }

  lemma NothingTold()
    ensures Transcript(Collapsed([])) == ""
  {
  }

  lemma SameMeansRepeated(messages: seq<Json>, m: Json)
    ensures IsRepeated(LastPrint(messages), m) <==> messages != [] && SameTelling(messages[|messages| - 1], m)
  {
    hide Get;
  }

  predicate SameTelling(a: Json, b: Json) {
    && Get(a, "role") == Get(b, "role") && Get(a, "stopReason") == Get(b, "stopReason")
    && Get(a, "errorMessage") == Get(b, "errorMessage") && Get(a, "content") == Get(b, "content")
  }

  function Transcript(messages: seq<Json>): string {
    if messages == [] then "" else Transcript(messages[..|messages| - 1]) + MessageText(messages[|messages| - 1])
  }

  /** The error of the last message that has one. */
  function LastError(messages: seq<Json>): Option<(string, string)> {
    if messages == [] then None
    else
      var last := ErrorOf(messages[|messages| - 1]);
      if last.Some? then last else LastError(messages[..|messages| - 1])
  }

  function CountMalformed(lines: seq<Line>): nat {
    if lines == [] then 0
    else CountMalformed(lines[..|lines| - 1]) + if lines[|lines| - 1].Broken? then 1 else 0
  }

  function CountEnds(lines: seq<Line>): nat {
    if lines == [] then 0 else CountEnds(lines[..|lines| - 1]) + if IsEnd(lines[|lines| - 1]) then 1 else 0
  }

  /** The lines after the first end that are not blank. */
  function CountTrailing(lines: seq<Line>): nat {
    if lines == [] then 0
    else
      var n := |lines| - 1;
      CountTrailing(lines[..n]) + if CountEnds(lines[..n]) > 0 && !lines[n].Blank? then 1 else 0
  }

  lemma LastErrorAppend(messages: seq<Json>, m: Json)
    ensures LastError(messages + [m]) == if ErrorOf(m).Some? then ErrorOf(m) else LastError(messages)
  {
    assert (messages + [m])[..|messages|] == messages;
  }

  // ----- the parser

  datatype ParseResult = ParseResult(
    text: string, session: Option<string>, error: Option<(string, string)>, rawEvents: nat, sawTerminal: bool, malformed: nat, terminals: nat, trailing: nat)
  {
    predicate Success() {
      error.None? && sawTerminal
    }
  }

  /** Whether a message is the last one spoken, told again. */
  predicate IsRepeated(last: Option<Fingerprint>, m: Json) {
    last == Some(PrintOf(m))
  }

  function LastPrint(messages: seq<Json>): Option<Fingerprint> {
    if messages == [] then None else Some(PrintOf(messages[|messages| - 1]))
  }

  class Parser {
    var text: string
    var error: Option<(string, string)>
    var lastFingerprint: Option<Fingerprint>
    var session: Option<string>

    constructor ()
      ensures text == "" && error == None && lastFingerprint == None && session == None
    {
      text, error, lastFingerprint, session := "", None, None, None;
    }

    method AppendText(m: Json)
      modifies this`text
      ensures text == old(text) + MessageText(m)
    {
      var content := Get(m, "content");
      if content.Str? {
        text := text + content.s;
        return;
      }
      if !content.Arr? {
        assert text == old(text) + "";
        return;
      }
      var blocks := content.items;
      for i := 0 to |blocks|
        invariant text == old(text) + BlocksText(blocks[..i])
      {
        assert blocks[..i + 1][..i] == blocks[..i];
        text := text + BlockText(blocks[i]);
      }
      assert blocks[..|blocks|] == blocks;
    }

    method RecordError(m: Json)
      modifies this`error
      ensures error == if ErrorOf(m).Some? then ErrorOf(m) else old(error)
    {
      if ErrorOf(m).Some? {
        error := ErrorOf(m);
      }
    }

    /** An assistant's message counts unless it repeats the one before. */
    method Speak(m: Json)
      modifies this`text, this`lastFingerprint
      ensures lastFingerprint == Some(PrintOf(m))
      ensures text == if IsRepeated(old(lastFingerprint), m) then old(text) else old(text) + MessageText(m)
    {
      if lastFingerprint != Some(PrintOf(m)) {
        lastFingerprint := Some(PrintOf(m));
        AppendText(m);
      }
    }

    method ConsumeAgentEnd(messages: seq<Json>)
      modifies this`text, this`error, this`lastFingerprint
      ensures var scanned := OnlyObjects(messages);
        error == if LastError(scanned).Some? then LastError(scanned) else old(error)
      ensures var spoken := LastAssistant(messages);
        if spoken == [] then text == old(text) && lastFingerprint == old(lastFingerprint)
        else
          && lastFingerprint == Some(PrintOf(spoken[0]))
          && text == if IsRepeated(old(lastFingerprint), spoken[0]) then old(text) else old(text) + MessageText(spoken[0])
    {
      for i := 0 to |messages|
        invariant text == old(text) && lastFingerprint == old(lastFingerprint)
        invariant error == if LastError(OnlyObjects(messages[..i])).Some? then LastError(OnlyObjects(messages[..i])) else old(error)
      {
        assert messages[..i + 1][..i] == messages[..i];
        LastErrorAppend(OnlyObjects(messages[..i]), messages[i]);
        assert OnlyObjects(messages[..i]) + [] == OnlyObjects(messages[..i]);
        if messages[i].Obj? {
          RecordError(messages[i]);
        }
      }
      assert messages[..|messages|] == messages;
      var i := |messages|;
      while i > 0
        invariant 0 <= i <= |messages| && LastAssistant(messages[..i]) == LastAssistant(messages)
        invariant text == old(text) && lastFingerprint == old(lastFingerprint)
        invariant error == if LastError(OnlyObjects(messages)).Some? then LastError(OnlyObjects(messages)) else old(error)
      {
        i := i - 1;
        assert messages[..i + 1][..i] == messages[..i];
        if IsAssistant(messages[i]) {
          Speak(messages[i]);
          return;
        }
      }
    }

    /** The message of one event. */
    method ConsumeMessage(m: Json)
      requires m.Obj?
      modifies this`text, this`error, this`lastFingerprint
      ensures error == if ErrorOf(m).Some? then ErrorOf(m) else old(error)
      ensures if IsAssistant(m) then
          && lastFingerprint == Some(PrintOf(m))
          && text == if IsRepeated(old(lastFingerprint), m) then old(text) else old(text) + MessageText(m)
        else text == old(text) && lastFingerprint == old(lastFingerprint)
    {
      if IsAssistant(m) {
        Speak(m);
      }
      RecordError(m);
    }

    /** What an event says. */
    method ConsumeBody(line: Line)
      requires line.Event?
      modifies this`text, this`error, this`lastFingerprint
      ensures error == if LastError(Scanned(line)).Some? then LastError(Scanned(line)) else old(error)
      ensures |Spoken(line)| <= 1
      ensures if Spoken(line) == [] then text == old(text) && lastFingerprint == old(lastFingerprint)
        else
          && lastFingerprint == Some(PrintOf(Spoken(line)[0]))
          && text == if IsRepeated(old(lastFingerprint), Spoken(line)[0]) then old(text) else old(text) + MessageText(Spoken(line)[0])
    {
      hide OnlyObjects, LastAssistant, ErrorOf, MessageText, PrintOf;
      var event := line.event;
      if EndsStream(event) {
        if Get(event, "messages").Arr? {
          ConsumeAgentEnd(Get(event, "messages").items);
        }
      } else if EndsMessage(event) {
        if Get(event, "message").Obj? {
          ConsumeMessage(Get(event, "message"));
          LastErrorAppend([], Get(event, "message"));
        }
      }
    }

    /** One line that is an event: the state follows the messages of the stream. */
    method ConsumeEvent(line: Line, ghost lines: seq<Line>)
      requires line.Event? && Follows(lines)
      modifies this
      ensures Follows(lines + [line])
    {
      hide FirstStr, Get, Spoken, Scanned, Transcript, Collapsed, MessageText, PrintOf;
      StreamAppend(lines, line);
      if session.None? {
        session := FirstStr(line.event, SESSION_KEYS);
      }
      ConsumeBody(line);
      if session.None? && EndsMessage(line.event) && Get(line.event, "message").Obj? {
        session := FirstStr(Get(line.event, "message"), SESSION_KEYS);
      }
      SpokenStep(AllSpoken(lines), Spoken(line), old(text), text);
      ScannedStep(AllScanned(lines), Scanned(line));
    }

    ghost predicate Follows(lines: seq<Line>)
      reads this
    {
      && text == Transcript(Collapsed(AllSpoken(lines)))
      && lastFingerprint == LastPrint(AllSpoken(lines))
      && error == LastError(AllScanned(lines))
      && session == Session(lines)
    }
  }

  lemma StreamAppend(lines: seq<Line>, line: Line)
    ensures AllSpoken(lines + [line]) == AllSpoken(lines) + Spoken(line)
    ensures AllScanned(lines + [line]) == AllScanned(lines) + Scanned(line)
    ensures Session(lines + [line]) == if Session(lines).Some? then Session(lines) else SessionOf(line)
  {
    assert (lines + [line])[..|lines|] == lines;
  }

  lemma CountAppend(lines: seq<Line>, line: Line)
    ensures CountMalformed(lines + [line]) == CountMalformed(lines) + if line.Broken? then 1 else 0
    ensures CountEnds(lines + [line]) == CountEnds(lines) + if IsEnd(line) then 1 else 0
    ensures CountTrailing(lines + [line]) == CountTrailing(lines) + if CountEnds(lines) > 0 && !line.Blank? then 1 else 0
  {
    assert (lines + [line])[..|lines|] == lines;
  }

  lemma TranscriptAppend(messages: seq<Json>, m: Json)
    ensures Transcript(messages + [m]) == Transcript(messages) + MessageText(m)
  {
    assert (messages + [m])[..|messages|] == messages;
  }

  /** Speaking a message extends the transcript unless it repeats the one before. */
  lemma SpokenStep(spoken: seq<Json>, more: seq<Json>, before: string, after: string)
    requires |more| <= 1 && before == Transcript(Collapsed(spoken))
    requires more != [] ==>
      after == if IsRepeated(LastPrint(spoken), more[0]) then before else before + MessageText(more[0])
    requires more == [] ==> after == before
    ensures after == Transcript(Collapsed(spoken + more))
    ensures LastPrint(spoken + more) == if more == [] then LastPrint(spoken) else Some(PrintOf(more[0]))
  {
    hide MessageText, PrintOf, Collapsed, Transcript;
    if more == [] {
      assert spoken + more == spoken;
    } else {
      assert more == [more[0]];
      CollapsedAppend(spoken, more[0]);
      TranscriptAppend(Collapsed(spoken), more[0]);
    }
  }

  lemma CollapsedAppend(spoken: seq<Json>, m: Json)
    ensures Collapsed(spoken + [m]) == if IsRepeated(LastPrint(spoken), m) then Collapsed(spoken) else Collapsed(spoken) + [m]
  {
    hide PrintOf;
    assert (spoken + [m])[..|spoken|] == spoken;
    assert Collapsed(spoken) + [] == Collapsed(spoken);
  }

  lemma ScannedStep(scanned: seq<Json>, more: seq<Json>)
    ensures LastError(scanned + more) == if LastError(more).Some? then LastError(more) else LastError(scanned)
    decreases |more|
  {
    if more == [] {
      assert scanned + more == scanned;
    } else {
      var n := |more| - 1;
      ScannedStep(scanned, more[..n]);
      LastErrorAppend(scanned + more[..n], more[n]);
      assert scanned + more == (scanned + more[..n]) + [more[n]];
    }
  }

  // ----- whole streams

  /** One end, and nothing but blank lines after it. */
  ghost predicate SoleEnd(lines: seq<Line>, k: nat) {
    && k < |lines| && IsEnd(lines[k])
    && (forall i :: 0 <= i < k ==> !IsEnd(lines[i]))
    && (forall i :: k < i < |lines| ==> lines[i].Blank?)
  }

  ghost predicate NoErrorIn(line: Line) {
    forall m :: m in Scanned(line) ==> !IsFaulty(m)
  }

  /** Every line that is not blank is a well-shaped event, the one end comes last, and no message has an error. */
  ghost predicate Acceptable(lines: seq<Line>) {
    && (forall i :: 0 <= i < |lines| ==> lines[i].Blank? || (lines[i].Event? && WellShaped(lines[i].event)))
    && (exists k :: SoleEnd(lines, k))
    && (forall i :: 0 <= i < |lines| ==> NoErrorIn(lines[i]))
  }

  lemma {:induction false} NoneMalformed(lines: seq<Line>)
    ensures CountMalformed(lines) == 0 <==> forall i :: 0 <= i < |lines| ==> !lines[i].Broken?
  {
    if lines != [] {
      NoneMalformed(lines[..|lines| - 1]);
    }
  }

  lemma {:induction false} NoneEnds(lines: seq<Line>)
    ensures CountEnds(lines) == 0 <==> forall i :: 0 <= i < |lines| ==> !IsEnd(lines[i])
    ensures CountEnds(lines) == 0 ==> CountTrailing(lines) == 0
  {
    if lines != [] {
      hide IsEnd;
      NoneEnds(lines[..|lines| - 1]);
    }
  }

  lemma {:induction false} OneEnd(lines: seq<Line>)
    ensures CountEnds(lines) > 0 && CountTrailing(lines) == 0 <==> exists k :: SoleEnd(lines, k)
  {
    if lines != [] {
      var n := |lines| - 1;
      var before, last := lines[..n], lines[n];
      assert lines == before + [last];
      CountAppend(before, last);
      OneEnd(before);
      NoneEnds(before);
      NoneEnds(lines);
      LastLine(before, last);
    }
  }

  lemma LastLine(before: seq<Line>, last: Line)
    ensures (exists k :: SoleEnd(before + [last], k)) <==>
      (if last.Blank? then exists k :: SoleEnd(before, k)
       else IsEnd(last) && forall i :: 0 <= i < |before| ==> !IsEnd(before[i]))
  {
    hide IsEnd;
    var lines := before + [last];
    assert forall i :: 0 <= i < |before| ==> before[i] == lines[i];
    assert lines[|before|] == last;
    assert IsEnd(last) ==> !last.Blank? by {
      NotBlank(last);
    }
    forall k: nat
      ensures SoleEnd(lines, k) ==> if last.Blank? then SoleEnd(before, k) else k == |before|
      ensures last.Blank? && SoleEnd(before, k) ==> SoleEnd(lines, k)
    {
      if SoleEnd(lines, k) && last.Blank? {
        NotBlank(lines[k]);
      }
    }
    if IsEnd(last) && forall i :: 0 <= i < |before| ==> !IsEnd(before[i]) {
      assert SoleEnd(lines, |before|);
    }
  }

  lemma NotBlank(line: Line)
    ensures IsEnd(line) ==> !line.Blank?
  {
  }

  lemma {:induction false} NoneWrong(messages: seq<Json>)
    ensures LastError(messages) == None <==> forall m :: m in messages ==> ErrorOf(m).None?
  {
    if messages != [] {
      hide ErrorOf;
      NoneWrong(messages[..|messages| - 1]);
      assert messages == messages[..|messages| - 1] + [messages[|messages| - 1]];
    }
  }

  lemma {:induction false} ScannedFrom(lines: seq<Line>)
    ensures forall m :: m in AllScanned(lines) <==> exists i :: 0 <= i < |lines| && m in Scanned(lines[i])
  {
    if lines != [] {
      hide Scanned;
      ScannedFrom(lines[..|lines| - 1]);
    }
  }

  lemma FaultyMessages()
    ensures forall m :: ErrorOf(m).Some? <==> IsFaulty(m)
  {
    hide ErrorOf, IsFaulty;
    forall m
      ensures ErrorOf(m).Some? <==> IsFaulty(m)
    {
      ErrorExact(m);
    }
  }

  /** What the counters say about a strictly read stream, said without counting. */
  lemma AcceptExact(raws: seq<string>, read: Reader)
    ensures var lines := Lines(raws, read, true);
      Acceptable(lines) <==>
        && CountMalformed(lines) == 0 && CountTrailing(lines) == 0 && CountEnds(lines) > 0
        && LastError(AllScanned(lines)) == None
  {
    hide ErrorOf, IsFaulty, Scanned, IsEnd, SoleEnd, AllScanned, Classify;
    var lines := Lines(raws, read, true);
    FaultyMessages();
    NoneMalformed(lines);
    OneEnd(lines);
    NoneWrong(AllScanned(lines));
    ScannedFrom(lines);
    StrictLines(raws, read);
  }

  lemma StrictLines(raws: seq<string>, read: Reader)
    ensures forall i :: 0 <= i < |raws| ==>
      var line := Lines(raws, read, true)[i];
      line.Blank? || line.Broken? || (line.Event? && WellShaped(line.event))
  {
    hide Strip;
  }

  // ----- the same, of the raw lines

  predicate IsBlank(raw: string) {
    Strip(raw) == ""
  }

  predicate IsAgentEnd(raw: string, read: Reader) {
    !IsBlank(raw) && read(Strip(raw)).Some? && Get(read(Strip(raw)).value, "type") == Str("agent_end")
  }

  /** An event with what its type needs, none of whose messages is an error. */
  ghost predicate IsFine(event: Json) {
    && event.Obj?
    && (Get(event, "type") == Str("agent_end") ==>
          && Get(event, "messages").Arr?
          && forall m :: m in Get(event, "messages").items && m.Obj? ==> !IsFaulty(m))
    && (Get(event, "type") in {Str("message_end"), Str("turn_end")} ==>
          Get(event, "message").Obj? && !IsFaulty(Get(event, "message")))
  }

  ghost predicate EndsAt(raws: seq<string>, read: Reader, k: nat) {
    && k < |raws| && IsAgentEnd(raws[k], read)
    && (forall i :: 0 <= i < k ==> !IsAgentEnd(raws[i], read))
    && (forall i :: k < i < |raws| ==> IsBlank(raws[i]))
  }

  /** Every line that is not blank is read as a fine event; one of them ends the run, and nothing follows it. */
  ghost predicate IsAcceptable(raws: seq<string>, read: Reader) {
    && (forall i :: 0 <= i < |raws| && !IsBlank(raws[i]) ==> read(Strip(raws[i])).Some? && IsFine(read(Strip(raws[i])).value))
    && exists k :: EndsAt(raws, read, k)
  }

  lemma {:induction false} ObjectsOnly(messages: seq<Json>)
    ensures forall m :: m in OnlyObjects(messages) <==> m in messages && m.Obj?
  {
    if messages != [] {
      ObjectsOnly(messages[..|messages| - 1]);
      assert messages == messages[..|messages| - 1] + [messages[|messages| - 1]];
    }
  }

  lemma LineAccepted(raw: string, read: Reader)
    ensures var line := Classify(raw, read, true);
      && (line.Blank? <==> IsBlank(raw))
      && ((line.Blank? || (line.Event? && WellShaped(line.event))) && NoErrorIn(line)
          <==> (IsBlank(raw) || (read(Strip(raw)).Some? && IsFine(read(Strip(raw)).value))))
  {
    hide Strip, IsFaulty;
    if !IsBlank(raw) && read(Strip(raw)).Some? {
      var event := read(Strip(raw)).value;
      if Get(event, "messages").Arr? {
        ObjectsOnly(Get(event, "messages").items);
      }
    }
  }

  lemma LineEnds(raw: string, read: Reader)
    ensures var line := Classify(raw, read, true);
      IsBlank(raw) || (line.Event? && WellShaped(line.event)) ==> (IsEnd(line) <==> IsAgentEnd(raw, read))
  {
    hide Strip;
  }

  lemma AcceptableExact(raws: seq<string>, read: Reader)
    ensures Acceptable(Lines(raws, read, true)) <==> IsAcceptable(raws, read)
  {
    hide Classify, NoErrorIn, IsFine, WellShaped, IsEnd, IsAgentEnd, IsBlank, Strip;
    var lines := Lines(raws, read, true);
    forall i | 0 <= i < |raws|
      ensures lines[i].Blank? <==> IsBlank(raws[i])
      ensures (lines[i].Blank? || (lines[i].Event? && WellShaped(lines[i].event))) && NoErrorIn(lines[i])
        <==> (IsBlank(raws[i]) || (read(Strip(raws[i])).Some? && IsFine(read(Strip(raws[i])).value)))
      ensures lines[i].Blank? || (lines[i].Event? && WellShaped(lines[i].event)) ==> (IsEnd(lines[i]) <==> IsAgentEnd(raws[i], read))
    {
      LineAccepted(raws[i], read);
      LineEnds(raws[i], read);
    }
    if forall i :: 0 <= i < |raws| ==> lines[i].Blank? || (lines[i].Event? && WellShaped(lines[i].event)) {
      assert forall k: nat :: SoleEnd(lines, k) <==> EndsAt(raws, read, k);
    }
  }

  predicate TooMany(raws: seq<string>, maxEvents: int) {
    raws != [] && |raws| > maxEvents
  }

  /** The error of a strictly read stream: its own, or what the counters show. */
  function StrictError(error: Option<(string, string)>, malformed: nat, trailing: nat): Option<(string, string)> {
    if error.Some? then error
    else if malformed > 0 then Some(("provider stream contained malformed JSON events", "malformed_stream"))
    else if trailing > 0 then Some(("provider stream contained records after its terminal event", "trailing_stream"))
    else None
  }

  /** What the parser has taken from these lines. */
  ghost predicate Heard(r: ParseResult, lines: seq<Line>) {
    && r.text == Transcript(Collapsed(AllSpoken(lines))) && r.session == Session(lines)
    && r.malformed == CountMalformed(lines) && r.trailing == CountTrailing(lines)
    && r.terminals == CountEnds(lines) && r.sawTerminal == (CountEnds(lines) > 0)
  }

  /** What the parser answers when it gives up at the first line beyond the limit. */
  ghost predicate GivesUp(r: ParseResult, lines: seq<Line>, maxEvents: int) {
    var k := if maxEvents < 0 then 0 else maxEvents;
    && k < |lines| && Heard(r, lines[..k]) && r.rawEvents == k + 1
    && r.error == Some(("provider stream exceeded " + IntText(maxEvents) + " events", "event_limit"))
  }

  /** What the parser answers for a stream that it reads to its end. */
  ghost predicate Tells(r: ParseResult, lines: seq<Line>, strict: bool) {
    && Heard(r, lines) && r.rawEvents == |lines|
    && r.error == if strict then StrictError(LastError(AllScanned(lines)), r.malformed, r.trailing) else LastError(AllScanned(lines))
  }

  /** The event at k names the session s, and none before it names any. */
  ghost predicate NamesFirst(lines: seq<Line>, k: nat, s: string) {
    k < |lines| && SessionOf(lines[k]) == Some(s) && forall i :: 0 <= i < k ==> SessionOf(lines[i]).None?
  }

  /** The session told is the one that the first event to name any names. */
  lemma {:induction false} SessionExact(lines: seq<Line>)
    ensures Session(lines).None? <==> forall i :: 0 <= i < |lines| ==> SessionOf(lines[i]).None?
    ensures Session(lines).Some? ==> exists k: nat :: NamesFirst(lines, k, Session(lines).value)
  {
    hide SessionOf;
    if lines != [] {
      var n := |lines| - 1;
      var before := lines[..n];
      SessionExact(before);
      if Session(before).Some? {
        var k: nat :| NamesFirst(before, k, Session(before).value);
        assert NamesFirst(lines, k, Session(before).value);
        assert lines[k] == before[k];
      } else {
        assert forall i :: 0 <= i < n ==> lines[i] == before[i];
        assert SessionOf(lines[n]).Some? ==> NamesFirst(lines, n, SessionOf(lines[n]).value);
      }
    }
  }

  method ParsePrime(raws: seq<string>, read: Reader, strict: bool, maxEvents: int) returns (r: ParseResult)
    ensures strict ==> (r.Success() <==> !TooMany(raws, maxEvents) && IsAcceptable(raws, read))
    ensures strict && TooMany(raws, maxEvents) ==> GivesUp(r, Lines(raws, read, strict), maxEvents)
    ensures !strict || !TooMany(raws, maxEvents) ==> Tells(r, Lines(raws, read, strict), strict)
  {
    hide Transcript, Collapsed, AllSpoken, AllScanned, LastError, CountMalformed, CountEnds, CountTrailing, Session, Classify,
      Acceptable, IsAcceptable;
    var p := new Parser();
    var malformed, terminals, trailing := 0, 0, 0;
    var saw := false;
    ghost var lines := Lines(raws, read, strict);
    if strict {
      AcceptExact(raws, read);
      AcceptableExact(raws, read);
    }
    StartOfStream();
    for i := 0 to |raws|
      invariant p.Follows(lines[..i])
      invariant malformed == CountMalformed(lines[..i]) && trailing == CountTrailing(lines[..i])
      invariant terminals == CountEnds(lines[..i]) && saw == (CountEnds(lines[..i]) > 0)
      invariant strict && i > 0 ==> i <= maxEvents
    {
      if strict && i + 1 > maxEvents {
        return ParseResult(p.text, p.session, Some(("provider stream exceeded " + IntText(maxEvents) + " events", "event_limit")), i + 1, saw, malformed,
                           terminals, trailing);
      }
      var line := Classify(raws[i], read, strict);
      assert lines[..i + 1] == lines[..i] + [line];
      CountAppend(lines[..i], line);
      if !line.Event? {
        SilentAppend(lines[..i], line);
      }
      if saw && !line.Blank? {
        trailing := trailing + 1;
      }
      if line.Broken? {
        malformed := malformed + 1;
      } else if line.Event? {
        if EndsStream(line.event) {
          saw := true;
          terminals := terminals + 1;
        }
        p.ConsumeEvent(line, lines[..i]);
      }
    }
    assert lines[..|raws|] == lines;
    var error := if strict then StrictError(p.error, malformed, trailing) else p.error;
    return ParseResult(p.text, p.session, error, |raws|, saw, malformed, terminals, trailing);
  }

  lemma StartOfStream()
    ensures Transcript(Collapsed(AllSpoken([]))) == "" && LastPrint(AllSpoken([])) == None && LastError(AllScanned([])) == None
    ensures CountMalformed([]) == 0 && CountEnds([]) == 0 && CountTrailing([]) == 0 && Session([]) == None
  {
  }

  /** A line that is no event says nothing. */
  lemma SilentAppend(lines: seq<Line>, line: Line)
    requires !line.Event?
    ensures AllSpoken(lines + [line]) == AllSpoken(lines) && AllScanned(lines + [line]) == AllScanned(lines)
    ensures Session(lines + [line]) == Session(lines)
  {
    StreamAppend(lines, line);
    assert AllSpoken(lines) + [] == AllSpoken(lines) && AllScanned(lines) + [] == AllScanned(lines);
  }
}
