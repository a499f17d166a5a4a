/**
 JSON as the repository uses it: `json.dumps(v, ensure_ascii=False, sort_keys=True,
 separators=(",", ":"))` as a printer and `json.loads` as a parser. Floating-point
 numbers are not values of this model, so a numeral with a fraction or an exponent is
 refused; so is an escaped lone surrogate, which is not a character.
 */
module Json {
  import opened Text

  datatype Json =
    | Null
    | Bool(b: bool)
    | Int(n: int)
    | Str(s: string)
    | Arr(items: seq<Json>)
    | Obj(fields: map<string, Json>)

  datatype Parsed<+T> = Fail | Ok(value: T, rest: string)

  const QUOTE: char := '\"'
  const BACKSLASH: char := '\\'

  // ----- printing

  function HexDigit(d: int): char
    requires 0 <= d < 16
  {
    if d < 10 then '0' + d as char else 'a' + (d - 10) as char
  }

  function EscapeChar(c: char): string {
    if c == QUOTE then [BACKSLASH, QUOTE]
    else if c == BACKSLASH then [BACKSLASH, BACKSLASH]
    else if c == '\n' then [BACKSLASH, 'n']
    else if c == '\r' then [BACKSLASH, 'r']
    else if c == '\t' then [BACKSLASH, 't']
    else if c == '\U{08}' then [BACKSLASH, 'b']
    else if c == '\U{0C}' then [BACKSLASH, 'f']
    else if c < ' ' then [BACKSLASH, 'u', '0', '0', HexDigit(c as int / 16), HexDigit(c as int % 16)]
    else [c]
  }

  function Escape(s: string): string {
    if s == "" then "" else EscapeChar(s[0]) + Escape(s[1..])
  }

  function Quote(s: string): string {
    [QUOTE] + Escape(s) + [QUOTE]
  }

  function Dumps(v: Json): string
    decreases v
  {
    match v
    case Null => "null"
    case Bool(b) => if b then "true" else "false"
    case Int(n) => IntText(n)
    case Str(s) => Quote(s)
    case Arr(items) => "[" + DumpsItems(items) + "]"
    case Obj(fields) => "{" + DumpsFields(v, Sorted(fields.Keys)) + "}"
  }

  function DumpsItems(items: seq<Json>): string
    decreases items
  {
    if items == [] then ""
    else if |items| == 1 then Dumps(items[0])
    else Dumps(items[0]) + "," + DumpsItems(items[1..])
  }

  function DumpsFields(v: Json, keys: seq<string>): string
    requires v.Obj? && forall k :: k in keys ==> k in v.fields
    decreases v, |keys|
  {
    if keys == [] then ""
    else
      var first := Quote(keys[0]) + ":" + Dumps(v.fields[keys[0]]);
      if |keys| == 1 then first else first + "," + DumpsFields(v, keys[1..])
  }

  // ----- parsing

  predicate IsSpace(c: char) {
    c == ' ' || c == '\t' || c == '\n' || c == '\r'
  }

  function SkipSpace(s: string): (r: string)
    ensures |r| <= |s|
  {
    if s != "" && IsSpace(s[0]) then SkipSpace(s[1..]) else s
  }

  function HexValue(c: char): (d: int)
    ensures -1 <= d < 16
  {
    if '0' <= c <= '9' then c as int - '0' as int
    else if 'a' <= c <= 'f' then c as int - 'a' as int + 10
    else if 'A' <= c <= 'F' then c as int - 'A' as int + 10
    else -1
  }

  /** Four hexadecimal digits, or -1. */
  function Hex4(s: string): (n: int)
    ensures -1 <= n < 0x1_0000
    ensures n >= 0 ==> |s| >= 4
  {
    if |s| < 4 || HexValue(s[0]) < 0 || HexValue(s[1]) < 0 || HexValue(s[2]) < 0 || HexValue(s[3]) < 0
    then -1
    else ((HexValue(s[0]) * 16 + HexValue(s[1])) * 16 + HexValue(s[2])) * 16 + HexValue(s[3])
  }

  /** The character of the escape whose text after the backslash is s. */
  function ParseEscape(s: string): (r: Parsed<char>)
    ensures r.Ok? ==> |r.rest| < |s|
  {
    if s == "" then Fail
    else if s[0] == QUOTE then Ok(QUOTE, s[1..])
    else if s[0] == BACKSLASH then Ok(BACKSLASH, s[1..])
    else if s[0] == '/' then Ok('/', s[1..])
    else if s[0] == 'b' then Ok('\U{08}', s[1..])
    else if s[0] == 'f' then Ok('\U{0C}', s[1..])
    else if s[0] == 'n' then Ok('\n', s[1..])
    else if s[0] == 'r' then Ok('\r', s[1..])
    else if s[0] == 't' then Ok('\t', s[1..])
    else if s[0] == 'u' then
      var u := Hex4(s[1..]);
      if u < 0 then Fail
      else if u < 0xD800 || u > 0xDFFF then Ok(u as char, s[5..])
      else if u < 0xDC00 && |s| >= 11 && s[5] == BACKSLASH && s[6] == 'u' && 0xDC00 <= Hex4(s[7..]) <= 0xDFFF then
        Ok((0x1_0000 + (u - 0xD800) * 0x400 + (Hex4(s[7..]) - 0xDC00)) as char, s[11..])
      else Fail
    else Fail
  }

  /** The string whose opening quote has been read. Raw control characters are refused. */
  function ParseString(s: string): (r: Parsed<string>)
    ensures r.Ok? ==> |r.rest| < |s|
    decreases |s|
  {
    if s == "" then Fail
    else if s[0] == QUOTE then Ok("", s[1..])
    else if s[0] == BACKSLASH then
      match ParseEscape(s[1..])
      case Fail => Fail
      case Ok(c, rest) =>
        (match ParseString(rest)
         case Fail => Fail
         case Ok(t, end) => Ok([c] + t, end))
    else if s[0] < ' ' then Fail
    else
      match ParseString(s[1..])
      case Fail => Fail
      case Ok(t, end) => Ok([s[0]] + t, end)
  }

  /** The longest prefix of digits. */
  function DigitPrefix(s: string): (p: string)
    ensures |p| <= |s| && p == s[..|p|] && AllDigits(p)
  {
    if s != "" && IsDigit(s[0]) then [s[0]] + DigitPrefix(s[1..]) else ""
  }

  /** An unsigned numeral: 0, or digits that do not start with 0. */
  function ParseNat(s: string): (r: Parsed<nat>)
    ensures r.Ok? ==> |r.rest| < |s|
  {
    if s == "" || !IsDigit(s[0]) then Fail
    else
      var digits := if s[0] == '0' then "0" else DigitPrefix(s);
      var rest := s[|digits|..];
      if rest != "" && rest[0] in ".eE" then Fail else Ok(Numeral(digits), rest)
  }

  function ParseInt(s: string): (r: Parsed<int>)
    ensures r.Ok? ==> |r.rest| < |s|
  {
    if s != "" && s[0] == '-' then
      match ParseNat(s[1..])
      case Fail => Fail
      case Ok(n, rest) => Ok(-(n as int), rest)
    else
      match ParseNat(s)
      case Fail => Fail
      case Ok(n, rest) => Ok(n, rest)
  }

  function ParseValue(s: string): (r: Parsed<Json>)
    ensures r.Ok? ==> |r.rest| < |s|
    decreases |s|, 0
  {
    if s == "" then Fail
    else if s[0] == QUOTE then
      match ParseString(s[1..])
      case Fail => Fail
      case Ok(t, rest) => Ok(Str(t), rest)
    else if s[0] == '[' then
      var body := SkipSpace(s[1..]);
      if body != "" && body[0] == ']' then Ok(Arr([]), body[1..])
      else
        match ParseItems(body)
        case Fail => Fail
        case Ok(items, rest) => Ok(Arr(items), rest)
    else if s[0] == '{' then
      var body := SkipSpace(s[1..]);
      if body != "" && body[0] == '}' then Ok(Obj(map[]), body[1..])
      else
        match ParseFields(body, map[])
        case Fail => Fail
        case Ok(fields, rest) => Ok(Obj(fields), rest)
    else if "null" <= s then Ok(Null, s[4..])
    else if "true" <= s then Ok(Bool(true), s[4..])
    else if "false" <= s then Ok(Bool(false), s[5..])
    else
      match ParseInt(s)
      case Fail => Fail
      case Ok(n, rest) => Ok(Int(n), rest)
  }

  /** A nonempty list of values up to its closing bracket. */
  function ParseItems(s: string): (r: Parsed<seq<Json>>)
    ensures r.Ok? ==> |r.rest| < |s|
    decreases |s|, 1
  {
    match ParseValue(s)
    case Fail => Fail
    case Ok(v, rest) =>
      var after := SkipSpace(rest);
      if after == "" then Fail
      else if after[0] == ']' then Ok([v], after[1..])
      else if after[0] != ',' then Fail
      else
        match ParseItems(SkipSpace(after[1..]))
        case Fail => Fail
        case Ok(more, end) => Ok([v] + more, end)
  }

  /** One member of an object: a key, a colon and a value. */
  function ParseMember(s: string): (r: Parsed<(string, Json)>)
    ensures r.Ok? ==> |r.rest| < |s|
    decreases |s|, 1
  {
    if s == "" || s[0] != QUOTE then Fail
    else
      match ParseString(s[1..])
      case Fail => Fail
      case Ok(key, rest) =>
        var colon := SkipSpace(rest);
        if colon == "" || colon[0] != ':' then Fail
        else
          match ParseValue(SkipSpace(colon[1..]))
          case Fail => Fail
          case Ok(v, end) => Ok((key, v), end)
  }

  /** A nonempty list of members up to its closing brace; a repeated key keeps its last value. */
  function ParseFields(s: string, seen: map<string, Json>): (r: Parsed<map<string, Json>>)
    ensures r.Ok? ==> |r.rest| < |s|
    decreases |s|, 2
  {
    match ParseMember(s)
    case Fail => Fail
    case Ok((key, v), rest) =>
      var after := SkipSpace(rest);
      if after == "" then Fail
      else if after[0] == '}' then Ok(seen[key := v], after[1..])
      else if after[0] != ',' then Fail
      else ParseFields(SkipSpace(after[1..]), seen[key := v])
  }

  datatype Loaded = Malformed | Loaded(value: Json)

  function Loads(s: string): Loaded {
    match ParseValue(SkipSpace(s))
    case Fail => Malformed
    case Ok(v, rest) => if SkipSpace(rest) == "" then Loaded(v) else Malformed
  }

  // ----- parsing undoes printing

  lemma EscapeCharParses(c: char, rest: string)
    ensures |EscapeChar(c)| > 0
    ensures EscapeChar(c)[0] == BACKSLASH ==> ParseEscape(EscapeChar(c)[1..] + rest) == Ok(c, rest)
    ensures EscapeChar(c)[0] != BACKSLASH ==> EscapeChar(c) == [c] && c != QUOTE && c >= ' '
  {
    var e := EscapeChar(c);
    if e[0] == BACKSLASH {
      var s := e[1..] + rest;
      if s[0] == 'u' {
        var h := s[1..];
        assert h[0] == '0' && h[1] == '0' && h[2] == HexDigit(c as int / 16) && h[3] == HexDigit(c as int % 16);
        assert Hex4(h) == c as int;
        assert s[5..] == rest;
      } else {
        assert s[1..] == rest;
      }
    }
  }

  lemma {:induction false} QuoteParses(x: string, rest: string)
    ensures ParseString(Escape(x) + [QUOTE] + rest) == Ok(x, rest)
  {
    if x == "" {
      EndQuoteParses(rest);
    } else {
      hide ParseString, EscapeChar;
      QuoteParses(x[1..], rest);
      CharParses(x[0], x[1..], Escape(x[1..]) + [QUOTE] + rest, rest);
      SplitAfterOneOrTwo(EscapeChar(x[0]), Escape(x[1..]), [QUOTE], rest);
      assert x == [x[0]] + x[1..];
    }
  }

  lemma EndQuoteParses(rest: string)
    ensures ParseString("" + [QUOTE] + rest) == Ok("", rest)
  {
    var s := [QUOTE] + rest;
    assert "" + [QUOTE] + rest == s;
    assert s[0] == QUOTE && s[1..] == rest;
  }

  /** One printed character before a text that parses. */
  lemma CharParses(c: char, x: string, tail: string, rest: string)
    requires ParseString(tail) == Ok(x, rest)
    ensures ParseString(EscapeChar(c) + tail) == Ok([c] + x, rest)
  {
    EscapeCharParses(c, tail);
    hide EscapeChar, ParseEscape;
    var e := EscapeChar(c);
    var s := e + tail;
    assert s[0] == e[0];
    if e[0] == BACKSLASH {
      assert s[1..] == e[1..] + tail;
    } else {
      assert s[1..] == tail;
    }
  }

  /** What may follow a printed value: no character that would continue a numeral. */
  predicate Stops(rest: string) {
    rest == "" || !(IsDigit(rest[0]) || rest[0] in ".eE")
  }

  lemma {:induction false} DigitPrefixOf(digits: string, rest: string)
    requires AllDigits(digits) && Stops(rest)
    ensures DigitPrefix(digits + rest) == digits
  {
    var s := digits + rest;
    if digits == "" {
      assert s == rest;
    } else {
      DigitPrefixOf(digits[1..], rest);
      assert s[1..] == digits[1..] + rest;
      assert digits == [digits[0]] + digits[1..];
    }
  }

  lemma NatParses(n: nat, rest: string)
    requires Stops(rest)
    ensures ParseNat(Decimal(n) + rest) == Ok(n, rest)
  {
    DecimalNumeral(n);
    var s := Decimal(n) + rest;
    assert s[0] == Decimal(n)[0];
    if n == 0 {
      assert Decimal(0) == "0";
    } else {
      DigitPrefixOf(Decimal(n), rest);
    }
    assert s[|Decimal(n)|..] == rest;
  }

  lemma IntParses(n: int, rest: string)
    requires Stops(rest)
    ensures ParseInt(IntText(n) + rest) == Ok(n, rest)
    ensures IntText(n) != "" && (IntText(n)[0] == '-' || IsDigit(IntText(n)[0]))
  {
    hide ParseNat, Decimal, Numeral;
    var a := if n < 0 then -n else n;
    NatParses(a, rest);
    DecimalNumeral(a);
    if n < 0 {
      MinusFirst(Decimal(a), rest);
    } else {
      assert (Decimal(a) + rest)[0] == Decimal(a)[0];
    }
  }

  lemma MinusFirst(digits: string, rest: string)
    ensures ("-" + digits + rest)[0] == '-' && ("-" + digits + rest)[1..] == digits + rest
  {
  }

  /** A printed value starts with a character that is neither white space nor a closing bracket. */
  lemma DumpsStarts(v: Json)
    ensures Dumps(v) != ""
    ensures !IsSpace(Dumps(v)[0]) && Dumps(v)[0] !in "]},:"
  {
    match v
    case Int(n) => IntParses(n, "");
    case _ =>
  }

  lemma {:induction false} ValueParses(v: Json, rest: string)
    requires Stops(rest)
    ensures ParseValue(Dumps(v) + rest) == Ok(v, rest)
    decreases v, 2, 0
  {
    var s := Dumps(v) + rest;
    match v {
      case Null => assert s[4..] == rest;
      case Bool(b) => assert s[if b then 4 else 5..] == rest;
      case Int(n) => IntValueParses(n, rest);
      case Str(t) => StrValueParses(t, rest);
      case Arr(_) => ArrParses(v, rest);
      case Obj(_) => ObjParses(v, rest);
    }
  }

  lemma IntValueParses(n: int, rest: string)
    requires Stops(rest)
    ensures ParseValue(IntText(n) + rest) == Ok(Int(n), rest)
  {
    hide ParseInt, IntText, ParseString, ParseItems, ParseFields;
    IntParses(n, rest);
    var s := IntText(n) + rest;
    assert s[0] == IntText(n)[0];
    assert s[0] != 'n' && s[0] != 't' && s[0] != 'f';
    assert !("null" <= s) && !("true" <= s) && !("false" <= s);
  }

  lemma StrValueParses(t: string, rest: string)
    ensures ParseValue(Quote(t) + rest) == Ok(Str(t), rest)
  {
    hide ParseInt, Escape, ParseString, ParseItems, ParseFields;
    QuoteParses(t, rest);
    assert (Quote(t) + rest)[1..] == Escape(t) + [QUOTE] + rest;
  }

  lemma {:induction false} ArrParses(v: Json, rest: string)
    requires v.Arr?
    ensures ParseValue(Dumps(v) + rest) == Ok(v, rest)
    decreases v, 1, 0
  {
    hide ParseValue, ParseItems, DumpsItems;
    var items := v.items;
    SplitAfterOneOrTwo("[", DumpsItems(items), "]", rest);
    if items == [] {
      EmptyArrParses(rest);
    } else {
      ItemsParse(items, rest);
      ItemsStart(items, rest);
      ArrTextParses(DumpsItems(items) + "]" + rest, items, rest);
    }
  }

  lemma EmptyArrParses(rest: string)
    ensures ParseValue("[" + (DumpsItems([]) + "]" + rest)) == Ok(Arr([]), rest)
  {
    var s := "[" + (DumpsItems([]) + "]" + rest);
    assert DumpsItems([]) + "]" + rest == "]" + rest && ("]" + rest)[1..] == rest;
    assert s[0] == '[' && s[1..] == "]" + rest;
  }

  lemma ItemsStart(items: seq<Json>, rest: string)
    requires items != []
    ensures var body := DumpsItems(items) + "]" + rest; body != "" && !IsSpace(body[0]) && body[0] != ']'
  {
    DumpsStarts(items[0]);
    assert (DumpsItems(items) + "]" + rest)[0] == Dumps(items[0])[0];
  }

  lemma ArrTextParses(body: string, items: seq<Json>, rest: string)
    requires body != "" && !IsSpace(body[0]) && body[0] != ']' && ParseItems(body) == Ok(items, rest)
    ensures ParseValue("[" + body) == Ok(Arr(items), rest)
  {
    var s := "[" + body;
    assert s[0] == '[' && s[1..] == body;
  }

  lemma RightAssociated(a: string, b: string, c: string, d: string)
    ensures a + b + c + d == a + (b + (c + d))
  {
  }

  lemma SplitAfterOneOrTwo(a: string, b: string, c: string, d: string)
    ensures a + b + c + d == a + (b + c + d) == a + b + (c + d)
  {
  }

  lemma FirstTwoApart(a: string, b: string, c: string, d: string, e: string)
    ensures a + b + c + d + e == a + (b + (c + d + e))
  {
  }

  lemma ObjTextParses(body: string, fields: map<string, Json>, rest: string)
    requires body != "" && body[0] == QUOTE && ParseFields(body, map[]) == Ok(fields, rest)
    ensures ParseValue("{" + body) == Ok(Obj(fields), rest)
  {
    var s := "{" + body;
    assert s[0] == '{' && s[1..] == body;
  }

  lemma EmptyObjParses(rest: string)
    ensures ParseValue("{" + ("}" + rest)) == Ok(Obj(map[]), rest)
  {
    var s := "{" + ("}" + rest);
    assert s[0] == '{' && s[1..] == "}" + rest && ("}" + rest)[1..] == rest;
  }

  lemma {:induction false} ObjParses(v: Json, rest: string)
    requires v.Obj?
    ensures ParseValue(Dumps(v) + rest) == Ok(v, rest)
    decreases v, 1, 0
  {
    hide ParseValue, ParseFields, DumpsFields;
    var keys := Sorted(v.fields.Keys);
    var text := DumpsFields(v, keys);
    SplitAfterOneOrTwo("{", text, "}", rest);
    assert Dumps(v) + rest == "{" + (text + "}" + rest);
    if keys == [] {
      NoFields(v, rest);
    } else {
      FieldsParse(v, keys, map[], rest);
      AllFields(v.fields, keys);
      FieldsText(v, keys, rest);
      ObjTextParses(text + "}" + rest, v.fields, rest);
    }
  }

  lemma NoFields(v: Json, rest: string)
    requires v.Obj? && Sorted(v.fields.Keys) == []
    ensures ParseValue("{" + (DumpsFields(v, []) + "}" + rest)) == Ok(v, rest)
  {
    hide ParseValue;
    assert v.fields.Keys == {};
    assert v.fields == map[];
    assert DumpsFields(v, []) + "}" == "}";
    EmptyObjParses(rest);
  }

  lemma AllFields(fields: map<string, Json>, keys: seq<string>)
    requires forall k :: k in keys <==> k in fields
    ensures map[] + Restrict(fields, keys) == fields
  {
  }

  lemma {:induction false} ItemsParse(items: seq<Json>, rest: string)
    requires items != []
    ensures ParseItems(DumpsItems(items) + "]" + rest) == Ok(items, rest)
    decreases items, 0, 0
  {
    hide ParseValue, Dumps;
    var first := Dumps(items[0]);
    if |items| == 1 {
      ValueParses(items[0], "]" + rest);
      LastItemParses(items[0], first, rest);
      assert items == [items[0]];
    } else {
      var more := DumpsItems(items[1..]);
      ValueParses(items[0], "," + (more + "]" + rest));
      ItemsParse(items[1..], rest);
      ItemsStart(items[1..], rest);
      NextItemParses(items, first, more, rest);
    }
  }

  lemma LastItemParses(item: Json, first: string, rest: string)
    requires ParseValue(first + ("]" + rest)) == Ok(item, "]" + rest)
    ensures ParseItems(first + "]" + rest) == Ok([item], rest)
  {
    hide ParseValue;
    assert first + "]" + rest == first + ("]" + rest);
    assert ("]" + rest)[1..] == rest && ("]" + rest)[0] == ']';
  }

  lemma NextItemParses(items: seq<Json>, first: string, more: string, rest: string)
    requires |items| > 1 && ParseValue(first + ("," + (more + "]" + rest))) == Ok(items[0], "," + (more + "]" + rest))
    requires ParseItems(more + "]" + rest) == Ok(items[1..], rest)
    requires more + "]" + rest != "" && !IsSpace((more + "]" + rest)[0])
    ensures ParseItems(first + "," + more + "]" + rest) == Ok(items, rest)
  {
    hide ParseValue;
    var next := more + "]" + rest;
    assert first + "," + more + "]" + rest == first + ("," + next);
    assert ("," + next)[0] == ',' && ("," + next)[1..] == next && SkipSpace(next) == next;
    assert items == [items[0]] + items[1..];
  }

  ghost function Restrict(fields: map<string, Json>, keys: seq<string>): map<string, Json>
    requires forall k :: k in keys ==> k in fields
  {
    map k | k in keys :: fields[k]
  }

  lemma QuotedParses(x: string, rest: string)
    ensures (Quote(x) + rest)[0] == QUOTE && ParseString((Quote(x) + rest)[1..]) == Ok(x, rest)
  {
    hide ParseString, Escape;
    QuoteParses(x, rest);
    assert (Quote(x) + rest)[1..] == Escape(x) + [QUOTE] + rest;
  }

  lemma MemberParses(key: string, text: string, value: Json, tail: string)
    requires text != "" && !IsSpace(text[0]) && ParseValue(text + tail) == Ok(value, tail)
    ensures ParseMember(Quote(key) + (":" + (text + tail))) == Ok((key, value), tail)
  {
    var colon := ":" + (text + tail);
    QuotedParses(key, colon);
    assert colon[0] == ':' && colon[1..] == text + tail;
    assert SkipSpace(colon) == colon && SkipSpace(text + tail) == text + tail;
  }

  /** What ParseFields does after one member, whatever the text of its value. */
  lemma FieldStep(key: string, text: string, value: Json, seen: map<string, Json>, tail: string, next: string)
    requires text != "" && !IsSpace(text[0]) && ParseValue(text + tail) == Ok(value, tail)
    ensures tail == "}" + next
        ==> ParseFields(Quote(key) + (":" + (text + tail)), seen) == Ok(seen[key := value], next)
    ensures tail == "," + next && next != "" && next[0] == QUOTE
        ==> ParseFields(Quote(key) + (":" + (text + tail)), seen) == ParseFields(next, seen[key := value])
  {
    hide ParseMember, ParseValue, Quote;
    MemberParses(key, text, value, tail);
    if tail == "}" + next || tail == "," + next {
      assert tail[1..] == next;
    }
  }

  lemma FieldsText(v: Json, keys: seq<string>, rest: string)
    requires v.Obj? && keys != [] && forall k :: k in keys ==> k in v.fields
    ensures var first := Dumps(v.fields[keys[0]]);
      DumpsFields(v, keys) + "}" + rest == Quote(keys[0]) + (":" + (first + FieldsTail(v, keys, rest)))
    ensures (DumpsFields(v, keys) + "}" + rest)[0] == QUOTE
  {
    var q, first := Quote(keys[0]), Dumps(v.fields[keys[0]]);
    if |keys| == 1 {
      RightAssociated(q, ":", first, "}" + rest);
      SplitAfterOneOrTwo(q + ":", first, "}", rest);
    } else {
      var more := DumpsFields(v, keys[1..]);
      RightAssociated(q, ":", first, "," + (more + "}" + rest));
      FirstTwoApart(q + ":" + first, ",", more, "}", rest);
    }
  }

  /** What follows the first member in the text of an object. */
  ghost function FieldsTail(v: Json, keys: seq<string>, rest: string): string
    requires v.Obj? && keys != [] && forall k :: k in keys ==> k in v.fields
  {
    if |keys| == 1 then "}" + rest else "," + (DumpsFields(v, keys[1..]) + "}" + rest)
  }

  lemma RestrictStep(fields: map<string, Json>, keys: seq<string>, seen: map<string, Json>)
    requires keys != [] && forall k :: k in keys ==> k in fields
    ensures seen[keys[0] := fields[keys[0]]] + Restrict(fields, keys[1..]) == seen + Restrict(fields, keys)
  {
  }

  lemma {:induction false} FieldsParse(v: Json, keys: seq<string>, seen: map<string, Json>, rest: string)
    requires v.Obj? && keys != [] && forall k :: k in keys ==> k in v.fields
    ensures ParseFields(DumpsFields(v, keys) + "}" + rest, seen)
         == Ok(seen + Restrict(v.fields, keys), rest)
    decreases v, 0, |keys|
  {
    var key, value := keys[0], v.fields[keys[0]];
    var tail := FieldsTail(v, keys, rest);
    DumpsStarts(value);
    ValueParses(value, tail);
    FieldsText(v, keys, rest);
    RestrictStep(v.fields, keys, seen);
    if |keys| == 1 {
      FieldStep(key, Dumps(value), value, seen, tail, rest);
      assert Restrict(v.fields, keys[1..]) == map[];
      assert seen[key := value] + map[] == seen[key := value];
    } else {
      var next := DumpsFields(v, keys[1..]) + "}" + rest;
      FieldsText(v, keys[1..], rest);
      FieldStep(key, Dumps(value), value, seen, tail, next);
      FieldsParse(v, keys[1..], seen[key := value], rest);
    }
  }

  /** Parsing gives back exactly the value that was printed. */
  lemma LoadsDumps(v: Json)
    ensures Loads(Dumps(v)) == Loaded(v)
  {
    ValueParses(v, "");
    DumpsStarts(v);
    assert Dumps(v) + "" == Dumps(v);
  }

  /** Canonical texts are equal only for equal values. */
  lemma DumpsInjective(a: Json, b: Json)
    requires Dumps(a) == Dumps(b)
    ensures a == b
  {
    LoadsDumps(a);
    LoadsDumps(b);
  }

  // ----- printed values hold no control characters

  predicate Printable(s: string) {
    forall i :: 0 <= i < |s| ==> s[i] >= ' '
  }

  lemma PrintableAppend(a: string, b: string)
    ensures Printable(a + b) <==> Printable(a) && Printable(b)
  {
    assert forall i :: 0 <= i < |a| ==> (a + b)[i] == a[i];
    assert forall i :: 0 <= i < |b| ==> (a + b)[|a| + i] == b[i];
  }

  lemma {:induction false} QuotePrintable(s: string)
    ensures Printable(Quote(s))
  {
    EscapePrintable(s);
    PrintableAppend([QUOTE], Escape(s));
    PrintableAppend([QUOTE] + Escape(s), [QUOTE]);
  }

  lemma {:induction false} EscapePrintable(s: string)
    ensures Printable(Escape(s))
  {
    if s != "" {
      EscapePrintable(s[1..]);
      PrintableAppend(EscapeChar(s[0]), Escape(s[1..]));
    }
  }

  lemma {:induction false} DumpsPrintable(v: Json)
    ensures Printable(Dumps(v))
    decreases v, 1, 0
  {
    match v {
      case Int(n) =>
        DecimalNumeral(if n < 0 then -n else n);
      case Str(s) =>
        QuotePrintable(s);
      case Arr(items) =>
        ItemsPrintable(items);
        PrintableAppend("[", DumpsItems(items));
        PrintableAppend("[" + DumpsItems(items), "]");
      case Obj(_) =>
        var text := DumpsFields(v, Sorted(v.fields.Keys));
        FieldsPrintable(v, Sorted(v.fields.Keys));
        PrintableAppend("{", text);
        PrintableAppend("{" + text, "}");
      case _ =>
    }
  }

  lemma {:induction false} ItemsPrintable(items: seq<Json>)
    ensures Printable(DumpsItems(items))
    decreases items, 0, 0
  {
    if items != [] {
      DumpsPrintable(items[0]);
      if |items| > 1 {
        ItemsPrintable(items[1..]);
        PrintableAppend(Dumps(items[0]), ",");
        PrintableAppend(Dumps(items[0]) + ",", DumpsItems(items[1..]));
      }
    }
  }

  lemma {:induction false} FieldsPrintable(v: Json, keys: seq<string>)
    requires v.Obj? && forall k :: k in keys ==> k in v.fields
    ensures Printable(DumpsFields(v, keys))
    decreases v, 0, |keys|
  {
    if keys != [] {
      var name, value := Quote(keys[0]), Dumps(v.fields[keys[0]]);
      QuotePrintable(keys[0]);
      DumpsPrintable(v.fields[keys[0]]);
      PrintableAppend(name, ":");
      PrintableAppend(name + ":", value);
      if |keys| > 1 {
        FieldsPrintable(v, keys[1..]);
        PrintableAppend(name + ":" + value, ",");
        PrintableAppend(name + ":" + value + ",", DumpsFields(v, keys[1..]));
      }
    }
  }
}
