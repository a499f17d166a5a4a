/**
 The grammar of JSON texts (RFC 8259, sections 2 to 7), without fractions and exponents and
 without lone surrogates: the reader accepts exactly its texts, and reads what they spell.
 */
module JsonGrammar {
  import opened Json
  import opened Text

  // ----- the grammar

  ghost predicate Spaces(t: string) {
    forall i :: 0 <= i < |t| ==> t[i] in {' ', '\t', '\n', '\r'}
  }

  ghost predicate HexDigitOf(c: char, d: int) {
    0 <= d < 16 && (c == "0123456789abcdef"[d] || c == "0123456789ABCDEF"[d])
  }

  /** Four hexadecimal digits that spell n. */
  ghost predicate HexText(t: string, n: int) {
    |t| == 4 && exists a, b, c, d :: Spelling(t, a, b, c, d) && n == a * 4096 + b * 256 + c * 16 + d
  }

  ghost predicate Spelling(t: string, a: int, b: int, c: int, d: int)
    requires |t| == 4
  {
    HexDigitOf(t[0], a) && HexDigitOf(t[1], b) && HexDigitOf(t[2], c) && HexDigitOf(t[3], d)
  }

  /** The character that a letter after a backslash stands for. */
  ghost predicate Escapes(letter: char, c: char) {
    || (letter in {QUOTE, BACKSLASH, '/'} && c == letter)
    || (letter == 'b' && c == '\U{08}') || (letter == 'f' && c == '\U{0C}')
    || (letter == 'n' && c == '\n') || (letter == 'r' && c == '\r') || (letter == 't' && c == '\t')
  }

  ghost predicate PairText(t: string, c: char)
    requires |t| == 12
  {
    exists high, low ::
      && 0xD800 <= high < 0xDC00 && 0xDC00 <= low < 0xE000 && HexText(t[2..6], high) && HexText(t[8..], low)
      && c as int == 0x1_0000 + (high - 0xD800) * 0x400 + (low - 0xDC00)
  }

  /** One character in a string: itself, or a backslash and a letter, or its number, or the numbers of its two surrogates. */
  ghost predicate CharText(t: string, c: char) {
    || (t == [c] && c != QUOTE && c != BACKSLASH && c >= ' ')
    || (|t| == 2 && t[0] == BACKSLASH && Escapes(t[1], c))
    || (|t| == 6 && t[0] == BACKSLASH && t[1] == 'u' && HexText(t[2..], c as int))
    || (|t| == 12 && t[0] == t[6] == BACKSLASH && t[1] == t[7] == 'u' && PairText(t, c))
  }

  /** The text between the quotes of a string. */
  ghost predicate Spells(t: string, s: string)
    decreases |t|
  {
    if s == "" then t == "" else exists k: nat :: SpellsFrom(t, s, k)
  }

  ghost predicate SpellsFrom(t: string, s: string, k: nat)
    requires s != ""
    decreases |t|, 0
  {
    1 <= k <= |t| && CharText(t[..k], s[0]) && Spells(t[k..], s[1..])
  }

  ghost predicate Quoted(t: string, s: string) {
    |t| >= 2 && t[0] == QUOTE && t[|t| - 1] == QUOTE && Spells(t[1..|t| - 1], s)
  }

  /** Digits, without a zero before others. */
  ghost predicate DigitsText(t: string, n: int) {
    t != "" && AllDigits(t) && (t[0] == '0' ==> t == "0") && n == Numeral(t)
  }

  ghost predicate NumberText(t: string, n: int) {
    if t != "" && t[0] == '-' then DigitsText(t[1..], -n) else DigitsText(t, n)
  }

  ghost predicate Between(t: string, open: char, close: char) {
    |t| >= 2 && t[0] == open && t[|t| - 1] == close
  }

  ghost predicate ValueText(t: string, v: Json)
    decreases |t|, 0
  {
    match v
    case Null => t == "null"
    case Bool(b) => t == if b then "true" else "false"
    case Int(n) => NumberText(t, n)
    case Str(s) => Quoted(t, s)
    case Arr(items) =>
      && Between(t, '[', ']')
      && if items == [] then Spaces(t[1..|t| - 1]) else ItemsText(t[1..|t| - 1], items)
    case Obj(fields) =>
      Between(t, '{', '}') && ((fields == map[] && Spaces(t[1..|t| - 1])) || MembersText(t[1..|t| - 1], map[], fields))
  }

  /** A value with spaces around it. */
  ghost predicate Padded(t: string, v: Json)
    decreases |t|, 2
  {
    exists i: nat, j: nat :: PaddedAt(t, v, i, j)
  }

  ghost predicate PaddedAt(t: string, v: Json, i: nat, j: nat)
    decreases |t|, 1
  {
    i <= j <= |t| && Spaces(t[..i]) && ValueText(t[i..j], v) && Spaces(t[j..])
  }

  /** The items of an array, with commas between. */
  ghost predicate ItemsText(t: string, items: seq<Json>)
    decreases |t|, 4
  {
    if items == [] then false
    else if |items| == 1 then Padded(t, items[0])
    else exists k: nat :: ItemsFrom(t, items, k)
  }

  ghost predicate ItemsFrom(t: string, items: seq<Json>, k: nat)
    requires items != []
    decreases |t|, 3
  {
    k < |t| && t[k] == ',' && Padded(t[..k], items[0]) && ItemsText(t[k + 1..], items[1..])
  }

  ghost predicate KeyText(t: string, key: string) {
    exists i: nat, j: nat :: KeyAt(t, key, i, j)
  }

  ghost predicate KeyAt(t: string, key: string, i: nat, j: nat) {
    i <= j <= |t| && Spaces(t[..i]) && Quoted(t[i..j], key) && Spaces(t[j..])
  }

  /** A key, a colon at k, and a value. */
  ghost predicate MemberAt(t: string, key: string, v: Json, k: nat)
    decreases |t|, 3
  {
    k < |t| && t[k] == ':' && KeyText(t[..k], key) && Padded(t[k + 1..], v)
  }

  ghost predicate MemberText(t: string, key: string, v: Json)
    decreases |t|, 4
  {
    exists k: nat :: MemberAt(t, key, v, k)
  }

  /** The members of an object, with commas between; the last of those with the same key counts. */
  ghost predicate MembersText(t: string, seen: map<string, Json>, fields: map<string, Json>)
    decreases |t|, 6
  {
    || (exists key, v :: MemberText(t, key, v) && fields == seen[key := v])
    || (exists k: nat, key, v :: MembersFrom(t, seen, fields, k, key, v))
  }

  ghost predicate MembersFrom(t: string, seen: map<string, Json>, fields: map<string, Json>, k: nat, key: string, v: Json)
    decreases |t|, 5
  {
    k < |t| && t[k] == ',' && MemberText(t[..k], key, v) && MembersText(t[k + 1..], seen[key := v], fields)
  }

  // ----- strings

  lemma HexExact(c: char)
    ensures forall d :: HexDigitOf(c, d) <==> d >= 0 && HexValue(c) == d
  {
    forall d: int
      ensures HexDigitOf(c, d) <==> d >= 0 && HexValue(c) == d
    {
      var low, high := "0123456789abcdef", "0123456789ABCDEF";
      if 0 <= d < 10 {
        assert low[d] == high[d] == '0' + d as char;
      } else if 10 <= d < 16 {
        assert low[d] == 'a' + (d - 10) as char && high[d] == 'A' + (d - 10) as char;
      }
    }
  }

  lemma Hex4Exact(s: string, n: int)
    requires n >= 0 && |s| >= 4
    ensures Hex4(s) == n <==> HexText(s[..4], n)
  {
    hide HexValue, HexDigitOf;
    var t := s[..4];
    HexExact(t[0]);
    HexExact(t[1]);
    HexExact(t[2]);
    HexExact(t[3]);
    var a, b, c, d := HexValue(t[0]), HexValue(t[1]), HexValue(t[2]), HexValue(t[3]);
    if a >= 0 && b >= 0 && c >= 0 && d >= 0 {
      assert Spelling(t, a, b, c, d);
    }
    if HexText(t, n) {
      var a', b', c', d' :| Spelling(t, a', b', c', d') && n == a' * 4096 + b' * 256 + c' * 16 + d';
      assert a' == a && b' == b && c' == c && d' == d;
    }
  }

  /** What an escape is read as is what its text spells. */
  lemma EscapeSound(s: string) returns (k: nat)
    requires ParseEscape(s).Ok?
    ensures k <= |s| && ParseEscape(s).rest == s[k..] && CharText([BACKSLASH] + s[..k], ParseEscape(s).value)
  {
    hide HexText, Hex4;
    k := |s| - |ParseEscape(s).rest|;
    var t := [BACKSLASH] + s[..k];
    if s[0] == 'u' {
      var u := Hex4(s[1..]);
      Hex4Exact(s[1..], u);
      if k == 5 {
        assert t[2..] == s[1..][..4];
      } else {
        Hex4Exact(s[7..], Hex4(s[7..]));
        assert t[2..6] == s[1..][..4] && t[8..] == s[7..][..4];
        assert PairText(t, ParseEscape(s).value);
      }
    } else {
      assert k == 1;
    }
  }

  lemma EscapeComplete(t: string, c: char, rest: string)
    requires CharText(t, c) && t != [c]
    ensures t != "" && t[0] == BACKSLASH && ParseEscape(t[1..] + rest) == Ok(c, rest)
  {
    hide HexText, Hex4;
    var s := t[1..] + rest;
    assert t[1..][0] == t[1] == s[0];
    if |t| == 2 {
      assert s[1..] == rest;
    } else if |t| == 6 {
      Hex4Exact(s[1..], c as int);
      assert s[1..][..4] == t[2..];
      assert s[5..] == rest;
    } else {
      var high, low :|
        && 0xD800 <= high < 0xDC00 && 0xDC00 <= low < 0xE000 && HexText(t[2..6], high) && HexText(t[8..], low)
        && c as int == 0x1_0000 + (high - 0xD800) * 0x400 + (low - 0xDC00);
      Hex4Exact(s[1..], high);
      Hex4Exact(s[7..], low);
      assert s[1..][..4] == t[2..6] && s[7..][..4] == t[8..];
      assert s[5] == t[6] && s[6] == t[7];
      assert s[11..] == rest;
    }
  }

  lemma {:induction false} StringSound(s: string) returns (k: nat)
    requires ParseString(s).Ok?
    ensures k < |s| && s[k] == QUOTE && ParseString(s).rest == s[k + 1..] && Spells(s[..k], ParseString(s).value)
    decreases |s|
  {
    hide ParseEscape, CharText;
    if s[0] == QUOTE {
      k := 0;
    } else {
      var first: nat;
      if s[0] == BACKSLASH {
        var e := EscapeSound(s[1..]);
        first := 1 + e;
        assert [BACKSLASH] + s[1..][..e] == s[..first] && s[1..][e..] == s[first..];
      } else {
        first := 1;
        PlainChar(s[0]);
        assert s[..1] == [s[0]];
      }
      var m := StringSound(s[first..]);
      k := first + m;
      var v := ParseString(s).value;
      assert s[..k][..first] == s[..first] && s[..k][first..] == s[first..][..m];
      assert v[1..] == ParseString(s[first..]).value;
      assert SpellsFrom(s[..k], v, first);
    }
  }

  lemma PlainChar(c: char)
    ensures c != QUOTE && c != BACKSLASH && c >= ' ' ==> CharText([c], c)
  {
  }

  lemma CharStarts(t: string, c: char)
    requires CharText(t, c)
    ensures t != "" && (if t == [c] then c != QUOTE && c != BACKSLASH && c >= ' ' else t[0] == BACKSLASH)
  {
    if t == [c] && |t| == 1 {
    }
  }

  lemma {:induction false} StringComplete(t: string, v: string, rest: string)
    requires Spells(t, v)
    ensures ParseString(t + ([QUOTE] + rest)) == Ok(v, rest)
    decreases |t|
  {
    hide ParseEscape, CharText;
    var s := t + ([QUOTE] + rest);
    if v == "" {
      assert s == [QUOTE] + rest;
    } else {
      var k: nat :| SpellsFrom(t, v, k);
      StringComplete(t[k..], v[1..], rest);
      var x, tail := t[..k], t[k..] + ([QUOTE] + rest);
      CharStarts(x, v[0]);
      assert s == x + tail && s[0] == x[0];
      assert [v[0]] + v[1..] == v;
      if x == [v[0]] {
        assert s[1..] == tail;
      } else {
        EscapeComplete(x, v[0], tail);
        assert s[1..] == x[1..] + tail;
      }
    }
  }

  // ----- numbers

  lemma NatSound(s: string) returns (k: nat)
    requires ParseNat(s).Ok?
    ensures k <= |s| && ParseNat(s).rest == s[k..] && DigitsText(s[..k], ParseNat(s).value)
  {
    if s[0] == '0' {
      k := 1;
      assert s[..1] == "0";
    } else {
      k := |DigitPrefix(s)|;
    }
  }

  lemma NatComplete(t: string, n: int, rest: string)
    requires DigitsText(t, n) && Stops(rest)
    ensures ParseNat(t + rest) == Ok(n, rest)
  {
    var s := t + rest;
    assert s[0] == t[0];
    if t[0] != '0' {
      DigitPrefixOf(t, rest);
    }
    assert s[|t|..] == rest;
  }

  lemma IntSound(s: string) returns (k: nat)
    requires ParseInt(s).Ok?
    ensures k <= |s| && ParseInt(s).rest == s[k..] && NumberText(s[..k], ParseInt(s).value)
  {
    if s != "" && s[0] == '-' {
      var m := NatSound(s[1..]);
      k := m + 1;
      assert s[..k][1..] == s[1..][..m] && s[1..][m..] == s[k..];
    } else {
      k := NatSound(s);
    }
  }

  lemma IntComplete(t: string, n: int, rest: string)
    requires NumberText(t, n) && Stops(rest)
    ensures ParseInt(t + rest) == Ok(n, rest)
  {
    if t[0] == '-' {
      NatComplete(t[1..], -n, rest);
      assert (t + rest)[1..] == t[1..] + rest;
    } else {
      NatComplete(t, n, rest);
    }
  }

  // ----- spaces

  /** Where the spaces at the front end. */
  lemma Skipped(s: string) returns (o: nat)
    ensures o <= |s| && SkipSpace(s) == s[o..] && Spaces(s[..o])
    ensures o < |s| ==> !IsSpace(s[o])
  {
    if s == "" || !IsSpace(s[0]) {
      o := 0;
    } else {
      var m := Skipped(s[1..]);
      o := m + 1;
      assert s[1..][m..] == s[o..];
      assert forall i :: 1 <= i < o ==> s[..o][i] == s[1..][..m][i - 1];
    }
  }

  lemma SkipComplete(a: string, x: string)
    requires Spaces(a) && (x == "" || !IsSpace(x[0]))
    ensures SkipSpace(a + x) == x
  {
    if a == "" {
      assert a + x == x;
    } else {
      SkipComplete(a[1..], x);
      assert (a + x)[1..] == a[1..] + x;
    }
  }

  // ----- what is read is spelled

  /** The m characters after the first, and what follows the character behind them. */
  lemma Inside(s: string, m: nat)
    requires m + 2 <= |s|
    ensures s[..m + 2][1..m + 1] == s[1..][..m] && s[1..][m + 1..] == s[m + 2..]
  {
  }

  lemma SomeItems(t: string, items: seq<Json>)
    requires ItemsText(t, items)
    ensures items != []
  {
  }

  lemma {:induction false} ValueSound(s: string) returns (k: nat)
    requires ParseValue(s).Ok?
    ensures k <= |s| && ParseValue(s).rest == s[k..] && ValueText(s[..k], ParseValue(s).value)
    decreases |s|, 1
  {
    hide ParseString, ParseInt, ParseItems, ParseFields, Spells, NumberText, ItemsText, MembersText, SkipSpace;
    if s[0] == QUOTE {
      var m := StringSound(s[1..]);
      k := m + 2;
      Inside(s, m);
    } else if s[0] == '[' {
      k := ArraySound(s);
    } else if s[0] == '{' {
      k := ObjectSound(s);
    } else if "null" <= s || "true" <= s {
      k := 4;
    } else if "false" <= s {
      k := 5;
    } else {
      k := IntSound(s);
    }
  }

  lemma {:induction false} ArraySound(s: string) returns (k: nat)
    requires s != "" && s[0] == '[' && ParseValue(s).Ok?
    ensures k <= |s| && ParseValue(s).rest == s[k..] && ValueText(s[..k], ParseValue(s).value)
    decreases |s|, 0
  {
    hide ParseItems, ItemsText, SkipSpace;
    var inner := s[1..];
    var o := Skipped(inner);
    if o < |inner| && inner[o] == ']' {
      k := o + 2;
      Inside(s, o);
      assert inner[o..][1..] == s[k..];
    } else {
      var m := ItemsSound(inner);
      k := m + 2;
      Inside(s, m);
      SomeItems(inner[..m], ParseItems(SkipSpace(inner)).value);
    }
  }

  lemma {:induction false} ObjectSound(s: string) returns (k: nat)
    requires s != "" && s[0] == '{' && ParseValue(s).Ok?
    ensures k <= |s| && ParseValue(s).rest == s[k..] && ValueText(s[..k], ParseValue(s).value)
    decreases |s|, 0
  {
    hide ParseFields, MembersText, SkipSpace;
    var inner := s[1..];
    var o := Skipped(inner);
    if o < |inner| && inner[o] == '}' {
      k := o + 2;
      Inside(s, o);
      assert inner[o..][1..] == s[k..];
    } else {
      var m := MembersSound(inner, map[]);
      k := m + 2;
      Inside(s, m);
    }
  }

  lemma {:induction false} PaddedSound(s: string) returns (k: nat)
    requires ParseValue(SkipSpace(s)).Ok?
    ensures var r := ParseValue(SkipSpace(s)); k <= |s| && SkipSpace(r.rest) == s[k..] && Padded(s[..k], r.value)
    decreases |s|, 2
  {
    hide ParseValue, ValueText, SkipSpace, Spaces;
    var o := Skipped(s);
    var m := ValueSound(s[o..]);
    var p := Skipped(s[o..][m..]);
    k := o + m + p;
    var t := s[..k];
    assert t[..o] == s[..o] && t[o..o + m] == s[o..][..m] && t[o + m..] == s[o..][m..][..p];
    assert s[o..][m..][p..] == s[k..];
    assert PaddedAt(t, ParseValue(s[o..]).value, o, o + m);
  }

  lemma {:induction false} ItemsSound(s: string) returns (m: nat)
    requires ParseItems(SkipSpace(s)).Ok?
    ensures var r := ParseItems(SkipSpace(s)); m < |s| && s[m] == ']' && r.rest == s[m + 1..] && ItemsText(s[..m], r.value)
    decreases |s|, 3
  {
    hide ParseValue, SkipSpace, Padded;
    var k := PaddedSound(s);
    if s[k] == ']' {
      m := k;
    } else {
      var n := ItemsSound(s[k + 1..]);
      m := k + 1 + n;
      var items := ParseItems(SkipSpace(s)).value;
      assert s[k..][1..] == s[k + 1..] && s[k + 1..][n + 1..] == s[m + 1..];
      assert s[..m][..k] == s[..k] && s[..m][k + 1..] == s[k + 1..][..n];
      assert items[1..] == ParseItems(SkipSpace(s[k + 1..])).value;
      assert ItemsFrom(s[..m], items, k);
    }
  }

  lemma {:induction false} MemberSound(s: string) returns (k: nat)
    requires ParseMember(SkipSpace(s)).Ok?
    ensures var r := ParseMember(SkipSpace(s)); k <= |s| && SkipSpace(r.rest) == s[k..] && MemberText(s[..k], r.value.0, r.value.1)
    decreases |s|, 3
  {
    hide ParseString, ParseValue, SkipSpace, Padded, Spells, Spaces;
    var o := Skipped(s);
    var x := s[o..];
    var m := StringSound(x[1..]);
    assert x[1..][m + 1..] == x[m + 2..];
    var p := Skipped(x[m + 2..]);
    var q := o + m + 2 + p;
    assert x[m + 2..][p..] == s[q..];
    var n := PaddedSound(s[q + 1..]);
    assert s[q..][1..] == s[q + 1..];
    k := q + 1 + n;
    assert s[q + 1..][n..] == s[k..];
    var key, v := ParseMember(x).value.0, ParseMember(x).value.1;
    KeySound(s, o, m, p, key);
    assert s[..k][..q] == s[..q] && s[..k][q + 1..] == s[q + 1..][..n];
    assert MemberAt(s[..k], key, v, q);
  }

  lemma KeySound(s: string, o: nat, m: nat, p: nat, key: string)
    requires o + m + 2 + p <= |s| && Spaces(s[..o]) && s[o] == QUOTE && s[o..][1..][m] == QUOTE
    requires Spells(s[o..][1..][..m], key) && Spaces(s[o..][m + 2..][..p])
    ensures KeyText(s[..o + m + 2 + p], key)
  {
    hide Spells, Spaces;
    var t := s[..o + m + 2 + p];
    var x := t[o..o + m + 2];
    assert t[..o] == s[..o] && t[o + m + 2..] == s[o..][m + 2..][..p];
    assert x == s[o..][..m + 2];
    Inside(s[o..], m);
    assert |x| == m + 2 && x[1..|x| - 1] == s[o..][1..][..m] && x[m + 1] == QUOTE;
    assert Quoted(x, key);
    assert KeyAt(t, key, o, o + m + 2);
  }

  lemma {:induction false} MembersSound(s: string, seen: map<string, Json>) returns (m: nat)
    requires ParseFields(SkipSpace(s), seen).Ok?
    ensures var r := ParseFields(SkipSpace(s), seen);
      m < |s| && s[m] == '}' && r.rest == s[m + 1..] && MembersText(s[..m], seen, r.value)
    decreases |s|, 4
  {
    hide ParseMember, SkipSpace, MemberText;
    var k := MemberSound(s);
    var key, v := ParseMember(SkipSpace(s)).value.0, ParseMember(SkipSpace(s)).value.1;
    if s[k] == '}' {
      m := k;
      assert MemberText(s[..m], key, v);
    } else {
      var n := MembersSound(s[k + 1..], seen[key := v]);
      m := k + 1 + n;
      assert s[k..][1..] == s[k + 1..] && s[k + 1..][n + 1..] == s[m + 1..];
      assert s[..m][..k] == s[..k] && s[..m][k + 1..] == s[k + 1..][..n];
      assert MembersFrom(s[..m], seen, ParseFields(SkipSpace(s), seen).value, k, key, v);
    }
  }

  // ----- what is spelled is read

  lemma ValueStarts(t: string, v: Json)
    requires ValueText(t, v)
    ensures t != "" && !IsSpace(t[0]) && t[0] != ']'
  {
    hide ItemsText, MembersText, Spells, Spaces;
  }

  lemma {:induction false} ValueComplete(t: string, v: Json, rest: string)
    requires ValueText(t, v) && Stops(rest)
    ensures ParseValue(t + rest) == Ok(v, rest)
    decreases |t|, 1
  {
    hide ParseString, ParseInt, ParseItems, ParseFields, Spells, NumberText, ItemsText, MembersText, SkipSpace;
    var s := t + rest;
    match v {
      case Null => assert s[..4] == "null" && s[4..] == rest;
      case Bool(b) =>
        if b {
          assert s[..4] == "true" && s[4..] == rest;
        } else {
          assert s[..5] == "false" && s[5..] == rest;
        }
      case Int(n) =>
        NumberStarts(t, n);
        IntComplete(t, n, rest);
      case Str(x) =>
        StringComplete(t[1..|t| - 1], x, rest);
        assert s[1..] == t[1..|t| - 1] + ([QUOTE] + rest);
      case Arr(items) => ArrayComplete(t, items, rest);
      case Obj(fields) => ObjectComplete(t, fields, rest);
    }
  }

  lemma NumberStarts(t: string, n: int)
    requires NumberText(t, n)
    ensures t != "" && (t[0] == '-' || IsDigit(t[0]))
  {
  }

  lemma {:induction false} ArrayComplete(t: string, items: seq<Json>, rest: string)
    requires ValueText(t, Arr(items))
    ensures ParseValue(t + rest) == Ok(Arr(items), rest)
    decreases |t|, 0
  {
    hide ParseItems, ItemsText, SkipSpace;
    var inner := t[1..|t| - 1];
    assert (t + rest)[1..] == inner + ([']'] + rest);
    if items == [] {
      SkipComplete(inner, [']'] + rest);
      assert ([']'] + rest)[1..] == rest;
    } else {
      ItemsComplete(inner, items, rest);
    }
  }

  lemma {:induction false} ObjectComplete(t: string, fields: map<string, Json>, rest: string)
    requires ValueText(t, Obj(fields))
    ensures ParseValue(t + rest) == Ok(Obj(fields), rest)
    decreases |t|, 0
  {
    hide ParseFields, MembersText, SkipSpace;
    var inner := t[1..|t| - 1];
    assert (t + rest)[1..] == inner + (['}'] + rest);
    if fields == map[] && Spaces(inner) {
      SkipComplete(inner, ['}'] + rest);
      assert (['}'] + rest)[1..] == rest;
    } else {
      MembersComplete(inner, map[], fields, rest);
    }
  }

  /** The end of a text, or what may stand after a value inside another. */
  ghost predicate EndsValue(rest: string) {
    rest == "" || rest[0] in {',', ']', '}'}
  }

  lemma {:induction false} PaddedComplete(t: string, v: Json, rest: string)
    requires Padded(t, v) && EndsValue(rest)
    ensures var s := SkipSpace(t + rest);
      s != "" && s[0] != ']' && ParseValue(s).Ok? && ParseValue(s).value == v && SkipSpace(ParseValue(s).rest) == rest
    decreases |t|, 2
  {
    hide ParseValue, ValueText, SkipSpace;
    var i: nat, j: nat :| PaddedAt(t, v, i, j);
    var x, tail := t[i..j], t[j..] + rest;
    ValueStarts(x, v);
    assert t + rest == t[..i] + (x + tail);
    SkipComplete(t[..i], x + tail);
    assert t[j..] == "" ==> tail == rest;
    ValueComplete(x, v, tail);
    SkipComplete(t[j..], rest);
  }

  lemma {:induction false} ItemsComplete(t: string, items: seq<Json>, rest: string)
    requires ItemsText(t, items)
    ensures var s := SkipSpace(t + ([']'] + rest)); s != "" && s[0] != ']' && ParseItems(s) == Ok(items, rest)
    decreases |t|, 3
  {
    hide ParseValue, SkipSpace, Padded;
    if |items| == 1 {
      PaddedComplete(t, items[0], [']'] + rest);
      assert ([']'] + rest)[1..] == rest;
      assert [items[0]] == items;
    } else {
      var k: nat :| ItemsFrom(t, items, k);
      var tail := t[k + 1..] + ([']'] + rest);
      assert t + ([']'] + rest) == t[..k] + ([','] + tail);
      PaddedComplete(t[..k], items[0], [','] + tail);
      assert ([','] + tail)[1..] == tail;
      ItemsComplete(t[k + 1..], items[1..], rest);
      assert [items[0]] + items[1..] == items;
    }
  }

  lemma QuotedComplete(x: string, key: string, tail: string)
    requires Quoted(x, key)
    ensures (x + tail)[0] == QUOTE && ParseString((x + tail)[1..]) == Ok(key, tail)
  {
    hide ParseString, Spells;
    StringComplete(x[1..|x| - 1], key, tail);
    assert (x + tail)[1..] == x[1..|x| - 1] + ([QUOTE] + tail);
  }

  /** A key, a colon, and what follows them. */
  lemma KeyComplete(t: string, key: string, tail: string)
    requires KeyText(t, key)
    ensures var s := SkipSpace(t + ([':'] + tail));
      && s != "" && s[0] == QUOTE && ParseString(s[1..]).Ok? && ParseString(s[1..]).value == key
      && SkipSpace(ParseString(s[1..]).rest) == [':'] + tail
  {
    hide ParseString, SkipSpace, Quoted;
    var i: nat, j: nat :| KeyAt(t, key, i, j);
    var x, behind := t[i..j], t[j..] + ([':'] + tail);
    QuotedComplete(x, key, behind);
    assert t + ([':'] + tail) == t[..i] + (x + behind);
    QuotedStarts(x, key);
    SkipComplete(t[..i], x + behind);
    SkipComplete(t[j..], [':'] + tail);
  }

  lemma QuotedStarts(x: string, key: string)
    requires Quoted(x, key)
    ensures x != "" && x[0] == QUOTE
  {
  }

  lemma {:induction false} MemberComplete(t: string, key: string, v: Json, rest: string)
    requires MemberText(t, key, v) && EndsValue(rest)
    ensures var s := SkipSpace(t + rest);
      && s != "" && s[0] == QUOTE && ParseMember(s).Ok? && ParseMember(s).value == (key, v)
      && SkipSpace(ParseMember(s).rest) == rest
    decreases |t|, 3
  {
    hide ParseString, ParseValue, SkipSpace, Padded, KeyText;
    var k: nat :| MemberAt(t, key, v, k);
    var tail := t[k + 1..] + rest;
    assert t + rest == t[..k] + ([':'] + tail);
    KeyComplete(t[..k], key, tail);
    assert ([':'] + tail)[1..] == tail;
    PaddedComplete(t[k + 1..], v, rest);
  }

  lemma {:induction false} MembersComplete(t: string, seen: map<string, Json>, fields: map<string, Json>, rest: string)
    requires MembersText(t, seen, fields)
    ensures var s := SkipSpace(t + (['}'] + rest)); s != "" && s[0] == QUOTE && ParseFields(s, seen) == Ok(fields, rest)
    decreases |t|, 4
  {
    hide ParseMember, SkipSpace, MemberText;
    if key, v :| MemberText(t, key, v) && fields == seen[key := v] {
      MemberComplete(t, key, v, ['}'] + rest);
      assert (['}'] + rest)[1..] == rest;
    } else {
      var k: nat, key, v :| MembersFrom(t, seen, fields, k, key, v);
      var tail := t[k + 1..] + (['}'] + rest);
      assert t + (['}'] + rest) == t[..k] + ([','] + tail);
      MemberComplete(t[..k], key, v, [','] + tail);
      assert ([','] + tail)[1..] == tail;
      MembersComplete(t[k + 1..], seen[key := v], fields, rest);
    }
  }

  // ----- the reader

  /** The reader accepts exactly the texts of the grammar, and reads each as the value that it spells. */
  lemma LoadsExact(s: string, v: Json)
    ensures Loads(s) == Loaded(v) <==> Padded(s, v)
  {
    hide ParseValue, SkipSpace, Padded;
    if Loads(s) == Loaded(v) {
      var k := PaddedSound(s);
      assert s[..k] == s;
    }
    if Padded(s, v) {
      PaddedComplete(s, v, "");
      assert s + "" == s;
    }
  }

  /** So no text spells two values. */
  lemma SpelledOnce(s: string, v: Json, w: Json)
    requires Padded(s, v) && Padded(s, w)
    ensures v == w
  {
    hide Padded;
    LoadsExact(s, v);
    LoadsExact(s, w);
  }
}
