/** The texts that are stored and hashed, printed out: JSON values, ledger rows and the names of states. */
module Formats {
  import opened Json
  import opened Tables
  import opened Text
  import Audit

  // ----- JSON

  /** How each character of a string is printed. */
  lemma CharPrinted(c: char)
    ensures EscapeChar(c) ==
      match c
      case '\"' => "\\\""
      case '\\' => "\\\\"
      case '\n' => "\\n"
      case '\r' => "\\r"
      case '\t' => "\\t"
      case '\U{08}' => "\\b"
      case '\U{0C}' => "\\f"
      case _ =>
        if c >= ' ' then [c]
        else if c >= '\U{1A}' then "\\u001" + [['a', 'b', 'c', 'd', 'e', 'f'][c as int - 26]]
        else if c >= '\U{10}' then "\\u001" + ['0' + (c as int - 16) as char]
        else if c >= '\U{0A}' then "\\u000" + [['a', 'b', 'c', 'd', 'e', 'f'][c as int - 10]]
        else "\\u000" + ['0' + c as char]
  {
  }

  /** Texts one after the other, with commas between. */
  function Listed(texts: seq<string>): string {
    if texts == [] then "" else if |texts| == 1 then texts[0] else texts[0] + "," + Listed(texts[1..])
  }

  function ItemTexts(items: seq<Json>): seq<string> {
    if items == [] then [] else [Dumps(items[0])] + ItemTexts(items[1..])
  }

  lemma {:induction false} ItemsPrinted(items: seq<Json>)
    ensures DumpsItems(items) == Listed(ItemTexts(items))
    decreases |items|
  {
    if items != [] {
      ItemsPrinted(items[1..]);
      assert ItemTexts(items)[1..] == ItemTexts(items[1..]);
      if |items| == 1 {
        assert ItemTexts(items[1..]) == [];
      } else {
        assert ItemTexts(items[1..]) != [];
      }
    }
  }

  function FieldTexts(v: Json, keys: seq<string>): seq<string>
    requires v.Obj? && forall k :: k in keys ==> k in v.fields
  {
    if keys == [] then []
    else ["\"" + Escape(keys[0]) + "\"" + ":" + Dumps(v.fields[keys[0]])] + FieldTexts(v, keys[1..])
  }

  lemma {:induction false} FieldsPrinted(v: Json, keys: seq<string>)
    requires v.Obj? && forall k :: k in keys ==> k in v.fields
    ensures DumpsFields(v, keys) == Listed(FieldTexts(v, keys))
    decreases |keys|
  {
    hide Dumps, Escape;
    if keys != [] {
      FieldsPrinted(v, keys[1..]);
      assert FieldTexts(v, keys)[1..] == FieldTexts(v, keys[1..]);
      if |keys| == 1 {
        assert FieldTexts(v, keys[1..]) == [];
      } else {
        assert FieldTexts(v, keys[1..]) != [];
      }
    }
  }

  /** The keys of an object, each once, in the order of their code points. */
  ghost predicate InOrder(v: Json, keys: seq<string>)
    requires v.Obj?
  {
    && (forall k :: k in keys <==> k in v.fields)
    && (forall i, j :: 0 <= i < j < |keys| ==> keys[i] != keys[j] && Lex(keys[i], keys[j]))
  }

  ghost predicate IsPrinted(v: Json, keys: seq<string>)
    requires v.Obj?
  {
    InOrder(v, keys) && Dumps(v) == "{" + Listed(FieldTexts(v, keys)) + "}"
  }

  /** A value is printed without any space between its parts, and an object with its keys in order. */
  lemma ValuePrinted(v: Json)
    ensures v.Null? ==> Dumps(v) == "null"
    ensures v.Bool? ==> Dumps(v) == if v.b then "true" else "false"
    ensures v.Int? ==> Dumps(v) == IntText(v.n)
    ensures v.Str? ==> Dumps(v) == "\"" + Escape(v.s) + "\""
    ensures v.Arr? ==> Dumps(v) == "[" + Listed(ItemTexts(v.items)) + "]"
    ensures v.Obj? ==> exists keys :: IsPrinted(v, keys)
  {
    if v.Arr? {
      ItemsPrinted(v.items);
    } else if v.Obj? {
      FieldsPrinted(v, Sorted(v.fields.Keys));
      assert IsPrinted(v, Sorted(v.fields.Keys));
    }
  }

  // ----- the audit ledger

  /** Six digits that read as this number. */
  predicate IsFraction(d: string, micros: nat) {
    |d| == 6 && AllDigits(d) && Numeral(d) == micros
  }

  /** The text that a row's hash is taken of: time, event, subject, metadata and the hash before, with bars between. */
  lemma BodyPrinted(row: Audit.Row, prev: string)
    ensures Audit.Body(row, prev)
      == Audit.Seconds(row.micros) + "|" + row.event + "|" + row.subject + "|" + row.metadata + "|" + prev
  {
    hide Audit.Seconds;
    Barred(Audit.Seconds(row.micros), row.event, row.subject, row.metadata, prev);
  }

  lemma Barred(a: string, b: string, c: string, d: string, e: string)
    ensures a + "|" + ((b + "|" + (c + "|" + d)) + ("|" + e)) == a + "|" + b + "|" + c + "|" + d + "|" + e
  {
  }

  /** The time is printed in seconds, with six decimals. */
  lemma TimePrinted(micros: nat)
    ensures exists d :: IsFraction(d, micros % 1000000) && Audit.Seconds(micros) == Decimal(micros / 1000000) + "." + d
  {
    hide Audit.Padded, Decimal, Numeral;
    assert Audit.Power10(6) == 1000000;
    Audit.PaddedNumeral(micros % 1000000, 6);
    var d := Audit.Padded(micros % 1000000, 6);
    assert IsFraction(d, micros % 1000000) && Audit.Seconds(micros) == Decimal(micros / 1000000) + "." + d;
  }

  // ----- milliseconds

  /** The millisecond of a renewal is cut off toward zero. */
  lemma TowardZero(x: real)
    ensures if x >= 0.0 then 0 <= Truncate(x) && Truncate(x) as real <= x < Truncate(x) as real + 1.0
            else Truncate(x) <= 0 && Truncate(x) as real - 1.0 < x <= Truncate(x) as real
  {
  }

  // ----- states

  lemma StatesPrinted()
    ensures [StateName(Created), StateName(Planned), StateName(Ready), StateName(Running), StateName(Waiting), StateName(Verifying),
             StateName(Completed)] == ["created", "planned", "ready", "running", "waiting", "verifying", "completed"]
    ensures [StateName(Failed), StateName(Cancelled), StateName(Blocked), StateName(Retrying), StateName(Degraded), StateName(Recovering)]
      == ["failed", "cancelled", "blocked", "retrying", "degraded", "recovering"]
  {
  }
}
