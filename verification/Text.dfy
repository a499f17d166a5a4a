/** Decimal numerals, the code-point order of strings, and the stripping of white space. */
module Text {

  predicate IsDigit(c: char) {
    '0' <= c <= '9'
  }

  function DigitChar(d: int): char
    requires 0 <= d < 10
  {
    '0' + d as char
  }

  /** The decimal numeral of n, without leading zeros. */
  function Decimal(n: nat): string {
    if n < 10 then [DigitChar(n)] else Decimal(n / 10) + [DigitChar(n % 10)]
  }

  /** Python's str(int): a minus sign before the numeral of a negative number. */
  function IntText(n: int): string {
    if n < 0 then "-" + Decimal(-n) else Decimal(n)
  }

  predicate AllDigits(s: string) {
    forall i :: 0 <= i < |s| ==> IsDigit(s[i])
  }

  function Numeral(s: string): nat
    requires AllDigits(s)
  {
    if s == "" then 0 else Numeral(s[..|s| - 1]) * 10 + (s[|s| - 1] as int - '0' as int)
  }

  lemma {:induction false} DecimalNumeral(n: nat)
    ensures |Decimal(n)| > 0
    ensures AllDigits(Decimal(n))
    ensures Numeral(Decimal(n)) == n
    ensures n > 0 ==> Decimal(n)[0] != '0'
  {
    if n >= 10 {
      DecimalNumeral(n / 10);
      var d := Decimal(n);
      assert d[..|d| - 1] == Decimal(n / 10);
    } else {
      assert Decimal(n)[..0] == "";
      assert Numeral("") == 0;
    }
  }

  lemma DecimalInjective(m: nat, n: nat)
    requires Decimal(m) == Decimal(n)
    ensures m == n
  {
    DecimalNumeral(m);
    DecimalNumeral(n);
  }

  lemma IntTextInjective(m: int, n: int)
    requires IntText(m) == IntText(n)
    ensures m == n
  {
    var a, b := if m < 0 then -m else m, if n < 0 then -n else n;
    DecimalNumeral(a);
    DecimalNumeral(b);
    assert IsDigit(Decimal(a)[0]) && IsDigit(Decimal(b)[0]);
    if m < 0 && n < 0 {
      assert Decimal(a) == IntText(m)[1..] == IntText(n)[1..] == Decimal(b);
    }
  }

  /** Lexicographic order by code point: the order in which Python sorts strings. */
  predicate Lex(a: string, b: string) {
    a == "" || (b != "" && (a[0] < b[0] || (a[0] == b[0] && Lex(a[1..], b[1..]))))
  }

  lemma LexTotal(a: string, b: string)
    ensures Lex(a, b) || Lex(b, a)
  {
  }

  lemma LexAntisymmetric(a: string, b: string)
    requires Lex(a, b) && Lex(b, a)
    ensures a == b
  {
    if a != "" {
      LexAntisymmetric(a[1..], b[1..]);
      assert a == [a[0]] + a[1..] && b == [b[0]] + b[1..];
    }
  }

  lemma LexTransitive(a: string, b: string, c: string)
    requires Lex(a, b) && Lex(b, c)
    ensures Lex(a, c)
  {
  }

  predicate IsLeast(k: string, ks: set<string>) {
    k in ks && forall o :: o in ks ==> Lex(k, o)
  }

  lemma {:induction false} LeastExists(ks: set<string>)
    requires ks != {}
    ensures exists k :: IsLeast(k, ks)
    decreases |ks|
  {
    var x :| x in ks;
    var others := ks - {x};
    if others == {} {
      assert ks == {x};
      LexTotal(x, x);
      assert IsLeast(x, ks);
    } else {
      LeastExists(others);
      var y :| IsLeast(y, others);
      LexTotal(x, y);
      LexTotal(x, x);
      if Lex(x, y) {
        forall o | o in ks ensures Lex(x, o) {
          if o != x {
            LexTransitive(x, y, o);
          }
        }
        assert IsLeast(x, ks);
      } else {
        assert IsLeast(y, ks);
      }
    }
  }

  predicate Increasing(keys: seq<string>) {
    forall i, j :: 0 <= i < j < |keys| ==> keys[i] != keys[j] && Lex(keys[i], keys[j])
  }

  /** The elements of a set of strings, each once, in code-point order. */
  function Sorted(ks: set<string>): (keys: seq<string>)
    ensures forall k :: k in keys <==> k in ks
    ensures Increasing(keys)
    decreases |ks|
  {
    if ks == {} then
      []
    else
      LeastExists(ks);
      assert forall a, b :: IsLeast(a, ks) && IsLeast(b, ks) ==> a == b by {
        forall a, b | IsLeast(a, ks) && IsLeast(b, ks) ensures a == b {
          LexAntisymmetric(a, b);
        }
      }
      var k :| k in ks && IsLeast(k, ks);
      [k] + Sorted(ks - {k})
  }

  // ----- Python's str.strip

  predicate IsWhitespace(c: char) {
    '\U{09}' <= c <= '\U{0D}' || '\U{1C}' <= c <= ' ' || c == '\U{85}' || c == '\U{A0}' || c == '\U{1680}'
    || '\U{2000}' <= c <= '\U{200A}' || c == '\U{2028}' || c == '\U{2029}' || c == '\U{202F}'
    || c == '\U{205F}' || c == '\U{3000}'
  }

  function LeftStrip(s: string): (r: string)
    ensures r != "" ==> !IsWhitespace(r[0])
    ensures |r| <= |s| && r == s[|s| - |r|..]
    ensures forall i :: 0 <= i < |s| - |r| ==> IsWhitespace(s[i])
  {
    if s != "" && IsWhitespace(s[0]) then LeftStrip(s[1..]) else s
  }

  function RightStrip(s: string): (r: string)
    ensures r <= s
    ensures r != "" ==> !IsWhitespace(r[|r| - 1])
    ensures s != "" && !IsWhitespace(s[|s| - 1]) ==> r == s
    ensures forall i :: |r| <= i < |s| ==> IsWhitespace(s[i])
  {
    if s != "" && IsWhitespace(s[|s| - 1]) then RightStrip(s[..|s| - 1]) else s
  }

  function Strip(s: string): string {
    RightStrip(LeftStrip(s))
  }
}
