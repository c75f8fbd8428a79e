/** The Lua string literal printer (nginx.go) against the string-literal rules of
    section 2.1 of the Lua 5.1 Reference Manual. */
module LuaLiteral {
  import opened Text

  newtype Byte = b: int | 0 <= b < 256

  const QUOTE: Byte := 34
  const BACKSLASH: Byte := 92

  function Digit(n: int): Byte
    requires 0 <= n < 10
  {
    (48 + n) as Byte
  }

  // ---------- the printer ----------

  function Escaped(c: Byte): seq<Byte> {
    if c == BACKSLASH then [BACKSLASH, BACKSLASH]
    else if c == QUOTE then [BACKSLASH, QUOTE]
    else if c == 10 then [BACKSLASH, 110]
    else if c == 13 then [BACKSLASH, 114]
    else if c == 9 then [BACKSLASH, 116]
    else if c < 32 then
      var n := c as int;
      [BACKSLASH, Digit(n / 100), Digit(n / 10 % 10), Digit(n % 10)]
    else [c]
  }

  function Body(s: seq<Byte>): seq<Byte> {
    if s == [] then [] else Body(s[..|s| - 1]) + Escaped(s[|s| - 1])
  }

  method LuaStr(s: seq<Byte>) returns (b: seq<Byte>)
    ensures b == [QUOTE] + Body(s) + [QUOTE]
  {
    b := [QUOTE];
    for i := 0 to |s|
      invariant b == [QUOTE] + Body(s[..i])
    {
      assert s[..i + 1][..i] == s[..i];
      b := b + Escaped(s[i]);
    }
    assert s[..|s|] == s;
    b := b + [QUOTE];
  }

  // ---------- the reader ----------

  predicate IsDigit(c: Byte) {
    48 <= c <= 57
  }

  /** The value of up to max leading decimal digits, and how many there are. */
  function Decimal(t: seq<Byte>, max: nat, acc: int): (r: (int, nat))
    ensures r.1 <= max && r.1 <= |t|
    decreases max
  {
    if max == 0 || t == [] || !IsDigit(t[0]) then (acc, 0)
    else
      var (v, n) := Decimal(t[1..], max - 1, acc * 10 + (t[0] as int - 48));
      (v, n + 1)
  }

  /** What one escape sequence, without its backslash, stands for and how long it
      is: control letters, a line break, up to three digits, any other character. */
  function Unescape(t: seq<Byte>): (r: Option<(Byte, nat)>)
    ensures r.Some? ==> 0 < r.value.1 <= |t|
  {
    if t == [] then None
    else if t[0] == 97 then Some((7, 1))
    else if t[0] == 98 then Some((8, 1))
    else if t[0] == 102 then Some((12, 1))
    else if t[0] == 110 then Some((10, 1))
    else if t[0] == 114 then Some((13, 1))
    else if t[0] == 116 then Some((9, 1))
    else if t[0] == 118 then Some((11, 1))
    else if IsDigit(t[0]) then
      var (v, n) := Decimal(t, 3, 0);
      if 0 <= v < 256 && n > 0 then Some((v as Byte, n)) else None
    else Some((if t[0] == 13 then 10 else t[0], 1))
  }

  /** Reads a literal after its opening quote: its contents and the text after the
      closing quote. A raw line break or the end of the text leaves it unfinished. */
  function Contents(t: seq<Byte>): Option<(seq<Byte>, seq<Byte>)>
    decreases |t|
  {
    if t == [] || t[0] == 10 || t[0] == 13 then None
    else if t[0] == QUOTE then Some(([], t[1..]))
    else if t[0] == BACKSLASH then
      var e := Unescape(t[1..]);
      if e.None? then None else Prepend(e.value.0, Contents(t[1 + e.value.1..]))
    else Prepend(t[0], Contents(t[1..]))
  }

  function Prepend(c: Byte, r: Option<(seq<Byte>, seq<Byte>)>): Option<(seq<Byte>, seq<Byte>)> {
    if r.None? then None else Some(([c] + r.value.0, r.value.1))
  }

  function ReadLiteral(t: seq<Byte>): Option<(seq<Byte>, seq<Byte>)> {
    if t == [] || t[0] != QUOTE then None else Contents(t[1..])
  }

  // ---------- the round trip ----------

  lemma ThreeDigits(n: int, rest: seq<Byte>)
    requires 0 <= n < 256
    ensures Decimal([Digit(n / 100), Digit(n / 10 % 10), Digit(n % 10)] + rest, 3, 0) == (n, 3)
  {
    var a, b, c := Digit(n / 100), Digit(n / 10 % 10), Digit(n % 10);
    var t := [a, b, c] + rest;
    assert t[1..] == [b, c] + rest && t[1..][1..] == [c] + rest && t[1..][1..][1..] == rest;
    var v1 := a as int - 48;
    var v2 := v1 * 10 + (b as int - 48);
    var v3 := v2 * 10 + (c as int - 48);
    assert v3 == n;
    assert Decimal(rest, 0, v3) == (v3, 0);
    assert Decimal([c] + rest, 1, v2) == (v3, 1);
    assert Decimal([b, c] + rest, 2, v1) == (v3, 2);
  }

  /** One escaped byte reads back as itself, whatever follows: a digit after a
      three-digit escape is not taken into it. */
  lemma OneByte(c: Byte, rest: seq<Byte>)
    ensures Contents(Escaped(c) + rest) == Prepend(c, Contents(rest))
  {
    var t := Escaped(c) + rest;
    if t[0] == BACKSLASH {
      if |Escaped(c)| == 4 {
        ThreeDigits(c as int, rest);
        assert t[1..] == Escaped(c)[1..] + rest;
        assert Unescape(t[1..]) == Some((c, 3));
        assert t[4..] == rest;
      } else {
        assert t[1..] == [Escaped(c)[1]] + rest && t[2..] == rest;
        assert Unescape(t[1..]) == Some((c, 1));
      }
    } else {
      assert t[1..] == rest;
    }
  }

  lemma {:induction false} BodyCons(c: Byte, s: seq<Byte>)
    ensures Body([c] + s) == Escaped(c) + Body(s)
  {
    hide Escaped;
    var all := [c] + s;
    if s == [] {
      assert all == [c] && [c][..0] == [];
      assert Body([]) + Escaped(c) == Escaped(c) + Body([]);
    } else {
      var front, last := s[..|s| - 1], s[|s| - 1];
      assert all[..|all| - 1] == [c] + front && all[|all| - 1] == last;
      BodyCons(c, front);
      assert (Escaped(c) + Body(front)) + Escaped(last) == Escaped(c) + (Body(front) + Escaped(last));
    }
  }

  lemma {:induction false} BodyReads(s: seq<Byte>, rest: seq<Byte>)
    ensures Contents(Body(s) + [QUOTE] + rest) == Some((s, rest))
    decreases |s|
  {
    hide Escaped;
    if s == [] {
      assert Body(s) + [QUOTE] + rest == [QUOTE] + rest;
    } else {
      var c, tail := s[0], s[1..];
      assert s == [c] + tail;
      BodyCons(c, tail);
      var t := Body(tail) + [QUOTE] + rest;
      assert Body(s) + [QUOTE] + rest == Escaped(c) + t;
      OneByte(c, t);
      BodyReads(tail, rest);
    }
  }

  lemma Opened(t: seq<Byte>)
    ensures ReadLiteral([QUOTE] + t) == Contents(t)
  {
    hide Contents;
    assert ([QUOTE] + t)[1..] == t;
  }

  /** The round trip, for every byte string and whatever text follows: Lua reads the
      printed literal as exactly s and goes on at that text. So no byte of s can end
      the literal early. */
  lemma LiteralRoundTrip(s: seq<Byte>, text: seq<Byte>)
    ensures ReadLiteral([QUOTE] + Body(s) + [QUOTE] + text) == Some((s, text))
  {
    hide Body, Contents;
    BodyReads(s, text);
    assert [QUOTE] + Body(s) + [QUOTE] + text == [QUOTE] + (Body(s) + [QUOTE] + text);
    Opened(Body(s) + [QUOTE] + text);
  }
}
