/** Strings as the control plane's Go code handles them, restricted to ASCII
    case folding, and the decimal printer and parser behind the zone tags. */
module Text {

  datatype Option<+T> = None | Some(value: T)

  function LowerChar(c: char): char {
    if 'A' <= c <= 'Z' then c - 'A' + 'a' else c
  }

  function UpperChar(c: char): char {
    if 'a' <= c <= 'z' then c - 'a' + 'A' else c
  }

  function Lower(s: string): string {
    seq(|s|, i requires 0 <= i < |s| => LowerChar(s[i]))
  }

  function Upper(s: string): string {
    seq(|s|, i requires 0 <= i < |s| => UpperChar(s[i]))
  }

  predicate EqualFold(a: string, b: string) {
    Lower(a) == Lower(b)
  }

  predicate IsSpace(c: char) {
    c == ' ' || ('\t' <= c <= '\r')
  }

  function TrimLeft(s: string): string {
    if s != "" && IsSpace(s[0]) then TrimLeft(s[1..]) else s
  }

  function TrimRight(s: string): string {
    if s != "" && IsSpace(s[|s| - 1]) then TrimRight(s[..|s| - 1]) else s
  }

  function TrimSpace(s: string): string {
    TrimRight(TrimLeft(s))
  }

  lemma {:induction false} TrimRightEnds(s: string)
    ensures TrimRight(s) <= s
    ensures TrimRight(s) != "" ==> !IsSpace(TrimRight(s)[|TrimRight(s)| - 1])
    ensures TrimRight(s) == s || IsSpace(s[|s| - 1])
  {
    if s == "" || !IsSpace(s[|s| - 1]) {
    } else {
      TrimRightEnds(s[..|s| - 1]);
    }
  }

  /** No text is, but for letter case, a star and a dot before its own trimmed form. */
  lemma NotItsOwnWildcard(name: string)
    requires TrimSpace(name) != ""
    ensures !EqualFold(name, "*." + TrimSpace(name))
  {
    var t, low := TrimSpace(name), Lower("*." + TrimSpace(name));
    assert name != "" && low[0] == '*';
    if TrimLeft(name) != name {
      assert Lower(name)[0] != '*';
    } else if |name| == |t| + 2 {
      TrimRightEnds(name);
      assert low[|name| - 1] == LowerChar(t[|t| - 1]) && Lower(name)[|name| - 1] == LowerChar(name[|name| - 1]);
    } else {
      assert |Lower(name)| != |low|;
    }
  }

  lemma {:induction false} TrimLeftEnds(s: string)
    ensures |TrimLeft(s)| <= |s| && TrimLeft(s) == s[|s| - |TrimLeft(s)|..]
    ensures forall i :: 0 <= i < |s| - |TrimLeft(s)| ==> IsSpace(s[i])
    ensures TrimLeft(s) != "" ==> !IsSpace(TrimLeft(s)[0])
  {
    if s == "" || !IsSpace(s[0]) {
    } else {
      var rest := s[1..];
      TrimLeftEnds(rest);
      assert rest[|rest| - |TrimLeft(rest)|..] == s[|s| - |TrimLeft(s)|..];
      assert forall i :: 0 < i < |s| ==> s[i] == rest[i - 1];
    }
  }

  lemma {:induction false} TrimRightTakesSpaces(s: string)
    ensures forall i :: |TrimRight(s)| <= i < |s| ==> IsSpace(s[i])
    ensures TrimRight(s) <= s
  {
    if s == "" || !IsSpace(s[|s| - 1]) {
    } else {
      TrimRightTakesSpaces(s[..|s| - 1]);
    }
  }

  /** Trimming takes blanks, tabs and line ends off both ends, all of them and nothing
      else. */
  lemma TrimSpaceExactly(s: string)
    ensures exists i, j :: 0 <= i <= j <= |s| && TrimSpace(s) == s[i..j]
                           && (forall k :: 0 <= k < i || j <= k < |s| ==> s[k] in " \t\n\r" || 11 <= s[k] as int <= 12)
                           && (i < j ==> s[i] !in " \t\n\r" && s[j - 1] !in " \t\n\r")
  {
    var l := TrimLeft(s);
    var i, j := |s| - |l|, |s| - |l| + |TrimRight(l)|;
    TrimLeftEnds(s);
    TrimRightTakesSpaces(l);
    TrimRightEnds(l);
    assert TrimSpace(s) == s[i..j];
    forall k | j <= k < |s| ensures IsSpace(s[k]) { assert l[k - i] == s[k]; }
    hide TrimSpace, TrimLeft, TrimRight;
  }

  /** Only the letters A to Z are folded, each to its lower-case form. */
  lemma FoldsLetters(s: string)
    ensures |Lower(s)| == |s| == |Upper(s)|
    ensures forall i :: 0 <= i < |s| ==>
              if 'A' <= s[i] <= 'Z' then Lower(s)[i] as int == s[i] as int + 32 && Upper(s)[i] == s[i]
              else if 'a' <= s[i] <= 'z' then Lower(s)[i] == s[i] && Upper(s)[i] as int == s[i] as int - 32
              else Lower(s)[i] == s[i] == Upper(s)[i]
  {
  }

  predicate HasPrefix(s: string, prefix: string) {
    prefix <= s
  }

  /** The part of s before its first colon; all of s when there is none. */
  function BeforeColon(s: string): string {
    if s == "" || s[0] == ':' then "" else [s[0]] + BeforeColon(s[1..])
  }

  // ---------- the order of strings ----------

  /** Strict order, character by character. */
  predicate Before(a: string, b: string) {
    b != "" && (a == "" || a[0] < b[0] || (a[0] == b[0] && Before(a[1..], b[1..])))
  }

  lemma {:induction false} BeforeIsStrict(a: string, b: string)
    ensures Before(a, b) ==> a != b && !Before(b, a)
    ensures a == b || Before(a, b) || Before(b, a)
  {
    if a == "" || b == "" || a[0] != b[0] {
    } else {
      BeforeIsStrict(a[1..], b[1..]);
      assert a == [a[0]] + a[1..] && b == [b[0]] + b[1..];
    }
  }

  lemma {:induction false} BeforeIsTransitive(a: string, b: string, c: string)
    requires Before(a, b) && Before(b, c)
    ensures Before(a, c)
  {
    if a == "" || !(a[0] == b[0] == c[0]) {
    } else {
      BeforeIsTransitive(a[1..], b[1..], c[1..]);
    }
  }

  // ---------- decimal integers ----------

  const INT64_MIN := -0x8000_0000_0000_0000
  const INT64_MAX := 0x7fff_ffff_ffff_ffff

  predicate IsInt64(n: int) {
    INT64_MIN <= n <= INT64_MAX
  }

  predicate IsDigit(c: char) {
    '0' <= c <= '9'
  }

  predicate AllDigits(s: string) {
    forall i :: 0 <= i < |s| ==> IsDigit(s[i])
  }

  function Digits(n: nat): string {
    if n < 10 then ['0' + n as char] else Digits(n / 10) + ['0' + (n % 10) as char]
  }

  function FormatInt(n: int): string {
    if n < 0 then "-" + Digits(-n) else Digits(n)
  }

  function DigitsValue(s: string): nat
    requires AllDigits(s)
  {
    if s == "" then 0
    else 10 * DigitsValue(s[..|s| - 1]) + (s[|s| - 1] - '0') as nat
  }

  /** Base 10, an optional sign, at least one digit, nothing else, and the value
      must fit 64 bits. */
  function ParseInt64(s: string): Option<int> {
    var negative := s != "" && s[0] == '-';
    var body := if s != "" && (s[0] == '-' || s[0] == '+') then s[1..] else s;
    if body == "" || !AllDigits(body) then None
    else
      var n: int := DigitsValue(body);
      var v: int := if negative then -n else n;
      if IsInt64(v) then Some(v) else None
  }

  lemma {:induction false} DigitsRoundTrip(n: nat)
    ensures Digits(n) != "" && AllDigits(Digits(n)) && DigitsValue(Digits(n)) == n
  {
    if n < 10 {
      assert Digits(n)[..0] == "";
    } else {
      DigitsRoundTrip(n / 10);
      var s := Digits(n);
      assert s[..|s| - 1] == Digits(n / 10);
    }
  }

  /** Printing an int64 and parsing it back is the identity. */
  lemma ParseFormat(n: int)
    requires IsInt64(n)
    ensures ParseInt64(FormatInt(n)) == Some(n)
  {
    DigitsRoundTrip(if n < 0 then -n else n);
    var d := Digits(if n < 0 then -n else n);
    assert IsDigit(d[0]);
    assert ("-" + d)[1..] == d;
  }

  lemma FormatHasNoColon(n: int)
    ensures ':' !in FormatInt(n)
  {
    DigitsRoundTrip(if n < 0 then -n else n);
  }

  lemma {:induction false} BeforeColonOf(a: string, b: string)
    requires ':' !in a
    ensures BeforeColon(a) == a
    ensures BeforeColon(a + ":" + b) == a
  {
    if a == "" {
      assert (a + ":" + b)[0] == ':';
    } else {
      var t := a + ":" + b;
      assert t[0] == a[0] && t[1..] == a[1..] + ":" + b;
      BeforeColonOf(a[1..], b);
    }
  }
}
