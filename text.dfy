/** Character classes, trimming, substring tests, encoded lengths, fixed-width
    integer wrap-around and decimal rendering, as the Go runtime and the
    JavaScript engine define them. Strings are sequences of Unicode scalar
    values (Dafny's `char`), i.e. Go runes / JavaScript code points. */
module Text {
  import opened Wrappers

  // ---------------------------------------------------------------------------
  // Whitespace

  /** Go's `unicode.IsSpace`, the class `strings.TrimSpace` strips. */
  predicate IsGoSpace(c: char) {
    c == '\t' || c == '\n' || c == '\U{0B}' || c == '\U{0C}' || c == '\r' || c == ' '
    || c == '\U{85}' || c == '\U{A0}' || c == '\U{1680}'
    || ('\U{2000}' <= c <= '\U{200A}')
    || c == '\U{2028}' || c == '\U{2029}' || c == '\U{202F}' || c == '\U{205F}' || c == '\U{3000}'
  }

  /** ECMAScript WhiteSpace and LineTerminator, the class `String.prototype.trim`
      strips. Unlike Go it includes U+FEFF and excludes U+0085. */
  predicate IsJsSpace(c: char) {
    c == '\t' || c == '\n' || c == '\U{0B}' || c == '\U{0C}' || c == '\r' || c == ' '
    || c == '\U{A0}' || c == '\U{1680}'
    || ('\U{2000}' <= c <= '\U{200A}')
    || c == '\U{2028}' || c == '\U{2029}' || c == '\U{202F}' || c == '\U{205F}' || c == '\U{3000}'
    || c == '\U{FEFF}'
  }

  /** Drops the leading characters of class `sp`. */
  function TrimLeftBy(s: string, sp: char -> bool): (r: string)
    ensures |r| <= |s| && r == s[|s| - |r|..]
    ensures r == [] || !sp(r[0])
    ensures forall i :: 0 <= i < |s| - |r| ==> sp(s[i])
  {
    if |s| > 0 && sp(s[0]) then
      var t := TrimLeftBy(s[1..], sp);
      assert forall i :: 1 <= i < |s| - |t| ==> s[i] == s[1..][i - 1];
      t
    else s
  }

  /** Drops the trailing characters of class `sp`. */
  function TrimRightBy(s: string, sp: char -> bool): (r: string)
    ensures |r| <= |s| && r == s[..|r|]
    ensures r == [] || !sp(r[|r| - 1])
    ensures forall i :: |r| <= i < |s| ==> sp(s[i])
  {
    if |s| > 0 && sp(s[|s| - 1]) then
      var t := TrimRightBy(s[..|s| - 1], sp);
      assert forall i :: |t| <= i < |s| - 1 ==> s[i] == s[..|s| - 1][i];
      t
    else s
  }

  function TrimBy(s: string, sp: char -> bool): string {
    TrimRightBy(TrimLeftBy(s, sp), sp)
  }

  /** `strings.TrimSpace`. */
  function GoTrimSpace(s: string): string { TrimBy(s, IsGoSpace) }

  /** JavaScript `s.trim()`. */
  function JsTrim(s: string): string { TrimBy(s, IsJsSpace) }

  /** Trimming yields the empty string exactly when every character is of the
      trimmed class. */
  lemma TrimEmptyIff(s: string, sp: char -> bool)
    ensures TrimBy(s, sp) == [] <==> forall i :: 0 <= i < |s| ==> sp(s[i])
  {
  }

  /** Trimming keeps a contiguous run of the input whose ends are not of the
      trimmed class. */
  lemma TrimIsInfix(s: string, sp: char -> bool)
    ensures exists i, j :: 0 <= i <= j <= |s| && TrimBy(s, sp) == s[i..j]
    ensures TrimBy(s, sp) == [] || (!sp(TrimBy(s, sp)[0]) && !sp(TrimBy(s, sp)[|TrimBy(s, sp)| - 1]))
  {
    var l := TrimLeftBy(s, sp);
    var r := TrimRightBy(l, sp);
    assert r == TrimBy(s, sp);
    var i := |s| - |l|;
    assert l == s[i..] && r == l[..|r|];
    assert s[i..][..|r|] == s[i..i + |r|];
    assert 0 <= i <= i + |r| <= |s| && r == s[i..i + |r|];
    if r != [] {
      assert r[0] == l[0];
    }
  }

  /** No trimmed string begins or ends with a character of the trimmed class. */
  lemma TrimNeverPadded(s: string, t: string, sp: char -> bool)
    requires t != [] && (sp(t[0]) || sp(t[|t| - 1]))
    ensures TrimBy(s, sp) != t
  {
    TrimIsInfix(s, sp);
  }

  /** A string whose ends are not of the trimmed class is left as it is. */
  lemma TrimKeeps(s: string, sp: char -> bool)
    requires s == [] || (!sp(s[0]) && !sp(s[|s| - 1]))
    ensures TrimBy(s, sp) == s
  {
    assert TrimLeftBy(s, sp) == s;
  }

  // ---------------------------------------------------------------------------
  // Substrings

  /** `strings.HasPrefix(s, p)` / `s.startsWith(p)`. */
  predicate HasPrefix(s: string, p: string) { p <= s }

  /** `strings.Contains(s, sub)` / `s.includes(sub)`: `sub` occurs at some
      position of `s`. */
  predicate Contains(s: string, sub: string)
    decreases |s|
  {
    sub <= s || (|s| > 0 && Contains(s[1..], sub))
  }

  /** `sub` occurs in `s` starting at index `k`. */
  predicate OccursAt(s: string, sub: string, k: int) {
    0 <= k <= |s| - |sub| && sub <= s[k..]
  }

  /** `Contains` holds exactly when `sub` is found at some index. */
  lemma {:induction false} ContainsAt(s: string, sub: string)
    ensures Contains(s, sub) <==> exists k :: OccursAt(s, sub, k)
    decreases |s|
  {
    if sub <= s {
      assert s[0..] == s;
      assert OccursAt(s, sub, 0);
    } else if |s| > 0 {
      ContainsAt(s[1..], sub);
      if Contains(s[1..], sub) {
        var k :| OccursAt(s[1..], sub, k);
        OccursShift(s, sub, k + 1);
      }
      if exists k :: OccursAt(s, sub, k) {
        var k :| OccursAt(s, sub, k);
        assert k != 0 by {
          assert s[0..] == s;
        }
        OccursShift(s, sub, k);
      }
    }
  }

  /** An occurrence at `k > 0` is one at `k - 1` in the tail, and back. */
  lemma OccursShift(s: string, sub: string, k: int)
    requires 0 < k <= |s|
    ensures OccursAt(s, sub, k) <==> OccursAt(s[1..], sub, k - 1)
  {
    assert s[1..][k - 1..] == s[k..];
  }

  /** Every string contains the empty string and itself. */
  lemma ContainsTrivial(s: string)
    ensures Contains(s, "") && Contains(s, s)
  {
  }

  // ---------------------------------------------------------------------------
  // Encoded lengths

  /** Number of bytes UTF-8 spends on one code point. */
  function RuneBytes(c: char): (n: nat)
    ensures 1 <= n <= 4
  {
    if c as int < 0x80 then 1
    else if c as int < 0x800 then 2
    else if c as int < 0x1_0000 then 3
    else 4
  }

  /** Go's `len(s)` on a string: its UTF-8 byte length. */
  function Utf8Len(s: string): (n: nat)
    ensures |s| <= n <= 4 * |s|
  {
    if s == [] then 0 else RuneBytes(s[0]) + Utf8Len(s[1..])
  }

  /** JavaScript's `s.length`: its UTF-16 code-unit length. */
  function Utf16Len(s: string): (n: nat)
    ensures |s| <= n <= 2 * |s|
  {
    if s == [] then 0 else (if s[0] as int < 0x1_0000 then 1 else 2) + Utf16Len(s[1..])
  }

  /** A string made only of code points in U+0800..U+FFFF (kana, kanji, most
      CJK text) takes three UTF-8 bytes per code point. */
  lemma {:induction false} Utf8LenThreeByte(s: string)
    requires forall i :: 0 <= i < |s| ==> 0x800 <= s[i] as int < 0x1_0000
    ensures Utf8Len(s) == 3 * |s|
  {
    if s != [] {
      Utf8LenThreeByte(s[1..]);
    }
  }

  /** A string of Basic Multilingual Plane code points has one UTF-16 unit per
      code point. */
  lemma {:induction false} Utf16LenBmp(s: string)
    requires forall i :: 0 <= i < |s| ==> s[i] as int < 0x1_0000
    ensures Utf16Len(s) == |s|
  {
    if s != [] {
      Utf16LenBmp(s[1..]);
    }
  }

  // ---------------------------------------------------------------------------
  // Fixed-width integers

  const TWO_31: int := 0x8000_0000
  const TWO_32: int := 0x1_0000_0000
  const TWO_63: int := 0x8000_0000_0000_0000

  predicate InInt32(x: int) { -TWO_31 <= x < TWO_31 }
  predicate InInt64(x: int) { -TWO_63 <= x < TWO_63 }

  /** Go's conversion `int32(x)` and `+=` on an `int32`: two's-complement
      wrap-around modulo 2^32. */
  function Int32(x: int): (r: int)
    ensures InInt32(r)
    ensures (r - x) % TWO_32 == 0
    ensures InInt32(x) ==> r == x
  {
    (x + TWO_31) % TWO_32 - TWO_31
  }

  function Abs(x: int): int { if x < 0 then -x else x }

  /** Go's integer `/`, which truncates toward zero. */
  function QuoTrunc(a: int, b: int): (q: int)
    requires b != 0
    ensures a >= 0 ==> 0 <= a - q * b < Abs(b)
    ensures a < 0 ==> -Abs(b) < a - q * b <= 0
  {
    if a >= 0 then (if b > 0 then a / b else -(a / -b))
    else (if b > 0 then -((-a) / b) else (-a) / (-b))
  }

  // ---------------------------------------------------------------------------
  // Decimal digits

  predicate IsDigit(c: char) { '0' <= c <= '9' }

  function DigitChar(d: int): (c: char)
    requires 0 <= d < 10
    ensures IsDigit(c) && c as int - '0' as int == d
  {
    ('0' as int + d) as char
  }

  /** The value of a string of decimal digits, most significant first. */
  function DigitsValue(s: string): (v: int)
    requires forall i :: 0 <= i < |s| ==> IsDigit(s[i])
    ensures v >= 0
  {
    if s == [] then 0
    else
      assert IsDigit(s[|s| - 1]);
      DigitsValue(s[..|s| - 1]) * 10 + (s[|s| - 1] as int - '0' as int)
  }

  /** `strconv.Itoa` / `String(n)` of a non-negative integer: its shortest
      decimal representation. */
  function NatToString(n: nat): (s: string)
    ensures |s| >= 1 && (forall i :: 0 <= i < |s| ==> IsDigit(s[i]))
    ensures DigitsValue(s) == n
    ensures |s| > 1 ==> s[0] != '0'
  {
    if n < 10 then [DigitChar(n)]
    else
      var p := NatToString(n / 10);
      var s := p + [DigitChar(n % 10)];
      assert s[..|s| - 1] == p;
      s
  }

  /** `strconv.Itoa` / `String(n)` of any integer. */
  function IntToString(n: int): string {
    if n < 0 then "-" + NatToString(-n) else NatToString(n)
  }

  /** `fmt.Sprintf("%06d", n)` for 0 <= n < 1000000: exactly six digits, zero
      padded, whose value is n. */
  function Pad6(n: int): (s: string)
    requires 0 <= n < 1_000_000
    ensures |s| == 6 && (forall i :: 0 <= i < 6 ==> IsDigit(s[i]))
    ensures DigitsValue(s) == n
  {
    assert Pow10(6) == 1_000_000;
    PadDigits(n, 6)
  }

  /** n written with exactly w decimal digits, zero padded. */
  function PadDigits(n: nat, w: nat): (s: string)
    requires n < Pow10(w)
    ensures |s| == w && (forall i :: 0 <= i < w ==> IsDigit(s[i]))
    ensures DigitsValue(s) == n
  {
    if w == 0 then ""
    else
      var p := PadDigits(n / 10, w - 1);
      var s := p + [DigitChar(n % 10)];
      assert s[..|s| - 1] == p;
      s
  }

  function Pow10(w: nat): (p: nat)
    ensures p >= 1
  {
    if w == 0 then 1 else 10 * Pow10(w - 1)
  }

  /** An optional sign followed by one or more ASCII digits, read as an
      unbounded integer; anything else is a syntax error. */
  function SignedDigits(s: string): Option<int> {
    var neg := |s| > 0 && s[0] == '-';
    var body := if |s| > 0 && (s[0] == '-' || s[0] == '+') then s[1..] else s;
    if body == [] || !(forall i :: 0 <= i < |body| ==> IsDigit(body[i])) then None
    else Some(if neg then -DigitsValue(body) else DigitsValue(body))
  }

  /** Go's `strconv.Atoi` on a 64-bit platform: an optional sign followed by
      one or more ASCII digits, with the value in the int64 range. Anything
      else (spaces, an empty string, a lone sign, overflow) is an error. */
  function Atoi(s: string): (r: Option<int>)
    ensures r.Some? ==> InInt64(r.value)
    ensures r.Some? <==> SignedDigits(s).Some? && InInt64(SignedDigits(s).value)
  {
    match SignedDigits(s)
    case None => None
    case Some(v) => if InInt64(v) then Some(v) else None
  }

  /** The value `strconv.ParseInt(s, 10, 64)` returns when its error is
      ignored: 0 for a syntax error, the nearest int64 bound on overflow. */
  function ParseInt64Value(s: string): (v: int)
    ensures InInt64(v)
    ensures Atoi(s).Some? ==> v == Atoi(s).value
    ensures SignedDigits(s).None? ==> v == 0
  {
    match SignedDigits(s)
    case None => 0
    case Some(v) => if v < -TWO_63 then -TWO_63 else if v >= TWO_63 then TWO_63 - 1 else v
  }

  /** `Atoi` reads back what `IntToString` writes, over the int64 range. */
  lemma AtoiIntToString(n: int)
    requires InInt64(n)
    ensures Atoi(IntToString(n)) == Some(n)
  {
    if n < 0 {
      var s := IntToString(n);
      assert s[1..] == NatToString(-n);
    }
  }

  // ---------------------------------------------------------------------------
  // Splitting

  /** `strings.IndexByte(s, c)` for a one-character separator: the first
      position of `c`, if any. */
  function IndexOf(s: string, c: char): (r: Option<nat>)
    ensures r.Some? ==> r.value < |s| && s[r.value] == c && c !in s[..r.value]
    ensures r.None? <==> c !in s
  {
    if s == [] then None
    else if s[0] == c then Some(0)
    else
      match IndexOf(s[1..], c)
      case None => None
      case Some(i) =>
        assert s[..i + 1] == [s[0]] + s[1..][..i];
        Some(i + 1)
  }

  /** `strings.SplitN(s, sep, 2)` for a one-character separator: the text
      before the first separator and everything after it, or `[s]`. */
  function SplitN2(s: string, sep: char): (parts: seq<string>)
    ensures sep !in s ==> parts == [s]
    ensures sep in s ==> |parts| == 2 && sep !in parts[0] && s == parts[0] + [sep] + parts[1]
  {
    match IndexOf(s, sep)
    case None => [s]
    case Some(i) =>
      assert s == s[..i] + [sep] + s[i + 1..];
      [s[..i], s[i + 1..]]
  }

  /** Splitting at the first separator recovers the two halves on either
      side of it. */
  lemma SplitN2Of(a: string, b: string, sep: char)
    requires sep !in a
    ensures SplitN2(a + [sep] + b, sep) == [a, b]
  {
    var s := a + [sep] + b;
    var i := IndexOf(s, sep);
    assert s[|a|] == sep;
    assert s[..|a|] == a && s[|a| + 1..] == b;
  }

  /** `strings.Split(s, sep)` for a one-character separator: the pieces
      between separators, including empty ones. */
  function Split(s: string, sep: char): (parts: seq<string>)
    ensures |parts| >= 1
    ensures forall k :: 0 <= k < |parts| ==> sep !in parts[k]
    ensures Join(parts, sep) == s
    decreases |s|
  {
    match IndexOf(s, sep)
    case None => [s]
    case Some(i) =>
      var rest := Split(s[i + 1..], sep);
      assert s == s[..i] + [sep] + s[i + 1..];
      [s[..i]] + rest
  }

  /** The first piece of a split is the text before the first separator. */
  lemma SplitCons(a: string, b: string, sep: char)
    requires sep !in a
    ensures Split(a + [sep] + b, sep) == [a] + Split(b, sep)
  {
    var s := a + [sep] + b;
    SplitN2Of(a, b, sep);
    assert s[..|a|] == a && s[|a| + 1..] == b;
  }

  /** Appending a character never moves an earlier first occurrence. */
  lemma IndexOfSnoc(s: string, c: char, sep: char)
    ensures IndexOf(s + [c], sep) == if sep in s then IndexOf(s, sep) else if c == sep then Some(|s|) else None
  {
    var t := s + [c];
    assert t[..|s|] == s;
    if sep in s {
      var i := IndexOf(s, sep).value;
      assert t[i] == sep && t[..i] == s[..i];
    } else if c == sep {
    } else {
      assert sep !in t;
    }
  }

  /** Appending one character to the input either opens a new, empty last
      piece (a separator) or extends the last piece. */
  lemma {:induction false} SplitSnoc(s: string, c: char, sep: char)
    ensures var p := Split(s, sep);
      Split(s + [c], sep) == if c == sep then p + [""] else p[..|p| - 1] + [p[|p| - 1] + [c]]
    decreases |s|
  {
    var t := s + [c];
    IndexOfSnoc(s, c, sep);
    if sep in s {
      var i := IndexOf(s, sep).value;
      SplitSnoc(s[i + 1..], c, sep);
      SplitSnocPastFirst(s, c, sep, i);
    } else if c == sep {
      assert t[|s| + 1..] == [];
      assert t[..|s|] == s;
      SplitFirst(t, sep, |s|);
    } else {
      assert Split(t, sep) == [t];
    }
  }

  /** The inductive step of `SplitSnoc`: what holds for the text after the
      first separator holds for the whole text. */
  lemma SplitSnocPastFirst(s: string, c: char, sep: char, i: nat)
    requires IndexOf(s, sep) == Some(i)
    requires var q := Split(s[i + 1..], sep);
      Split(s[i + 1..] + [c], sep) == if c == sep then q + [""] else q[..|q| - 1] + [q[|q| - 1] + [c]]
    ensures var p := Split(s, sep);
      Split(s + [c], sep) == if c == sep then p + [""] else p[..|p| - 1] + [p[|p| - 1] + [c]]
  {
    var t := s + [c];
    var rest := s[i + 1..];
    IndexOfSnoc(s, c, sep);
    assert t[i + 1..] == rest + [c] && t[..i] == s[..i];
    SplitFirst(s, sep, i);
    SplitFirst(t, sep, i);
    var p, p' := Split(s, sep), Split(t, sep);
    assert p == [s[..i]] + Split(rest, sep) && p' == [s[..i]] + Split(rest + [c], sep);
    SnocAfterFirst(s[..i], Split(rest, sep), Split(rest + [c], sep), p, p', c, sep);
  }

  /** `Split` at its first separator. */
  lemma SplitFirst(s: string, sep: char, i: nat)
    requires IndexOf(s, sep) == Some(i)
    ensures Split(s, sep) == [s[..i]] + Split(s[i + 1..], sep)
  {
  }

  /** The step of `SplitSnoc` past the first separator: putting the first
      piece back in front commutes with the change to the last piece. */
  lemma SnocAfterFirst(head: string, q: seq<string>, q': seq<string>, p: seq<string>, p': seq<string>, c: char, sep: char)
    requires |q| >= 1 && p == [head] + q && p' == [head] + q'
    requires q' == if c == sep then q + [""] else q[..|q| - 1] + [q[|q| - 1] + [c]]
    ensures p' == if c == sep then p + [""] else p[..|p| - 1] + [p[|p| - 1] + [c]]
  {
    if c != sep {
      assert p[..|p| - 1] == [head] + q[..|q| - 1];
      assert p[|p| - 1] == q[|q| - 1];
    }
  }

  /** `strings.Join(parts, string(sep))`. */
  function Join(parts: seq<string>, sep: char): string {
    if parts == [] then ""
    else if |parts| == 1 then parts[0]
    else parts[0] + [sep] + Join(parts[1..], sep)
  }

  /** Two pieces join around one separator. */
  lemma JoinTwo(parts: seq<string>, sep: char)
    requires |parts| == 2
    ensures Join(parts, sep) == parts[0] + [sep] + parts[1]
  {
    assert Join(parts[1..], sep) == parts[1];
  }

  /** `Split` has exactly two pieces when the separator occurs exactly once. */
  lemma SplitTwo(s: string, sep: char)
    ensures |Split(s, sep)| == 2 <==> sep in s && sep !in SplitN2(s, sep)[1]
    ensures |Split(s, sep)| == 2 ==> Split(s, sep) == SplitN2(s, sep)
  {
    match IndexOf(s, sep)
    case None =>
    case Some(i) =>
      var rest := s[i + 1..];
      assert SplitN2(s, sep)[1] == rest;
      if sep in rest {
        match IndexOf(rest, sep)
        case Some(j) =>
          assert |Split(rest, sep)| >= 2;
      }
  }
}
