/** Text as Go handles it: UTF-8 on the wire, UTF-16 code units for lengths and
    cuts. A `string` is a sequence of Unicode scalar values. */
module Text {
  import opened Prelude

  type unit = n: int | 0 <= n <= 0xFFFF

  const REPLACEMENT: char := '\U{FFFD}'

  // ----- UTF-16 -----

  predicate HighSurrogate(u: unit) {
    0xD800 <= u < 0xDC00
  }

  predicate LowSurrogate(u: unit) {
    0xDC00 <= u < 0xE000
  }

  predicate Surrogate(u: unit) {
    0xD800 <= u < 0xE000
  }

  function Combine(high: int, low: int): char
    requires 0xD800 <= high < 0xDC00 && 0xDC00 <= low < 0xE000
  {
    (0x1_0000 + (high - 0xD800) * 0x400 + (low - 0xDC00)) as char
  }

  function FlatMap<A>(s: string, f: char -> seq<A>): seq<A> {
    if s == "" then [] else f(s[0]) + FlatMap(s[1..], f)
  }

  lemma {:induction false} FlatMapConcat<A>(a: string, b: string, f: char -> seq<A>)
    ensures FlatMap(a + b, f) == FlatMap(a, f) + FlatMap(b, f)
  {
    if a == "" {
      assert a + b == b;
    } else {
      FlatMapConcat(a[1..], b, f);
      assert (a + b)[1..] == a[1..] + b;
      assert FlatMap(a + b, f) == f(a[0]) + (FlatMap(a[1..], f) + FlatMap(b, f));
    }
  }

  function CharUnits(c: char): (us: seq<unit>)
    ensures 1 <= |us| <= 2
  {
    var n := c as int;
    if n <= 0xFFFF then [n]
    else [0xD800 + (n - 0x1_0000) / 0x400, 0xDC00 + (n - 0x1_0000) % 0x400]
  }

  function Units(s: string): seq<unit> {
    FlatMap(s, CharUnits)
  }

  /** Surrogates that are not paired become U+FFFD, as in Go's utf16.Decode. */
  function FromUnits(us: seq<unit>): string {
    if us == [] then ""
    else if HighSurrogate(us[0]) && |us| > 1 && LowSurrogate(us[1]) then
      [Combine(us[0], us[1])] + FromUnits(us[2..])
    else if Surrogate(us[0]) then [REPLACEMENT] + FromUnits(us[1..])
    else [us[0] as char] + FromUnits(us[1..])
  }

  function Utf16Length(s: string): nat {
    |Units(s)|
  }

  lemma UnitsConcat(a: string, b: string)
    ensures Units(a + b) == Units(a) + Units(b)
  {
    FlatMapConcat(a, b, CharUnits);
  }

  lemma CharUnitsRoundTrip(c: char, rest: seq<unit>)
    ensures FromUnits(CharUnits(c) + rest) == [c] + FromUnits(rest)
  {
    var us := CharUnits(c) + rest;
    if c as int <= 0xFFFF {
      assert us[1..] == rest;
    } else {
      assert us[2..] == rest;
    }
  }

  lemma {:induction false} UnitsRoundTrip(s: string, rest: seq<unit>)
    ensures FromUnits(Units(s) + rest) == s + FromUnits(rest)
  {
    if s == "" {
      assert Units(s) + rest == rest;
    } else {
      var tail := Units(s[1..]) + rest;
      Assoc(CharUnits(s[0]), Units(s[1..]), rest);
      CharUnitsRoundTrip(s[0], tail);
      UnitsRoundTrip(s[1..], rest);
      Assoc([s[0]], s[1..], FromUnits(rest));
      assert s == [s[0]] + s[1..];
    }
  }

  /** A cut at position k separates the two halves of a surrogate pair. */
  predicate SplitsPair(us: seq<unit>, k: int) {
    0 < k < |us| && HighSurrogate(us[k - 1]) && LowSurrogate(us[k])
  }

  /** What a cut may do to one code unit: an unpaired half becomes U+FFFD. */
  function Sanitized(us: seq<unit>, k: nat): unit
    requires k < |us|
  {
    if HighSurrogate(us[k]) && k + 1 < |us| && LowSurrogate(us[k + 1]) then us[k]
    else if LowSurrogate(us[k]) && k > 0 && HighSurrogate(us[k - 1]) then us[k]
    else if Surrogate(us[k]) then 0xFFFD
    else us[k]
  }

  /** Decoding and re-encoding keeps the number of units and touches only
      surrogates that have lost their partner. */
  lemma {:induction false} UnitsOfFromUnits(us: seq<unit>)
    ensures |Units(FromUnits(us))| == |us|
    ensures forall k :: 0 <= k < |us| ==> Units(FromUnits(us))[k] == Sanitized(us, k)
  {
    if us == [] {
    } else {
      var s := FromUnits(us);
      var w := if HighSurrogate(us[0]) && |us| > 1 && LowSurrogate(us[1]) then 2 else 1;
      UnitsOfFromUnits(us[w..]);
      assert s[1..] == FromUnits(us[w..]);
      forall k | 0 <= k < |us|
        ensures Units(s)[k] == Sanitized(us, k)
      {
        if k >= w {
          assert Units(s)[k] == Units(s[1..])[k - w];
          assert us[w..][k - w] == us[k];
        }
      }
    }
  }

  /** The window of `length` units from `start`, as sliceUTF16Window. */
  function Window(s: string, start: nat, length: nat): Result<string> {
    var us := Units(s);
    if start + length > |us| then Err(InvalidSliceOffset)
    else Ok(FromUnits(us[start..start + length]))
  }

  /** In an encoded text every surrogate has its partner. */
  lemma {:induction false} UnitsPaired(s: string)
    ensures forall k :: 0 <= k < |Units(s)| ==> Sanitized(Units(s), k) == Units(s)[k]
  {
    if s != "" {
      UnitsPaired(s[1..]);
      var us := Units(s);
      var w := |CharUnits(s[0])|;
      forall k | 0 <= k < |us|
        ensures Sanitized(us, k) == us[k]
      {
        if k >= w {
          assert Sanitized(Units(s[1..]), k - w) == us[k];
        }
      }
    }
  }

  /** A window is the exact run of code units if and only if neither end cuts a
      surrogate pair; its length is right in every case. */
  lemma WindowExact(s: string, start: nat, length: nat)
    requires start + length <= |Units(s)| && length > 0
    ensures Window(s, start, length).Ok?
    ensures Utf16Length(Window(s, start, length).value) == length
    ensures Units(Window(s, start, length).value) == Units(s)[start..start + length] <==>
            !SplitsPair(Units(s), start) && !SplitsPair(Units(s), start + length)
  {
    UnitsOfFromUnits(Units(s)[start..start + length]);
    UnitsPaired(s);
    CutExact(Units(s), start, length, Units(FromUnits(Units(s)[start..start + length])));
  }

  lemma CutExact(us: seq<unit>, start: nat, length: nat, out: seq<unit>)
    requires start + length <= |us| && length > 0
    requires forall k :: 0 <= k < |us| ==> Sanitized(us, k) == us[k]
    requires |out| == length
    requires forall k :: 0 <= k < length ==> out[k] == Sanitized(us[start..start + length], k)
    ensures out == us[start..start + length] <==> !SplitsPair(us, start) && !SplitsPair(us, start + length)
  {
    var w := us[start..start + length];
    if !SplitsPair(us, start) && !SplitsPair(us, start + length) {
      forall k | 0 <= k < length
        ensures out[k] == w[k]
      {
        assert Sanitized(us, start + k) == us[start + k];
      }
    } else if SplitsPair(us, start) {
      assert out[0] == Sanitized(w, 0);
      assert Sanitized(us, start) == us[start];
    } else {
      assert out[length - 1] == Sanitized(w, length - 1);
      assert Sanitized(us, start + length - 1) == us[start + length - 1];
    }
  }

  // ----- UTF-8 -----

  function Utf8Of(n: nat): (b: bytes)
    requires n < 0x11_0000
    ensures 1 <= |b| <= 4
  {
    var q1 := n / 64;
    var q2 := q1 / 64;
    if n < 0x80 then [n]
    else if n < 0x800 then [0xC0 + q1, 0x80 + n % 64]
    else if n < 0x1_0000 then [0xE0 + q2, 0x80 + q1 % 64, 0x80 + n % 64]
    else [0xF0 + q2 / 64, 0x80 + q2 % 64, 0x80 + q1 % 64, 0x80 + n % 64]
  }

  function CharUtf8(c: char): bytes {
    Utf8Of(c as int)
  }

  function Utf8(s: string): bytes {
    FlatMap(s, CharUtf8)
  }

  predicate Continues(b: bytes, k: nat) {
    k < |b| && 0x80 <= b[k] < 0xC0
  }

  function Join6(high: int, low: byte): int {
    high * 64 + (low - 0x80)
  }

  /** One step of Go's range over a string: a rune and its width. Overlong
      forms, surrogates and values above U+10FFFF are one bad byte each. */
  function DecodeRune(b: bytes): (r: (char, nat))
    requires b != []
    ensures 1 <= r.1 <= |b|
  {
    var x: int := b[0];
    if x < 0x80 then (x as char, 1)
    else if 0xC2 <= x < 0xE0 && Continues(b, 1) then
      (Join6(x - 0xC0, b[1]) as char, 2)
    else if 0xE0 <= x < 0xF0 && Continues(b, 1) && Continues(b, 2) &&
            (x == 0xE0 ==> b[1] >= 0xA0) && (x == 0xED ==> b[1] < 0xA0) then
      (Join6(Join6(x - 0xE0, b[1]), b[2]) as char, 3)
    else if 0xF0 <= x < 0xF5 && Continues(b, 1) && Continues(b, 2) && Continues(b, 3) &&
            (x == 0xF0 ==> b[1] >= 0x90) && (x == 0xF4 ==> b[1] < 0x90) then
      (Join6(Join6(Join6(x - 0xF0, b[1]), b[2]), b[3]) as char, 4)
    else (REPLACEMENT, 1)
  }

  /** Go's reading of a byte string as text. */
  function FromUtf8(b: bytes): string
    decreases |b|
  {
    if b == [] then "" else
      var (c, width) := DecodeRune(b);
      [c] + FromUtf8(b[width..])
  }

  lemma RuneRoundTrip(c: char, rest: bytes)
    ensures DecodeRune(CharUtf8(c) + rest) == (c, |CharUtf8(c)|)
  {
    var n := c as int;
    var b := CharUtf8(c) + rest;
    assert forall k :: 0 <= k < |CharUtf8(c)| ==> b[k] == CharUtf8(c)[k];
    if n < 0x80 {
    } else if n < 0x800 {
      assert 0xC2 <= b[0] < 0xE0 && Continues(b, 1);
    } else if n < 0x1_0000 {
      assert b[0] == 0xE0 ==> n / 64 >= 0x20;
      assert 0xE0 <= b[0] < 0xF0 && Continues(b, 1) && Continues(b, 2);
    } else {
      assert 0xF0 <= b[0] < 0xF5 && Continues(b, 1) && Continues(b, 2) && Continues(b, 3);
    }
  }

  lemma {:induction false} Utf8RoundTrip(s: string)
    ensures FromUtf8(Utf8(s)) == s
  {
    if s != "" {
      var rest := Utf8(s[1..]);
      Utf8RoundTrip(s[1..]);
      RuneRoundTrip(s[0], rest);
      var b := CharUtf8(s[0]) + rest;
      assert Utf8(s) == b;
      assert b[|CharUtf8(s[0])|..] == rest;
      assert FromUtf8(b) == [s[0]] + FromUtf8(rest);
    }
  }

  /** No character's UTF-8 stands at the front. */
  ghost predicate NoRune(b: bytes) {
    forall c: char :: !(CharUtf8(c) <= b)
  }

  /** A character's bytes in front are read as that character, whatever follows. */
  lemma GoodRune(c: char, rest: bytes)
    ensures FromUtf8(CharUtf8(c) + rest) == [c] + FromUtf8(rest)
  {
    RuneRoundTrip(c, rest);
    assert (CharUtf8(c) + rest)[|CharUtf8(c)|..] == rest;
  }

  lemma JoinTwo(x: byte, y: byte)
    requires 0xC2 <= x < 0xE0 && 0x80 <= y < 0xC0
    ensures 0x80 <= Join6(x - 0xC0, y) < 0x800 && Utf8Of(Join6(x - 0xC0, y)) == [x, y]
  {
  }

  lemma JoinThree(x: byte, y: byte, z: byte)
    requires 0xE0 <= x < 0xF0 && 0x80 <= y < 0xC0 && 0x80 <= z < 0xC0
    requires (x == 0xE0 ==> y >= 0xA0) && (x == 0xED ==> y < 0xA0)
    ensures var n := Join6(Join6(x - 0xE0, y), z);
            0x800 <= n < 0x1_0000 && !(0xD800 <= n < 0xE000) && Utf8Of(n) == [x, y, z]
  {
    var m := Join6(x - 0xE0, y);
    var n := Join6(m, z);
    assert n / 64 == m && m / 64 == x - 0xE0;
  }

  lemma JoinFour(x: byte, y: byte, z: byte, u: byte)
    requires 0xF0 <= x < 0xF5 && 0x80 <= y < 0xC0 && 0x80 <= z < 0xC0 && 0x80 <= u < 0xC0
    requires (x == 0xF0 ==> y >= 0x90) && (x == 0xF4 ==> y < 0x90)
    ensures var n := Join6(Join6(Join6(x - 0xF0, y), z), u); 0x1_0000 <= n < 0x11_0000 && Utf8Of(n) == [x, y, z, u]
  {
    var k := Join6(x - 0xF0, y);
    var m := Join6(k, z);
    var n := Join6(m, u);
    assert n / 64 == m && m / 64 == k && k / 64 == x - 0xF0;
  }

  lemma RuneFound(b: bytes)
    requires b != [] && DecodeRune(b) != (REPLACEMENT, 1)
    ensures CharUtf8(DecodeRune(b).0) == b[..DecodeRune(b).1]
  {
    hide Utf8Of, Join6;
    var x := b[0];
    if x < 0x80 {
      OneByte(x);
    } else if x < 0xE0 {
      JoinTwo(x, b[1]);
    } else if x < 0xF0 {
      JoinThree(x, b[1], b[2]);
    } else {
      JoinFour(x, b[1], b[2], b[3]);
    }
  }

  lemma OneByte(x: byte)
    requires x < 0x80
    ensures Utf8Of(x) == [x]
  {
  }

  /** Where none stands in front, one byte is read as U+FFFD. */
  lemma BadByte(b: bytes)
    requires b != []
    ensures NoRune(b) <==> DecodeRune(b) == (REPLACEMENT, 1)
    ensures NoRune(b) ==> FromUtf8(b) == [REPLACEMENT] + FromUtf8(b[1..])
  {
    hide DecodeRune;
    if DecodeRune(b) != (REPLACEMENT, 1) {
      RuneFound(b);
      assert CharUtf8(DecodeRune(b).0) <= b;
    } else {
      forall c: char
        ensures !(CharUtf8(c) <= b)
      {
        if CharUtf8(c) <= b {
          assert b == CharUtf8(c) + b[|CharUtf8(c)|..];
          RuneRoundTrip(c, b[|CharUtf8(c)|..]);
        }
      }
    }
  }

  lemma {:induction false} DropFirstShorter(us: seq<unit>)
    requires us != []
    ensures |Utf8(FromUnits(us[1..]))| <= |Utf8(FromUnits(us))|
  {
    if HighSurrogate(us[0]) && |us| > 1 && LowSurrogate(us[1]) {
      assert us[1..][1..] == us[2..];
      assert FromUnits(us[1..])[1..] == FromUnits(us[2..]);
    }
  }

  lemma {:induction false} DropLastShorter(us: seq<unit>)
    requires us != []
    ensures |Utf8(FromUnits(us[..|us| - 1]))| <= |Utf8(FromUnits(us))|
  {
    var short := us[..|us| - 1];
    var w := if HighSurrogate(us[0]) && |us| > 1 && LowSurrogate(us[1]) then 2 else 1;
    if |us| > w {
      DropLastShorter(us[w..]);
      assert short[w..] == us[w..][..|us| - w - 1];
    } else if w == 2 {
      assert short == [us[0]] && short[1..] == [];
    }
  }

  lemma {:induction false} RunShorter(us: seq<unit>, start: nat, end: nat)
    requires start <= end <= |us|
    ensures |Utf8(FromUnits(us[start..end]))| <= |Utf8(FromUnits(us))|
    decreases |us|
  {
    hide FromUnits, Utf8;
    if start > 0 {
      DropFirstShorter(us);
      RunShorter(us[1..], start - 1, end - 1);
      assert us[1..][start - 1..end - 1] == us[start..end];
    } else if end < |us| {
      var short := us[..|us| - 1];
      DropLastShorter(us);
      RunShorter(short, 0, end);
      assert short[0..end] == us[start..end];
    } else {
      assert us[start..end] == us;
    }
  }

  /** A window never takes more bytes than the text it is cut from, though a
      half pair becomes three bytes. */
  lemma WindowShorter(s: string, start: nat, length: nat)
    requires start + length <= |Units(s)|
    ensures |Utf8(Window(s, start, length).value)| <= |Utf8(s)|
  {
    RunShorter(Units(s), start, start + length);
    UnitsRoundTrip(s, []);
    assert Units(s) + [] == Units(s) && s + "" == s;
  }

  lemma RuneWidth(b: bytes)
    requires b != []
    ensures |CharUtf8(DecodeRune(b).0)| <= 3 * DecodeRune(b).1
  {
  }

  /** A text takes at most three times the bytes it was read from: each byte that
      is no UTF-8 becomes U+FFFD. */
  lemma {:induction false} RereadSize(b: bytes)
    ensures |Utf8(FromUtf8(b))| <= 3 * |b|
    decreases |b|
  {
    if b != [] {
      hide DecodeRune, CharUtf8;
      RuneWidth(b);
      var (c, width) := DecodeRune(b);
      RereadSize(b[width..]);
      var more := FromUtf8(b[width..]);
      assert ([c] + more)[1..] == more;
    }
  }
}
