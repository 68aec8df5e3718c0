/** How the pgx query tracer prints query arguments (plugins/pgx/logger.go:157-183):
    byte slices become lowercase hex, at most 64 bytes of it, and strings longer than
    64 bytes are cut at a rune boundary, each with a note of how much was dropped.
    Go strings are byte sequences, so both are `seq<byte>` here. */
module PgxLogger {
  import opened GoStrings

  /** The longest value printed in full. */
  const MaxPrinted: nat := 64

  /** A query argument, by the dynamic type the logger switches on. */
  datatype Arg = Bytes(b: seq<byte>) | Str(s: seq<byte>) | Other(id: nat)

  /** The bytes of an ASCII text. */
  function Text(s: string): (r: seq<byte>)
    requires forall i :: 0 <= i < |s| ==> s[i] as int < 128
    ensures |r| == |s| && forall i :: 0 <= i < |s| ==> r[i] as int == s[i] as int
  {
    seq(|s|, i requires 0 <= i < |s| => s[i] as int as byte)
  }

  // ----- Hex and decimal, as `%x` and `%d` print them -----

  /** The lowercase hex digit of `d`. */
  function HexDigit(d: int): byte
    requires 0 <= d < 16
  {
    if d < 10 then (48 + d) as byte else (87 + d) as byte
  }

  /** The value of a lowercase hex digit, -1 for any other byte. */
  function HexValue(c: byte): int {
    if 48 <= c < 58 then c as int - 48 else if 97 <= c < 103 then c as int - 87 else -1
  }

  /** `hex.EncodeToString`: two lowercase digits per byte, high half first. */
  function Hex(v: seq<byte>): (r: seq<byte>)
    ensures |r| == 2 * |v|
    ensures forall i :: 0 <= i < |r| ==> 0 <= HexValue(r[i]) < 16
  {
    if |v| == 0 then [] else [HexDigit(v[0] as int / 16), HexDigit(v[0] as int % 16)] + Hex(v[1..])
  }

  /** Reads hex digits back, two per byte. */
  function Unhex(r: seq<byte>): seq<byte>
    requires |r| % 2 == 0 && forall i :: 0 <= i < |r| ==> 0 <= HexValue(r[i]) < 16
  {
    if |r| == 0 then [] else [(HexValue(r[0]) * 16 + HexValue(r[1])) as byte] + Unhex(r[2..])
  }

  /** The decimal digits of `n`, without leading zeros. */
  function Decimal(n: nat): (r: seq<byte>)
    ensures |r| >= 1 && forall i :: 0 <= i < |r| ==> 48 <= r[i] < 58
  {
    if n < 10 then [(48 + n) as byte] else Decimal(n / 10) + [(48 + n % 10) as byte]
  }

  /** Reads decimal digits back. */
  function ParseDecimal(r: seq<byte>): nat
    requires forall i :: 0 <= i < |r| ==> 48 <= r[i] < 58
  {
    if |r| == 0 then 0 else ParseDecimal(r[..|r| - 1]) * 10 + (r[|r| - 1] as int - 48)
  }

  /** The note after a cut value: ` (truncated N bytes)`. */
  function TruncatedNote(n: nat): seq<byte> {
    Text(" (truncated ") + Decimal(n) + Text(" bytes)")
  }

  // ----- UTF-8 -----

  predicate IsContinuation(b: byte) { 0x80 <= b <= 0xBF }

  /** The width `utf8.DecodeRuneInString` reports for the rune at the start of `s`:
      0 for empty input, 1 for an ASCII byte or an invalid sequence, otherwise the
      length of the well-formed encoding. */
  function RuneWidth(s: seq<byte>): (w: nat)
    ensures |s| == 0 ==> w == 0
    ensures |s| > 0 ==> 1 <= w <= 4 && w <= |s|
    ensures forall k :: 1 <= k < w ==> IsContinuation(s[k])
  {
    if |s| == 0 then 0
    else if s[0] < 0x80 || s[0] < 0xC2 || s[0] > 0xF4 then 1
    else
      var size := if s[0] < 0xE0 then 2 else if s[0] < 0xF0 then 3 else 4;
      var lo: byte := if s[0] == 0xE0 then 0xA0 else if s[0] == 0xF0 then 0x90 else 0x80;
      var hi: byte := if s[0] == 0xED then 0x9F else if s[0] == 0xF4 then 0x8F else 0xBF;
      if |s| < size || !(lo <= s[1] <= hi) then 1
      else if size == 2 then 2
      else if !IsContinuation(s[2]) then 1
      else if size == 3 then 3
      else if !IsContinuation(s[3]) then 1
      else 4
  }

  /** Where the scan over runes from byte `l` stops: the first rune boundary at or
      past byte 64. */
  function CutPoint(v: seq<byte>, l: nat): (r: nat)
    requires l <= |v| && |v| > MaxPrinted
    ensures l <= r <= |v| && MaxPrinted <= r
    ensures l < MaxPrinted ==> r < MaxPrinted + 4
    decreases MaxPrinted - l
  {
    if l >= MaxPrinted then l else CutPoint(v, l + RuneWidth(v[l..]))
  }

  // ----- The logger -----

  /** How one argument is printed. */
  function LogArg(a: Arg): Arg {
    match a
    case Bytes(v) => LogBytes(v)
    case Str(v) => LogString(v)
    case Other(_) => a
  }

  /** A byte slice: its hex form, cut to 64 bytes with a note of the rest. */
  function LogBytes(v: seq<byte>): Arg {
    if |v| < MaxPrinted then Str(Hex(v)) else Str(Hex(v[..MaxPrinted]) + TruncatedNote(|v| - MaxPrinted))
  }

  /** A string: cut at the first rune boundary past 64 bytes, with a note of the rest. */
  function LogString(v: seq<byte>): Arg {
    if |v| > MaxPrinted && CutPoint(v, 0) < |v| then
      var l := CutPoint(v, 0);
      Str(v[..l] + TruncatedNote(|v| - l))
    else Str(v)
  }

  /** `logQueryArgs`. */
  method LogQueryArgs(args: seq<Arg>) returns (logArgs: seq<Arg>)
    ensures |logArgs| == |args|
    ensures forall i :: 0 <= i < |args| ==> logArgs[i] == LogArg(args[i])
  {
    logArgs := [];
    for j := 0 to |args|
      invariant |logArgs| == j
      invariant forall i :: 0 <= i < j ==> logArgs[i] == LogArg(args[i])
    {
      var a := LogOneArg(args[j]);
      logArgs := logArgs + [a];
    }
  }

  /** The body of the loop of `logQueryArgs`, for one argument. */
  method LogOneArg(a: Arg) returns (r: Arg)
    ensures r == LogArg(a)
  {
    match a {
      case Bytes(v) => r := LogBytesOf(v);
      case Str(v) => r := LogStringOf(v);
      case Other(_) => r := a;
    }
  }

  /** The `[]byte` case of the loop body. */
  method LogBytesOf(v: seq<byte>) returns (r: Arg)
    ensures r == LogBytes(v)
  {
    if |v| < MaxPrinted {
      return Str(Hex(v));
    }
    return Str(Hex(v[..MaxPrinted]) + TruncatedNote(|v| - MaxPrinted));
  }

  /** The `string` case of the loop body. */
  method LogStringOf(v: seq<byte>) returns (r: Arg)
    ensures r == LogString(v)
  {
    if |v| <= MaxPrinted {
      return Str(v);
    }
    var l := ScanRunes(v);
    if |v| > l {
      return Str(v[..l] + TruncatedNote(|v| - l));
    }
    return Str(v);
  }

  /** The rune walk of `logQueryArgs`: rune by rune until at least 64 bytes are
      covered. */
  method ScanRunes(v: seq<byte>) returns (l: nat)
    requires |v| > MaxPrinted
    ensures l == CutPoint(v, 0)
  {
    l := 0;
    while l < MaxPrinted
      invariant 0 <= l <= |v|
      invariant CutPoint(v, l) == CutPoint(v, 0)
      decreases MaxPrinted - l
    {
      var w := RuneWidth(v[l..]);
      l := l + w;
    }
  }

  // ----- Properties -----

  /** The hex form reads back to the bytes. */
  lemma {:induction false} HexRoundTrip(v: seq<byte>)
    ensures Unhex(Hex(v)) == v
  {
    if |v| > 0 {
      var r := Hex(v);
      assert r[2..] == Hex(v[1..]);
      HexRoundTrip(v[1..]);
    }
  }

  /** The decimal form reads back to the number. */
  lemma {:induction false} DecimalRoundTrip(n: nat)
    ensures ParseDecimal(Decimal(n)) == n
  {
    if n >= 10 {
      var r := Decimal(n);
      assert r[..|r| - 1] == Decimal(n / 10);
      DecimalRoundTrip(n / 10);
    }
  }

  /** A short byte slice is printed whole, as hex. */
  lemma ShortBytes(v: seq<byte>)
    requires |v| < MaxPrinted
    ensures LogArg(Bytes(v)).Str? && Unhex(LogArg(Bytes(v)).s) == v
  {
    HexRoundTrip(v);
  }

  /** A byte slice of 64 bytes or more prints its first 64 bytes as hex, then the count
      of the rest (0 for exactly 64). */
  lemma LongBytes(v: seq<byte>)
    requires |v| >= MaxPrinted
    ensures var r := LogArg(Bytes(v)).s;
      && |r| > 2 * MaxPrinted
      && Unhex(r[..2 * MaxPrinted]) == v[..MaxPrinted]
      && r[2 * MaxPrinted..] == TruncatedNote(|v| - MaxPrinted)
      && ParseDecimal(r[2 * MaxPrinted + 12..|r| - 7]) == |v| - MaxPrinted
  {
    var r := LogArg(Bytes(v)).s;
    var h := Hex(v[..MaxPrinted]);
    assert r == h + TruncatedNote(|v| - MaxPrinted);
    assert r[..2 * MaxPrinted] == h;
    HexRoundTrip(v[..MaxPrinted]);
    var d := Decimal(|v| - MaxPrinted);
    assert r[2 * MaxPrinted + 12..|r| - 7] == d;
    DecimalRoundTrip(|v| - MaxPrinted);
  }

  /** A string of at most 64 bytes, and any other value, is passed through. */
  lemma PassedThrough(a: Arg)
    requires a.Other? || (a.Str? && |a.s| <= MaxPrinted)
    ensures LogArg(a) == a
  {
  }

  /** The scan only moves past byte 64 to finish a rune: every byte it keeps beyond the
      first 64 is a continuation byte. */
  lemma {:induction false} CutFinishesRune(v: seq<byte>, l: nat)
    requires l <= MaxPrinted < |v|
    ensures forall k :: MaxPrinted <= k < CutPoint(v, l) ==> IsContinuation(v[k])
    decreases MaxPrinted - l
  {
    if l < MaxPrinted {
      var w := RuneWidth(v[l..]);
      if l + w < MaxPrinted {
        CutFinishesRune(v, l + w);
      } else {
        assert CutPoint(v, l) == l + w;
        forall k | MaxPrinted <= k < l + w ensures IsContinuation(v[k]) {
          assert v[k] == v[l..][k - l];
        }
      }
    }
  }

  /** A long string keeps between 64 and 67 of its bytes, ending on a rune boundary, and
      the note counts the rest; if the scan reaches the end the string is left alone. */
  lemma LongString(v: seq<byte>)
    requires |v| > MaxPrinted
    ensures var l := CutPoint(v, 0);
      && MaxPrinted <= l < MaxPrinted + 4
      && (forall k :: MaxPrinted <= k < l ==> IsContinuation(v[k]))
      && (l < |v| ==> LogArg(Str(v)) == Str(v[..l] + TruncatedNote(|v| - l)))
      && (l == |v| ==> LogArg(Str(v)) == Str(v))
  {
    CutFinishesRune(v, 0);
  }

  /** With only ASCII bytes every rune is one byte wide, so the cut is at exactly 64. */
  lemma {:induction false} AsciiCut(v: seq<byte>, l: nat)
    requires l <= MaxPrinted < |v|
    requires forall k :: 0 <= k < |v| ==> v[k] < 0x80
    ensures CutPoint(v, l) == MaxPrinted
    decreases MaxPrinted - l
  {
    if l < MaxPrinted {
      assert v[l..][0] == v[l];
      AsciiCut(v, l + 1);
    }
  }

  /** 70 ASCII bytes print as their first 64 and ` (truncated 6 bytes)`. */
  lemma SeventyAscii(v: seq<byte>)
    requires |v| == 70 && forall k :: 0 <= k < |v| ==> v[k] < 0x80
    ensures LogArg(Str(v)) == Str(v[..64] + Text(" (truncated 6 bytes)"))
  {
    AsciiCut(v, 0);
    assert Decimal(6) == Text("6");
    assert TruncatedNote(6) == Text(" (truncated 6 bytes)");
  }
}
