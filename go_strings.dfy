/** The few operations of Go's `strings` package the cardinality code relies on,
    specialised to a one-character separator, plus the ASCII character classes
    that RE2 uses for `\d` and `\w`. */
module GoStrings {

  /** Go's `byte`. */
  newtype byte = b: int | 0 <= b < 256

  /** `strings.Split(s, string(c))`: the pieces of `s` between occurrences of `c`.
      As in Go, the empty string splits into one empty piece. */
  function Split(s: string, c: char): (parts: seq<string>)
    ensures |parts| >= 1
    decreases |s|
  {
    if |s| == 0 then [""]
    else if s[0] == c then [""] + Split(s[1..], c)
    else ExtendFirst(s[0], Split(s[1..], c))
  }

  /** `parts` with `ch` put in front of its first piece. */
  function ExtendFirst(ch: char, parts: seq<string>): (r: seq<string>)
    requires |parts| >= 1
    ensures |r| == |parts| && r[0] == [ch] + parts[0] && r[1..] == parts[1..]
  {
    [[ch] + parts[0]] + parts[1..]
  }

  /** `strings.Join(parts, string(c))`. */
  function Join(parts: seq<string>, c: char): string
    decreases |parts|
  {
    if |parts| == 0 then ""
    else if |parts| == 1 then parts[0]
    else parts[0] + [c] + Join(parts[1..], c)
  }

  /** `strings.TrimLeft(s, string(c))`: drop every leading `c`. */
  function TrimLeft(s: string, c: char): string
    decreases |s|
  {
    if |s| > 0 && s[0] == c then TrimLeft(s[1..], c) else s
  }

  /** `strings.HasPrefix(s, p)`. */
  predicate HasPrefix(s: string, p: string) {
    |p| <= |s| && s[..|p|] == p
  }

  /** The number of occurrences of `c` in `s`. */
  function Count(s: string, c: char): nat
    decreases |s|
  {
    if |s| == 0 then 0 else (if s[0] == c then 1 else 0) + Count(s[1..], c)
  }

  /** `sub` occurs in `s` starting at position `i`. */
  predicate OccursAt(s: string, sub: string, i: int) {
    0 <= i && i + |sub| <= |s| && s[i..i + |sub|] == sub
  }

  /** `strings.Index(s, sub)`: the first position at which `sub` occurs, or -1. */
  function Index(s: string, sub: string): (k: int)
    ensures k == -1 || OccursAt(s, sub, k)
    ensures forall i :: (k == -1 || i < k) ==> !OccursAt(s, sub, i)
  {
    IndexFrom(s, sub, 0)
  }

  function IndexFrom(s: string, sub: string, from: nat): (k: int)
    ensures k == -1 || (from <= k && OccursAt(s, sub, k))
    ensures forall i :: from <= i && (k == -1 || i < k) ==> !OccursAt(s, sub, i)
    decreases |s| - from
  {
    if from + |sub| > |s| then -1
    else if s[from..from + |sub|] == sub then from
    else IndexFrom(s, sub, from + 1)
  }

  /** `strings.Replace(s, old, new, 1)`: replace the first occurrence of `from` by `to`.
      As in Go, an empty `from` occurs at position 0. */
  function ReplaceFirst(s: string, from: string, to: string): string {
    var k := Index(s, from);
    if k < 0 then s else s[..k] + to + s[k + |from|..]
  }

  // ----- ASCII character classes (RE2 semantics: \d and \w are ASCII only) -----

  predicate IsDigit(ch: char) { '0' <= ch <= '9' }

  predicate IsLetter(ch: char) { 'a' <= ch <= 'z' || 'A' <= ch <= 'Z' }

  /** `\w`: `[0-9A-Za-z_]`. */
  predicate IsWordChar(ch: char) { IsDigit(ch) || IsLetter(ch) || ch == '_' }

  /** `[-\w]`. */
  predicate IsWordOrHyphen(ch: char) { IsWordChar(ch) || ch == '-' }

  /** `[a-f\d]`: a lower-case hexadecimal digit. */
  predicate IsLowerHex(ch: char) { IsDigit(ch) || 'a' <= ch <= 'f' }

  predicate AllDigits(s: string) { forall i :: 0 <= i < |s| ==> IsDigit(s[i]) }

  predicate AllWordOrHyphen(s: string) { forall i :: 0 <= i < |s| ==> IsWordOrHyphen(s[i]) }

  // ----- Lemmas -----

  /** Joining the pieces of a split with the same separator gives the string back. */
  lemma {:induction false} JoinSplit(s: string, c: char)
    ensures Join(Split(s, c), c) == s
    decreases |s|
  {
    if |s| > 0 {
      var rest := Split(s[1..], c);
      JoinSplit(s[1..], c);
      if s[0] == c {
        assert Split(s, c) == [""] + rest;
        assert ([""] + rest)[1..] == rest;
        assert Join([""] + rest, c) == "" + [c] + Join(rest, c);
        assert [c] + s[1..] == s;
      } else {
        var parts := [[s[0]] + rest[0]] + rest[1..];
        assert Split(s, c) == parts;
        if |rest| == 1 {
          assert Join(parts, c) == [s[0]] + rest[0];
          assert Join(rest, c) == rest[0];
        } else {
          assert parts[1..] == rest[1..];
          assert Join(parts, c) == [s[0]] + rest[0] + [c] + Join(rest[1..], c);
          assert Join(rest, c) == rest[0] + [c] + Join(rest[1..], c);
        }
        assert [s[0]] + s[1..] == s;
      }
    }
  }

  /** No piece of a split contains the separator. */
  lemma {:induction false} SplitPiecesAvoidSeparator(s: string, c: char)
    ensures forall p :: p in Split(s, c) ==> c !in p
    decreases |s|
  {
    if |s| > 0 {
      SplitPiecesAvoidSeparator(s[1..], c);
    }
  }

  /** A split has one more piece than the string has separators. */
  lemma {:induction false} SplitLength(s: string, c: char)
    ensures |Split(s, c)| == Count(s, c) + 1
    decreases |s|
  {
    if |s| > 0 {
      SplitLength(s[1..], c);
    }
  }

  /** A string free of the separator splits into itself. */
  lemma {:induction false} SplitNoSeparator(x: string, c: char)
    requires c !in x
    ensures Split(x, c) == [x]
    decreases |x|
  {
    if |x| > 0 {
      assert c !in x[1..] by {
        forall k | 0 <= k < |x[1..]| ensures x[1..][k] != c { assert x[1..][k] == x[k + 1]; }
      }
      SplitNoSeparator(x[1..], c);
      assert [x[0]] + x[1..] == x;
    }
  }

  /** Splitting `x + c + y` when `x` has no separator yields `x` followed by the pieces of `y`. */
  lemma {:induction false} SplitCons(x: string, c: char, y: string)
    requires c !in x
    ensures Split(x + [c] + y, c) == [x] + Split(y, c)
    decreases |x|
  {
    var s := x + [c] + y;
    if |x| == 0 {
      assert s[1..] == y;
    } else {
      assert s[1..] == x[1..] + [c] + y;
      assert c !in x[1..] by {
        forall k | 0 <= k < |x[1..]| ensures x[1..][k] != c { assert x[1..][k] == x[k + 1]; }
      }
      SplitCons(x[1..], c, y);
      assert [x[0]] + x[1..] == x;
    }
  }

  /** Splitting a join of separator-free pieces gives the pieces back. */
  lemma {:induction false} SplitJoin(parts: seq<string>, c: char)
    requires |parts| >= 1
    requires forall p :: p in parts ==> c !in p
    ensures Split(Join(parts, c), c) == parts
    decreases |parts|
  {
    if |parts| == 1 {
      SplitNoSeparator(parts[0], c);
    } else {
      assert parts[0] in parts;
      assert forall p :: p in parts[1..] ==> p in parts;
      SplitJoin(parts[1..], c);
      SplitCons(parts[0], c, Join(parts[1..], c));
      assert [parts[0]] + parts[1..] == parts;
    }
  }

  /** TrimLeft removes a prefix made only of `c`, and what remains does not start with `c`. */
  lemma {:induction false} TrimLeftShape(s: string, c: char)
    ensures |TrimLeft(s, c)| <= |s|
    ensures TrimLeft(s, c) == s[|s| - |TrimLeft(s, c)|..]
    ensures forall i :: 0 <= i < |s| - |TrimLeft(s, c)| ==> s[i] == c
    ensures TrimLeft(s, c) == [] || TrimLeft(s, c)[0] != c
    decreases |s|
  {
    if |s| > 0 && s[0] == c {
      TrimLeftShape(s[1..], c);
      var t := TrimLeft(s[1..], c);
      assert s[1..][|s[1..]| - |t|..] == s[|s| - |t|..];
      forall i | 0 <= i < |s| - |t| ensures s[i] == c {
        if i > 0 { assert s[i] == s[1..][i - 1]; }
      }
    }
  }

  /** Trimming a string that starts with something other than `c` changes nothing. */
  lemma TrimLeftNoop(s: string, c: char)
    requires s == [] || s[0] != c
    ensures TrimLeft(s, c) == s
  {
  }

  /** Trimming is idempotent. */
  lemma TrimLeftIdempotent(s: string, c: char)
    ensures TrimLeft(TrimLeft(s, c), c) == TrimLeft(s, c)
  {
    TrimLeftShape(s, c);
  }

  /** Leading separators are absorbed: `TrimLeft(c + s) == TrimLeft(s)`. */
  lemma TrimLeftCons(s: string, c: char)
    ensures TrimLeft([c] + s, c) == TrimLeft(s, c)
  {
    assert ([c] + s)[1..] == s;
  }

  /** An element of a string that is not its first character occurs in its tail. */
  lemma ContainsFirstOrTail(s: string, ch: char)
    requires |s| > 0
    ensures ch in s <==> s[0] == ch || ch in s[1..]
  {
    if ch in s && s[0] != ch {
      var k :| 0 <= k < |s| && s[k] == ch;
      assert s[1..][k - 1] == ch;
    }
  }

  /** A join whose first piece is not empty starts with that piece's first character. */
  lemma JoinFirst(parts: seq<string>, c: char)
    requires |parts| >= 1 && |parts[0]| > 0
    ensures |Join(parts, c)| > 0 && Join(parts, c)[0] == parts[0][0]
  {
  }

  /** Appending a piece to a non-empty join adds one separator and the piece. */
  lemma {:induction false} JoinSnoc(parts: seq<string>, x: string, c: char)
    requires |parts| >= 1
    ensures Join(parts + [x], c) == Join(parts, c) + [c] + x
    decreases |parts|
  {
    if |parts| == 1 {
      assert (parts + [x])[1..] == [x];
    } else {
      assert (parts + [x])[1..] == parts[1..] + [x];
      JoinSnoc(parts[1..], x, c);
    }
  }

  /** The first piece of a split is empty only when the string is empty or starts with the separator. */
  lemma SplitFirstEmpty(s: string, c: char)
    requires Split(s, c)[0] == ""
    ensures s == "" || s[0] == c
  {
  }

  /** Joins of a few pieces, written out. */
  lemma Join2(a: string, b: string, c: char)
    ensures Join([a, b], c) == a + [c] + b
  {
    assert [a, b][1..] == [b];
  }

  lemma Join3(a: string, b: string, d: string, c: char)
    ensures Join([a, b, d], c) == a + [c] + b + [c] + d
  {
    assert [a, b, d][1..] == [b, d];
    Join2(b, d, c);
  }

  lemma Join4(a: string, b: string, d: string, e: string, c: char)
    ensures Join([a, b, d, e], c) == a + [c] + b + [c] + d + [c] + e
  {
    assert [a, b, d, e][1..] == [b, d, e];
    Join3(b, d, e, c);
  }

  lemma Join5(a: string, b: string, d: string, e: string, f: string, c: char)
    ensures Join([a, b, d, e, f], c) == a + [c] + b + [c] + d + [c] + e + [c] + f
  {
    assert [a, b, d, e, f][1..] == [b, d, e, f];
    Join4(b, d, e, f, c);
  }

  lemma Join6(a: string, b: string, d: string, e: string, f: string, g: string, c: char)
    ensures Join([a, b, d, e, f, g], c) == a + [c] + b + [c] + d + [c] + e + [c] + f + [c] + g
  {
    assert [a, b, d, e, f, g][1..] == [b, d, e, f, g];
    Join5(b, d, e, f, g, c);
  }

  /** A path written as its separator-free segments, the first one not empty, with or
      without one leading separator, trims and splits back into those segments. */
  lemma SegmentsOfJoin(segs: seq<string>, c: char, lead: bool)
    requires |segs| >= 1 && |segs[0]| > 0
    requires forall p :: p in segs ==> c !in p
    ensures Split(TrimLeft((if lead then [c] else []) + Join(segs, c), c), c) == segs
  {
    var j := Join(segs, c);
    JoinFirst(segs, c);
    assert segs[0] in segs;
    SplitJoin(segs, c);
    TrimLeftNoop(j, c);
    if lead {
      TrimLeftCons(j, c);
    } else {
      assert [] + j == j;
    }
  }
}
