/** Java's string operations as the engine uses them on its comma-separated
    records and messages: `String.split` with a literal separator,
    `String.join`, `String.trim`, `String.replace(target, "")`, and the
    decimal numerals of `Integer.toString` / `Integer.parseInt` and
    `Boolean.parseBoolean`. */
module Strings {
  import opened Lang

  /** `sep` occurs in `s` starting at index `i`. */
  predicate MatchAt(s: string, i: int, sep: string)
  {
    0 <= i && i + |sep| <= |s| && s[i..i + |sep|] == sep
  }

  /** `s` has no character `c`. */
  predicate Lacks(s: string, c: char)
  {
    forall i | 0 <= i < |s| :: s[i] != c
  }

  predicate Contains(s: string, sub: string)
  {
    exists i | 0 <= i <= |s| - |sub| :: MatchAt(s, i, sub)
  }

  /** The pieces of `s` between the leftmost non-overlapping occurrences of
      `sep`, scanning left to right as java.util.regex does for a literal. */
  function Pieces(s: string, sep: string): (r: seq<string>)
    requires |sep| > 0
    ensures |r| > 0
    decreases |s|
  {
    if |s| < |sep| then [s]
    else if s[..|sep|] == sep then [""] + Pieces(s[|sep|..], sep)
    else
      var rest := Pieces(s[1..], sep);
      [[s[0]] + rest[0]] + rest[1..]
  }

  /** `String.join(sep, parts)`. */
  function Join(parts: seq<string>, sep: string): string
  {
    if |parts| == 0 then ""
    else if |parts| == 1 then parts[0]
    else parts[0] + sep + Join(parts[1..], sep)
  }

  function DropTrailingEmpty(parts: seq<string>): (r: seq<string>)
    ensures |r| <= |parts| && r == parts[..|r|]
  {
    if parts != [] && parts[|parts| - 1] == "" then DropTrailingEmpty(parts[..|parts| - 1])
    else parts
  }

  /** `s.split(sep)` for a separator without regular-expression metacharacters:
      the whole string when `sep` does not occur, otherwise the pieces with
      trailing empty pieces removed. */
  function Split(s: string, sep: string): seq<string>
    requires |sep| > 0
  {
    var pieces := Pieces(s, sep);
    if |pieces| == 1 then pieces else DropTrailingEmpty(pieces)
  }

  /** `s.replace(target, "")`: every leftmost non-overlapping occurrence removed. */
  function RemoveAll(s: string, target: string): string
    requires |target| > 0
  {
    Join(Pieces(s, target), "")
  }

  /** `String.trim`: strips leading and trailing characters up to U+0020. */
  function TrimStart(s: string): string
  {
    if s != [] && s[0] <= ' ' then TrimStart(s[1..]) else s
  }

  function TrimEnd(s: string): string
  {
    if s != [] && s[|s| - 1] <= ' ' then TrimEnd(s[..|s| - 1]) else s
  }

  function Trim(s: string): string
  {
    TrimEnd(TrimStart(s))
  }

  /** A string that `trim` leaves as it is. */
  predicate Trimmed(s: string)
  {
    s == [] || (s[0] > ' ' && s[|s| - 1] > ' ')
  }

  lemma TrimmedTrim(s: string)
    requires Trimmed(s)
    ensures Trim(s) == s
  {
  }

  // ---------------------------------------------------------------------------
  // Splitting what was joined

  /** The pieces of `s` are what `s` is made of: joining them with the
      separator gives `s` back. */
  lemma {:induction false} JoinPieces(s: string, sep: string)
    requires |sep| > 0
    ensures Join(Pieces(s, sep), sep) == s
    decreases |s|
  {
    if |s| < |sep| {
    } else if s[..|sep|] == sep {
      var tail := s[|sep|..];
      var rest := Pieces(tail, sep);
      JoinPieces(tail, sep);
      assert Pieces(s, sep) == [""] + rest;
      assert ([""] + rest)[1..] == rest;
      assert Join([""] + rest, sep) == "" + sep + Join(rest, sep);
      assert sep + tail == s;
    } else {
      var rest := Pieces(s[1..], sep);
      JoinPieces(s[1..], sep);
      var head := [s[0]] + rest[0];
      assert Pieces(s, sep) == [head] + rest[1..];
      assert [s[0]] + s[1..] == s;
      if |rest| == 1 {
        assert Join([head], sep) == head;
      } else {
        assert ([head] + rest[1..])[1..] == rest[1..];
        assert Join([head] + rest[1..], sep) == head + sep + Join(rest[1..], sep);
        assert Join(rest, sep) == rest[0] + sep + Join(rest[1..], sep);
      }
    }
  }

  /** When no occurrence of `sep` starts inside `a`, the first piece of `a + t`
      is `a` followed by the first piece of `t`. */
  lemma {:induction false} PiecesPrefix(a: string, t: string, sep: string)
    requires |sep| > 0
    requires forall i | 0 <= i < |a| :: !MatchAt(a + t, i, sep)
    ensures Pieces(a + t, sep) == [a + Pieces(t, sep)[0]] + Pieces(t, sep)[1..]
    decreases |a|
  {
    if a == [] {
      var p := Pieces(t, sep);
      assert a + t == t;
      assert p == [p[0]] + p[1..];
      assert a + p[0] == p[0];
    } else {
      var s := a + t;
      assert !MatchAt(s, 0, sep);
      if |s| < |sep| {
        assert Pieces(t, sep) == [t];
      } else {
        assert s[1..] == a[1..] + t;
        forall i | 0 <= i < |a[1..]|
          ensures !MatchAt(a[1..] + t, i, sep)
        {
          assert !MatchAt(s, i + 1, sep);
          if i + |sep| <= |a[1..] + t| {
            assert (a[1..] + t)[i..i + |sep|] == s[i + 1..i + 1 + |sep|];
          }
        }
        PiecesPrefix(a[1..], t, sep);
        assert [s[0]] + a[1..] == a;
        assert [s[0]] + (a[1..] + Pieces(t, sep)[0]) == a + Pieces(t, sep)[0];
      }
    }
  }

  lemma PiecesAtSeparator(t: string, sep: string)
    requires |sep| > 0
    ensures Pieces(sep + t, sep) == [""] + Pieces(t, sep)
  {
    assert (sep + t)[..|sep|] == sep;
    assert (sep + t)[|sep|..] == t;
  }

  lemma PiecesNoMatch(s: string, sep: string)
    requires |sep| > 0
    requires forall i | 0 <= i < |s| :: !MatchAt(s, i, sep)
    ensures Pieces(s, sep) == [s]
  {
    assert s + "" == s;
    PiecesPrefix(s, "", sep);
  }

  /** A string that does not contain some character of `sep` has no occurrence of it. */
  lemma NoMatchWithoutChar(s: string, sep: string, k: nat)
    requires k < |sep|
    requires forall i | 0 <= i < |s| :: s[i] != sep[k]
    ensures forall i | 0 <= i < |s| :: !MatchAt(s, i, sep)
  {
    forall i | 0 <= i < |s| ensures !MatchAt(s, i, sep) {
      if i + |sep| <= |s| {
        assert s[i..i + |sep|][k] != sep[k];
      }
    }
  }

  /** No occurrence of a one-character separator starts inside a prefix free of it. */
  lemma NoCharPrefix(f: string, t: string, c: char)
    requires Lacks(f, c)
    ensures forall i | 0 <= i < |f| :: !MatchAt(f + t, i, [c])
  {
    forall i | 0 <= i < |f| ensures !MatchAt(f + t, i, [c]) {
      assert (f + t)[i..i + 1] == [f[i]];
    }
  }

  /** Fields free of a one-character separator split back out of their join. */
  lemma {:induction false} PiecesOfJoin(fields: seq<string>, c: char)
    requires |fields| > 0
    requires forall k | 0 <= k < |fields| :: Lacks(fields[k], c)
    ensures Pieces(Join(fields, [c]), [c]) == fields
    decreases |fields|
  {
    var f := fields[0];
    if |fields| == 1 {
      NoMatchWithoutChar(f, [c], 0);
      PiecesNoMatch(f, [c]);
    } else {
      var rest := Join(fields[1..], [c]);
      assert Join(fields, [c]) == f + ([c] + rest);
      NoCharPrefix(f, [c] + rest, c);
      PiecesPrefix(f, [c] + rest, [c]);
      PiecesAtSeparator(rest, [c]);
      assert forall k | 0 <= k < |fields[1..]| :: fields[1..][k] == fields[k + 1];
      PiecesOfJoin(fields[1..], c);
      assert f + "" == f;
      assert [f] + fields[1..] == fields;
    }
  }

  /** The record codec's round trip: `join(",", fields).split(",")` gives the
      fields back when none contains the separator and the last is not empty
      (Java drops trailing empty fields). */
  lemma SplitJoin(fields: seq<string>, c: char)
    requires |fields| > 0 && fields[|fields| - 1] != ""
    requires forall k | 0 <= k < |fields| :: Lacks(fields[k], c)
    ensures Split(Join(fields, [c]), [c]) == fields
  {
    PiecesOfJoin(fields, c);
  }

  /** With a one-character separator, splitting at one occurrence splits the
      two sides independently. */
  lemma {:induction false} PiecesAtChar(x: string, y: string, c: char)
    ensures Pieces(x + [c] + y, [c]) == Pieces(x, [c]) + Pieces(y, [c])
    decreases |x|
  {
    if x == [] {
      assert x + [c] + y == [c] + y;
      PiecesAtSeparator(y, [c]);
    } else {
      var s := x + [c] + y;
      assert s[1..] == x[1..] + [c] + y;
      PiecesAtChar(x[1..], y, c);
      if x[0] == c {
        assert s[..1] == [c];
        assert x[..1] == [c];
      } else {
        assert s[..1] != [c];
        assert x[..1] != [c];
      }
    }
  }

  /** A string holding the separator splits into at least two pieces. */
  lemma PiecesOfContaining(s: string, c: char, i: nat)
    requires i < |s| && s[i] == c
    ensures |Pieces(s, [c])| >= 2
  {
    assert s == s[..i] + [c] + s[i + 1..];
    PiecesAtChar(s[..i], s[i + 1..], c);
  }

  /** Dropping trailing empty pieces leaves nothing exactly when every piece is empty. */
  lemma {:induction false} DropTrailingEmptyToNothing(parts: seq<string>)
    ensures DropTrailingEmpty(parts) == [] <==> forall k | 0 <= k < |parts| :: parts[k] == ""
  {
    if parts != [] && parts[|parts| - 1] == "" {
      var init := parts[..|parts| - 1];
      DropTrailingEmptyToNothing(init);
      assert forall k | 0 <= k < |init| :: init[k] == parts[k];
    }
  }

  /** With a one-character separator, every piece is empty exactly when the
      string is made of the separator alone. */
  lemma {:induction false} PiecesAllEmpty(s: string, c: char)
    ensures (forall k | 0 <= k < |Pieces(s, [c])| :: Pieces(s, [c])[k] == "") ==> forall i | 0 <= i < |s| :: s[i] == c
    ensures (forall i | 0 <= i < |s| :: s[i] == c) ==> forall k | 0 <= k < |Pieces(s, [c])| :: Pieces(s, [c])[k] == ""
    decreases |s|
  {
    if |s| < 1 {
    } else if s[..1] == [c] {
      var rest := Pieces(s[1..], [c]);
      PiecesAllEmpty(s[1..], c);
      assert Pieces(s, [c]) == [""] + rest;
      assert forall k | 0 <= k < |rest| :: ([""] + rest)[k + 1] == rest[k];
      assert s[0] == c;
      if forall k | 0 <= k < |Pieces(s, [c])| :: Pieces(s, [c])[k] == "" {
        assert forall k | 0 <= k < |rest| :: rest[k] == Pieces(s, [c])[k + 1] == "";
        forall i | 0 <= i < |s|
          ensures s[i] == c
        {
          if i > 0 {
            assert s[i] == s[1..][i - 1];
          }
        }
      }
      if forall i | 0 <= i < |s| :: s[i] == c {
        assert forall i | 0 <= i < |s[1..]| :: s[1..][i] == s[i + 1];
        assert forall i | 0 <= i < |s[1..]| :: s[1..][i] == c;
        assert forall k | 0 <= k < |rest| :: rest[k] == "";
        forall k | 0 <= k < |Pieces(s, [c])|
          ensures Pieces(s, [c])[k] == ""
        {
          if k > 0 {
            assert Pieces(s, [c])[k] == rest[k - 1];
          }
        }
      }
    } else {
      assert s[0] != c;
      var rest := Pieces(s[1..], [c]);
      assert Pieces(s, [c])[0] == [s[0]] + rest[0];
    }
  }

  /** `s.split(c)` is empty (so that taking its first element throws)
      exactly when `s` is a non-empty run of the separator. */
  lemma SplitToNothing(s: string, c: char)
    ensures Split(s, [c]) == [] <==> s != [] && forall i | 0 <= i < |s| :: s[i] == c
  {
    var pieces := Pieces(s, [c]);
    PiecesAllEmpty(s, c);
    DropTrailingEmptyToNothing(pieces);
    if s != [] && forall i | 0 <= i < |s| :: s[i] == c {
      assert s[..1] == [c];
      assert pieces == [""] + Pieces(s[1..], [c]);
    }
  }

  // ---------------------------------------------------------------------------
  // Numerals

  predicate IsDigit(c: char)
  {
    '0' <= c <= '9'
  }

  predicate AllDigits(s: string)
  {
    forall i | 0 <= i < |s| :: IsDigit(s[i])
  }

  lemma DigitsLackComma(s: string)
    requires AllDigits(s)
    ensures Lacks(s, ',')
  {
  }

  function DigitChar(d: int): (c: char)
    requires 0 <= d < 10
    ensures IsDigit(c) && c as int - '0' as int == d
  {
    ('0' as int + d) as char
  }

  function DigitValue(c: char): (d: int)
    requires IsDigit(c)
    ensures 0 <= d < 10 && DigitChar(d) == c
  {
    c as int - '0' as int
  }

  /** Decimal numeral of a natural number, without leading zeros. */
  function NatText(n: nat): (r: string)
    ensures |r| > 0 && AllDigits(r)
  {
    if n < 10 then [DigitChar(n)] else NatText(n / 10) + [DigitChar(n % 10)]
  }

  function DigitsValue(s: string): nat
    requires AllDigits(s)
  {
    if s == [] then 0 else DigitsValue(s[..|s| - 1]) * 10 + DigitValue(s[|s| - 1])
  }

  function ParseNat(s: string): Option<nat>
  {
    if s != [] && AllDigits(s) then Some(DigitsValue(s)) else None
  }

  lemma {:induction false} NatTextRoundTrip(n: nat)
    ensures ParseNat(NatText(n)) == Some(n)
  {
    if n >= 10 {
      NatTextRoundTrip(n / 10);
      var s := NatText(n);
      assert s == NatText(n / 10) + [DigitChar(n % 10)];
      assert s[..|s| - 1] == NatText(n / 10);
      assert DigitsValue(s) == DigitsValue(NatText(n / 10)) * 10 + n % 10;
    }
  }

  lemma NatTextInjective(a: nat, b: nat)
    requires NatText(a) == NatText(b)
    ensures a == b
  {
    NatTextRoundTrip(a);
    NatTextRoundTrip(b);
  }

  /** `Integer.toString`. */
  function IntText(i: int): (r: string)
    ensures |r| > 0
  {
    if i < 0 then "-" + NatText(-i) else NatText(i)
  }

  /** `Integer.parseInt`: an optional sign and decimal digits, in range;
      anything else raises NumberFormatException (None). */
  function ParseInt32(s: string): Option<Int32>
  {
    if s != [] && (s[0] == '-' || s[0] == '+') then
      match ParseNat(s[1..])
      case Some(v) =>
        var x := if s[0] == '-' then -(v as int) else v as int;
        if -0x8000_0000 <= x < 0x8000_0000 then Some(x) else None
      case None => None
    else
      match ParseNat(s)
      case Some(v) => if v < 0x8000_0000 then Some(v) else None
      case None => None
  }

  lemma IntTextRoundTrip(i: Int32)
    ensures ParseInt32(IntText(i)) == Some(i)
  {
    if i < 0 {
      var n: nat := -(i as int);
      NatTextRoundTrip(n);
      assert ("-" + NatText(n))[1..] == NatText(n);
    } else {
      NatTextRoundTrip(i);
    }
  }

  /** `String.valueOf(boolean)`. */
  function BoolText(b: bool): string
  {
    if b then "true" else "false"
  }

  function LowerAscii(c: char): char
  {
    if 'A' <= c <= 'Z' then (c as int + 32) as char else c
  }

  /** `Boolean.parseBoolean`: true exactly for "true" in any letter case. */
  function ParseBool(s: string): bool
  {
    |s| == 4 && LowerAscii(s[0]) == 't' && LowerAscii(s[1]) == 'r' &&
    LowerAscii(s[2]) == 'u' && LowerAscii(s[3]) == 'e'
  }

  lemma BoolTextRoundTrip(b: bool)
    ensures ParseBool(BoolText(b)) == b
  {
  }
}
