/** The string side of the bus router: splitting an MQTT topic on its
    topic-level separator (section 4.7.1.1 of MQTT 3.1.1), removing "0x"
    markers, parsing a base-16 uint64 the way Go's strconv.ParseUint(s, 16, 64)
    does, and formatting addresses in hex (fmt "%x") and decimal (fmt "%v"). */
module Topics {
  import opened Common

  const SEPARATOR: char := '/'

  // ---------------------------------------------------------------------
  // strings.Split(topic, "/")
  // ---------------------------------------------------------------------

  /** The segments between separators; the empty topic is one empty segment. */
  function Split(s: string): (parts: seq<string>)
    ensures |parts| >= 1
    ensures forall i :: 0 <= i < |parts| ==> SEPARATOR !in parts[i]
  {
    if s == "" then [""]
    else
      var rest := Split(s[1..]);
      if s[0] == SEPARATOR then [""] + rest
      else [[s[0]] + rest[0]] + rest[1..]
  }

  /** strings.Join(parts, "/"), the inverse of Split. */
  function Join(parts: seq<string>): string
    requires |parts| >= 1
  {
    if |parts| == 1 then parts[0] else parts[0] + [SEPARATOR] + Join(parts[1..])
  }

  /** Joining the segments of a topic gives the topic back. */
  lemma {:induction false} JoinSplit(s: string)
    ensures Join(Split(s)) == s
  {
    if s != "" {
      var rest := Split(s[1..]);
      JoinSplit(s[1..]);
      if s[0] == SEPARATOR {
        assert ([""] + rest)[1..] == rest;
      } else {
        var parts := [[s[0]] + rest[0]] + rest[1..];
        if |rest| > 1 {
          assert parts[1..] == rest[1..];
        }
      }
    }
  }

  lemma {:induction false} SplitPrefix(p: string, t: string)
    requires SEPARATOR !in p
    ensures Split(p + t) == [p + Split(t)[0]] + Split(t)[1..]
  {
    var st := Split(t);
    if p == "" {
      assert p + t == t && p + st[0] == st[0];
      assert st == [st[0]] + st[1..];
    } else {
      assert (p + t)[0] == p[0] && (p + t)[1..] == p[1..] + t;
      SplitPrefix(p[1..], t);
      var rest := Split(p[1..] + t);
      assert rest == [p[1..] + st[0]] + st[1..];
      assert [p[0]] + rest[0] == p + st[0];
      assert rest[1..] == st[1..];
    }
  }

  /** Segments free of separators are exactly what splitting their join
      gives back: Split and Join are inverse bijections. */
  lemma {:induction false} SplitJoin(parts: seq<string>)
    requires |parts| >= 1
    requires forall i :: 0 <= i < |parts| ==> SEPARATOR !in parts[i]
    ensures Split(Join(parts)) == parts
  {
    if |parts| == 1 {
      SplitPrefix(parts[0], "");
      assert parts[0] + "" == parts[0];
    } else {
      var t := Join(parts[1..]);
      SplitJoin(parts[1..]);
      assert parts[0] + [SEPARATOR] + t == parts[0] + ([SEPARATOR] + t);
      SplitPrefix(parts[0], [SEPARATOR] + t);
      assert ([SEPARATOR] + t)[1..] == t;
      assert parts[0] + "" == parts[0];
    }
  }

  /** A topic built from three separator-free segments splits into them. */
  lemma SplitThree(a: string, b: string, c: string)
    requires SEPARATOR !in a && SEPARATOR !in b && SEPARATOR !in c
    ensures Split(a + "/" + b + "/" + c) == [a, b, c]
  {
    var parts := [a, b, c];
    assert Join(parts[2..]) == c;
    assert Join(parts[1..]) == b + "/" + c;
    assert Join(parts) == a + "/" + b + "/" + c;
    SplitJoin(parts);
  }

  /** A topic built from four separator-free segments splits into them. */
  lemma SplitFour(a: string, b: string, c: string, d: string)
    requires SEPARATOR !in a && SEPARATOR !in b && SEPARATOR !in c && SEPARATOR !in d
    ensures Split(a + "/" + b + "/" + c + "/" + d) == [a, b, c, d]
  {
    var parts := [a, b, c, d];
    assert Join(parts[3..]) == d;
    assert Join(parts[2..]) == c + "/" + d;
    assert Join(parts[1..]) == b + "/" + c + "/" + d;
    assert Join(parts) == a + "/" + b + "/" + c + "/" + d;
    SplitJoin(parts);
  }

  // ---------------------------------------------------------------------
  // strings.Replace(s, "0x", "", -1)
  // ---------------------------------------------------------------------

  /** Removes every non-overlapping "0x", scanning from the left. */
  function StripHexPrefixes(s: string): (r: string)
    ensures |r| <= |s|
    ensures forall i :: 0 <= i < |r| ==> r[i] in s
  {
    if |s| >= 2 && s[0] == '0' && s[1] == 'x' then StripHexPrefixes(s[2..])
    else if s == "" then ""
    else
      var tail := StripHexPrefixes(s[1..]);
      assert forall i :: 0 <= i < |tail| ==> tail[i] in s by {
        forall i | 0 <= i < |tail| ensures tail[i] in s {
          assert tail[i] in s[1..];
        }
      }
      [s[0]] + tail
  }

  /** A string without an 'x' has nothing to remove. */
  lemma {:induction false} StripWithoutX(s: string)
    requires 'x' !in s
    ensures StripHexPrefixes(s) == s
  {
    if s != "" {
      assert s[1..] == s[1..];
      assert 'x' !in s[1..] by {
        forall i | 0 <= i < |s[1..]| ensures s[1..][i] != 'x' {
          assert s[1..][i] == s[i + 1];
        }
      }
      StripWithoutX(s[1..]);
    }
  }

  /** The marker written by the outbound topic is removed again. */
  lemma StripLeadingMarker(t: string)
    requires 'x' !in t
    ensures StripHexPrefixes("0x" + t) == t
  {
    assert ("0x" + t)[2..] == t;
    StripWithoutX(t);
  }

  /** A single replacement pass can leave a "0x" behind. */
  lemma StripIsNotIdempotent()
    ensures StripHexPrefixes("00xx") == "0x"
    ensures StripHexPrefixes("0x") == ""
  {
    assert "00xx"[1..] == "0xx";
    assert "0xx"[2..] == "x";
    assert "x"[1..] == "";
    assert "0x"[2..] == "";
  }

  // ---------------------------------------------------------------------
  // Digits
  // ---------------------------------------------------------------------

  /** The characters strconv accepts as digits of base 16. */
  predicate IsHexDigit(c: char)
  {
    ('0' <= c <= '9') || ('a' <= c <= 'f') || ('A' <= c <= 'F')
  }

  function DigitValue(c: char): (d: nat)
    requires IsHexDigit(c)
    ensures d < 16
  {
    if '0' <= c <= '9' then c as int - '0' as int
    else if 'a' <= c <= 'f' then c as int - 'a' as int + 10
    else c as int - 'A' as int + 10
  }

  /** The lowercase digit fmt writes for d. */
  function DigitChar(d: nat): (c: char)
    requires d < 16
    ensures IsHexDigit(c) && DigitValue(c) == d
  {
    if d < 10 then ('0' as int + d) as char else ('a' as int + d - 10) as char
  }

  predicate IsLowerDigit(c: char, base: nat)
  {
    (('0' <= c <= '9') || ('a' <= c <= 'f')) && DigitValue(c) < base
  }

  lemma DigitCharOfValue(c: char, base: nat)
    requires IsLowerDigit(c, base)
    ensures DigitChar(DigitValue(c)) == c
  {
  }

  predicate AllDigits(s: string, base: nat)
  {
    forall i :: 0 <= i < |s| ==> IsHexDigit(s[i]) && DigitValue(s[i]) < base
  }

  predicate AllHex(s: string)
  {
    AllDigits(s, 16)
  }

  /** Horner evaluation of the digits of s in the given base, on top of n. */
  function Fold(s: string, base: nat, n: nat): nat
    requires AllDigits(s, base)
  {
    if s == "" then n else Fold(s[1..], base, base * n + DigitValue(s[0]))
  }

  /** The value of a hex string, without any width limit. */
  function HexValue(s: string): nat
    requires AllHex(s)
  {
    Fold(s, 16, 0)
  }

  lemma {:induction false} FoldAtLeast(s: string, base: nat, n: nat)
    requires base >= 1 && AllDigits(s, base)
    ensures Fold(s, base, n) >= n
    ensures s != "" ==> Fold(s, base, n) >= base * n + DigitValue(s[0])
  {
    if s != "" {
      var m := base * n + DigitValue(s[0]);
      MulAtLeastZero(base, n);
      FoldAtLeast(s[1..], base, m);
    }
  }

  lemma MulAtLeastZero(base: nat, n: nat)
    requires base >= 1
    ensures base * n >= n
  {
    if n > 0 {
      MulAtLeast(n, base);
    }
  }

  lemma DigitsAppend(s: string, t: string, base: nat)
    requires AllDigits(s, base) && AllDigits(t, base)
    ensures AllDigits(s + t, base)
  {
    forall i | 0 <= i < |s + t|
      ensures IsHexDigit((s + t)[i]) && DigitValue((s + t)[i]) < base
    {
      if i < |s| { assert (s + t)[i] == s[i]; } else { assert (s + t)[i] == t[i - |s|]; }
    }
  }

  /** Folding a concatenation folds the second part on top of the first. */
  lemma {:induction false} FoldAppend(s: string, t: string, base: nat, n: nat)
    requires AllDigits(s, base) && AllDigits(t, base)
    ensures AllDigits(s + t, base)
    ensures Fold(s + t, base, n) == Fold(t, base, Fold(s, base, n))
  {
    DigitsAppend(s, t, base);
    if s == "" {
      assert s + t == t;
    } else {
      var m := base * n + DigitValue(s[0]);
      assert (s + t)[1..] == s[1..] + t && (s + t)[0] == s[0];
      FoldAppend(s[1..], t, base, m);
    }
  }

  /** Appending a digit multiplies by the base and adds the digit. */
  lemma FoldSnoc(s: string, c: char, base: nat, n: nat)
    requires AllDigits(s, base) && IsHexDigit(c) && DigitValue(c) < base
    ensures AllDigits(s + [c], base)
    ensures Fold(s + [c], base, n) == base * Fold(s, base, n) + DigitValue(c)
  {
    assert AllDigits([c], base);
    FoldAppend(s, [c], base, n);
    assert [c][1..] == "";
  }

  // ---------------------------------------------------------------------
  // strconv.ParseUint(s, 16, 64)
  // ---------------------------------------------------------------------

  datatype NumError = ErrSyntax | ErrRange

  /** The smallest n with n * 16 > 2^64 - 1. */
  const CUTOFF: nat := 0x1000_0000_0000_0000

  /** The digit loop: a non-digit stops with (0, syntax error), a value that
      would overflow when shifted stops with (2^64 - 1, range error). */
  function ParseFrom(s: string, n: U64): (U64, Option<NumError>)
  {
    if s == "" then (n, None)
    else if !IsHexDigit(s[0]) then (0, Some(ErrSyntax))
    else if n >= CUTOFF then (MAX_U64, Some(ErrRange))
    else ParseFrom(s[1..], 16 * n + DigitValue(s[0]))
  }

  function ParseHex64(s: string): (U64, Option<NumError>)
  {
    if s == "" then (0, Some(ErrSyntax)) else ParseFrom(s, 0)
  }

  lemma {:induction false} ParseFromAllHex(s: string, n: U64)
    requires AllHex(s)
    ensures ParseFrom(s, n) ==
      if Fold(s, 16, n) < 0x1_0000_0000_0000_0000 then (Fold(s, 16, n), None)
      else (MAX_U64, Some(ErrRange))
  {
    if s != "" {
      FoldAtLeast(s, 16, n);
      if n < CUTOFF {
        ParseFromAllHex(s[1..], 16 * n + DigitValue(s[0]));
      }
    }
  }

  lemma {:induction false} ParseFromBadDigit(p: string, c: char, t: string, n: U64)
    requires AllHex(p) && !IsHexDigit(c)
    ensures ParseFrom(p + [c] + t, n) ==
      if Fold(p, 16, n) < 0x1_0000_0000_0000_0000 then (0, Some(ErrSyntax))
      else (MAX_U64, Some(ErrRange))
  {
    if p != "" {
      FoldAtLeast(p, 16, n);
      assert (p + [c] + t)[1..] == p[1..] + [c] + t;
      if n < CUTOFF {
        ParseFromBadDigit(p[1..], c, t, 16 * n + DigitValue(p[0]));
      }
    } else {
      assert (p + [c] + t)[0] == c;
    }
  }

  /** A non-empty hex string parses to its value, or to 2^64 - 1 with a
      range error when the value does not fit. */
  lemma ParseAllHex(s: string)
    requires s != "" && AllHex(s)
    ensures ParseHex64(s) ==
      if HexValue(s) < 0x1_0000_0000_0000_0000 then (HexValue(s), None)
      else (MAX_U64, Some(ErrRange))
  {
    ParseFromAllHex(s, 0);
  }

  /** At the first non-digit the parse stops with a syntax error and 0,
      unless the digits before it have already overflowed. */
  lemma ParseBadDigit(p: string, c: char, t: string)
    requires AllHex(p) && !IsHexDigit(c)
    ensures ParseHex64(p + [c] + t) ==
      if HexValue(p) < 0x1_0000_0000_0000_0000 then (0, Some(ErrSyntax))
      else (MAX_U64, Some(ErrRange))
  {
    ParseFromBadDigit(p, c, t, 0);
  }

  /** The parse succeeds exactly on non-empty hex strings whose value fits. */
  lemma ParseSucceedsIff(s: string)
    ensures ParseHex64(s).1 == None <==>
      s != "" && AllHex(s) && HexValue(s) < 0x1_0000_0000_0000_0000
  {
    if s != "" {
      if AllHex(s) {
        ParseAllHex(s);
      } else {
        var i :| 0 <= i < |s| && !IsHexDigit(s[i]);
        var j := FirstNonDigit(s, i);
        assert s == s[..j] + [s[j]] + s[j + 1..];
        ParseBadDigit(s[..j], s[j], s[j + 1..]);
      }
    }
  }

  /** The position of the first non-digit at or before i. */
  function FirstNonDigit(s: string, i: nat): (j: nat)
    requires i < |s| && !IsHexDigit(s[i])
    ensures j <= i && !IsHexDigit(s[j]) && AllHex(s[..j])
  {
    if AllHex(s[..i]) then i
    else
      var k :| 0 <= k < i && !IsHexDigit(s[..i][k]);
      FirstNonDigit(s, k)
  }

  // ---------------------------------------------------------------------
  // fmt "%x" and "%v" of an unsigned integer
  // ---------------------------------------------------------------------

  lemma DivLess(x: nat, base: nat)
    requires base >= 2 && x >= base
    ensures 1 <= x / base < x
  {
    var q, r := x / base, x % base;
    assert x == base * q + r && r < base;
    assert base * q > 0;
    assert q >= 1;
    assert base * q >= 2 * q by {
      assert base * q == 2 * q + (base - 2) * q;
    }
  }

  /** Lowercase digits, most significant first, no padding. */
  function Format(x: nat, base: nat): (s: string)
    requires 2 <= base <= 16
    ensures s != "" && AllDigits(s, base)
    ensures forall i :: 0 <= i < |s| ==> IsLowerDigit(s[i], base)
    ensures (s[0] == '0') == (x == 0)
    decreases x
  {
    if x < base then [DigitChar(x)]
    else
      DivLess(x, base);
      Format(x / base, base) + [DigitChar(x % base)]
  }

  function FormatHex(x: nat): string
  {
    Format(x, 16)
  }

  function FormatDecimal(x: nat): string
  {
    Format(x, 10)
  }

  /** Reading back what Format wrote gives the number. */
  lemma {:induction false} FormatValue(x: nat, base: nat)
    requires 2 <= base <= 16
    ensures Fold(Format(x, base), base, 0) == x
    decreases x
  {
    if x >= base {
      var q, r := x / base, x % base;
      assert x == base * q + r;
      DivLess(x, base);
      FormatValue(q, base);
      var digits := Format(q, base);
      assert Format(x, base) == digits + [DigitChar(r)];
      FoldSnoc(digits, DigitChar(r), base, 0);
      assert Fold(digits, base, 0) == q;
    }
  }

  /** A lowercase digit string without leading zero is what Format writes
      for its value, so Format is a bijection onto such strings. */
  lemma {:induction false} FormatOfCanonical(s: string, base: nat)
    requires 2 <= base <= 16 && s != "" && AllDigits(s, base)
    requires forall i :: 0 <= i < |s| ==> IsLowerDigit(s[i], base)
    requires s[0] != '0' || |s| == 1
    ensures Format(Fold(s, base, 0), base) == s
    decreases |s|
  {
    var last := s[|s| - 1];
    var d := DigitValue(last);
    DigitCharOfValue(last, base);
    if |s| == 1 {
      assert s == [] + [last];
      FoldSnoc([], last, base, 0);
    } else {
      var front := s[..|s| - 1];
      assert s == front + [last];
      FoldSnoc(front, last, base, 0);
      var v := Fold(front, base, 0);
      FoldAtLeast(front, base, 0);
      assert front[0] == s[0];
      assert v >= 1 by {
        assert DigitValue(front[0]) >= 1;
      }
      assert Fold(s, base, 0) == base * v + d;
      MulAtLeast(base, v);
      ModUnique(base * v + d, base, v, d);
      FormatOfCanonical(front, base);
    }
  }

  /** Every uint64 formatted in hex parses back to itself. */
  lemma ParseFormatHex(x: U64)
    ensures ParseHex64(FormatHex(x)) == (x, None)
  {
    FormatValue(x, 16);
    ParseAllHex(FormatHex(x));
  }

  /** The hex digits fmt writes never contain the letter x. */
  lemma FormatHasNoX(x: nat, base: nat)
    requires 2 <= base <= 16
    ensures 'x' !in Format(x, base)
    ensures SEPARATOR !in Format(x, base)
  {
    var s := Format(x, base);
    forall i | 0 <= i < |s| ensures s[i] != 'x' && s[i] != SEPARATOR {
      assert IsLowerDigit(s[i], base);
    }
  }
}
