/** String helpers the graph builder relies on: JavaScript's decimal and
    hexadecimal rendering of numbers, binary literals, and `split`/`join`
    on one separator character. */
module Text {

  /** `true` when every character of `s` is '0' or '1'. */
  predicate IsBinary(s: string)
  {
    forall k | 0 <= k < |s| :: s[k] == '0' || s[k] == '1'
  }

  /** The value of a binary digit string, most significant digit first. */
  function BinValue(s: string): nat
    requires IsBinary(s)
  {
    if s == [] then 0 else 2 * BinValue(s[..|s| - 1]) + (if s[|s| - 1] == '1' then 1 else 0)
  }

  function HexDigit(d: nat): char
    requires d < 16
  {
    "0123456789abcdef"[d]
  }

  predicate IsHexDigit(c: char)
  {
    '0' <= c <= '9' || 'a' <= c <= 'f'
  }

  function HexDigitValue(c: char): nat
    requires IsHexDigit(c)
  {
    if '0' <= c <= '9' then (c - '0') as nat else (c - 'a') as nat + 10
  }

  lemma HexDigitRoundTrip(d: nat)
    requires d < 16
    ensures IsHexDigit(HexDigit(d)) && HexDigitValue(HexDigit(d)) == d
  {
  }

  /** The shortest lower-case hexadecimal rendering of `n`, as JavaScript's
      `toString(16)` produces it ("0" for zero). */
  function NatToHex(n: nat): string
  {
    if n < 16 then [HexDigit(n)] else NatToHex(n / 16) + [HexDigit(n % 16)]
  }

  /** The rendering is non-empty, made of hexadecimal digits, and has no
      leading zero unless it is the single digit "0". */
  lemma {:induction false} NatToHexShape(n: nat)
    ensures var r := NatToHex(n);
      && |r| >= 1
      && (forall k | 0 <= k < |r| :: IsHexDigit(r[k]))
      && (|r| > 1 ==> r[0] != '0')
  {
    HexDigitRoundTrip(n % 16);
    if n >= 16 {
      NatToHexShape(n / 16);
    }
  }

  function HexValue(s: string): nat
    requires forall k | 0 <= k < |s| :: IsHexDigit(s[k])
  {
    if s == [] then 0 else 16 * HexValue(s[..|s| - 1]) + HexDigitValue(s[|s| - 1])
  }

  /** Reading back the hexadecimal rendering gives the number again. */
  lemma {:induction false} HexRoundTrip(n: nat)
    ensures var r := NatToHex(n); (forall k | 0 <= k < |r| :: IsHexDigit(r[k])) && HexValue(r) == n
  {
    var r := NatToHex(n);
    NatToHexShape(n);
    HexDigitRoundTrip(n % 16);
    if n >= 16 {
      NatToHexShape(n / 16);
      HexRoundTrip(n / 16);
      assert r[..|r| - 1] == NatToHex(n / 16);
    }
  }

  function DecimalDigit(d: nat): char
    requires d < 10
  {
    "0123456789"[d]
  }

  predicate IsDecimal(s: string)
  {
    forall k | 0 <= k < |s| :: '0' <= s[k] <= '9'
  }

  function DecimalValue(s: string): nat
    requires IsDecimal(s)
  {
    if s == [] then 0 else 10 * DecimalValue(s[..|s| - 1]) + (s[|s| - 1] - '0') as nat
  }

  /** JavaScript's rendering of a non-negative integer. */
  function NatToDecimal(n: nat): (r: string)
    ensures |r| >= 1
    ensures |r| > 1 ==> r[0] != '0'
  {
    if n < 10 then [DecimalDigit(n)] else NatToDecimal(n / 10) + [DecimalDigit(n % 10)]
  }

  /** The rendering is all digits and reads back as the number. */
  lemma {:induction false} DecimalRoundTrip(n: nat)
    ensures IsDecimal(NatToDecimal(n)) && DecimalValue(NatToDecimal(n)) == n
  {
    var r := NatToDecimal(n);
    if n < 10 {
      assert r == [DecimalDigit(n)];
    } else {
      var h := NatToDecimal(n / 10);
      DecimalRoundTrip(n / 10);
      assert r == h + [DecimalDigit(n % 10)];
      assert r[..|r| - 1] == h;
      forall k | 0 <= k < |r| ensures '0' <= r[k] <= '9' {
        if k < |h| {
          assert r[k] == h[k];
        }
      }
    }
  }

  /** JavaScript's rendering of an integer inside a template literal. */
  function IntToDecimal(i: int): (r: string)
    ensures |r| >= 1
  {
    if i < 0 then "-" + NatToDecimal(-i) else NatToDecimal(i)
  }

  /** The rendering of an integer is its digits, after a minus sign when
      it is negative. */
  lemma IntToDecimalDigits(i: int)
    ensures i >= 0 ==> IsDecimal(IntToDecimal(i)) && DecimalValue(IntToDecimal(i)) == i
    ensures i < 0 ==> var r := IntToDecimal(i);
              |r| >= 2 && r[0] == '-' && IsDecimal(r[1..]) && DecimalValue(r[1..]) == -i
  {
    if i < 0 {
      DecimalRoundTrip(-i);
      assert IntToDecimal(i)[1..] == NatToDecimal(-i);
    } else {
      DecimalRoundTrip(i);
    }
  }

  /** JavaScript's `s.split(sep)` for a one-character separator: the pieces
      between separators, empty pieces included; never an empty list. */
  function Split(s: string, sep: char): (r: seq<string>)
    ensures |r| >= 1
    ensures forall k | 0 <= k < |r| :: sep !in r[k]
  {
    if s == [] then [""]
    else
      var rest := Split(s[1..], sep);
      if s[0] == sep then [""] + rest else [[s[0]] + rest[0]] + rest[1..]
  }

  /** JavaScript's `parts.join(sep)`. */
  function Join(parts: seq<string>, sep: char): string
  {
    if parts == [] then ""
    else if |parts| == 1 then parts[0]
    else parts[0] + [sep] + Join(parts[1..], sep)
  }

  /** Splitting and joining again with the same separator gives the string back. */
  lemma {:induction false} JoinSplit(s: string, sep: char)
    ensures Join(Split(s, sep), sep) == s
  {
    if s != [] {
      var rest := Split(s[1..], sep);
      JoinSplit(s[1..], sep);
      if s[0] == sep {
        assert Split(s, sep) == [""] + rest;
      } else {
        var r := Split(s, sep);
        assert r == [[s[0]] + rest[0]] + rest[1..];
        if |rest| == 1 {
          assert Join(r, sep) == [s[0]] + rest[0];
        } else {
          assert r[1..] == rest[1..];
          assert Join(rest, sep) == rest[0] + [sep] + Join(rest[1..], sep);
        }
      }
    }
  }

  /** A string without the separator splits into itself alone. */
  lemma {:induction false} SplitWithoutSeparator(s: string, sep: char)
    requires sep !in s
    ensures Split(s, sep) == [s]
  {
    if s != [] {
      assert sep !in s[1..] by {
        forall k | 0 <= k < |s[1..]| ensures s[1..][k] != sep { assert s[1..][k] == s[k + 1]; }
      }
      SplitWithoutSeparator(s[1..], sep);
      assert s[0] != sep;
      assert [s[0]] + s[1..] == s;
    }
  }

  /** A string splits into a single piece exactly when it holds no separator. */
  lemma SplitSingle(s: string, sep: char)
    ensures |Split(s, sep)| == 1 <==> sep !in s
  {
    if sep !in s {
      SplitWithoutSeparator(s, sep);
    } else {
      JoinSplit(s, sep);
    }
  }

  /** The concatenation of a list of strings. */
  function Concat(parts: seq<string>): string
  {
    if parts == [] then "" else parts[0] + Concat(parts[1..])
  }

  function Reverse<T>(s: seq<T>): (r: seq<T>)
    ensures |r| == |s|
    ensures forall k | 0 <= k < |s| :: r[k] == s[|s| - 1 - k]
  {
    if s == [] then [] else Reverse(s[1..]) + [s[0]]
  }

  predicate StartsWith(s: string, prefix: string)
  {
    |prefix| <= |s| && s[..|prefix|] == prefix
  }

  predicate EndsWith(s: string, suffix: string)
  {
    |suffix| <= |s| && s[|s| - |suffix|..] == suffix
  }
}
