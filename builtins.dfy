/**
 * The few Python built-ins the plugins lean on, with Python's own semantics:
 * `str.split` on one character, `sep.join`, `str.split(sep)[0]`, the
 * substring test `needle in hay`, `str.isdigit`, the slice `s[:n]`, and
 * `str(n)` / `int(digits)` for decimal numbers.
 */
module Builtins {

  /** `sep.join(parts)`. */
  function Join(parts: seq<string>, sep: char): string
    decreases |parts|
  {
    if |parts| == 0 then ""
    else if |parts| == 1 then parts[0]
    else parts[0] + [sep] + Join(parts[1..], sep)
  }

  /** Number of occurrences of `c` in `s`. */
  function Count(s: string, c: char): nat
  {
    if |s| == 0 then 0 else (if s[0] == c then 1 else 0) + Count(s[1..], c)
  }

  /**
   * `s.split(sep)` for a one-character separator: never empty, one part more
   * than there are separators, no part holds the separator, and joining the
   * parts back gives `s`.
   */
  function Split(s: string, sep: char): (parts: seq<string>)
    ensures |parts| == Count(s, sep) + 1
    ensures forall i :: 0 <= i < |parts| ==> sep !in parts[i]
    ensures Join(parts, sep) == s
    decreases |s|
  {
    if |s| == 0 then [""]
    else
      var rest := Split(s[1..], sep);
      if s[0] == sep then
        assert s == [sep] + s[1..];
        [""] + rest
      else
        var parts := [[s[0]] + rest[0]] + rest[1..];
        assert parts[1..] == rest[1..];
        assert s == [s[0]] + s[1..];
        parts
  }

  /** Splitting a join gives the parts back when no part holds the separator. */
  lemma {:induction false} SplitJoin(parts: seq<string>, sep: char)
    requires |parts| >= 1
    requires forall i :: 0 <= i < |parts| ==> sep !in parts[i]
    ensures Split(Join(parts, sep), sep) == parts
    decreases |parts|, |parts[0]|
  {
    if |parts[0]| > 0 {
      var p0 := parts[0];
      var tail := [p0[1..]] + parts[1..];
      assert tail[0] == p0[1..] && tail[1..] == parts[1..];
      assert forall i :: 0 <= i < |tail| ==> sep !in tail[i] by {
        forall i | 0 <= i < |tail| ensures sep !in tail[i] {
          if i > 0 { assert tail[i] == parts[i]; }
        }
      }
      SplitJoin(tail, sep);
      JoinConsFirst(p0, parts[1..], sep);
      JoinConsFirst(p0[1..], parts[1..], sep);
      var s := Join(parts, sep);
      assert p0 == [p0[0]] + p0[1..];
      assert s == [p0[0]] + Join(tail, sep);
      assert s[1..] == Join(tail, sep);
      assert parts == [[p0[0]] + tail[0]] + tail[1..];
    } else if |parts| > 1 {
      assert Join(parts, sep) == [sep] + Join(parts[1..], sep);
      SplitJoin(parts[1..], sep);
      assert parts == [""] + parts[1..];
    }
  }

  /** Joining is a concatenation with the first part in front. */
  lemma JoinConsFirst(first: string, rest: seq<string>, sep: char)
    ensures Join([first] + rest, sep) == first + (if |rest| == 0 then "" else [sep] + Join(rest, sep))
  {
    assert ([first] + rest)[1..] == rest;
  }

  /** `s.split(sep)[0]`: the part of `s` in front of the first occurrence of `sep`. */
  function SplitFirst(s: string, sep: string): string
    requires |sep| > 0
    decreases |s|
  {
    if |s| == 0 || sep <= s then "" else [s[0]] + SplitFirst(s[1..], sep)
  }

  /**
   * `split(sep)[0]` is a prefix with no occurrence of `sep` starting inside
   * it, and it stops only at an occurrence.
   */
  lemma {:induction false} SplitFirstSpec(s: string, sep: string)
    requires |sep| > 0
    ensures SplitFirst(s, sep) <= s
    ensures forall i :: 0 <= i < |SplitFirst(s, sep)| ==> !(sep <= s[i..])
    ensures |SplitFirst(s, sep)| < |s| ==> sep <= s[|SplitFirst(s, sep)|..]
    decreases |s|
  {
    if |s| > 0 && !(sep <= s) {
      SplitFirstSpec(s[1..], sep);
      assert forall i :: 1 <= i <= |s| ==> s[i..] == s[1..][i - 1..];
    }
  }

  /** A separator that never occurs leaves `split(sep)[0]` equal to the whole string. */
  lemma SplitFirstAbsent(s: string, sep: string)
    requires |sep| > 0
    requires forall i :: 0 <= i < |s| ==> !(sep <= s[i..])
    ensures SplitFirst(s, sep) == s
  {
    SplitFirstSpec(s, sep);
  }

  /** With a first occurrence at `k`, `split(sep)[0]` is `s[..k]`. */
  lemma SplitFirstAt(s: string, sep: string, k: nat)
    requires |sep| > 0 && k < |s| && sep <= s[k..]
    requires forall i :: 0 <= i < k ==> !(sep <= s[i..])
    ensures SplitFirst(s, sep) == s[..k]
  {
    SplitFirstSpec(s, sep);
  }

  /** With no occurrence before `k`, at least `k` characters survive. */
  lemma SplitFirstKeeps(s: string, sep: string, k: nat)
    requires |sep| > 0 && k <= |s|
    requires forall i :: 0 <= i < k ==> !(sep <= s[i..])
    ensures k <= |SplitFirst(s, sep)| && SplitFirst(s, sep) <= s
  {
    SplitFirstSpec(s, sep);
  }

  /** `needle in hay` for two strings. */
  function Contains(hay: string, needle: string): (r: bool)
    ensures r <==> exists i :: 0 <= i <= |hay| && needle <= hay[i..]
    decreases |hay|
  {
    if needle <= hay then
      assert hay[0..] == hay;
      true
    else if |hay| == 0 then false
    else
      var r := Contains(hay[1..], needle);
      assert forall i :: 1 <= i <= |hay| ==> hay[i..] == hay[1..][i - 1..];
      r
  }

  predicate IsDigit(c: char) { '0' <= c <= '9' }

  /** `s.isdigit()`: non-empty and made of decimal digits only. */
  predicate IsDigits(s: string) { |s| > 0 && forall i :: 0 <= i < |s| ==> IsDigit(s[i]) }

  /** Python's slice `s[:n]`, where a negative `n` counts from the end. */
  function SliceTo<T>(s: seq<T>, n: int): (r: seq<T>)
    ensures r <= s
    ensures 0 <= n ==> |r| == if n <= |s| then n else |s|
    ensures n < 0 ==> |r| == if |s| + n >= 0 then |s| + n else 0
  {
    if n >= 0 then (if n <= |s| then s[..n] else s)
    else (if |s| + n >= 0 then s[..|s| + n] else [])
  }

  function DigitChar(d: nat): char
    requires d < 10
  {
    ('0' as int + d) as char
  }

  function DigitValue(c: char): (v: nat)
    requires IsDigit(c)
    ensures v < 10 && DigitChar(v) == c
  {
    (c as int - '0' as int) as nat
  }

  /** `str(n)` for a natural number. */
  function NatToStr(n: nat): (s: string)
    ensures IsDigits(s)
    decreases n
  {
    if n < 10 then [DigitChar(n)] else NatToStr(n / 10) + [DigitChar(n % 10)]
  }

  /** `str(n)` for any integer. */
  function IntToStr(n: int): string
  {
    if n < 0 then "-" + NatToStr(-n) else NatToStr(n)
  }

  /** `int(d)` for a string of decimal digits (leading zeros allowed). */
  function ParseDecimal(d: string): nat
    requires forall i :: 0 <= i < |d| ==> IsDigit(d[i])
    decreases |d|
  {
    if |d| == 0 then 0 else 10 * ParseDecimal(d[..|d| - 1]) + DigitValue(d[|d| - 1])
  }

  /** Concatenation regroups freely. */
  lemma AppendAssoc<T>(a: seq<T>, b: seq<T>, c: seq<T>)
    ensures a + b + c == a + (b + c)
  {
  }

  /** Reading back what `str` printed gives the number again. */
  lemma {:induction false} ParseNatToStr(n: nat)
    ensures ParseDecimal(NatToStr(n)) == n
    decreases n
  {
    if n >= 10 {
      var s := NatToStr(n);
      assert s[..|s| - 1] == NatToStr(n / 10);
      ParseNatToStr(n / 10);
    }
  }
}
