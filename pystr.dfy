/**
 * The Python `str` built-ins the ingestion code leans on: `isspace`, `strip`,
 * `split()`, `sep.join(...)` and `str(n)` for a natural number.
 */
module PyStr {

  /** The characters for which Python's `str.isspace()` holds; these are also
      what `str.split()`, `str.strip()` and the regular-expression class `\s`
      treat as whitespace. */
  predicate IsSpace(c: char) {
    c == ' ' || ('\t' <= c <= '\r') || ('\U{1C}' <= c <= '\U{1F}') ||
    c == '\U{85}' || c == '\U{A0}' || c == '\U{1680}' || ('\U{2000}' <= c <= '\U{200A}') ||
    c == '\U{2028}' || c == '\U{2029}' || c == '\U{202F}' || c == '\U{205F}' || c == '\U{3000}'
  }

  /** Number of leading characters of `s` that satisfy `drop`. */
  function LeftCut(s: string, drop: char -> bool): (i: nat)
    ensures i <= |s|
    ensures forall k :: 0 <= k < i ==> drop(s[k])
    ensures i == |s| || !drop(s[i])
  {
    if s == [] || !drop(s[0]) then 0 else 1 + LeftCut(s[1..], drop)
  }

  /** Length of `s` once its trailing characters that satisfy `drop` are cut. */
  function RightCut(s: string, drop: char -> bool): (j: nat)
    ensures j <= |s|
    ensures forall k :: j <= k < |s| ==> drop(s[k])
    ensures j == 0 || !drop(s[j - 1])
  {
    if s == [] || !drop(s[|s| - 1]) then |s| else RightCut(s[..|s| - 1], drop)
  }

  /** Python's `s.lstrip(chars)`, with the characters given by a predicate. */
  function TrimLeft(s: string, drop: char -> bool): string {
    s[LeftCut(s, drop)..]
  }

  /** Python's `s.strip(chars)`: cut the longest prefix and the longest suffix
      of characters that satisfy `drop`. */
  function StripBy(s: string, drop: char -> bool): (r: string)
    ensures r == [] || (!drop(r[0]) && !drop(r[|r| - 1]))
  {
    var t := s[..RightCut(s, drop)];
    t[LeftCut(t, drop)..]
  }

  /** What `StripBy` removes is exactly a prefix `s[..i]` and a suffix
      `s[j..]` of dropped characters around the slice it keeps. */
  lemma {:induction false} StripBySlice(s: string, drop: char -> bool) returns (i: nat, j: nat)
    ensures 0 <= i <= j <= |s| && StripBy(s, drop) == s[i..j]
    ensures forall k :: 0 <= k < i ==> drop(s[k])
    ensures forall k :: j <= k < |s| ==> drop(s[k])
  {
    j := RightCut(s, drop);
    var t := s[..j];
    i := LeftCut(t, drop);
    assert StripBy(s, drop) == s[i..j];
    assert forall k :: 0 <= k < i ==> drop(s[k]) by {
      forall k | 0 <= k < i ensures drop(s[k]) { assert s[k] == t[k]; }
    }
  }

  /** `StripBy` keeps exactly the middle part `m` of `a + m + b` when `a` and
      `b` consist of dropped characters and `m` neither starts nor ends with
      one. */
  lemma {:induction false} StripByIs(s: string, drop: char -> bool, a: string, m: string, b: string)
    requires s == a + m + b
    requires forall k :: 0 <= k < |a| ==> drop(a[k])
    requires forall k :: 0 <= k < |b| ==> drop(b[k])
    requires m == [] || (!drop(m[0]) && !drop(m[|m| - 1]))
    ensures StripBy(s, drop) == m
  {
    var j := RightCut(s, drop);
    if m == [] {
      assert forall k :: 0 <= k < |s| ==> drop(s[k]) by {
        forall k | 0 <= k < |s| ensures drop(s[k]) {
          if k < |a| { assert s[k] == a[k]; } else { assert s[k] == b[k - |a|]; }
        }
      }
      assert j == 0;
    } else {
      var e := |a| + |m|;
      assert s[e - 1] == m[|m| - 1];
      assert forall k :: e <= k < |s| ==> s[k] == b[k - e];
      assert j == e;
      var t := s[..j];
      assert t == a + m;
      var i := LeftCut(t, drop);
      assert forall k :: 0 <= k < |a| ==> t[k] == a[k];
      assert t[|a|] == m[0];
      assert i == |a|;
      assert t[i..] == m;
    }
  }

  /** Python's `s.strip()`. */
  function Strip(s: string): (t: string)
    ensures |t| <= |s|
    ensures t != [] ==> !IsSpace(t[0]) && !IsSpace(t[|t| - 1])
  {
    StripBy(s, IsSpace)
  }

  /** A word as `str.split()` yields it: non-empty and free of whitespace. */
  predicate IsWord(w: string) {
    w != [] && forall k :: 0 <= k < |w| ==> !IsSpace(w[k])
  }

  /** Length of the leading run of non-whitespace characters. */
  function WordEnd(s: string): (n: nat)
    ensures n <= |s|
    ensures forall k :: 0 <= k < n ==> !IsSpace(s[k])
    ensures n == |s| || IsSpace(s[n])
  {
    if s == [] || IsSpace(s[0]) then 0 else 1 + WordEnd(s[1..])
  }

  /** Python's `s.split()` with no argument: the maximal runs of
      non-whitespace characters, in order. */
  function Words(s: string): (ws: seq<string>)
    ensures forall i :: 0 <= i < |ws| ==> IsWord(ws[i])
    decreases |s|
  {
    if s == [] then []
    else if IsSpace(s[0]) then Words(s[1..])
    else
      var n := WordEnd(s);
      [s[..n]] + Words(s[n..])
  }

  /** Python's `sep.join(parts)`. */
  function Join(parts: seq<string>, sep: string): string {
    if |parts| == 0 then ""
    else if |parts| == 1 then parts[0]
    else parts[0] + sep + Join(parts[1..], sep)
  }

  /** Joining one more part adds the separator and the part at the end. */
  lemma {:induction false} JoinAppend(parts: seq<string>, p: string, sep: string)
    requires parts != []
    ensures Join(parts + [p], sep) == Join(parts, sep) + sep + p
    decreases |parts|
  {
    if |parts| == 1 {
      assert (parts + [p])[1..] == [p];
    } else {
      assert (parts + [p])[1..] == parts[1..] + [p];
      JoinAppend(parts[1..], p, sep);
    }
  }

  /** A word followed by whitespace (or by nothing) is what `Words` takes first. */
  lemma {:induction false} WordsOfWordThen(w: string, rest: string)
    requires IsWord(w)
    requires rest == [] || IsSpace(rest[0])
    ensures Words(w + rest) == [w] + Words(rest)
  {
    var s := w + rest;
    var n := WordEnd(s);
    assert forall k :: 0 <= k < |w| ==> s[k] == w[k] && !IsSpace(s[k]);
    assert |w| < |s| ==> s[|w|] == rest[0];
    assert n == |w|;
    assert s[..n] == w;
    assert s[n..] == rest;
  }

  /** `split()` undoes `" ".join(...)` of words: the round trip of a chunk. */
  lemma {:induction false} WordsOfJoin(ws: seq<string>)
    requires forall i :: 0 <= i < |ws| ==> IsWord(ws[i])
    ensures Words(Join(ws, " ")) == ws
  {
    if |ws| == 1 {
      WordsOfWordThen(ws[0], "");
      assert ws[0] + "" == ws[0];
    } else if |ws| > 1 {
      var rest := Join(ws[1..], " ");
      assert Join(ws, " ") == ws[0] + (" " + rest);
      WordsOfWordThen(ws[0], " " + rest);
      assert (" " + rest)[1..] == rest;
      WordsOfJoin(ws[1..]);
      assert ws == [ws[0]] + ws[1..];
    }
  }

  /** The decimal digit for `d`. */
  function Digit(d: nat): char
    requires d < 10
  {
    "0123456789"[d]
  }

  predicate IsDigit(c: char) {
    '0' <= c <= '9'
  }

  /** The number a decimal digit stands for. */
  function DigitValue(c: char): (d: nat)
    requires IsDigit(c)
    ensures d < 10 && Digit(d) == c
  {
    if c == '0' then 0 else if c == '1' then 1 else if c == '2' then 2
    else if c == '3' then 3 else if c == '4' then 4 else if c == '5' then 5
    else if c == '6' then 6 else if c == '7' then 7 else if c == '8' then 8 else 9
  }

  /** Python's `str(n)` for a natural number: decimal, no leading zeros. */
  function NatToStr(n: nat): (s: string)
    ensures s != [] && forall k :: 0 <= k < |s| ==> IsDigit(s[k])
    ensures s[0] == '0' ==> n == 0
  {
    if n < 10 then [Digit(n)] else NatToStr(n / 10) + [Digit(n % 10)]
  }

  /** Reading a string of decimal digits back as a number (Python's `int(s)`). */
  function ParseNat(s: string): nat
    requires forall k :: 0 <= k < |s| ==> IsDigit(s[k])
  {
    if s == [] then 0 else 10 * ParseNat(s[..|s| - 1]) + DigitValue(s[|s| - 1])
  }

  /** `str(n)` is invertible: the number written into a prompt can be read back. */
  lemma {:induction false} ParseNatToStr(n: nat)
    ensures ParseNat(NatToStr(n)) == n
  {
    var s := NatToStr(n);
    if n >= 10 {
      ParseNatToStr(n / 10);
      assert s[..|s| - 1] == NatToStr(n / 10);
    }
  }
}
