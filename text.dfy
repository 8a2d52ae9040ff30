/**
 * String primitives with the meaning the JavaScript built-ins give them:
 * the `\s` class and `String.prototype.trim`, the `/i` flag on ASCII
 * pattern text, `startsWith`, `indexOf`, `split`/`join`, `substring` and
 * the decimal rendering of a non-negative integer.
 */
module Text {
  import opened Wrappers

  /** The characters matched by `\s` and stripped by `trim` (WhiteSpace and LineTerminator). */
  predicate IsSpace(c: char) {
    || c == '\t' || c == '\n' || c == '\U{000B}' || c == '\U{000C}' || c == '\r' || c == ' '
    || c == '\U{00A0}' || c == '\U{1680}' || ('\U{2000}' <= c <= '\U{200A}')
    || c == '\U{2028}' || c == '\U{2029}' || c == '\U{202F}' || c == '\U{205F}'
    || c == '\U{3000}' || c == '\U{FEFF}'
  }

  /** `\d` */
  predicate IsDigit(c: char) {
    '0' <= c <= '9'
  }

  /**
   * ASCII case folding. Under a non-Unicode `/i` regular expression, a
   * pattern character that is ASCII matches exactly the input characters
   * with the same fold, so this is the whole of `/i` for the ASCII patterns
   * used here.
   */
  function Lower(c: char): (r: char)
    ensures 'A' <= c <= 'Z' ==> 'a' <= r <= 'z'
    ensures !('A' <= c <= 'Z') ==> r == c
  {
    if 'A' <= c <= 'Z' then (c as int + 32) as char else c
  }

  predicate StartsWith(s: string, p: string) {
    |p| <= |s| && s[..|p|] == p
  }

  /** `s` begins with `p` when case is ignored. */
  predicate StartsWithCi(s: string, p: string) {
    |p| <= |s| && forall k :: 0 <= k < |p| ==> Lower(s[k]) == Lower(p[k])
  }

  /** `s.includes(w)` */
  predicate Contains(s: string, w: string)
    decreases |s|
  {
    StartsWith(s, w) || (s != [] && Contains(s[1..], w))
  }

  /** `w` occurs in `s` when case is ignored. */
  predicate ContainsCi(s: string, w: string)
    decreases |s|
  {
    StartsWithCi(s, w) || (s != [] && ContainsCi(s[1..], w))
  }

  /** `s.indexOf(c)`, with -1 rendered as None. */
  function IndexOf(s: string, c: char): (r: Option<nat>)
    ensures r.None? <==> c !in s
    ensures r.Some? ==> r.value < |s| && s[r.value] == c && c !in s[..r.value]
  {
    if s == [] then None
    else if s[0] == c then Some(0)
    else match IndexOf(s[1..], c)
      case None => None
      case Some(i) =>
        assert s[1..][..i] == s[1..i + 1];
        Some(i + 1)
  }

  /** The first occurrence is the one `indexOf` reports. */
  lemma IndexOfFirst(s: string, c: char, j: nat)
    requires j < |s| && s[j] == c && c !in s[..j]
    ensures IndexOf(s, c) == Some(j)
  {
  }

  /** `s.substring(0, n)` */
  function Take(s: string, n: nat): (r: string)
    ensures |r| == if n < |s| then n else |s|
    ensures StartsWith(s, r)
  {
    if n < |s| then s[..n] else s
  }

  function TrimStart(s: string): (r: string)
    ensures r == [] || !IsSpace(r[0])
    ensures |r| <= |s| && r == s[|s| - |r|..]
    ensures forall i :: 0 <= i < |s| - |r| ==> IsSpace(s[i])
    decreases |s|
  {
    if s != [] && IsSpace(s[0]) then TrimStart(s[1..]) else s
  }

  function TrimEnd(s: string): (r: string)
    ensures r == [] || !IsSpace(r[|r| - 1])
    ensures |r| <= |s| && r == s[..|r|]
    ensures forall i :: |r| <= i < |s| ==> IsSpace(s[i])
    decreases |s|
  {
    if s != [] && IsSpace(s[|s| - 1]) then TrimEnd(s[..|s| - 1]) else s
  }

  /** `s.trim()` */
  function Trim(s: string): (r: string)
    ensures r == [] || (!IsSpace(r[0]) && !IsSpace(r[|r| - 1]))
  {
    var t := TrimStart(s);
    var r := TrimEnd(t);
    assert r != [] ==> r[0] == t[0];
    r
  }

  /** Trimming a string of white space only gives the empty string. */
  lemma {:induction false} TrimAllSpace(s: string)
    requires forall i :: 0 <= i < |s| ==> IsSpace(s[i])
    ensures Trim(s) == []
  {
    if s != [] {
      TrimAllSpace(s[1..]);
      assert TrimStart(s) == TrimStart(s[1..]);
    }
  }

  /** A string of white space only, the strings `trim` empties. */
  predicate IsBlank(s: string) {
    forall i :: 0 <= i < |s| ==> IsSpace(s[i])
  }

  /** `s.trim()` is empty exactly when `s` is blank. */
  lemma TrimEmptyIff(s: string)
    ensures Trim(s) == [] <==> IsBlank(s)
  {
    if IsBlank(s) {
      TrimAllSpace(s);
    }
    if Trim(s) == [] {
      var t := TrimStart(s);
      assert TrimEnd(t) == [];
      assert t == [];
    }
  }

  /** A character missing from a string is missing from its trimmed form. */
  lemma TrimKeepsOut(s: string, c: char)
    requires c !in s
    ensures c !in Trim(s)
  {
    var t := TrimStart(s);
    assert forall i :: 0 <= i < |t| ==> t[i] == s[|s| - |t| + i];
    var r := TrimEnd(t);
    assert forall i :: 0 <= i < |r| ==> r[i] == t[i];
  }

  /** Leading white space before a string that does not start with white space is all that trimming the start removes. */
  lemma {:induction false} TrimStartPad(pad: string, x: string)
    requires forall i :: 0 <= i < |pad| ==> IsSpace(pad[i])
    requires x == [] || !IsSpace(x[0])
    ensures TrimStart(pad + x) == x
    decreases |pad|
  {
    if pad != [] {
      assert (pad + x)[1..] == pad[1..] + x;
      TrimStartPad(pad[1..], x);
    } else {
      assert pad + x == x;
    }
  }

  /** `s.split(sep)`: every piece is free of `sep`, and there is always at least one piece. */
  function Split(s: string, sep: char): (r: seq<string>)
    ensures |r| >= 1
    ensures forall i :: 0 <= i < |r| ==> sep !in r[i]
    decreases |s|
  {
    match IndexOf(s, sep)
    case None => [s]
    case Some(i) => [s[..i]] + Split(s[i + 1..], sep)
  }

  /** `parts.join(sep)` */
  function Join(parts: seq<string>, sep: string): string {
    if parts == [] then []
    else if |parts| == 1 then parts[0]
    else parts[0] + sep + Join(parts[1..], sep)
  }

  /** Splitting text joined with a separator that none of the parts holds gives back the parts. */
  lemma {:induction false} SplitJoin(parts: seq<string>, sep: char)
    requires |parts| >= 1
    requires forall k :: 0 <= k < |parts| ==> sep !in parts[k]
    ensures Split(Join(parts, [sep]), sep) == parts
    decreases |parts|
  {
    if |parts| == 1 {
      assert Join(parts, [sep]) == parts[0];
    } else {
      var head, rest := parts[0], Join(parts[1..], [sep]);
      var s := head + [sep] + rest;
      assert Join(parts, [sep]) == s;
      assert s[|head|] == sep && s[..|head|] == head;
      IndexOfFirst(s, sep, |head|);
      assert s[|head| + 1..] == rest;
      assert Split(s, sep) == [head] + Split(rest, sep);
      SplitJoin(parts[1..], sep);
      assert [head] + parts[1..] == parts;
    }
  }

  /** One decimal digit of a value below ten. */
  function DigitChar(d: nat): (c: char)
    requires d < 10
    ensures IsDigit(c) && c as int - '0' as int == d
  {
    ('0' as int + d) as char
  }

  /** `${n}` for a non-negative integer: decimal digits, no leading zeros. */
  function NatToString(n: nat): (r: string)
    ensures |r| >= 1 && forall i :: 0 <= i < |r| ==> IsDigit(r[i])
    ensures |r| > 1 ==> r[0] != '0'
    decreases n
  {
    if n < 10 then [DigitChar(n)] else NatToString(n / 10) + [DigitChar(n % 10)]
  }

  /** The value of a string of decimal digits, as `Number(s)` reads it. */
  function DecimalValue(s: string): nat
    requires forall i :: 0 <= i < |s| ==> IsDigit(s[i])
    decreases |s|
  {
    if s == [] then 0
    else
      var d := s[|s| - 1];
      assert IsDigit(d);
      DecimalValue(s[..|s| - 1]) * 10 + (d as int - '0' as int)
  }

  /** Reading back a rendered number gives the number. */
  lemma {:induction false} DecimalRoundTrip(n: nat)
    ensures DecimalValue(NatToString(n)) == n
    decreases n
  {
    if n >= 10 {
      var r := NatToString(n);
      assert r[..|r| - 1] == NatToString(n / 10);
      DecimalRoundTrip(n / 10);
    }
  }

  /** A word placed anywhere in a string is found in it. */
  lemma {:induction false} ContainsInside(a: string, w: string, b: string)
    ensures Contains(a + w + b, w)
    decreases |a|
  {
    if a == [] {
      assert (a + w + b)[..|w|] == w;
    } else {
      ContainsInside(a[1..], w, b);
      assert (a + w + b)[1..] == a[1..] + w + b;
    }
  }

  /** A word inside a part of a part of a string is found in the whole. */
  lemma ContainsWithin(s: string, a: string, mid: string, d: string, b: string, w: string, c: string)
    requires s == a + mid + d && mid == b + w + c
    ensures Contains(s, w)
  {
    ContainsInside(a + b, w, c + d);
    assert s == a + b + w + (c + d);
  }

  /** A word found in a string is found in it with text before it. */
  lemma {:induction false} ContainsPrefix(a: string, s: string, w: string)
    requires Contains(s, w)
    ensures Contains(a + s, w)
    decreases |a|
  {
    if a == [] {
      assert a + s == s;
    } else {
      ContainsPrefix(a[1..], s, w);
      assert (a + s)[1..] == a[1..] + s;
    }
  }

  /** A string that lacks one of a word's characters does not contain the word. */
  lemma {:induction false} MissingCharNotContained(s: string, w: string, k: nat)
    requires k < |w|
    requires w[k] !in s
    ensures !Contains(s, w)
    decreases |s|
  {
    if |w| <= |s| {
      assert s[..|w|][k] == s[k] && s[k] in s;
    }
    if s != [] {
      MissingCharNotContained(s[1..], w, k);
    }
  }
}
