/**
 * The few regular-expression shapes the validator and the sanitizer use,
 * each written out as a matcher over the text that starts at one position.
 * `Occurs` is `RegExp.prototype.test` and `ReplaceAll` is
 * `String.prototype.replace` with the `g` flag: matching is tried at every
 * position from the left, and after a match the scan resumes right after it.
 */
module Patterns {
  import opened Wrappers
  import opened Text

  datatype Pattern =
    /** `<tag[^>]*>`, case-insensitive: the tag text, then everything up to the first `>`. */
    | OpenTag(tag: string)
    /** A fixed text, case-insensitive. */
    | Literal(text: string)
    /** `style="[^"]*(?:k1|k2|…)[^"]*"`, case-insensitive: a double-quoted style value naming a keyword. */
    | StyleAttr(keywords: seq<string>)
    /** `[c1c2…]`: one character of the class. */
    | OneOf(chars: set<char>)
    /** `[c1c2…]\s`: one character of the class followed by white space. */
    | OneOfThenSpace(chars: set<char>)

  const StyleOpen: string := "style=\""

  /** Some keyword occurs (ignoring case) in the text. */
  predicate MentionsAny(value: string, keywords: seq<string>)
    decreases |keywords|
  {
    keywords != [] && (ContainsCi(value, keywords[0]) || MentionsAny(value, keywords[1..]))
  }

  /** The length of the match of `p` that starts at the beginning of `t`, if there is one. */
  function MatchLength(p: Pattern, t: string): (r: Option<nat>)
    ensures r.Some? ==> 0 < r.value <= |t|
  {
    match p
    case OpenTag(tag) =>
      if StartsWithCi(t, tag) then
        match IndexOf(t[|tag|..], '>')
        case Some(j) => Some(|tag| + j + 1)
        case None => None
      else None
    case Literal(text) =>
      if text != [] && StartsWithCi(t, text) then Some(|text|) else None
    case StyleAttr(keywords) =>
      if StartsWithCi(t, StyleOpen) then
        match IndexOf(t[|StyleOpen|..], '"')
        case Some(q) =>
          if MentionsAny(t[|StyleOpen|..][..q], keywords) then Some(|StyleOpen| + q + 1) else None
        case None => None
      else None
    case OneOf(chars) =>
      if t != [] && t[0] in chars then Some(1) else None
    case OneOfThenSpace(chars) =>
      if |t| >= 2 && t[0] in chars && IsSpace(t[1]) then Some(2) else None
  }

  /** `pattern.test(s)`: a match starts somewhere in `s`. */
  predicate Occurs(p: Pattern, s: string)
    decreases |s|
  {
    MatchLength(p, s).Some? || (s != [] && Occurs(p, s[1..]))
  }

  /** `s.replace(pattern /g, repl)` */
  function ReplaceAll(p: Pattern, s: string, repl: string): string
    decreases |s|
  {
    if s == [] then []
    else match MatchLength(p, s)
      case Some(n) => repl + ReplaceAll(p, s[n..], repl)
      case None => [s[0]] + ReplaceAll(p, s[1..], repl)
  }

  /**
   * Folded characters that every match of `p` contains: the characters of
   * its fixed text (and the closing `>` of a tag).
   */
  function Needs(p: Pattern): set<char> {
    match p
    case OpenTag(tag) => (set k | 0 <= k < |tag| :: Lower(tag[k])) + {'>'}
    case Literal(text) => set k | 0 <= k < |text| :: Lower(text[k])
    case StyleAttr(_) => set k | 0 <= k < |StyleOpen| :: Lower(StyleOpen[k])
    case OneOf(_) => {}
    case OneOfThenSpace(_) => {}
  }

  /** A match holds every character the pattern needs. */
  lemma MatchHoldsNeeded(p: Pattern, t: string, c: char)
    requires c in Needs(p) && MatchLength(p, t).Some?
    ensures exists k :: 0 <= k < |t| && Lower(t[k]) == c
  {
    match p
    case OpenTag(tag) =>
      if c == '>' {
        var j := IndexOf(t[|tag|..], '>').value;
        assert t[|tag| + j] == '>';
      } else {
        var k :| 0 <= k < |tag| && Lower(tag[k]) == c;
        assert Lower(t[k]) == c;
      }
    case Literal(text) =>
      var k :| 0 <= k < |text| && Lower(text[k]) == c;
      assert Lower(t[k]) == c;
    case StyleAttr(_) =>
      var k :| 0 <= k < |StyleOpen| && Lower(StyleOpen[k]) == c;
      assert Lower(t[k]) == c;
  }

  /** Text in which no match starts passes through a replacement unchanged. */
  lemma {:induction false} ReplaceNothing(p: Pattern, s: string, repl: string)
    requires !Occurs(p, s)
    ensures ReplaceAll(p, s, repl) == s
    decreases |s|
  {
    if s != [] {
      ReplaceNothing(p, s[1..], repl);
      assert s == [s[0]] + s[1..];
    }
  }

  /** A replacement writes only characters of its input and of the replacement text. */
  lemma {:induction false} ReplaceOnlyCopies(p: Pattern, s: string, repl: string, c: char)
    requires c in ReplaceAll(p, s, repl)
    ensures c in s || c in repl
    decreases |s|
  {
    if s != [] {
      match MatchLength(p, s)
      case Some(n) =>
        if c !in repl {
          ReplaceOnlyCopies(p, s[n..], repl, c);
          assert c in s[n..];
        }
      case None =>
        if c != s[0] {
          ReplaceOnlyCopies(p, s[1..], repl, c);
        }
    }
  }

  /**
   * Replacing a character class by one character is a pointwise map:
   * each member of the class becomes `b`, every other character stays.
   */
  lemma {:induction false} ReplaceOneOfPointwise(chars: set<char>, s: string, b: char)
    ensures |ReplaceAll(OneOf(chars), s, [b])| == |s|
    ensures forall i :: 0 <= i < |s| ==>
              ReplaceAll(OneOf(chars), s, [b])[i] == if s[i] in chars then b else s[i]
    decreases |s|
  {
    if s != [] {
      ReplaceOneOfPointwise(chars, s[1..], b);
    }
  }

  /** Text lacking a character that every match needs holds no match. */
  lemma {:induction false} MissingNeedNoMatch(p: Pattern, s: string, c: char)
    requires c in Needs(p)
    requires forall i :: 0 <= i < |s| ==> Lower(s[i]) != c
    ensures !Occurs(p, s)
    decreases |s|
  {
    if MatchLength(p, s).Some? {
      MatchHoldsNeeded(p, s, c);
    }
    if s != [] {
      MissingNeedNoMatch(p, s[1..], c);
    }
  }

  /** The same, with the missing character given as absent in both cases. */
  lemma MissingLetterNoMatch(p: Pattern, s: string, c: char)
    requires c in Needs(p)
    requires c !in s
    requires 'a' <= c <= 'z' ==> (c as int - 32) as char !in s
    ensures !Occurs(p, s)
  {
    forall i | 0 <= i < |s| ensures Lower(s[i]) != c {
      assert s[i] in s;
    }
    MissingNeedNoMatch(p, s, c);
  }

  /** Text with no character of a class holds no match of that class. */
  lemma {:induction false} MissingClassNoMatch(chars: set<char>, s: string)
    requires forall i :: 0 <= i < |s| ==> s[i] !in chars
    ensures !Occurs(OneOf(chars), s) && !Occurs(OneOfThenSpace(chars), s)
    decreases |s|
  {
    if s != [] {
      MissingClassNoMatch(chars, s[1..]);
    }
  }

  /**
   * When no match starts in the first `k` characters, those characters are
   * copied as they are and replacement goes on from position `k`.
   */
  lemma {:induction false} ReplaceSkips(p: Pattern, s: string, repl: string, k: nat)
    requires k <= |s|
    requires forall i :: 0 <= i < k ==> MatchLength(p, s[i..]).None?
    ensures ReplaceAll(p, s, repl) == s[..k] + ReplaceAll(p, s[k..], repl)
    decreases k
  {
    if k > 0 {
      assert MatchLength(p, s[0..]).None? && s[0..] == s;
      forall i | 0 <= i < k - 1 ensures MatchLength(p, s[1..][i..]).None? {
        assert s[1..][i..] == s[i + 1..];
      }
      ReplaceSkips(p, s[1..], repl, k - 1);
      assert s[1..][k - 1..] == s[k..];
      assert s[..k] == [s[0]] + s[1..][..k - 1];
    }
  }

  /** A match that covers exactly `a` is replaced, and the scan resumes at `b`. */
  lemma ReplaceHit(p: Pattern, a: string, b: string, repl: string)
    requires MatchLength(p, a + b) == Some(|a|)
    ensures ReplaceAll(p, a + b, repl) == repl + ReplaceAll(p, b, repl)
    ensures repl == [] ==> ReplaceAll(p, a + b, repl) == ReplaceAll(p, b, repl)
  {
    assert (a + b)[|a|..] == b;
    assert [] + ReplaceAll(p, b, repl) == ReplaceAll(p, b, repl);
  }

  /** A replacement by a class applies to the two halves of a string separately. */
  lemma {:induction false} ReplaceOneOfAppend(chars: set<char>, a: string, b: string, repl: string)
    ensures ReplaceAll(OneOf(chars), a + b, repl)
         == ReplaceAll(OneOf(chars), a, repl) + ReplaceAll(OneOf(chars), b, repl)
    decreases |a|
  {
    if a != [] {
      assert (a + b)[1..] == a[1..] + b;
      ReplaceOneOfAppend(chars, a[1..], b, repl);
    } else {
      assert a + b == b;
    }
  }

  /** A match of `p` starting at position `i` makes `p.test(s)` true. */
  lemma {:induction false} OccursAt(p: Pattern, s: string, i: nat)
    requires i <= |s| && MatchLength(p, s[i..]).Some?
    ensures Occurs(p, s)
    decreases i
  {
    if i > 0 {
      assert s[1..][i - 1..] == s[i..];
      OccursAt(p, s[1..], i - 1);
    }
  }

  /** A tag or fixed text whose first character is `<`. */
  predicate AngleLed(p: Pattern) {
    || (p.OpenTag? && p.tag != [] && p.tag[0] == '<')
    || (p.Literal? && p.text != [] && p.text[0] == '<')
  }

  /** The fixed text every match of a tag or literal pattern begins with. */
  function Lead(p: Pattern): string
    requires p.OpenTag? || p.Literal?
  {
    if p.OpenTag? then p.tag else p.text
  }

  /** No match of a `<`-led pattern starts at a character other than `<`. */
  lemma NoMatchOffAngle(p: Pattern, t: string)
    requires AngleLed(p)
    requires t == [] || t[0] != '<'
    ensures MatchLength(p, t).None?
  {
    if t != [] {
      assert Lower(t[0]) != Lower(Lead(p)[0]);
    }
  }

  /**
   * A piece whose only `<` is its first character, and that differs from the
   * pattern's leading text at some index `m` inside the piece, holds no match
   * start whatever follows it: it is copied and replacement goes on after it.
   */
  lemma SkipPiece(p: Pattern, s: string, rest: string, repl: string, m: nat)
    requires AngleLed(p)
    requires forall i :: 0 < i < |s| ==> s[i] != '<'
    requires s != [] && s[0] == '<' ==> m < |s| && m < |Lead(p)| && Lower(s[m]) != Lower(Lead(p)[m])
    ensures ReplaceAll(p, s + rest, repl) == s + ReplaceAll(p, rest, repl)
  {
    var t := s + rest;
    forall i | 0 <= i < |s| ensures MatchLength(p, t[i..]).None? {
      if s[i] == '<' {
        assert i == 0 && t[0..] == t;
        assert Lower(t[m]) != Lower(Lead(p)[m]);
      } else {
        NoMatchOffAngle(p, t[i..]);
      }
    }
    ReplaceSkips(p, t, repl, |s|);
    assert t[..|s|] == s && t[|s|..] == rest;
  }

  /** An opening tag with its attribute text is one match of its pattern. */
  lemma OpenTagHit(tag: string, a: string, rest: string, repl: string)
    requires forall i :: 0 <= i < |a| ==> a[i] != '>'
    ensures ReplaceAll(OpenTag(tag), tag + a + ">" + rest, repl) == repl + ReplaceAll(OpenTag(tag), rest, repl)
    ensures repl == [] ==> ReplaceAll(OpenTag(tag), tag + a + ">" + rest, repl) == ReplaceAll(OpenTag(tag), rest, repl)
  {
    var s := tag + a + ">";
    var t := s + rest;
    assert t[..|tag|] == tag;
    assert StartsWithCi(t, tag);
    assert t[|tag|..][|a|] == '>';
    assert t[|tag|..][..|a|] == a;
    IndexOfFirst(t[|tag|..], '>', |a|);
    ReplaceHit(OpenTag(tag), s, rest, repl);
  }

  /** A fixed text is one match of its own pattern. */
  lemma LiteralHit(text: string, rest: string, repl: string)
    requires text != []
    ensures ReplaceAll(Literal(text), text + rest, repl) == repl + ReplaceAll(Literal(text), rest, repl)
    ensures repl == [] ==> ReplaceAll(Literal(text), text + rest, repl) == ReplaceAll(Literal(text), rest, repl)
  {
    assert StartsWithCi(text + rest, text);
    ReplaceHit(Literal(text), text, rest, repl);
  }
}
