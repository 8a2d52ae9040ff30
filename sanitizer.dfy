/**
 * `sanitizeForATS`: nine `replace` passes over an HTML fragment that drop
 * images and layout styles, turn decorative glyphs into bullets and turn
 * table markup into `div`/`span` markup. Each pass runs once over the output
 * of the one before it.
 */
module Sanitizer {
  import opened Wrappers
  import opened Text
  import opened Patterns
  import opened AtsValidator

  /** The nine `replace` passes, in order: each a pattern and its replacement. */
  const SanitizePasses: seq<(Pattern, string)> := [
    (OpenTag("<img"), ""),
    (StyleAttr(StrippedKeywords), ""),
    (OneOf(Glyphs), [Bullet]),
    (OpenTag("<table"), "<div>"),
    (Literal("</table>"), "</div>"),
    (OpenTag("<tr"), "<div>"),
    (Literal("</tr>"), "</div>"),
    (OpenTag("<td"), "<span>"),
    (Literal("</td>"), "</span>")
  ]

  /** Each pass applied once, in order, to the output of the one before. */
  function ApplyPasses(passes: seq<(Pattern, string)>, s: string): string
    decreases |passes|
  {
    if passes == [] then s else ApplyPasses(passes[1..], ReplaceAll(passes[0].0, s, passes[0].1))
  }

  function Sanitized(html: string): string {
    ApplyPasses(SanitizePasses, html)
  }

  /** Running the passes from `k` on is running pass `k`, then the passes after it. */
  lemma PassStep(k: nat, s: string)
    requires k < |SanitizePasses|
    ensures ApplyPasses(SanitizePasses[k..], s)
         == ApplyPasses(SanitizePasses[k + 1..], ReplaceAll(SanitizePasses[k].0, s, SanitizePasses[k].1))
  {
    assert SanitizePasses[k..][1..] == SanitizePasses[k + 1..];
  }

  /** `sanitizeForATS`: the fragment reassigned through the nine passes. */
  method SanitizeForATS(html: string) returns (sanitized: string)
    ensures sanitized == Sanitized(html)
  {
    sanitized := html;
    PassStep(0, sanitized);
    sanitized := ReplaceAll(OpenTag("<img"), sanitized, "");
    PassStep(1, sanitized);
    sanitized := ReplaceAll(StyleAttr(StrippedKeywords), sanitized, "");
    PassStep(2, sanitized);
    sanitized := ReplaceAll(OneOf(Glyphs), sanitized, [Bullet]);
    PassStep(3, sanitized);
    sanitized := ReplaceAll(OpenTag("<table"), sanitized, "<div>");
    PassStep(4, sanitized);
    sanitized := ReplaceAll(Literal("</table>"), sanitized, "</div>");
    PassStep(5, sanitized);
    sanitized := ReplaceAll(OpenTag("<tr"), sanitized, "<div>");
    PassStep(6, sanitized);
    sanitized := ReplaceAll(Literal("</tr>"), sanitized, "</div>");
    PassStep(7, sanitized);
    sanitized := ReplaceAll(OpenTag("<td"), sanitized, "<span>");
    PassStep(8, sanitized);
    sanitized := ReplaceAll(Literal("</td>"), sanitized, "</span>");
    assert SanitizePasses[9..] == [];
  }

  // ---------------------------------------------------------------------
  // Glyphs

  /** The glyph pass replaces each decorative glyph by one bullet, one for one. */
  function Bulleted(s: string): string {
    ReplaceAll(OneOf(Glyphs), s, [Bullet])
  }

  lemma BulletedPointwise(s: string)
    ensures |Bulleted(s)| == |s|
    ensures forall i :: 0 <= i < |s| ==> Bulleted(s)[i] == if s[i] in Glyphs then Bullet else s[i]
  {
    ReplaceOneOfPointwise(Glyphs, s, Bullet);
  }

  /** Passes whose replacement texts lack `c` can only copy `c` from their input. */
  lemma {:induction false} PassesOnlyCopy(passes: seq<(Pattern, string)>, s: string, c: char)
    requires forall j :: 0 <= j < |passes| ==> c !in passes[j].1
    requires c in ApplyPasses(passes, s)
    ensures c in s
    decreases |passes|
  {
    if passes != [] {
      var t := ReplaceAll(passes[0].0, s, passes[0].1);
      PassesOnlyCopy(passes[1..], t, c);
      ReplaceOnlyCopies(passes[0].0, s, passes[0].1, c);
    }
  }

  predicate GlyphFree(s: string) {
    forall i :: 0 <= i < |s| ==> s[i] !in Glyphs
  }

  lemma GlyphFreeAppend(a: string, b: string)
    requires GlyphFree(a) && GlyphFree(b)
    ensures GlyphFree(a + b)
  {
  }

  /**
   * After a pass that replaces a class holding `c` by one other character,
   * `c` is gone for good when no later replacement text holds it.
   */
  lemma {:induction false} ClassPassClears(passes: seq<(Pattern, string)>, s: string, c: char, k: nat, cs: set<char>, b: char)
    requires k < |passes| && passes[k] == (OneOf(cs), [b])
    requires c in cs && c != b
    requires forall j :: k < j < |passes| ==> c !in passes[j].1
    ensures c !in ApplyPasses(passes, s)
    decreases k
  {
    var t := ReplaceAll(passes[0].0, s, passes[0].1);
    if k == 0 {
      ReplaceOneOfPointwise(cs, s, b);
      if c in ApplyPasses(passes[1..], t) {
        PassesOnlyCopy(passes[1..], t, c);
        assert false;
      }
    } else {
      ClassPassClears(passes[1..], t, c, k - 1, cs, b);
    }
  }

  /** No decorative glyph survives sanitizing: the glyph pass removes them all and no later pass writes one. */
  lemma SanitizedHasNoGlyph(html: string, c: char)
    requires c in Glyphs
    ensures c !in Sanitized(html)
  {
    assert c >= '\U{25A0}';
    forall j | 2 < j < |SanitizePasses| ensures c !in SanitizePasses[j].1 {
      var r := SanitizePasses[j].1;
      assert forall i :: 0 <= i < |r| ==> r[i] < '\U{0080}';
    }
    ClassPassClears(SanitizePasses, html, c, 2, Glyphs, Bullet);
  }

  // ---------------------------------------------------------------------
  // Tables

  /**
   * A fragment cut into pieces: text, image tags, table tags (opening tags
   * with their attribute text) and any other markup tag, each written out whole.
   */
  datatype Piece =
    | Text(text: string)
    | Image(attrs: string)
    | TableOpen(attrs: string) | TableClose
    | RowOpen(attrs: string) | RowClose
    | CellOpen(attrs: string) | CellClose
    | OtherTag(markup: string)

  function Render(p: Piece): string {
    match p
    case Text(t) => t
    case Image(a) => "<img" + a + ">"
    case TableOpen(a) => "<table" + a + ">"
    case TableClose => "</table>"
    case RowOpen(a) => "<tr" + a + ">"
    case RowClose => "</tr>"
    case CellOpen(a) => "<td" + a + ">"
    case CellClose => "</td>"
    case OtherTag(m) => m
  }

  /** What sanitizing makes of a piece. */
  function Downgraded(p: Piece): string {
    match p
    case Text(t) => Bulleted(t)
    case Image(_) => ""
    case TableOpen(_) => "<div>"
    case TableClose => "</div>"
    case RowOpen(_) => "<div>"
    case RowClose => "</div>"
    case CellOpen(_) => "<span>"
    case CellClose => "</span>"
    case OtherTag(m) => Bulleted(m)
  }

  /** The leading texts of the image pattern and of the six table patterns, in pass order. */
  const TagLeads: seq<string> := ["<img", "<table", "</table>", "<tr", "</tr>", "<td", "</td>"]

  /** `s` differs from `lead`, ignoring case, at some index inside both. */
  predicate Diverges(s: string, lead: string) {
    exists m :: 0 <= m < |s| && m < |lead| && Lower(s[m]) != Lower(lead[m])
  }

  /** A `style="` opening, in any case, starts somewhere in `s`. */
  predicate NamesStyle(s: string) {
    exists i :: 0 <= i < |s| && StartsWithCi(s[i..], StyleOpen)
  }

  /** Attribute text of a table tag: no `<`, no `>` and no `style="` opening; quotes and glyphs may occur. */
  predicate PlainAttrs(a: string) {
    (forall i :: 0 <= i < |a| ==> a[i] != '<' && a[i] != '>') && !NamesStyle(a)
  }

  /** Markup led by its only `<`, with no `style="` opening, that none of the seven tag patterns matches. */
  predicate PlainTag(m: string) {
    && m != [] && m[0] == '<'
    && (forall i :: 0 < i < |m| ==> m[i] != '<')
    && !NamesStyle(m)
    && forall j :: 0 <= j < |TagLeads| ==> Diverges(m, TagLeads[j])
  }

  /** Text holding no `<` and no `"`; image attributes with no `>`; table tags and other tags as above. */
  predicate WellFormed(p: Piece) {
    match p
    case Text(t) => forall i :: 0 <= i < |t| ==> t[i] != '<' && t[i] != '"'
    case Image(a) => forall i :: 0 <= i < |a| ==> a[i] != '>'
    case TableOpen(a) => PlainAttrs(a)
    case RowOpen(a) => PlainAttrs(a)
    case CellOpen(a) => PlainAttrs(a)
    case OtherTag(m) => PlainTag(m)
    case _ => true
  }

  function Markup(ps: seq<Piece>): string {
    if ps == [] then [] else Render(ps[0]) + Markup(ps[1..])
  }

  function Downgrade(ps: seq<Piece>): string {
    if ps == [] then [] else Downgraded(ps[0]) + Downgrade(ps[1..])
  }

  /** The pass that rewrites a piece. */
  function PassOf(p: Piece): nat {
    match p
    case Text(_) => 2
    case Image(_) => 0
    case TableOpen(_) => 3
    case TableClose => 4
    case RowOpen(_) => 5
    case RowClose => 6
    case CellOpen(_) => 7
    case CellClose => 8
    case OtherTag(_) => 2
  }

  /** A table tag after the glyph pass: its attribute text bulleted. */
  function BulletedTag(p: Piece): string {
    match p
    case TableOpen(a) => "<table" + Bulleted(a) + ">"
    case RowOpen(a) => "<tr" + Bulleted(a) + ">"
    case CellOpen(a) => "<td" + Bulleted(a) + ">"
    case _ => Render(p)
  }

  /** A piece as it stands after the first `k` passes. */
  function Stage(k: nat, p: Piece): string {
    if PassOf(p) < k then Downgraded(p) else if k <= 2 then Render(p) else BulletedTag(p)
  }

  function StageAll(k: nat, ps: seq<Piece>): string {
    if ps == [] then [] else Stage(k, ps[0]) + StageAll(k, ps[1..])
  }

  lemma {:induction false} StageEnds(ps: seq<Piece>)
    ensures StageAll(0, ps) == Markup(ps)
    ensures StageAll(9, ps) == Downgrade(ps)
  {
    if ps != [] {
      StageEnds(ps[1..]);
    }
  }

  /** Bulleting keeps text free of `<` and `>`. */
  lemma BulletedPlain(a: string)
    requires forall i :: 0 <= i < |a| ==> a[i] != '<' && a[i] != '>'
    ensures forall i :: 0 <= i < |Bulleted(a)| ==> Bulleted(a)[i] != '<' && Bulleted(a)[i] != '>'
  {
    BulletedPointwise(a);
  }

  /** An opening tag's only `<` is its first character. */
  lemma OpenTagAngles(lead: string, a: string)
    requires forall i :: 0 < i < |lead| ==> lead[i] != '<'
    requires forall i :: 0 <= i < |a| ==> a[i] != '<'
    ensures forall i :: 0 < i < |lead + a + ">"| ==> (lead + a + ">")[i] != '<'
  {
    var s := lead + a + ">";
    forall i | 0 < i < |s| ensures s[i] != '<' {
      if i < |lead| {
        assert s[i] == lead[i];
      } else if i < |lead| + |a| {
        assert s[i] == a[i - |lead|];
      }
    }
  }

  /** A text or table piece has no `<` past its first character, and none at all when it is text. */
  lemma StageAngles(k: nat, p: Piece)
    requires WellFormed(p) && !p.Image? && !p.OtherTag?
    ensures forall i :: 0 < i < |Stage(k, p)| ==> Stage(k, p)[i] != '<'
    ensures p.Text? ==> Stage(k, p) == [] || Stage(k, p)[0] != '<'
  {
    match p
    case Text(t) =>
      if k > 2 {
        BulletedPointwise(t);
      }
    case TableOpen(a) =>
      BulletedPlain(a);
      OpenTagAngles("<table", a);
      OpenTagAngles("<table", Bulleted(a));
    case RowOpen(a) =>
      BulletedPlain(a);
      OpenTagAngles("<tr", a);
      OpenTagAngles("<tr", Bulleted(a));
    case CellOpen(a) =>
      BulletedPlain(a);
      OpenTagAngles("<td", a);
      OpenTagAngles("<td", Bulleted(a));
    case _ =>
  }

  /** The tag leads are ASCII, so no bullet folds to one of their characters. */
  lemma TagLeadsAscii(j: nat)
    requires j < |TagLeads|
    ensures forall i :: 0 <= i < |TagLeads[j]| ==> Lower(TagLeads[j][i]) != Bullet
  {
    var lead := TagLeads[j];
    forall i | 0 <= i < |lead| ensures Lower(lead[i]) != Bullet {
      assert lead[i] < '\U{0080}';
    }
  }

  /** Bulleting other markup keeps its one `<` in front and its difference from a tag lead. */
  lemma BulletedTagPlain(m: string, j: nat)
    requires j < |TagLeads|
    requires m != [] && m[0] == '<' && forall i :: 0 < i < |m| ==> m[i] != '<'
    requires Diverges(m, TagLeads[j])
    ensures Bulleted(m) != [] && Bulleted(m)[0] == '<'
    ensures forall i :: 0 < i < |Bulleted(m)| ==> Bulleted(m)[i] != '<'
    ensures Diverges(Bulleted(m), TagLeads[j])
  {
    var lead := TagLeads[j];
    BulletedPointwise(m);
    TagLeadsAscii(j);
    var w :| 0 <= w < |m| && w < |lead| && Lower(m[w]) != Lower(lead[w]);
    assert Lower(Bulleted(m)[w]) != Lower(lead[w]);
  }

  /** The image pass and each table pass copy other markup: it differs from the pass's lead `TagLeads[j]`. */
  lemma OtherTagSkips(k: nat, m: string, j: nat, pat: Pattern, repl: string, rest: string)
    requires k == 0 || 3 <= k <= 8
    requires j < |TagLeads| && AngleLed(pat) && Lead(pat) == TagLeads[j]
    requires PlainTag(m)
    ensures ReplaceAll(pat, Stage(k, OtherTag(m)) + rest, repl) == Stage(k + 1, OtherTag(m)) + ReplaceAll(pat, rest, repl)
  {
    var lead := TagLeads[j];
    var s := Stage(k, OtherTag(m));
    assert Diverges(m, lead);
    if k > 0 {
      BulletedTagPlain(m, j);
    }
    var w :| 0 <= w < |s| && w < |lead| && Lower(s[w]) != Lower(lead[w]);
    SkipPiece(pat, s, rest, repl, w);
  }

  /** After the image pass an image piece is empty, and later passes have nothing of it to rewrite. */
  lemma ImageGone(k: nat, a: string, pat: Pattern, rest: string, repl: string)
    requires 1 <= k <= 8
    ensures ReplaceAll(pat, Stage(k, Image(a)) + rest, repl) == Stage(k + 1, Image(a)) + ReplaceAll(pat, rest, repl)
  {
    assert Stage(k, Image(a)) == [] && Stage(k + 1, Image(a)) == [];
    assert [] + rest == rest;
  }

  /** An opening tag that a pass does not rewrite, differing from the pass's lead at `m`, is copied whole. */
  lemma OpenTagSkipped(pat: Pattern, lead: string, a: string, rest: string, repl: string, m: nat)
    requires AngleLed(pat)
    requires lead != [] && lead[0] == '<' && forall i :: 0 < i < |lead| ==> lead[i] != '<'
    requires forall i :: 0 <= i < |a| ==> a[i] != '<'
    requires m < |lead| && m < |Lead(pat)| && Lower(lead[m]) != Lower(Lead(pat)[m])
    ensures ReplaceAll(pat, lead + a + ">" + rest, repl) == lead + a + ">" + ReplaceAll(pat, rest, repl)
  {
    OpenTagAngles(lead, a);
    var s := lead + a + ">";
    assert s[m] == lead[m];
    SkipPiece(pat, s, rest, repl, m);
  }

  /** Pass 0 over one piece. */
  lemma Pass0Piece(p: Piece, rest: string)
    requires WellFormed(p)
    ensures ReplaceAll(OpenTag("<img"), Stage(0, p) + rest, "") == Stage(1, p) + ReplaceAll(OpenTag("<img"), rest, "")
  {
    match p
    case Image(a) => OpenTagHit("<img", a, rest, "");
    case OtherTag(m) => OtherTagSkips(0, m, 0, OpenTag("<img"), "", rest);
    case Text(_) => StageAngles(0, p); SkipPiece(OpenTag("<img"), Stage(0, p), rest, "", 0);
    case TableOpen(a) => OpenTagSkipped(OpenTag("<img"), "<table", a, rest, "", 1);
    case RowOpen(a) => OpenTagSkipped(OpenTag("<img"), "<tr", a, rest, "", 1);
    case CellOpen(a) => OpenTagSkipped(OpenTag("<img"), "<td", a, rest, "", 1);
    case _ => StageAngles(0, p); SkipPiece(OpenTag("<img"), Stage(0, p), rest, "", 1);
  }

  /** Pass 3 over one piece. */
  lemma Pass3Piece(p: Piece, rest: string)
    requires WellFormed(p)
    ensures ReplaceAll(OpenTag("<table"), Stage(3, p) + rest, "<div>") == Stage(4, p) + ReplaceAll(OpenTag("<table"), rest, "<div>")
  {
    match p
    case Image(a) => ImageGone(3, a, OpenTag("<table"), rest, "<div>");
    case OtherTag(m) => OtherTagSkips(3, m, 1, OpenTag("<table"), "<div>", rest);
    case Text(_) => StageAngles(3, p); SkipPiece(OpenTag("<table"), Stage(3, p), rest, "<div>", 0);
    case _ => Pass3Table(p, rest);
  }

  /** Pass 3 over one table piece. */
  lemma Pass3Table(p: Piece, rest: string)
    requires WellFormed(p) && !p.Text? && !p.Image? && !p.OtherTag?
    ensures ReplaceAll(OpenTag("<table"), Stage(3, p) + rest, "<div>") == Stage(4, p) + ReplaceAll(OpenTag("<table"), rest, "<div>")
  {
    match p
    case TableOpen(a) => BulletedPlain(a); OpenTagHit("<table", Bulleted(a), rest, "<div>");
    case TableClose => StageAngles(3, p); SkipPiece(OpenTag("<table"), Stage(3, p), rest, "<div>", 1);
    case RowOpen(a) => BulletedPlain(a); OpenTagSkipped(OpenTag("<table"), "<tr", Bulleted(a), rest, "<div>", 2);
    case RowClose => StageAngles(3, p); SkipPiece(OpenTag("<table"), Stage(3, p), rest, "<div>", 1);
    case CellOpen(a) => BulletedPlain(a); OpenTagSkipped(OpenTag("<table"), "<td", Bulleted(a), rest, "<div>", 2);
    case CellClose => StageAngles(3, p); SkipPiece(OpenTag("<table"), Stage(3, p), rest, "<div>", 1);
  }

  /** Pass 4 over one piece. */
  lemma Pass4Piece(p: Piece, rest: string)
    requires WellFormed(p)
    ensures ReplaceAll(Literal("</table>"), Stage(4, p) + rest, "</div>") == Stage(5, p) + ReplaceAll(Literal("</table>"), rest, "</div>")
  {
    match p
    case Image(a) => ImageGone(4, a, Literal("</table>"), rest, "</div>");
    case OtherTag(m) => OtherTagSkips(4, m, 2, Literal("</table>"), "</div>", rest);
    case Text(_) => StageAngles(4, p); SkipPiece(Literal("</table>"), Stage(4, p), rest, "</div>", 0);
    case _ => Pass4Table(p, rest);
  }

  /** Pass 4 over one table piece. */
  lemma Pass4Table(p: Piece, rest: string)
    requires WellFormed(p) && !p.Text? && !p.Image? && !p.OtherTag?
    ensures ReplaceAll(Literal("</table>"), Stage(4, p) + rest, "</div>") == Stage(5, p) + ReplaceAll(Literal("</table>"), rest, "</div>")
  {
    match p
    case TableOpen(a) => StageAngles(4, p); SkipPiece(Literal("</table>"), Stage(4, p), rest, "</div>", 1);
    case TableClose => LiteralHit("</table>", rest, "</div>");
    case RowOpen(a) => BulletedPlain(a); OpenTagSkipped(Literal("</table>"), "<tr", Bulleted(a), rest, "</div>", 1);
    case RowClose => StageAngles(4, p); SkipPiece(Literal("</table>"), Stage(4, p), rest, "</div>", 3);
    case CellOpen(a) => BulletedPlain(a); OpenTagSkipped(Literal("</table>"), "<td", Bulleted(a), rest, "</div>", 1);
    case CellClose => StageAngles(4, p); SkipPiece(Literal("</table>"), Stage(4, p), rest, "</div>", 3);
  }

  /** Pass 5 over one piece. */
  lemma Pass5Piece(p: Piece, rest: string)
    requires WellFormed(p)
    ensures ReplaceAll(OpenTag("<tr"), Stage(5, p) + rest, "<div>") == Stage(6, p) + ReplaceAll(OpenTag("<tr"), rest, "<div>")
  {
    match p
    case Image(a) => ImageGone(5, a, OpenTag("<tr"), rest, "<div>");
    case OtherTag(m) => OtherTagSkips(5, m, 3, OpenTag("<tr"), "<div>", rest);
    case Text(_) => StageAngles(5, p); SkipPiece(OpenTag("<tr"), Stage(5, p), rest, "<div>", 0);
    case _ => Pass5Table(p, rest);
  }

  /** Pass 5 over one table piece. */
  lemma Pass5Table(p: Piece, rest: string)
    requires WellFormed(p) && !p.Text? && !p.Image? && !p.OtherTag?
    ensures ReplaceAll(OpenTag("<tr"), Stage(5, p) + rest, "<div>") == Stage(6, p) + ReplaceAll(OpenTag("<tr"), rest, "<div>")
  {
    match p
    case TableOpen(a) => StageAngles(5, p); SkipPiece(OpenTag("<tr"), Stage(5, p), rest, "<div>", 1);
    case TableClose => StageAngles(5, p); SkipPiece(OpenTag("<tr"), Stage(5, p), rest, "<div>", 1);
    case RowOpen(a) => BulletedPlain(a); OpenTagHit("<tr", Bulleted(a), rest, "<div>");
    case RowClose => StageAngles(5, p); SkipPiece(OpenTag("<tr"), Stage(5, p), rest, "<div>", 1);
    case CellOpen(a) => BulletedPlain(a); OpenTagSkipped(OpenTag("<tr"), "<td", Bulleted(a), rest, "<div>", 2);
    case CellClose => StageAngles(5, p); SkipPiece(OpenTag("<tr"), Stage(5, p), rest, "<div>", 1);
  }

  /** Pass 6 over one piece. */
  lemma Pass6Piece(p: Piece, rest: string)
    requires WellFormed(p)
    ensures ReplaceAll(Literal("</tr>"), Stage(6, p) + rest, "</div>") == Stage(7, p) + ReplaceAll(Literal("</tr>"), rest, "</div>")
  {
    match p
    case Image(a) => ImageGone(6, a, Literal("</tr>"), rest, "</div>");
    case OtherTag(m) => OtherTagSkips(6, m, 4, Literal("</tr>"), "</div>", rest);
    case Text(_) => StageAngles(6, p); SkipPiece(Literal("</tr>"), Stage(6, p), rest, "</div>", 0);
    case TableOpen(a) => StageAngles(6, p); SkipPiece(Literal("</tr>"), Stage(6, p), rest, "</div>", 1);
    case TableClose => StageAngles(6, p); SkipPiece(Literal("</tr>"), Stage(6, p), rest, "</div>", 2);
    case RowOpen(a) => StageAngles(6, p); SkipPiece(Literal("</tr>"), Stage(6, p), rest, "</div>", 1);
    case RowClose => LiteralHit("</tr>", rest, "</div>");
    case CellOpen(a) => BulletedPlain(a); OpenTagSkipped(Literal("</tr>"), "<td", Bulleted(a), rest, "</div>", 1);
    case CellClose => StageAngles(6, p); SkipPiece(Literal("</tr>"), Stage(6, p), rest, "</div>", 3);
  }

  /** Pass 7 over one piece. */
  lemma Pass7Piece(p: Piece, rest: string)
    requires WellFormed(p)
    ensures ReplaceAll(OpenTag("<td"), Stage(7, p) + rest, "<span>") == Stage(8, p) + ReplaceAll(OpenTag("<td"), rest, "<span>")
  {
    match p
    case Image(a) => ImageGone(7, a, OpenTag("<td"), rest, "<span>");
    case OtherTag(m) => OtherTagSkips(7, m, 5, OpenTag("<td"), "<span>", rest);
    case Text(_) => StageAngles(7, p); SkipPiece(OpenTag("<td"), Stage(7, p), rest, "<span>", 0);
    case TableOpen(a) => StageAngles(7, p); SkipPiece(OpenTag("<td"), Stage(7, p), rest, "<span>", 1);
    case TableClose => StageAngles(7, p); SkipPiece(OpenTag("<td"), Stage(7, p), rest, "<span>", 1);
    case RowOpen(a) => StageAngles(7, p); SkipPiece(OpenTag("<td"), Stage(7, p), rest, "<span>", 1);
    case RowClose => StageAngles(7, p); SkipPiece(OpenTag("<td"), Stage(7, p), rest, "<span>", 1);
    case CellOpen(a) => BulletedPlain(a); OpenTagHit("<td", Bulleted(a), rest, "<span>");
    case CellClose => StageAngles(7, p); SkipPiece(OpenTag("<td"), Stage(7, p), rest, "<span>", 1);
  }

  /** Pass 8 over one piece. */
  lemma Pass8Piece(p: Piece, rest: string)
    requires WellFormed(p)
    ensures ReplaceAll(Literal("</td>"), Stage(8, p) + rest, "</span>") == Stage(9, p) + ReplaceAll(Literal("</td>"), rest, "</span>")
  {
    match p
    case Image(a) => ImageGone(8, a, Literal("</td>"), rest, "</span>");
    case OtherTag(m) => OtherTagSkips(8, m, 6, Literal("</td>"), "</span>", rest);
    case Text(_) => StageAngles(8, p); SkipPiece(Literal("</td>"), Stage(8, p), rest, "</span>", 0);
    case TableOpen(a) => StageAngles(8, p); SkipPiece(Literal("</td>"), Stage(8, p), rest, "</span>", 1);
    case TableClose => StageAngles(8, p); SkipPiece(Literal("</td>"), Stage(8, p), rest, "</span>", 2);
    case RowOpen(a) => StageAngles(8, p); SkipPiece(Literal("</td>"), Stage(8, p), rest, "</span>", 1);
    case RowClose => StageAngles(8, p); SkipPiece(Literal("</td>"), Stage(8, p), rest, "</span>", 2);
    case CellOpen(a) => StageAngles(8, p); SkipPiece(Literal("</td>"), Stage(8, p), rest, "</span>", 1);
    case CellClose => LiteralHit("</td>", rest, "</span>");
  }

  predicate AllWellFormed(ps: seq<Piece>) {
    forall j :: 0 <= j < |ps| ==> WellFormed(ps[j])
  }

  /** The image pass and each table pass, over a whole sequence of pieces. */
  lemma {:induction false} AnglePassAll(k: nat, ps: seq<Piece>)
    requires k == 0 || 3 <= k <= 8
    requires AllWellFormed(ps)
    ensures ReplaceAll(SanitizePasses[k].0, StageAll(k, ps), SanitizePasses[k].1) == StageAll(k + 1, ps)
    decreases |ps|
  {
    if ps != [] {
      AnglePassAll(k, ps[1..]);
      var rest := StageAll(k, ps[1..]);
      if k == 0 {
        Pass0Piece(ps[0], rest);
      } else if k == 3 {
        Pass3Piece(ps[0], rest);
      } else if k == 4 {
        Pass4Piece(ps[0], rest);
      } else if k == 5 {
        Pass5Piece(ps[0], rest);
      } else if k == 6 {
        Pass6Piece(ps[0], rest);
      } else if k == 7 {
        Pass7Piece(ps[0], rest);
      } else if k == 8 {
        Pass8Piece(ps[0], rest);
      }
    }
  }

  /**
   * No `style="` opening starts anywhere in `s`, and each double quote among
   * its first six characters has a `<` before it, so no opening that starts
   * in text in front of `s` can end at one of its quotes either.
   */
  predicate StyleFree(s: string) {
    && (forall i :: 0 <= i < |s| ==> !StartsWithCi(s[i..], StyleOpen))
    && (forall j :: 0 <= j < |s| && j < 6 && s[j] == '"' ==> '<' in s[..j])
  }

  /** No character of `style="` folds to `<` or `>`. */
  lemma StyleOpenChars()
    ensures |StyleOpen| == 7 && StyleOpen[6] == '"'
    ensures forall k :: 0 <= k < |StyleOpen| ==> Lower(StyleOpen[k]) != '<' && Lower(StyleOpen[k]) != '>'
    ensures Lower(StyleOpen[0]) == 's'
  {
    forall k | 0 <= k < |StyleOpen| ensures Lower(StyleOpen[k]) != '<' && Lower(StyleOpen[k]) != '>' {
      assert StyleOpen[k] in {'s', 't', 'y', 'l', 'e', '=', '"'};
    }
  }

  /** Without a double quote there is no `style="` opening. */
  lemma QuoteFreeStyleFree(s: string)
    requires forall i :: 0 <= i < |s| ==> s[i] != '"'
    ensures StyleFree(s)
  {
    StyleOpenChars();
    forall i | 0 <= i < |s| ensures !StartsWithCi(s[i..], StyleOpen) {
      if i + 6 < |s| {
        assert s[i..][6] == s[i + 6];
      }
    }
  }

  lemma StyleFreeAppend(a: string, b: string)
    requires StyleFree(a) && StyleFree(b)
    ensures StyleFree(a + b)
  {
    StyleOpenChars();
    var s := a + b;
    forall i | 0 <= i < |s| ensures !StartsWithCi(s[i..], StyleOpen) {
      if i >= |a| {
        assert s[i..] == b[i - |a|..];
      } else if i + 6 < |a| {
        assert !StartsWithCi(a[i..], StyleOpen);
        var k :| 0 <= k < |StyleOpen| && Lower(a[i..][k]) != Lower(StyleOpen[k]);
        assert s[i..][k] == a[i..][k];
      } else if i + 6 < |s| {
        var jb := i + 6 - |a|;
        assert s[i..][6] == b[jb];
        if b[jb] == '"' {
          assert '<' in b[..jb];
          var k :| 0 <= k < jb && b[..jb][k] == '<';
          assert s[i..][|a| + k - i] == b[k];
        }
      }
    }
    forall j | 0 <= j < |s| && j < 6 && s[j] == '"' ensures '<' in s[..j] {
      if j < |a| {
        assert s[..j] == a[..j];
      } else {
        assert b[j - |a|] == '"';
        assert '<' in b[..j - |a|];
        var k :| 0 <= k < j - |a| && b[..j - |a|][k] == '<';
        assert s[..j][|a| + k] == '<';
      }
    }
  }

  /** An opening tag whose attribute text is plain holds no `style="` opening. */
  lemma OpenTagStyleFree(lead: string, a: string)
    requires lead != [] && lead[0] == '<'
    requires forall i :: 0 <= i < |lead| ==> Lower(lead[i]) != 's' && lead[i] != '"'
    requires PlainAttrs(a)
    ensures StyleFree(lead + a + ">")
  {
    StyleOpenChars();
    var s := lead + a + ">";
    forall i | 0 <= i < |s| ensures !StartsWithCi(s[i..], StyleOpen) {
      if i < |lead| {
        assert s[i..][0] == lead[i];
      } else if i + 7 <= |lead| + |a| {
        var ia := i - |lead|;
        assert !StartsWithCi(a[ia..], StyleOpen);
        var k :| 0 <= k < |StyleOpen| && Lower(a[ia..][k]) != Lower(StyleOpen[k]);
        assert s[i..][k] == a[ia..][k];
      } else if i + 7 <= |s| {
        var k := |lead| + |a| - i;
        assert s[i..][k] == '>';
      }
    }
    forall j | 0 <= j < |s| && j < 6 && s[j] == '"' ensures '<' in s[..j] {
      assert j >= |lead|;
      assert s[..j][0] == '<';
    }
  }

  /** Each piece, as the image pass leaves it, holds no `style="` opening. */
  lemma StylePiece(p: Piece)
    requires WellFormed(p)
    ensures StyleFree(Stage(1, p))
  {
    match p
    case Text(t) => QuoteFreeStyleFree(t);
    case Image(_) => QuoteFreeStyleFree([]);
    case TableOpen(a) => OpenTagStyleFree("<table", a);
    case RowOpen(a) => OpenTagStyleFree("<tr", a);
    case CellOpen(a) => OpenTagStyleFree("<td", a);
    case OtherTag(m) =>
      forall j | 0 <= j < |m| && j < 6 && m[j] == '"' ensures '<' in m[..j] {
        assert m[..j][0] == '<';
      }
    case _ => QuoteFreeStyleFree(Render(p));
  }

  lemma {:induction false} StyleFreeAll(ps: seq<Piece>)
    requires AllWellFormed(ps)
    ensures StyleFree(StageAll(1, ps))
    decreases |ps|
  {
    if ps == [] {
      QuoteFreeStyleFree([]);
    } else {
      StyleFreeAll(ps[1..]);
      StylePiece(ps[0]);
      StyleFreeAppend(Stage(1, ps[0]), StageAll(1, ps[1..]));
    }
  }

  /** The style pass finds nothing in the pieces. */
  lemma StylePassAll(ps: seq<Piece>)
    requires AllWellFormed(ps)
    ensures ReplaceAll(StyleAttr(StrippedKeywords), StageAll(1, ps), "") == StageAll(2, ps)
  {
    var s := StageAll(1, ps);
    StyleFreeAll(ps);
    ReplaceSkips(StyleAttr(StrippedKeywords), s, "", |s|);
    assert s[..|s|] == s && s[|s|..] == [];
    SameStage(1, ps);
  }

  /** Pass 1 rewrites no piece. */
  lemma {:induction false} SameStage(k: nat, ps: seq<Piece>)
    requires k == 1
    ensures StageAll(k, ps) == StageAll(k + 1, ps)
    decreases |ps|
  {
    if ps != [] {
      SameStage(k, ps[1..]);
    }
  }

  /** An opening tag's fixed text holds no glyph, so bulleting it bullets its attribute text. */
  lemma BulletedOpenTag(lead: string, a: string)
    requires GlyphFree(lead)
    ensures Bulleted(lead + a + ">") == lead + Bulleted(a) + ">"
  {
    ReplaceOneOfAppend(Glyphs, lead + a, ">", [Bullet]);
    ReplaceOneOfAppend(Glyphs, lead, a, [Bullet]);
    MissingClassNoMatch(Glyphs, lead);
    ReplaceNothing(OneOf(Glyphs), lead, [Bullet]);
    MissingClassNoMatch(Glyphs, ">");
    ReplaceNothing(OneOf(Glyphs), ">", [Bullet]);
  }

  /** The glyph pass over one piece. */
  lemma GlyphPiece(p: Piece)
    requires WellFormed(p)
    ensures Bulleted(Stage(2, p)) == Stage(3, p)
  {
    match p
    case Text(_) =>
    case OtherTag(_) =>
    case Image(_) => assert Stage(2, p) == [];
    case TableOpen(a) => BulletedOpenTag("<table", a);
    case RowOpen(a) => BulletedOpenTag("<tr", a);
    case CellOpen(a) => BulletedOpenTag("<td", a);
    case _ =>
      MissingClassNoMatch(Glyphs, Render(p));
      ReplaceNothing(OneOf(Glyphs), Render(p), [Bullet]);
  }

  /** The glyph pass bullets text and other markup, and the attribute text of table tags. */
  lemma {:induction false} GlyphPassAll(ps: seq<Piece>)
    requires AllWellFormed(ps)
    ensures Bulleted(StageAll(2, ps)) == StageAll(3, ps)
    decreases |ps|
  {
    if ps != [] {
      GlyphPassAll(ps[1..]);
      ReplaceOneOfAppend(Glyphs, Stage(2, ps[0]), StageAll(2, ps[1..]), [Bullet]);
      GlyphPiece(ps[0]);
    }
  }

  /** Running the passes from `k` on over the stage-`k` pieces gives the downgraded pieces. */
  lemma {:induction false} PassesFrom(k: nat, ps: seq<Piece>)
    requires k <= 9
    requires AllWellFormed(ps)
    ensures ApplyPasses(SanitizePasses[k..], StageAll(k, ps)) == StageAll(9, ps)
    decreases 9 - k
  {
    if k == 9 {
      assert SanitizePasses[k..] == [];
    } else {
      PassStep(k, StageAll(k, ps));
      if k == 1 {
        StylePassAll(ps);
      } else if k == 2 {
        GlyphPassAll(ps);
      } else {
        AnglePassAll(k, ps);
      }
      PassesFrom(k + 1, ps);
    }
  }

  /**
   * The table rule: a fragment cut into text free of `<` and `"`, image tags,
   * table tags whose attribute text holds no `<`, `>` or `style="` opening,
   * and other tags comes out with images dropped, `<table…>`, `</table>`,
   * `<tr…>`, `</tr>` as `<div>`/`</div>`, `<td…>`, `</td>` as
   * `<span>`/`</span>`, and text and other tags kept but for their glyphs.
   */
  lemma SanitizeTables(ps: seq<Piece>)
    requires AllWellFormed(ps)
    ensures Sanitized(Markup(ps)) == Downgrade(ps)
  {
    StageEnds(ps);
    PassesFrom(0, ps);
  }

  // ---------------------------------------------------------------------
  // Styles

  /** A style match tried at the start of `style="v"…` stops at the quote closing `v`. */
  lemma StyleAttrMatch(keywords: seq<string>, v: string, post: string)
    requires '"' !in v
    ensures MatchLength(StyleAttr(keywords), StyleOpen + v + "\"" + post)
         == if MentionsAny(v, keywords) then Some(|StyleOpen| + |v| + 1) else None
  {
    var w := StyleOpen + v + "\"" + post;
    assert w[..|StyleOpen|] == StyleOpen;
    assert StartsWithCi(w, StyleOpen);
    var u := w[|StyleOpen|..];
    assert u == v + "\"" + post;
    assert u[|v|] == '"' && u[..|v|] == v;
    IndexOfFirst(u, '"', |v|);
  }

  /** No style match starts inside a quote-free prefix followed by `style="`. */
  lemma NoStyleStartBefore(keywords: seq<string>, pre: string, rest: string, repl: string)
    requires '"' !in pre
    requires StartsWith(rest, StyleOpen)
    ensures ReplaceAll(StyleAttr(keywords), pre + rest, repl) == pre + ReplaceAll(StyleAttr(keywords), rest, repl)
  {
    var t := pre + rest;
    forall i | 0 <= i < |pre| ensures MatchLength(StyleAttr(keywords), t[i..]).None? {
      var w := t[i..];
      if i + 6 < |pre| {
        assert w[6] == pre[i + 6];
        assert pre[i + 6] in pre;
      } else {
        assert w[6] == rest[i + 6 - |pre|] == StyleOpen[i + 6 - |pre|];
      }
      assert Lower(w[6]) != Lower(StyleOpen[6]);
    }
    ReplaceSkips(StyleAttr(keywords), t, repl, |pre|);
    assert t[..|pre|] == pre && t[|pre|..] == rest;
  }

  /**
   * The style pass removes a `style="…"` attribute naming a stripped keyword
   * whole, not just the offending declaration, and keeps what comes before it.
   */
  lemma StylePassRemovesWhole(pre: string, v: string, post: string)
    requires '"' !in pre && '"' !in v
    requires MentionsAny(v, StrippedKeywords)
    ensures ReplaceAll(StyleAttr(StrippedKeywords), pre + StyleOpen + v + "\"" + post, "")
         == pre + ReplaceAll(StyleAttr(StrippedKeywords), post, "")
  {
    var p := StyleAttr(StrippedKeywords);
    var attr := StyleOpen + v + "\"";
    calc {
      ReplaceAll(p, pre + StyleOpen + v + "\"" + post, "");
      { assert pre + StyleOpen + v + "\"" + post == pre + (attr + post);
        assert (attr + post)[..|StyleOpen|] == StyleOpen;
        NoStyleStartBefore(StrippedKeywords, pre, attr + post, ""); }
      pre + ReplaceAll(p, attr + post, "");
      { StyleAttrMatch(StrippedKeywords, v, post);
        ReplaceHit(p, attr, post, ""); }
      pre + ReplaceAll(p, post, "");
    }
  }

  /**
   * A style attribute that names none of the stripped keywords (only `grid`
   * or `flex`, say) is kept as it is. Asking that `=` not occur in the value
   * is a simplification: a match could only start inside the attribute when
   * the value ends with `style=`.
   */
  lemma StylePassKeeps(pre: string, v: string, post: string)
    requires '"' !in pre && '"' !in v && '=' !in v
    requires !MentionsAny(v, StrippedKeywords)
    ensures ReplaceAll(StyleAttr(StrippedKeywords), pre + StyleOpen + v + "\"" + post, "")
         == pre + StyleOpen + v + "\"" + ReplaceAll(StyleAttr(StrippedKeywords), post, "")
  {
    var p := StyleAttr(StrippedKeywords);
    var attr := StyleOpen + v + "\"";
    calc {
      ReplaceAll(p, pre + StyleOpen + v + "\"" + post, "");
      { assert pre + StyleOpen + v + "\"" + post == pre + (attr + post);
        assert (attr + post)[..|StyleOpen|] == StyleOpen;
        NoStyleStartBefore(StrippedKeywords, pre, attr + post, ""); }
      pre + ReplaceAll(p, attr + post, "");
      { NoStyleStartInside(v, post);
        ReplaceSkips(p, attr + post, "", |attr|);
        assert (attr + post)[..|attr|] == attr && (attr + post)[|attr|..] == post; }
      pre + (attr + ReplaceAll(p, post, ""));
    }
  }

  /** Inside a kept attribute no style match starts. */
  lemma NoStyleStartInside(v: string, post: string)
    requires '"' !in v && '=' !in v
    requires !MentionsAny(v, StrippedKeywords)
    ensures forall j :: 0 <= j < |StyleOpen + v + "\""| ==>
              MatchLength(StyleAttr(StrippedKeywords), (StyleOpen + v + "\"" + post)[j..]).None?
  {
    var p := StyleAttr(StrippedKeywords);
    var attr := StyleOpen + v + "\"";
    var rest := attr + post;
    forall j | 0 <= j < |attr| ensures MatchLength(p, rest[j..]).None? {
      var w := rest[j..];
      if j == 0 {
        assert w == rest;
        StyleAttrMatch(StrippedKeywords, v, post);
      } else if j + 5 < |attr| {
        assert w[5] == attr[j + 5];
        if |StyleOpen| <= j + 5 < |StyleOpen| + |v| {
          assert attr[j + 5] == v[j + 5 - |StyleOpen|];
          assert v[j + 5 - |StyleOpen|] in v;
        }
        assert attr[j + 5] != '=';
        assert Lower(w[5]) != Lower(StyleOpen[5]);
      } else {
        var o := |attr| - 1 - j;
        assert w[o] == attr[|attr| - 1] == '"';
        assert Lower(w[o]) != Lower(StyleOpen[o]);
      }
    }
  }

  /** `ContainsCi(v, ks[j])` for some keyword `j` is what `MentionsAny` asks. */
  lemma {:induction false} MentionsMember(v: string, ks: seq<string>, j: nat)
    requires j < |ks| && ContainsCi(v, ks[j])
    ensures MentionsAny(v, ks)
    decreases j
  {
    if j > 0 {
      MentionsMember(v, ks[1..], j - 1);
    }
  }

  /** A style attribute naming `grid` or `flex` is still flagged as complex CSS. */
  lemma GridOrFlexFlagged(pre: string, v: string, post: string)
    requires '"' !in v
    requires ContainsCi(v, "grid") || ContainsCi(v, "flex")
    ensures HasComplexCss(pre + StyleOpen + v + "\"" + post)
  {
    if ContainsCi(v, "grid") {
      MentionsMember(v, LayoutKeywords, 5);
    } else {
      MentionsMember(v, LayoutKeywords, 6);
    }
    var t := pre + StyleOpen + v + "\"" + post;
    assert t[|pre|..] == StyleOpen + v + "\"" + post;
    StyleAttrMatch(LayoutKeywords, v, post);
    OccursAt(StyleAttr(LayoutKeywords), t, |pre|);
  }

  // ---------------------------------------------------------------------
  // Images

  /** The image pass removes an `<img…>` tag and keeps the `<`-free text before it. */
  lemma ImagePassRemoves(pre: string, a: string, post: string)
    requires forall i :: 0 <= i < |pre| ==> pre[i] != '<'
    requires forall i :: 0 <= i < |a| ==> a[i] != '>'
    ensures ReplaceAll(OpenTag("<img"), pre + "<img" + a + ">" + post, "")
         == pre + ReplaceAll(OpenTag("<img"), post, "")
  {
    var p := OpenTag("<img");
    var rest := "<img" + a + ">" + post;
    calc {
      ReplaceAll(p, pre + "<img" + a + ">" + post, "");
      { assert pre + "<img" + a + ">" + post == pre + rest; }
      ReplaceAll(p, pre + rest, "");
      { SkipPiece(p, pre, rest, "", 0); }
      pre + ReplaceAll(p, rest, "");
      { OpenTagHit("<img", a, post, ""); }
      pre + ReplaceAll(p, post, "");
    }
  }

  /**
   * The passes after the image pass leave alone a text whose only `<` is its
   * first character and is followed by `i`, that holds no `"` and no glyph
   * (a bare `<img>`, say).
   */
  lemma {:induction false} LaterPassesKeep(k: nat, s: string)
    requires 1 <= k <= |SanitizePasses|
    requires |s| >= 2 && s[0] == '<' && s[1] == 'i'
    requires forall i :: 0 < i < |s| ==> s[i] != '<'
    requires '"' !in s && GlyphFree(s)
    ensures ApplyPasses(SanitizePasses[k..], s) == s
    decreases |SanitizePasses| - k
  {
    if k == |SanitizePasses| {
      assert SanitizePasses[k..] == [];
    } else {
      PassStep(k, s);
      if k == 1 {
        assert Lower(StyleOpen[6]) == '"';
        MissingLetterNoMatch(StyleAttr(StrippedKeywords), s, '"');
        ReplaceNothing(StyleAttr(StrippedKeywords), s, "");
      } else if k == 2 {
        MissingClassNoMatch(Glyphs, s);
        ReplaceNothing(OneOf(Glyphs), s, [Bullet]);
      } else {
        var pat := SanitizePasses[k].0;
        assert AngleLed(pat) && Lead(pat)[1] != 'i';
        SkipPiece(pat, s, "", SanitizePasses[k].1, 1);
        assert s + "" == s;
      }
      LaterPassesKeep(k + 1, s);
    }
  }

  // ---------------------------------------------------------------------
  // A kept style through every pass

  /** A style attribute with `<`-free, quote-free text before it. */
  function KeptStyle(pre: string, v: string): string {
    pre + StyleOpen + v + "\""
  }

  /** What a style attribute and the text before it must avoid to come through sanitizing unchanged. */
  predicate PlainStyle(pre: string, v: string) {
    && '<' !in pre && '"' !in pre && GlyphFree(pre)
    && '<' !in v && '"' !in v && '=' !in v && GlyphFree(v)
    && !MentionsAny(v, StrippedKeywords)
  }

  lemma KeptStylePlain(pre: string, v: string)
    requires PlainStyle(pre, v)
    ensures '<' !in KeptStyle(pre, v) && GlyphFree(KeptStyle(pre, v)) && KeptStyle(pre, v) != []
  {
    var x := KeptStyle(pre, v);
    forall i | 0 <= i < |x| ensures x[i] != '<' && x[i] !in Glyphs {
      if i < |pre| {
        assert x[i] == pre[i];
      } else if i < |pre| + |StyleOpen| {
        assert x[i] == StyleOpen[i - |pre|];
      } else if i < |pre| + |StyleOpen| + |v| {
        assert x[i] == v[i - |pre| - |StyleOpen|];
      } else {
        assert x[i] == '"';
      }
    }
  }

  /** The passes from `k` on copy a kept style attribute in front of the text and work on the rest. */
  lemma {:induction false} PassesKeepStyle(k: nat, pre: string, v: string, s: string)
    requires k <= |SanitizePasses|
    requires PlainStyle(pre, v)
    ensures ApplyPasses(SanitizePasses[k..], KeptStyle(pre, v) + s)
         == KeptStyle(pre, v) + ApplyPasses(SanitizePasses[k..], s)
    decreases |SanitizePasses| - k
  {
    var x := KeptStyle(pre, v);
    if k == |SanitizePasses| {
      assert SanitizePasses[k..] == [];
    } else {
      var pat, repl := SanitizePasses[k].0, SanitizePasses[k].1;
      PassStep(k, x + s);
      PassStep(k, s);
      KeptStylePlain(pre, v);
      if k == 1 {
        StylePassKeeps(pre, v, s);
      } else if k == 2 {
        ReplaceOneOfAppend(Glyphs, x, s, [Bullet]);
        MissingClassNoMatch(Glyphs, x);
        ReplaceNothing(OneOf(Glyphs), x, [Bullet]);
      } else {
        assert AngleLed(pat);
        assert x[0] != '<' by { assert x[0] in x; }
        SkipPiece(pat, x, s, repl, 0);
      }
      assert ReplaceAll(pat, x + s, repl) == x + ReplaceAll(pat, s, repl);
      PassesKeepStyle(k + 1, pre, v, ReplaceAll(pat, s, repl));
    }
  }

  /**
   * A style attribute naming only `grid` or `flex` comes through sanitizing
   * unchanged, with the text before it, and the sanitized page is still
   * flagged as complex CSS.
   */
  lemma GridOrFlexSurvives(pre: string, v: string, post: string)
    requires PlainStyle(pre, v)
    requires ContainsCi(v, "grid") || ContainsCi(v, "flex")
    ensures Sanitized(pre + StyleOpen + v + "\"" + post) == pre + StyleOpen + v + "\"" + Sanitized(post)
    ensures HasComplexCss(Sanitized(pre + StyleOpen + v + "\"" + post))
  {
    PassesKeepStyle(0, pre, v, post);
    assert SanitizePasses[0..] == SanitizePasses;
    GridOrFlexFlagged(pre, v, Sanitized(post));
  }
}
