/**
 * Worked inputs for `sanitizeForATS`: the table fragment of the validator
 * scenario, and an image tag that the single image pass brings into being.
 */
module SanitizerExamples {
  import opened Wrappers
  import opened Text
  import opened Patterns
  import opened AtsValidator
  import opened Sanitizer

  lemma {:induction false} MarkupAppend(a: seq<Piece>, b: seq<Piece>)
    ensures Markup(a + b) == Markup(a) + Markup(b)
    decreases |a|
  {
    if a == [] {
      assert a + b == b;
    } else {
      assert (a + b)[1..] == a[1..] + b;
      MarkupAppend(a[1..], b);
    }
  }

  lemma {:induction false} DowngradeAppend(a: seq<Piece>, b: seq<Piece>)
    ensures Downgrade(a + b) == Downgrade(a) + Downgrade(b)
    decreases |a|
  {
    if a == [] {
      assert a + b == b;
    } else {
      assert (a + b)[1..] == a[1..] + b;
      DowngradeAppend(a[1..], b);
    }
  }

  lemma OpeningTags()
    ensures Markup([TableOpen(""), RowOpen(""), CellOpen("")]) == "<table><tr><td>"
    ensures Downgrade([TableOpen(""), RowOpen(""), CellOpen("")]) == "<div><div><span>"
  {
  }

  lemma ClosingTags()
    ensures Markup([CellClose, RowClose, TableClose]) == "</td></tr></table>"
    ensures Downgrade([CellClose, RowClose, TableClose]) == "</span></div></div>"
  {
  }

  /** The pieces of a one-cell table: what they render to, what they are downgraded to, and that they are well formed. */
  lemma SingleCellPieces(x: string, ps: seq<Piece>)
    requires forall i :: 0 <= i < |x| ==> x[i] != '<' && x[i] != '"'
    requires ps == [TableOpen(""), RowOpen(""), CellOpen("")] + ([Text(x)] + [CellClose, RowClose, TableClose])
    ensures Markup(ps) == "<table><tr><td>" + (x + "</td></tr></table>")
    ensures Downgrade(ps) == "<div><div><span>" + (Bulleted(x) + "</span></div></div>")
    ensures AllWellFormed(ps)
  {
    var opening := [TableOpen(""), RowOpen(""), CellOpen("")];
    var closing := [CellClose, RowClose, TableClose];
    OpeningTags();
    ClosingTags();
    MarkupAppend(opening, [Text(x)] + closing);
    MarkupAppend([Text(x)], closing);
    DowngradeAppend(opening, [Text(x)] + closing);
    DowngradeAppend([Text(x)], closing);
    assert Markup([Text(x)]) == x && Downgrade([Text(x)]) == Bulleted(x);
    forall j | 0 <= j < |ps| ensures WellFormed(ps[j]) {
      if j == 3 {
        assert ps[j] == Text(x);
      }
    }
  }

  /**
   * One table, one row, one cell: `<table><tr><td>x</td></tr></table>` becomes
   * `<div><div><span>x</span></div></div>`, for any cell text free of `<` and `"`.
   */
  lemma SingleCellTable(x: string)
    requires forall i :: 0 <= i < |x| ==> x[i] != '<' && x[i] != '"'
    ensures Sanitized("<table><tr><td>" + (x + "</td></tr></table>")) == "<div><div><span>" + (Bulleted(x) + "</span></div></div>")
  {
    var ps := [TableOpen(""), RowOpen(""), CellOpen("")] + ([Text(x)] + [CellClose, RowClose, TableClose]);
    SingleCellPieces(x, ps);
    SanitizeTables(ps);
  }

  /** The validator scenario's fragment: `<table><tr><td>x</td></tr></table>`. */
  lemma TableScenario(x: string)
    requires x == "x"
    ensures Sanitized("<table><tr><td>" + (x + "</td></tr></table>")) == "<div><div><span>" + (x + "</span></div></div>")
  {
    SingleCellTable(x);
    MissingClassNoMatch(Glyphs, x);
    ReplaceNothing(OneOf(Glyphs), x, [Bullet]);
  }

  lemma BareImagePlain(s: string)
    requires s == "<im" + "g>"
    ensures GlyphFree(s) && '"' !in s
  {
    forall i | 0 <= i < |s| ensures s[i] !in Glyphs {
      assert s[i] < '\U{0080}';
    }
  }

  /** No image match starts in `<im` when the next character is `<`. */
  lemma ImagePassSkipsIm(rest: string)
    requires rest != [] && rest[0] == '<'
    ensures ReplaceAll(OpenTag("<img"), "<im" + rest, "") == "<im" + ReplaceAll(OpenTag("<img"), rest, "")
  {
    var p := OpenTag("<img");
    var html := "<im" + rest;
    assert Lower(html[3]) != Lower("<img"[3]);
    assert MatchLength(p, html[0..]).None? by { assert html[0..] == html; }
    NoMatchOffAngle(p, html[1..]);
    NoMatchOffAngle(p, html[2..]);
    ReplaceSkips(p, html, "", 3);
    assert html[..3] == "<im" && html[3..] == rest;
  }

  /** The image pass over `<im<img…>g>` removes the inner tag and joins what is around it. */
  lemma ImagePassJoins(a: string)
    requires forall i :: 0 <= i < |a| ==> a[i] != '>'
    ensures ReplaceAll(OpenTag("<img"), "<im" + ("<img" + a + ">" + "g>"), "") == "<im" + "g>"
  {
    var p := OpenTag("<img");
    var rest := "<img" + a + ">" + "g>";
    ImagePassSkipsIm(rest);
    OpenTagHit("<img", a, "g>", "");
    SkipPiece(p, "g>", "", "", 0);
    assert "g>" + "" == "g>";
  }

  /**
   * Each rule is one pass, so an image tag can be formed by the removal of
   * another: `<im<img…>g>` sanitizes to `<img>`, which is still an image.
   */
  lemma ImageReforms(a: string)
    requires forall i :: 0 <= i < |a| ==> a[i] != '>'
    ensures Sanitized("<im" + ("<img" + a + ">" + "g>")) == "<im" + "g>"
    ensures HasImages(Sanitized("<im" + ("<img" + a + ">" + "g>")))
  {
    var html := "<im" + ("<img" + a + ">" + "g>");
    ImagePassJoins(a);
    var out := ReplaceAll(OpenTag("<img"), html, "");
    PassStep(0, html);
    BareImagePlain(out);
    LaterPassesKeep(1, out);
    BareImageIsImage(out);
  }

  lemma BareImageIsImage(s: string)
    requires s == "<im" + "g>"
    ensures HasImages(s)
  {
    assert s[..|"<img"|] == "<img";
    assert s[|"<img"|..] == ">";
    assert MatchLength(OpenTag("<img"), s).Some?;
  }

  /** Text with no character folding to `y` holds no `style="` opening. */
  lemma NoYNoStyle(s: string)
    requires forall i :: 0 <= i < |s| ==> Lower(s[i]) != 'y'
    ensures !NamesStyle(s)
  {
    assert Lower(StyleOpen[2]) == 'y';
    forall i | 0 <= i < |s| ensures !StartsWithCi(s[i..], StyleOpen) {
      if i + 2 < |s| {
        assert s[i..][2] == s[i + 2];
      }
    }
  }

  /** The second character of every tag lead, and the third after a `/`. */
  lemma TagLeadShape(j: nat)
    requires j < |TagLeads|
    ensures |TagLeads[j]| >= 3 && TagLeads[j][1] in {'i', 't', '/'}
    ensures TagLeads[j][1] == '/' ==> TagLeads[j][2] == 't'
  {
    if j == 0 {
    } else if j == 1 {
    } else if j == 2 {
    } else if j == 3 {
    } else if j == 4 {
    } else if j == 5 {
    } else {
    }
  }

  /** A tag `<c…` or `</c…`, for a letter `c` no tag lead has there, is none of the seven tags. */
  lemma LetterTagDiverges(m: string, c: char)
    requires |m| >= 3 && m[0] == '<'
    requires m[1] == c || (m[1] == '/' && m[2] == c)
    requires Lower(c) != 'i' && Lower(c) != 't' && Lower(c) != '/'
    ensures forall j :: 0 <= j < |TagLeads| ==> Diverges(m, TagLeads[j])
  {
    forall j | 0 <= j < |TagLeads| ensures Diverges(m, TagLeads[j]) {
      var lead := TagLeads[j];
      TagLeadShape(j);
      if m[1] == c || lead[1] != '/' {
        assert Lower(m[1]) != Lower(lead[1]);
      } else {
        assert Lower(m[2]) != Lower(lead[2]);
      }
    }
  }

  /** Markup with no glyph is kept by the glyph pass. */
  lemma GlyphFreeKept(m: string)
    requires forall i :: 0 <= i < |m| ==> m[i] < '\U{0080}'
    ensures Bulleted(m) == m
  {
    assert forall i :: 0 <= i < |m| ==> m[i] !in Glyphs;
    MissingClassNoMatch(Glyphs, m);
    ReplaceNothing(OneOf(Glyphs), m, [Bullet]);
  }

  lemma MarkupCons(p: Piece, ps: seq<Piece>)
    ensures Markup([p] + ps) == Render(p) + Markup(ps)
    ensures Downgrade([p] + ps) == Downgraded(p) + Downgrade(ps)
  {
    assert ([p] + ps)[1..] == ps;
  }

  lemma WellFormedCons(p: Piece, ps: seq<Piece>)
    requires WellFormed(p) && AllWellFormed(ps)
    ensures AllWellFormed([p] + ps)
  {
    forall j | 0 <= j < |[p] + ps| ensures WellFormed(([p] + ps)[j]) {
      if j > 0 {
        assert ([p] + ps)[j] == ps[j - 1];
      }
    }
  }

  lemma StyledTagsWellFormed()
    ensures WellFormed(CellOpen(" class=\"cv\"")) && WellFormed(Image(" src=\"a.png\""))
    ensures WellFormed(OtherTag("<b>")) && WellFormed(OtherTag("</b>"))
  {
    NoYNoStyle(" class=\"cv\"");
    NoYNoStyle("<b>");
    NoYNoStyle("</b>");
    LetterTagDiverges("<b>", 'b');
    LetterTagDiverges("</b>", 'b');
  }

  /** A cell with a class, an image and bold text `x`: `<td class="cv"><img src="a.png"><b>x</b></td>`. */
  function StyledCell(x: string): seq<Piece> {
    [CellOpen(" class=\"cv\"")] + ([Image(" src=\"a.png\"")] + ([OtherTag("<b>")] + ([Text(x)] + ([OtherTag("</b>")] + [CellClose]))))
  }

  lemma StyledTagsRendered()
    ensures Render(CellOpen(" class=\"cv\"")) == "<td class=\"cv\">"
    ensures Render(Image(" src=\"a.png\"")) == "<img src=\"a.png\">"
  {
    assert "<td" + " class=\"cv\"" + ">" == "<td class=\"cv\">";
    assert "<img" + " src=\"a.png\"" + ">" == "<img src=\"a.png\">";
  }

  lemma StyledCellMarkup(x: string)
    ensures Markup(StyledCell(x)) == "<td class=\"cv\">" + ("<img src=\"a.png\">" + ("<b>" + (x + ("</b>" + "</td>"))))
  {
    var p5 := [CellClose];
    var p4 := [OtherTag("</b>")] + p5;
    var p3 := [Text(x)] + p4;
    var p2 := [OtherTag("<b>")] + p3;
    var p1 := [Image(" src=\"a.png\"")] + p2;
    StyledTagsRendered();
    assert Markup(p5) == "</td>";
    MarkupCons(OtherTag("</b>"), p5);
    MarkupCons(Text(x), p4);
    MarkupCons(OtherTag("<b>"), p3);
    MarkupCons(Image(" src=\"a.png\""), p2);
    MarkupCons(CellOpen(" class=\"cv\""), p1);
  }

  lemma StyledCellDowngrade(x: string)
    ensures Downgrade(StyledCell(x)) == "<span>" + ("<b>" + (Bulleted(x) + ("</b>" + "</span>")))
  {
    var p5 := [CellClose];
    var p4 := [OtherTag("</b>")] + p5;
    var p3 := [Text(x)] + p4;
    var p2 := [OtherTag("<b>")] + p3;
    var p1 := [Image(" src=\"a.png\"")] + p2;
    GlyphFreeKept("<b>");
    GlyphFreeKept("</b>");
    assert Downgrade(p5) == "</span>";
    MarkupCons(OtherTag("</b>"), p5);
    MarkupCons(Text(x), p4);
    MarkupCons(OtherTag("<b>"), p3);
    MarkupCons(Image(" src=\"a.png\""), p2);
    MarkupCons(CellOpen(" class=\"cv\""), p1);
    assert "" + ("<b>" + (Bulleted(x) + ("</b>" + "</span>"))) == "<b>" + (Bulleted(x) + ("</b>" + "</span>"));
  }

  lemma StyledCellWellFormed(x: string)
    requires forall i :: 0 <= i < |x| ==> x[i] != '<' && x[i] != '"'
    ensures AllWellFormed(StyledCell(x))
  {
    var p5 := [CellClose];
    var p4 := [OtherTag("</b>")] + p5;
    var p3 := [Text(x)] + p4;
    var p2 := [OtherTag("<b>")] + p3;
    var p1 := [Image(" src=\"a.png\"")] + p2;
    StyledTagsWellFormed();
    assert AllWellFormed(p5);
    WellFormedCons(OtherTag("</b>"), p5);
    WellFormedCons(Text(x), p4);
    WellFormedCons(OtherTag("<b>"), p3);
    WellFormedCons(Image(" src=\"a.png\""), p2);
    WellFormedCons(CellOpen(" class=\"cv\""), p1);
  }

  /**
   * Attribute text with quotes, an image and other markup inside a cell:
   * `<td class="cv"><img src="a.png"><b>x</b></td>` becomes
   * `<span><b>x</b></span>`, with glyphs in `x` bulleted.
   */
  lemma StyledCellSanitized(x: string)
    requires forall i :: 0 <= i < |x| ==> x[i] != '<' && x[i] != '"'
    ensures Sanitized("<td class=\"cv\">" + ("<img src=\"a.png\">" + ("<b>" + (x + ("</b>" + "</td>")))))
         == "<span>" + ("<b>" + (Bulleted(x) + ("</b>" + "</span>")))
  {
    StyledCellMarkup(x);
    StyledCellDowngrade(x);
    StyledCellWellFormed(x);
    SanitizeTables(StyledCell(x));
  }
}
