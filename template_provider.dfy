/**
 * The template generator used when no AI service is available: it reads a
 * handful of labelled fields out of the prompt text with regular
 * expressions, fills in defaults, and renders a CV and a cover letter as
 * HTML wrapped in the four markers the client splits the reply on.
 */
module TemplateProvider {
  import opened Wrappers
  import opened Text

  // ----- Searching the prompt -----

  /** The word `w` occurs in `s` starting at position `i`. */
  predicate WordAt(s: string, w: string, i: nat) {
    i + |w| <= |s| && s[i..i + |w|] == w
  }

  /** Dropping the first character moves every occurrence one place to the left. */
  lemma WordAtShift(s: string, w: string, j: nat)
    requires s != [] && j >= 1
    ensures WordAt(s, w, j) <==> WordAt(s[1..], w, j - 1)
  {
    if j + |w| <= |s| {
      var here, there := s[j..j + |w|], s[1..][j - 1..j - 1 + |w|];
      assert |here| == |there|;
      assert forall k :: 0 <= k < |here| ==> here[k] == s[j + k] == there[k];
    }
  }

  /** `s.indexOf(w)`: the first position where `w` starts. */
  function FindFirst(s: string, w: string): (r: Option<nat>)
    ensures r.None? <==> !Contains(s, w)
    ensures r.Some? ==> WordAt(s, w, r.value)
    ensures r.Some? ==> forall j :: 0 <= j < r.value ==> !WordAt(s, w, j)
    decreases |s|
  {
    if StartsWith(s, w) then
      assert s[0..|w|] == s[..|w|];
      Some(0)
    else if s == [] then None
    else match FindFirst(s[1..], w)
      case None => None
      case Some(i) =>
        WordAtShift(s, w, i + 1);
        assert forall j :: 1 <= j < i + 1 ==> !WordAt(s, w, j) by {
          forall j | 1 <= j < i + 1 ensures !WordAt(s, w, j) { WordAtShift(s, w, j); }
        }
        assert !WordAt(s, w, 0) by { assert s[0..|w|] == s[..|w|]; }
        Some(i + 1)
  }

  /** The first position where a word starts is the one `FindFirst` reports. */
  lemma {:induction false} FindFirstAt(s: string, w: string, i: nat)
    requires WordAt(s, w, i)
    requires forall j :: 0 <= j < i ==> !WordAt(s, w, j)
    ensures FindFirst(s, w) == Some(i)
    decreases i
  {
    if i == 0 {
      assert s[0..|w|] == s[..|w|];
    } else {
      assert !StartsWith(s, w) by { assert !WordAt(s, w, 0); assert s[0..|w|] == s[..|w|]; }
      forall j | 0 <= j < i - 1 ensures !WordAt(s[1..], w, j) {
        WordAtShift(s, w, j + 1);
      }
      WordAtShift(s, w, i);
      FindFirstAt(s[1..], w, i - 1);
    }
  }

  /** The text of `t` up to its first line break. */
  function LineOf(t: string): (r: string)
    ensures '\n' !in r && StartsWith(t, r)
    ensures |r| < |t| ==> t[|r|] == '\n'
  {
    match IndexOf(t, '\n')
    case None => t
    case Some(i) => t[..i]
  }

  /**
   * The trimmed capture of `\s*([^\n]+)` matched right after a label. The
   * greedy `\s*` skips all white space, line breaks included; when only
   * white space is left, it gives back one character that is not a line
   * break, which trims to nothing, and when there is none the match fails.
   */
  function LineCapture(rest: string): (r: Option<string>)
    ensures r.Some? ==> '\n' !in r.value
    ensures r.Some? ==> r.value == [] || (!IsSpace(r.value[0]) && !IsSpace(r.value[|r.value| - 1]))
  {
    var t := TrimStart(rest);
    if t != [] then
      TrimKeepsOut(LineOf(t), '\n');
      Some(Trim(LineOf(t)))
    else if exists i :: 0 <= i < |rest| && rest[i] != '\n' then Some([])
    else None
  }

  /** `prompt.match(/<label>\s*([^\n]+)/)`, trimmed: the first label whose match succeeds. */
  function LineField(prompt: string, key: string): Option<string> {
    match FindFirst(prompt, key)
    case None => None
    case Some(i) => LineCapture(prompt[i + |key|..])
  }

  /** One of `words` starts at position `j` of `t`. */
  predicate StopAt(t: string, words: seq<string>, j: nat) {
    exists k :: 0 <= k < |words| && WordAt(t, words[k], j)
  }

  lemma StopAtShift(t: string, words: seq<string>, j: nat)
    requires t != [] && j >= 1
    ensures StopAt(t, words, j) <==> StopAt(t[1..], words, j - 1)
  {
    forall k | 0 <= k < |words| ensures WordAt(t, words[k], j) <==> WordAt(t[1..], words[k], j - 1) {
      WordAtShift(t, words[k], j);
    }
  }

  /** The first position of `t` where one of `words` starts, or the end of `t`. */
  function FirstStop(t: string, words: seq<string>): (q: nat)
    ensures q <= |t|
    ensures q < |t| ==> StopAt(t, words, q)
    ensures forall j :: 0 <= j < q ==> !StopAt(t, words, j)
    decreases |t|
  {
    if t == [] || StopAt(t, words, 0) then 0
    else
      var q := FirstStop(t[1..], words);
      StopAtShift(t, words, q + 1);
      assert forall j :: 1 <= j < q + 1 ==> !StopAt(t, words, j) by {
        forall j | 1 <= j < q + 1 ensures !StopAt(t, words, j) { StopAtShift(t, words, j); }
      }
      1 + q
  }

  /** The first stop position is the one `FirstStop` reports. */
  lemma FirstStopAt(t: string, words: seq<string>, q: nat)
    requires q <= |t| && (q < |t| ==> StopAt(t, words, q))
    requires forall j :: 0 <= j < q ==> !StopAt(t, words, j)
    ensures FirstStop(t, words) == q
  {
  }

  /**
   * The trimmed capture of `\s*([\s\S]*?)(?=w1|w2|...|$)` matched right
   * after a label: everything after the leading white space up to the first
   * stop word, or to the end.
   */
  function BlockCapture(rest: string, stops: seq<string>): (r: string)
    ensures r == [] || (!IsSpace(r[0]) && !IsSpace(r[|r| - 1]))
  {
    var t := TrimStart(rest);
    Trim(t[..FirstStop(t, stops)])
  }

  /** `prompt.match(/<label>\s*([\s\S]*?)(?=...)/)`, trimmed; the lookahead always succeeds at the end. */
  function BlockField(prompt: string, key: string, stops: seq<string>): Option<string> {
    match FindFirst(prompt, key)
    case None => None
    case Some(i) => Some(BlockCapture(prompt[i + |key|..], stops))
  }

  /** `"([^"]+)"\s+template style` matched at the start of `t`. */
  function QuotedStyleAt(t: string): (r: Option<string>)
    ensures r.Some? ==> r.value != [] && '"' !in r.value
  {
    if t == [] || t[0] != '"' then None
    else match IndexOf(t[1..], '"')
      case None => None
      case Some(j) =>
        var after := t[1..][j + 1..];
        var trimmed := TrimStart(after);
        if j > 0 && |trimmed| < |after| && StartsWith(trimmed, "template style") then Some(t[1..][..j])
        else None
  }

  /** `prompt.match(/"([^"]+)"\s+template style/)[1]`: the leftmost position where the pattern matches. */
  function TemplateStyle(prompt: string): (r: Option<string>)
    ensures r.Some? ==> r.value != [] && '"' !in r.value && '"' in prompt
    decreases |prompt|
  {
    if prompt == [] then None
    else match QuotedStyleAt(prompt)
      case Some(name) => Some(name)
      case None =>
        var r := TemplateStyle(prompt[1..]);
        assert r.Some? ==> prompt[1..] != [] && prompt[1..][0] == prompt[1];
        r
  }

  // ----- The fields of a prompt -----

  datatype Fields = Fields(
    name: string, email: string, phone: string, jobTitle: string,
    education: string, experience: string, skills: string,
    jobDescription: string, template: string)

  const EducationStops: seq<string> := ["WORK EXPERIENCE", "SKILLS", "TARGET JOB"]
  const ExperienceStops: seq<string> := ["SKILLS", "TARGET JOB"]
  const JobDescriptionStops: seq<string> := ["INSTRUCTIONS"]

  /** The fields `generateCV` reads from its prompt, with the defaults for the missing ones. */
  function ExtractFields(prompt: string): Fields {
    Fields(
      LineField(prompt, "Name:").GetOr("Your Name"),
      LineField(prompt, "Email:").GetOr(""),
      LineField(prompt, "Phone:").GetOr(""),
      LineField(prompt, "Position:").GetOr(""),
      BlockField(prompt, "EDUCATION:", EducationStops).GetOr("Not provided"),
      BlockField(prompt, "WORK EXPERIENCE:", ExperienceStops).GetOr("Not provided"),
      LineField(prompt, "SKILLS:").GetOr(""),
      BlockField(prompt, "Job Description:", JobDescriptionStops).GetOr(""),
      TemplateStyle(prompt).GetOr("classic"))
  }

  /** A prompt without a field's label gets that field's default. */
  lemma MissingFieldsDefault(prompt: string)
    ensures var f := ExtractFields(prompt);
      && (!Contains(prompt, "Name:") ==> f.name == "Your Name")
      && (!Contains(prompt, "Email:") ==> f.email == "")
      && (!Contains(prompt, "Phone:") ==> f.phone == "")
      && (!Contains(prompt, "Position:") ==> f.jobTitle == "")
      && (!Contains(prompt, "EDUCATION:") ==> f.education == "Not provided")
      && (!Contains(prompt, "WORK EXPERIENCE:") ==> f.experience == "Not provided")
      && (!Contains(prompt, "SKILLS:") ==> f.skills == "")
      && (!Contains(prompt, "Job Description:") ==> f.jobDescription == "")
      && ('"' !in prompt ==> f.template == "classic")
  {
  }

  lemma LineFieldAt(s: string, key: string, i: nat)
    requires FindFirst(s, key) == Some(i)
    ensures LineField(s, key) == LineCapture(s[i + |key|..])
  {
  }

  /** After white space, the capture is the rest of the line, trimmed. */
  lemma LineCaptureOfLine(pad: string, line: string, tail: string)
    requires forall i :: 0 <= i < |pad| ==> IsSpace(pad[i])
    requires line != [] && !IsSpace(line[0]) && '\n' !in line
    requires tail == [] || tail[0] == '\n'
    ensures LineCapture(pad + line + tail) == Some(Trim(line))
  {
    var x := line + tail;
    assert pad + line + tail == pad + x;
    TrimStartPad(pad, x);
    assert LineOf(x) == line by {
      if tail == [] {
        assert x == line;
      } else {
        assert x[|line|] == '\n' && x[..|line|] == line;
        IndexOfFirst(x, '\n', |line|);
      }
    }
  }

  /**
   * A single-line field is the rest of the line after the first occurrence
   * of its label, trimmed; white space and line breaks between the label
   * and the value are skipped, so a blank label line takes the value from
   * the next line.
   */
  lemma LineFieldValue(prompt: string, key: string, i: nat, pad: string, line: string, tail: string)
    requires WordAt(prompt, key, i) && forall j :: 0 <= j < i ==> !WordAt(prompt, key, j)
    requires prompt[i + |key|..] == pad + line + tail
    requires forall k :: 0 <= k < |pad| ==> IsSpace(pad[k])
    requires line != [] && !IsSpace(line[0]) && '\n' !in line
    requires tail == [] || tail[0] == '\n'
    ensures LineField(prompt, key) == Some(Trim(line))
  {
    FindFirstAt(prompt, key, i);
    LineFieldAt(prompt, key, i);
    LineCaptureOfLine(pad, line, tail);
  }

  /** The name is read from the first `Name:` label, trimmed. */
  lemma NameFromFirstLabel(prompt: string, i: nat, pad: string, line: string, tail: string)
    requires WordAt(prompt, "Name:", i) && forall j :: 0 <= j < i ==> !WordAt(prompt, "Name:", j)
    requires prompt[i + 5..] == pad + line + tail
    requires forall k :: 0 <= k < |pad| ==> IsSpace(pad[k])
    requires line != [] && !IsSpace(line[0]) && '\n' !in line
    requires tail == [] || tail[0] == '\n'
    ensures ExtractFields(prompt).name == Trim(line)
  {
    LineFieldValue(prompt, "Name:", i, pad, line, tail);
  }

  /**
   * A multi-line field runs from the first non-blank character after its
   * label to the first stop word, trimmed.
   */
  lemma BlockStopsAtFirstStop(pad: string, body: string, stop: string, tail: string, stops: seq<string>)
    requires forall i :: 0 <= i < |pad| ==> IsSpace(pad[i])
    requires body != [] && !IsSpace(body[0])
    requires stop in stops
    requires forall j :: 0 <= j < |body| ==> !StopAt(body + stop + tail, stops, j)
    ensures BlockCapture(pad + (body + stop + tail), stops) == Trim(body)
  {
    var t := body + stop + tail;
    TrimStartPad(pad, t);
    var k :| 0 <= k < |stops| && stops[k] == stop;
    assert t[|body|..|body| + |stop|] == stop;
    assert WordAt(t, stops[k], |body|);
    FirstStopAt(t, stops, |body|);
    assert t[..|body|] == body;
  }

  /** With no stop word after it, a multi-line field runs to the end of the prompt. */
  lemma BlockRunsToEnd(pad: string, body: string, stops: seq<string>)
    requires forall i :: 0 <= i < |pad| ==> IsSpace(pad[i])
    requires body == [] || !IsSpace(body[0])
    requires forall j :: 0 <= j < |body| ==> !StopAt(body, stops, j)
    ensures BlockCapture(pad + body, stops) == Trim(body)
  {
    TrimStartPad(pad, body);
    FirstStopAt(body, stops, |body|);
    assert body[..|body|] == body;
  }

  /** No match can start at a character other than a quote, so the search passes over quote-free text. */
  lemma {:induction false} TemplateSkipsUnquoted(pre: string, rest: string)
    requires '"' !in pre
    ensures TemplateStyle(pre + rest) == TemplateStyle(rest)
    decreases |pre|
  {
    if pre != [] {
      assert (pre + rest)[0] == pre[0];
      assert (pre + rest)[1..] == pre[1..] + rest;
      TemplateSkipsUnquoted(pre[1..], rest);
    } else {
      assert pre + rest == rest;
    }
  }

  lemma QuotedStyleAtIntro(s: string, j: nat)
    requires s != [] && s[0] == '"' && IndexOf(s[1..], '"') == Some(j) && j > 0
    requires |TrimStart(s[1..][j + 1..])| < |s[1..][j + 1..]|
    requires StartsWith(TrimStart(s[1..][j + 1..]), "template style")
    ensures QuotedStyleAt(s) == Some(s[1..][..j])
  {
  }

  /** A quoted name followed by white space and `template style` matches right at its opening quote. */
  lemma QuotedStyleHere(name: string, gap: string, post: string)
    requires '"' !in name && name != []
    requires gap != [] && forall i :: 0 <= i < |gap| ==> IsSpace(gap[i])
    ensures QuotedStyleAt("\"" + (name + ("\"" + (gap + ("template style" + post))))) == Some(name)
  {
    var style := "template style" + post;
    var after := gap + style;
    var t := name + ("\"" + after);
    var s := "\"" + t;
    assert s[1..] == t;
    assert IndexOf(t, '"') == Some(|name|) by {
      assert t[|name|] == '"' && t[..|name|] == name;
      IndexOfFirst(t, '"', |name|);
    }
    assert t[|name| + 1..] == after;
    assert TrimStart(after) == style by {
      assert style[0] == 't';
      TrimStartPad(gap, style);
    }
    assert StartsWith(style, "template style") by {
      assert style[..14] == "template style";
    }
    assert t[..|name|] == name;
    QuotedStyleAtIntro(s, |name|);
  }

  /** The template name is the quoted word just before `template style`, when no quote comes earlier. */
  lemma TemplateFromQuote(pre: string, name: string, gap: string, post: string)
    requires '"' !in pre && '"' !in name && name != []
    requires gap != [] && forall i :: 0 <= i < |gap| ==> IsSpace(gap[i])
    ensures TemplateStyle(pre + ("\"" + (name + ("\"" + (gap + ("template style" + post)))))) == Some(name)
  {
    var rest := "\"" + (name + ("\"" + (gap + ("template style" + post))));
    TemplateSkipsUnquoted(pre, rest);
    QuotedStyleHere(name, gap, post);
  }

  // ----- The CV -----

  /** `s || fallback` for a string. */
  function Or(s: string, fallback: string): (r: string)
    ensures s != "" ==> r == s
    ensures s == "" ==> r == fallback
  {
    if s != "" then s else fallback
  }

  datatype Section = Section(heading: string, body: string)

  /** How a template opens a section heading and indents the section body. */
  datatype Layout = Layout(headingOpen: string, indent: string)

  const AtsLayout := Layout(
    "  \n  <h2 style=\"font-size: 16px; font-weight: bold; margin-top: 20px; margin-bottom: 10px; color: #000000; border-bottom: 1px solid #cccccc; padding-bottom: 5px;\">",
    "  ")

  /** The layout of every template but the ATS-optimized one, with its accent colour. */
  function AccentedLayout(accent: string): Layout {
    Layout("    \n    <h2 style=\"color: " + accent + "; border-bottom: 2px solid #ddd; padding-bottom: 5px; font-size: 18px;\">", "    ")
  }

  /** A blank separator line, the heading, and the section body on the line after it. */
  function SectionHtml(layout: Layout, sec: Section): string {
    layout.headingOpen + (sec.heading + "</h2>") + ("\n" + layout.indent + sec.body + "\n")
  }

  function RenderSections(layout: Layout, secs: seq<Section>): string
    decreases |secs|
  {
    if secs == [] then [] else SectionHtml(layout, secs[0]) + RenderSections(layout, secs[1..])
  }

  const NotProvided := "Not provided"

  const SkillsDivOpen := "<div style=\"margin-bottom: 20px; font-size: 12px;\">"

  function SkillsDiv(skills: string): string {
    SkillsDivOpen + Or(skills, NotProvided) + "</div>"
  }

  function AtsBlockDiv(text: string): string {
    "<div style=\"margin-bottom: 20px; font-size: 12px; white-space: pre-wrap;\">" + Or(text, NotProvided) + "</div>"
  }

  function AccentedBlockDiv(text: string): string {
    "<div style=\"white-space: pre-wrap; margin-bottom: 20px; font-size: 12px;\">" + Or(text, NotProvided) + "</div>"
  }

  const SummaryParagraph :=
    "<p style=\"margin-bottom: 15px; font-size: 12px;\">Experienced professional with a strong background in relevant skills and proven track record of achievements.</p>"

  /** The ATS-optimized template's sections, in page order. */
  function AtsSections(education: string, experience: string, skills: string): (secs: seq<Section>)
    ensures |secs| == 4
  {
    [Section("PROFESSIONAL SUMMARY", SummaryParagraph),
     Section("WORK EXPERIENCE", AtsBlockDiv(experience)),
     Section("EDUCATION", AtsBlockDiv(education)),
     Section("SKILLS", SkillsDiv(skills))]
  }

  /** The sections of every other template, in page order. */
  function AccentedSections(education: string, experience: string, skills: string): (secs: seq<Section>)
    ensures |secs| == 3
  {
    [Section("EDUCATION", AccentedBlockDiv(education)),
     Section("WORK EXPERIENCE", AccentedBlockDiv(experience)),
     Section("SKILLS", SkillsDiv(skills))]
  }

  /** The ATS contact line: `Email: ...`, then ` | ` when both are given, then `Phone: ...`. */
  function ContactLine(email: string, phone: string): string {
    (if email != "" then "Email: " + email else "")
    + (if email != "" && phone != "" then " | " else "")
    + (if phone != "" then "Phone: " + phone else "")
  }

  function AtsTop(name: string, email: string, phone: string): string {
    "\n<div style=\"font-family: Arial, sans-serif; max-width: 800px; margin: 0 auto; padding: 20px; line-height: 1.6;\">\n"
    + "  <h1 style=\"font-size: 24px; font-weight: bold; margin-bottom: 10px; color: #000000;\">" + name + "</h1>\n"
    + "  <div style=\"margin-bottom: 20px; font-size: 12px; color: #333333;\">\n"
    + "    " + ContactLine(email, phone) + "\n"
    + "  </div>\n"
  }

  /** The colour of the rule and of the section headings. */
  function Accent(template: string): string {
    if template == "modern" then "#667eea" else "#333"
  }

  function NameColor(template: string): string {
    if template == "modern" then "#667eea" else if template == "creative" then "#ff6b6b" else "#333"
  }

  function AccentedTop(name: string, email: string, phone: string, template: string): string {
    "\n<div style=\"font-family: Arial, sans-serif; max-width: 800px; margin: 0 auto; padding: 20px; "
    + (if template == "modern" then "background: linear-gradient(135deg, #667eea 0%, #764ba2 100%); padding: 30px;" else "")
    + "\">\n"
    + "  <div style=\"" + (if template == "modern" then "background: white; padding: 30px; border-radius: 10px;" else "") + "\">\n"
    + "    <h1 style=\"color: " + NameColor(template) + "; margin-bottom: 10px; "
    + (if template == "creative" then "text-transform: uppercase; letter-spacing: 2px;" else "")
    + "\">" + name + "</h1>\n"
    + "    <div style=\"margin-bottom: 20px; color: #666; font-size: 14px;\">\n"
    + "      " + (if email != "" then "<span>" + email + "</span>" else "") + "\n"
    + "      " + (if phone != "" then "<span style=\"margin-left: 15px;\">" + phone + "</span>" else "") + "\n"
    + "    </div>\n"
    + "    \n"
    + "    <hr style=\"border: 2px solid " + Accent(template) + "; margin: 20px 0;\">\n"
  }

  /** `generateCVHTML(name, email, phone, education, experience, skills, template)` */
  function CvHtml(name: string, email: string, phone: string, education: string, experience: string,
                  skills: string, template: string): string
  {
    if template == "ats-optimized" then
      AtsTop(name, email, phone) + RenderSections(AtsLayout, AtsSections(education, experience, skills)) + "</div>"
    else
      AccentedTop(name, email, phone, template)
      + RenderSections(AccentedLayout(Accent(template)), AccentedSections(education, experience, skills))
      + "  </div>\n</div>"
  }

  // ----- Words in order -----

  /** The words `ws` occur in `s` one after another, each after the end of the one before. */
  ghost predicate InOrder(s: string, ws: seq<string>)
    decreases |ws|
  {
    |ws| == 0 || exists i: nat :: WordAt(s, ws[0], i) && InOrder(s[i + |ws[0]|..], ws[1..])
  }

  lemma InOrderHere(a: string, w: string, b: string, ws: seq<string>)
    requires InOrder(b, ws)
    ensures InOrder(a + w + b, [w] + ws)
  {
    var s := a + w + b;
    var words := [w] + ws;
    assert words[0] == w && words[1..] == ws;
    assert s[|a|..|a| + |w|] == w;
    assert s[|a| + |w|..] == b;
    assert WordAt(s, words[0], |a|) && InOrder(s[|a| + |words[0]|..], words[1..]);
  }

  lemma InOrderPrefix(x: string, s: string, ws: seq<string>)
    requires InOrder(s, ws)
    ensures InOrder(x + s, ws)
  {
    if |ws| > 0 {
      var i: nat :| WordAt(s, ws[0], i) && InOrder(s[i + |ws[0]|..], ws[1..]);
      assert (x + s)[|x| + i..|x| + i + |ws[0]|] == s[i..i + |ws[0]|];
      assert (x + s)[|x| + i + |ws[0]|..] == s[i + |ws[0]|..];
      assert WordAt(x + s, ws[0], |x| + i);
    }
  }

  lemma {:induction false} InOrderSuffix(s: string, y: string, ws: seq<string>)
    requires InOrder(s, ws)
    ensures InOrder(s + y, ws)
    decreases |ws|
  {
    if |ws| > 0 {
      var i: nat :| WordAt(s, ws[0], i) && InOrder(s[i + |ws[0]|..], ws[1..]);
      assert (s + y)[i..i + |ws[0]|] == s[i..i + |ws[0]|];
      assert (s + y)[i + |ws[0]|..] == s[i + |ws[0]|..] + y;
      InOrderSuffix(s[i + |ws[0]|..], y, ws[1..]);
      assert WordAt(s + y, ws[0], i);
    }
  }

  /** Each section's heading as it closes: `HEADING</h2>`. */
  function HeadingTags(secs: seq<Section>): (tags: seq<string>)
    ensures |tags| == |secs|
    ensures forall k :: 0 <= k < |secs| ==> tags[k] == secs[k].heading + "</h2>"
    decreases |secs|
  {
    if secs == [] then [] else [secs[0].heading + "</h2>"] + HeadingTags(secs[1..])
  }

  /** Rendered sections show their headings in list order. */
  lemma {:induction false} RenderedHeadingsInOrder(layout: Layout, secs: seq<Section>)
    ensures InOrder(RenderSections(layout, secs), HeadingTags(secs))
    decreases |secs|
  {
    if secs != [] {
      var sec, rest := secs[0], RenderSections(layout, secs[1..]);
      RenderedHeadingsInOrder(layout, secs[1..]);
      InOrderHere(layout.headingOpen, sec.heading + "</h2>", "\n" + layout.indent + sec.body + "\n", []);
      assert [sec.heading + "</h2>"] + [] == [sec.heading + "</h2>"];
      InOrderConcat(SectionHtml(layout, sec), [sec.heading + "</h2>"], rest, HeadingTags(secs[1..]));
    }
  }

  /** Section `k`, once rendered, shows its heading followed by its body. */
  lemma {:induction false} RenderedSectionShown(layout: Layout, secs: seq<Section>, k: nat)
    requires k < |secs|
    ensures InOrder(RenderSections(layout, secs), [secs[k].heading + "</h2>", secs[k].body])
    decreases k
  {
    var words := [secs[k].heading + "</h2>", secs[k].body];
    if k == 0 {
      var sec := secs[0];
      InOrderHere("\n" + layout.indent, sec.body, "\n", []);
      InOrderHere(layout.headingOpen, sec.heading + "</h2>", "\n" + layout.indent + sec.body + "\n", [sec.body]);
      assert [sec.heading + "</h2>"] + [sec.body] == words;
      InOrderSuffix(SectionHtml(layout, sec), RenderSections(layout, secs[1..]), words);
    } else {
      RenderedSectionShown(layout, secs[1..], k - 1);
      InOrderPrefix(SectionHtml(layout, secs[0]), RenderSections(layout, secs[1..]), words);
    }
  }

  /** The CV body: page top, sections and closing tags, for either layout. */
  lemma CvHtmlShape(name: string, email: string, phone: string, education: string, experience: string,
                    skills: string, template: string)
    ensures template == "ats-optimized" ==> (CvHtml(name, email, phone, education, experience, skills, template)
      == AtsTop(name, email, phone) + RenderSections(AtsLayout, AtsSections(education, experience, skills)) + "</div>")
    ensures template != "ats-optimized" ==> (CvHtml(name, email, phone, education, experience, skills, template)
      == AccentedTop(name, email, phone, template)
        + RenderSections(AccentedLayout(Accent(template)), AccentedSections(education, experience, skills)) + "  </div>\n</div>")
  {
  }

  /** Words in order inside a string stay in order with text added on both sides. */
  lemma InOrderInside(x: string, s: string, y: string, ws: seq<string>)
    requires InOrder(s, ws)
    ensures InOrder(x + s + y, ws)
  {
    InOrderPrefix(x, s, ws);
    InOrderSuffix(x + s, y, ws);
  }

  lemma AtsHeadingTags(education: string, experience: string, skills: string)
    ensures HeadingTags(AtsSections(education, experience, skills))
      == ["PROFESSIONAL SUMMARY</h2>", "WORK EXPERIENCE</h2>", "EDUCATION</h2>", "SKILLS</h2>"]
  {
    var tags := HeadingTags(AtsSections(education, experience, skills));
    assert tags[0] == "PROFESSIONAL SUMMARY" + "</h2>" == "PROFESSIONAL SUMMARY</h2>";
    assert tags[1] == "WORK EXPERIENCE" + "</h2>" == "WORK EXPERIENCE</h2>";
    assert tags[2] == "EDUCATION" + "</h2>" == "EDUCATION</h2>";
    assert tags[3] == "SKILLS" + "</h2>" == "SKILLS</h2>";
  }

  lemma AccentedHeadingTags(education: string, experience: string, skills: string)
    ensures HeadingTags(AccentedSections(education, experience, skills))
      == ["EDUCATION</h2>", "WORK EXPERIENCE</h2>", "SKILLS</h2>"]
  {
    var tags := HeadingTags(AccentedSections(education, experience, skills));
    assert tags[0] == "EDUCATION" + "</h2>" == "EDUCATION</h2>";
    assert tags[1] == "WORK EXPERIENCE" + "</h2>" == "WORK EXPERIENCE</h2>";
    assert tags[2] == "SKILLS" + "</h2>" == "SKILLS</h2>";
  }

  /** A page made of sections between a top and a bottom shows the section headings in order. */
  lemma PageHeadingsInOrder(top: string, layout: Layout, secs: seq<Section>, bottom: string)
    ensures InOrder(top + RenderSections(layout, secs) + bottom, HeadingTags(secs))
  {
    RenderedHeadingsInOrder(layout, secs);
    InOrderInside(top, RenderSections(layout, secs), bottom, HeadingTags(secs));
  }

  /** The ATS-optimized CV shows PROFESSIONAL SUMMARY, WORK EXPERIENCE, EDUCATION and SKILLS in that order. */
  lemma AtsHeadingsInOrder(name: string, email: string, phone: string, education: string, experience: string,
                           skills: string)
    ensures InOrder(CvHtml(name, email, phone, education, experience, skills, "ats-optimized"),
      ["PROFESSIONAL SUMMARY</h2>", "WORK EXPERIENCE</h2>", "EDUCATION</h2>", "SKILLS</h2>"])
  {
    CvHtmlShape(name, email, phone, education, experience, skills, "ats-optimized");
    PageHeadingsInOrder(AtsTop(name, email, phone), AtsLayout, AtsSections(education, experience, skills), "</div>");
    AtsHeadingTags(education, experience, skills);
  }

  lemma NoSummarySection(education: string, experience: string, skills: string)
    ensures forall k :: 0 <= k < 3 ==> AccentedSections(education, experience, skills)[k].heading != "PROFESSIONAL SUMMARY"
  {
    var secs := AccentedSections(education, experience, skills);
    assert |secs[0].heading| == 9 && |secs[1].heading| == 15 && |secs[2].heading| == 6;
    assert |"PROFESSIONAL SUMMARY"| == 20;
  }

  /** A page made of sections between a top and a bottom shows section `k`'s heading, then its body. */
  lemma PageSectionShown(top: string, layout: Layout, secs: seq<Section>, k: nat, bottom: string)
    requires k < |secs|
    ensures InOrder(top + RenderSections(layout, secs) + bottom, [secs[k].heading + "</h2>", secs[k].body])
  {
    RenderedSectionShown(layout, secs, k);
    InOrderInside(top, RenderSections(layout, secs), bottom, [secs[k].heading + "</h2>", secs[k].body]);
  }

  /** The last section of both layouts is SKILLS, with `Not provided` for no skills. */
  lemma SkillsSectionWords(education: string, experience: string)
    ensures var s := AtsSections(education, experience, "")[3];
      [s.heading + "</h2>", s.body] == ["SKILLS</h2>", SkillsDivOpen + NotProvided + "</div>"]
    ensures var s := AccentedSections(education, experience, "")[2];
      [s.heading + "</h2>", s.body] == ["SKILLS</h2>", SkillsDivOpen + NotProvided + "</div>"]
  {
    assert "SKILLS" + "</h2>" == "SKILLS</h2>";
  }

  /**
   * Every other template has no summary section and shows EDUCATION
   * before WORK EXPERIENCE, then SKILLS.
   */
  lemma AccentedHeadingsInOrder(name: string, email: string, phone: string, education: string, experience: string,
                                skills: string, template: string)
    requires template != "ats-optimized"
    ensures InOrder(CvHtml(name, email, phone, education, experience, skills, template),
      ["EDUCATION</h2>", "WORK EXPERIENCE</h2>", "SKILLS</h2>"])
    ensures forall k :: 0 <= k < 3 ==> AccentedSections(education, experience, skills)[k].heading != "PROFESSIONAL SUMMARY"
  {
    NoSummarySection(education, experience, skills);
    CvHtmlShape(name, email, phone, education, experience, skills, template);
    PageHeadingsInOrder(AccentedTop(name, email, phone, template), AccentedLayout(Accent(template)),
      AccentedSections(education, experience, skills), "  </div>\n</div>");
    AccentedHeadingTags(education, experience, skills);
  }

  /** With no skills, the ATS-optimized CV shows the SKILLS heading followed by `Not provided`. */
  lemma AtsEmptySkillsNotProvided(name: string, email: string, phone: string, education: string, experience: string)
    ensures InOrder(CvHtml(name, email, phone, education, experience, "", "ats-optimized"),
      ["SKILLS</h2>", SkillsDivOpen + NotProvided + "</div>"])
  {
    CvHtmlShape(name, email, phone, education, experience, "", "ats-optimized");
    SkillsSectionWords(education, experience);
    PageSectionShown(AtsTop(name, email, phone), AtsLayout, AtsSections(education, experience, ""), 3, "</div>");
  }

  /** With no skills, every other template shows the SKILLS heading followed by `Not provided` too. */
  lemma AccentedEmptySkillsNotProvided(name: string, email: string, phone: string, education: string, experience: string,
                                       template: string)
    requires template != "ats-optimized"
    ensures InOrder(CvHtml(name, email, phone, education, experience, "", template),
      ["SKILLS</h2>", SkillsDivOpen + NotProvided + "</div>"])
  {
    CvHtmlShape(name, email, phone, education, experience, "", template);
    SkillsSectionWords(education, experience);
    PageSectionShown(AccentedTop(name, email, phone, template), AccentedLayout(Accent(template)),
      AccentedSections(education, experience, ""), 2, "  </div>\n</div>");
  }

  /**
   * With neither field holding a `|`, the ATS contact line holds ` | `
   * exactly when both an email address and a phone number are given.
   */
  lemma ContactSeparatorIff(email: string, phone: string)
    requires '|' !in email && '|' !in phone
    ensures Contains(ContactLine(email, phone), " | ") <==> email != "" && phone != ""
  {
    var line := ContactLine(email, phone);
    if email != "" && phone != "" {
      ContainsInside("Email: " + email, " | ", "Phone: " + phone);
    } else {
      assert '|' !in "Email: " && '|' !in "Phone: ";
      assert '|' !in line;
      MissingCharNotContained(line, " | ", 1);
    }
  }

  // ----- The cover letter -----

  /** `lines.filter(e => e.trim())`: the lines that are not blank, in order (see `TrimEmptyIff`). */
  function NonBlankLines(lines: seq<string>): (r: seq<string>)
    ensures |r| <= |lines|
    ensures forall k :: 0 <= k < |r| ==> !IsBlank(r[k]) && r[k] in lines
    decreases |lines|
  {
    if lines == [] then []
    else if !IsBlank(lines[0]) then [lines[0]] + NonBlankLines(lines[1..])
    else NonBlankLines(lines[1..])
  }

  /** `experience.split('\n').filter(e => e.trim()).slice(0, 3)` */
  function ExperienceItems(experience: string): (items: seq<string>)
    ensures |items| <= 3
    ensures forall k :: 0 <= k < |items| ==> !IsBlank(items[k]) && '\n' !in items[k]
    ensures var lines := NonBlankLines(Split(experience, '\n'));
      |items| <= |lines| && items == lines[..|items|] && (|items| < 3 ==> items == lines)
  {
    var pieces := Split(experience, '\n');
    var lines := NonBlankLines(pieces);
    assert forall k :: 0 <= k < |lines| ==> lines[k] in pieces;
    if |lines| <= 3 then lines else lines[..3]
  }

  /** The experience list, present only when there is some experience text. */
  function ExperienceList(experience: string): string {
    if experience != "" then
      "<p>My relevant experience includes:</p><ul><li>" + Join(ExperienceItems(experience), "</li><li>") + "</li></ul>"
    else ""
  }

  /** The job description paragraph: its first 200 characters and `...`, present only for a description. */
  function JobParagraph(jobDescription: string): string {
    if jobDescription != "" then
      "<p>I am particularly excited about this opportunity because " + Take(jobDescription, 200) + "...</p>"
    else ""
  }

  function LetterTop(name: string, email: string, phone: string, date: string): string {
    "\n<div style=\"font-family: Arial, sans-serif; max-width: 800px; margin: 0 auto; padding: 20px;\">\n"
    + "  <div style=\"margin-bottom: 30px;\">\n"
    + "    <div style=\"text-align: right; margin-bottom: 20px;\">\n"
    + "      <div>" + name + "</div>\n"
    + "      " + (if email != "" then "<div>" + email + "</div>" else "") + "\n"
    + "      " + (if phone != "" then "<div>" + phone + "</div>" else "") + "\n"
    + "      <div style=\"margin-top: 10px;\">" + date + "</div>\n"
    + "    </div>\n"
    + "    \n"
    + "    <div style=\"margin-bottom: 20px;\">\n"
    + "      "
  }

  function SubjectLine(jobTitle: string): string {
    "<strong>Re: " + Or(jobTitle, "Job Application") + "</strong>"
  }

  /** `interest in the ... role.`, with `position` standing in for a missing job title. */
  function InterestPhrase(jobTitle: string): string {
    "interest in the " + Or(jobTitle, "position") + " role."
  }

  const InterestOpen := "<p>I am writing to express my "
  const InterestTail :=
    " With my background and experience, I am confident that I would be a valuable addition to your team.</p>"

  function InterestLine(jobTitle: string): string {
    InterestOpen + InterestPhrase(jobTitle) + InterestTail
  }

  const LetterGreeting :=
    "\n    </div>\n"
    + "  </div>\n"
    + "  \n"
    + "  <div style=\"line-height: 1.8;\">\n"
    + "    <p>Dear Hiring Manager,</p>\n"
    + "    \n"
    + "    "

  /** What follows the statement of interest: the experience list, the job paragraph and the closing. */
  function LetterClosing(jobDescription: string, experience: string, name: string): string {
    "\n"
    + "    \n"
    + "    " + ExperienceList(experience) + "\n"
    + "    \n"
    + "    " + JobParagraph(jobDescription) + "\n"
    + "    \n"
    + "    <p>I would welcome the opportunity to discuss how my skills and experience align with your needs. Thank you for considering my application.</p>\n"
    + "    \n"
    + "    <p>Sincerely,<br>" + name + "</p>\n"
    + "  </div>\n"
    + "</div>"
  }

  function LetterBody(jobTitle: string, jobDescription: string, experience: string, name: string): string {
    LetterGreeting + InterestLine(jobTitle) + LetterClosing(jobDescription, experience, name)
  }

  /** `generateCoverLetterHTML(...)`, with today's date, already formatted, passed in. */
  function CoverLetterHtml(name: string, email: string, phone: string, jobTitle: string, jobDescription: string,
                           experience: string, date: string): string
  {
    LetterTop(name, email, phone, date) + SubjectLine(jobTitle) + LetterBody(jobTitle, jobDescription, experience, name)
  }

  lemma DefaultTitleWords()
    ensures SubjectLine("") == "<strong>Re: Job Application</strong>"
    ensures InterestPhrase("") == "interest in the position role."
  {
  }

  /** The letter shows its subject line. */
  lemma LetterShowsSubject(name: string, email: string, phone: string, jobTitle: string, jobDescription: string,
                           experience: string, date: string)
    ensures Contains(CoverLetterHtml(name, email, phone, jobTitle, jobDescription, experience, date), SubjectLine(jobTitle))
  {
    ContainsInside(LetterTop(name, email, phone, date), SubjectLine(jobTitle), LetterBody(jobTitle, jobDescription, experience, name));
  }

  /** The letter body states the interest in the named role. */
  lemma LetterBodyShowsInterest(jobTitle: string, jobDescription: string, experience: string, name: string)
    ensures Contains(LetterBody(jobTitle, jobDescription, experience, name), InterestPhrase(jobTitle))
  {
    ContainsWithin(LetterBody(jobTitle, jobDescription, experience, name), LetterGreeting, InterestLine(jobTitle),
      LetterClosing(jobDescription, experience, name), InterestOpen, InterestPhrase(jobTitle), InterestTail);
  }

  /** The letter shows its statement of interest. */
  lemma LetterShowsInterest(name: string, email: string, phone: string, jobTitle: string, jobDescription: string,
                            experience: string, date: string)
    ensures Contains(CoverLetterHtml(name, email, phone, jobTitle, jobDescription, experience, date), InterestPhrase(jobTitle))
  {
    LetterBodyShowsInterest(jobTitle, jobDescription, experience, name);
    ContainsPrefix(LetterTop(name, email, phone, date) + SubjectLine(jobTitle),
      LetterBody(jobTitle, jobDescription, experience, name), InterestPhrase(jobTitle));
  }

  /** Without a job title the letter is headed `Re: Job Application` and speaks of "the position role". */
  lemma EmptyJobTitleDefaults(name: string, email: string, phone: string, jobDescription: string,
                              experience: string, date: string)
    ensures Contains(CoverLetterHtml(name, email, phone, "", jobDescription, experience, date), "<strong>Re: Job Application</strong>")
    ensures Contains(CoverLetterHtml(name, email, phone, "", jobDescription, experience, date), "interest in the position role.")
  {
    DefaultTitleWords();
    LetterShowsSubject(name, email, phone, "", jobDescription, experience, date);
    LetterShowsInterest(name, email, phone, "", jobDescription, experience, date);
  }

  /**
   * The job description paragraph is missing without a description. Otherwise
   * it opens with the fixed sentence, quotes the first 200 characters of the
   * description (all of it when it is no longer than that) and ends in `...`.
   */
  lemma JobQuoteBounded(jobDescription: string)
    ensures jobDescription == "" ==> JobParagraph(jobDescription) == ""
    ensures jobDescription != "" ==>
      var p := JobParagraph(jobDescription);
      && |p| >= 67
      && p[..60] == "<p>I am particularly excited about this opportunity because "
      && p[|p| - 7..] == "...</p>"
      && var quote := p[60..|p| - 7];
      && |quote| <= 200 && StartsWith(jobDescription, quote)
      && (|jobDescription| <= 200 ==> quote == jobDescription)
      && (|jobDescription| > 200 ==> quote == jobDescription[..200])
  {
    if jobDescription != "" {
      var head := "<p>I am particularly excited about this opportunity because ";
      assert |head| == 60;
      var quote := Take(jobDescription, 200);
      var p := JobParagraph(jobDescription);
      assert p == head + quote + "...</p>";
      assert p[..60] == head;
      assert p[60..|p| - 7] == quote;
      assert p[|p| - 7..] == "...</p>";
    }
  }

  /** The experience list holds one item per non-blank line, up to three, for lines given one per row. */
  lemma {:induction false} ExperienceItemsOfLines(lines: seq<string>)
    requires |lines| >= 1
    requires forall k :: 0 <= k < |lines| ==> '\n' !in lines[k] && !IsBlank(lines[k])
    ensures ExperienceItems(Join(lines, "\n")) == if |lines| <= 3 then lines else lines[..3]
  {
    SplitJoin(lines, '\n');
    NonBlankKeepsAll(lines);
  }

  lemma {:induction false} NonBlankKeepsAll(lines: seq<string>)
    requires forall k :: 0 <= k < |lines| ==> !IsBlank(lines[k])
    ensures NonBlankLines(lines) == lines
    decreases |lines|
  {
    if lines != [] {
      NonBlankKeepsAll(lines[1..]);
    }
  }

  // ----- The reply -----

  const CvStart := "<!-- CV_START -->"
  const CvEnd := "<!-- CV_END -->"
  const LetterStart := "<!-- COVER_LETTER_START -->"
  const LetterEnd := "<!-- COVER_LETTER_END -->"

  /** A part of the reply on its own lines between its start and end markers. */
  function Marked(start: string, body: string, end: string): string {
    start + "\n" + body + "\n" + end
  }

  function Framed(cv: string, letter: string): string {
    Marked(CvStart, cv, CvEnd) + "\n\n" + Marked(LetterStart, letter, LetterEnd)
  }

  /** The CV of the fields read from a prompt. */
  function CvOf(f: Fields): string {
    CvHtml(f.name, f.email, f.phone, f.education, f.experience, f.skills, f.template)
  }

  /** The cover letter of the fields read from a prompt, dated `date`. */
  function LetterOf(f: Fields, date: string): string {
    CoverLetterHtml(f.name, f.email, f.phone, f.jobTitle, f.jobDescription, f.experience, date)
  }

  /** The reply built from the fields of a prompt. */
  function Reply(f: Fields, date: string): string {
    Framed(CvOf(f), LetterOf(f, date))
  }

  /** `generateCV(prompt)`, with the cover letter's date passed in. */
  function GenerateCV(prompt: string, date: string): string {
    Reply(ExtractFields(prompt), date)
  }

  /** A word in front of words in order puts them all in order. */
  lemma InOrderCons(s: string, a: string, w: string, b: string, ws: seq<string>)
    requires s == a + w + b && InOrder(b, ws)
    ensures InOrder(s, [w] + ws)
  {
    InOrderHere(a, w, b, ws);
  }

  /** Words in order in one string, then words in order in the next, are in order in the two joined. */
  lemma {:induction false} InOrderConcat(s: string, ws: seq<string>, t: string, vs: seq<string>)
    requires InOrder(s, ws) && InOrder(t, vs)
    ensures InOrder(s + t, ws + vs)
    decreases |ws|
  {
    if |ws| == 0 {
      assert ws + vs == vs;
      InOrderPrefix(s, t, vs);
    } else {
      var n := |ws[0]|;
      var i: nat :| WordAt(s, ws[0], i) && InOrder(s[i + n..], ws[1..]);
      InOrderConcat(s[i + n..], ws[1..], t, vs);
      assert (s + t)[i + n..] == s[i + n..] + t;
      assert (ws + vs)[0] == ws[0] && (ws + vs)[1..] == ws[1..] + vs;
      assert (s + t)[i..i + n] == s[i..i + n];
      assert WordAt(s + t, (ws + vs)[0], i);
    }
  }

  /** A marked part shows its start marker, then its end marker. */
  lemma MarkedInOrder(start: string, body: string, end: string)
    ensures InOrder(Marked(start, body, end), [start, end])
  {
    var inner := "\n" + body + "\n";
    InOrderCons(inner + end, inner, end, [], []);
    assert [end] + [] == [end];
    InOrderCons(Marked(start, body, end), [], start, inner + end, [end]);
    assert [start] + [end] == [start, end];
  }

  /** The reply holds the four markers in order. */
  lemma FramedMarkersInOrder(cv: string, letter: string)
    ensures InOrder(Framed(cv, letter), [CvStart, CvEnd, LetterStart, LetterEnd])
  {
    MarkedInOrder(CvStart, cv, CvEnd);
    InOrderSuffix(Marked(CvStart, cv, CvEnd), "\n\n", [CvStart, CvEnd]);
    MarkedInOrder(LetterStart, letter, LetterEnd);
    InOrderConcat(Marked(CvStart, cv, CvEnd) + "\n\n", [CvStart, CvEnd], Marked(LetterStart, letter, LetterEnd), [LetterStart, LetterEnd]);
    assert [CvStart, CvEnd] + [LetterStart, LetterEnd] == [CvStart, CvEnd, LetterStart, LetterEnd];
  }

  /** The reply starts with the CV start marker and ends with the cover letter end marker. */
  lemma FramedEnds(cv: string, letter: string)
    ensures StartsWith(Framed(cv, letter), CvStart)
    ensures var out := Framed(cv, letter); |out| >= |LetterEnd| && out[|out| - |LetterEnd|..] == LetterEnd
  {
  }

  /** The CV and the letter sit on their own lines right inside their markers. */
  lemma FramedLayout(cv: string, letter: string)
    ensures var out := Framed(cv, letter);
      |out| == |CvStart| + |cv| + |CvEnd| + |LetterStart| + |letter| + |LetterEnd| + 6
      && out[..|CvStart| + 1] == CvStart + "\n"
      && out[|CvStart| + 1..|CvStart| + 1 + |cv|] == cv
      && out[|CvStart| + 1 + |cv|..|CvStart| + 2 + |cv| + |CvEnd|] == "\n" + CvEnd
      && out[|out| - |LetterEnd| - 1 - |letter|..|out| - |LetterEnd| - 1] == letter
      && out[|out| - |LetterEnd| - 2 - |letter| - |LetterStart|..|out| - |LetterEnd| - 1 - |letter|] == LetterStart + "\n"
      && out[|out| - |LetterEnd| - 1..] == "\n" + LetterEnd
  {
  }

  /**
   * The generated reply starts with the CV start marker, ends with the cover
   * letter end marker and holds the four markers in order, whatever the prompt.
   */
  lemma GenerateCVFramed(prompt: string, date: string)
    ensures StartsWith(GenerateCV(prompt, date), CvStart)
    ensures var out := GenerateCV(prompt, date); |out| >= |LetterEnd| && out[|out| - |LetterEnd|..] == LetterEnd
    ensures InOrder(GenerateCV(prompt, date), [CvStart, CvEnd, LetterStart, LetterEnd])
  {
    var f := ExtractFields(prompt);
    ReplyOfFieldsFramed(f, date);
  }

  /** The reply is the framed CV and letter of the fields. */
  lemma ReplyIsFramed(f: Fields, date: string)
    ensures Reply(f, date) == Framed(CvOf(f), LetterOf(f, date))
  {
  }

  lemma ReplyOfFieldsFramed(f: Fields, date: string)
    ensures StartsWith(Reply(f, date), CvStart)
    ensures var out := Reply(f, date); |out| >= |LetterEnd| && out[|out| - |LetterEnd|..] == LetterEnd
    ensures InOrder(Reply(f, date), [CvStart, CvEnd, LetterStart, LetterEnd])
  {
    ReplyIsFramed(f, date);
    FramedEnds(CvOf(f), LetterOf(f, date));
    FramedMarkersInOrder(CvOf(f), LetterOf(f, date));
  }
}
