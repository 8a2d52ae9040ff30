/**
 * The ATS (applicant tracking system) compliance validator, its score and
 * the sanitizer, from server/utils/atsValidator.js.
 *
 * The validator runs eight classifiers over an HTML fragment. Tables and
 * images are blocking issues, complex inline CSS and the absence of every
 * canonical section heading are warnings, bullet markers are a positive
 * signal; columns, special glyphs and header/footer tags are recorded and
 * never scored. The sanitizer rewrites the fragment in nine single passes.
 */
module AtsValidator {
  import opened Wrappers
  import opened Text
  import opened Patterns

  const Glyphs: set<char> := {'●', '○', '◆', '◇', '■', '□', '▲', '△'}
  const Bullet: char := '•'
  const BulletMarks: set<char> := {'•', '·', '-'}

  /** Style keywords the validator flags. */
  const LayoutKeywords: seq<string> := ["position", "float", "absolute", "relative", "transform", "grid", "flex"]
  /** Style keywords the sanitizer strips: the same list without grid and flex. */
  const StrippedKeywords: seq<string> := ["position", "float", "absolute", "relative", "transform"]
  const SectionHeadings: seq<string> := ["PROFESSIONAL SUMMARY", "WORK EXPERIENCE", "EDUCATION", "SKILLS"]

  const TableMsg: string := "Contains tables - ATS systems struggle with table layouts"
  const ImageMsg: string := "Contains images - ATS cannot read image content"
  const ComplexCssMsg: string := "Contains complex CSS - May cause parsing issues"
  const MissingSectionsMsg: string := "Missing standard section headers - May affect ATS parsing"
  const BulletMsg: string := "Uses bullet points - Good for ATS"

  // ---------------------------------------------------------------------
  // The eight classifiers

  /** One of the words occurs, ignoring case (a regular-expression alternation). */
  predicate OccursAnyLiteral(words: seq<string>, s: string)
    decreases |words|
  {
    words != [] && (Occurs(Literal(words[0]), s) || OccursAnyLiteral(words[1..], s))
  }

  /** `/<table[^>]*>/i` */
  predicate HasTables(html: string) { Occurs(OpenTag("<table"), html) }
  /** `/<img[^>]*>/i` */
  predicate HasImages(html: string) { Occurs(OpenTag("<img"), html) }
  /** `/style="[^"]*(?:position|float|absolute|relative|transform|grid|flex)[^"]*"/i` */
  predicate HasComplexCss(html: string) { Occurs(StyleAttr(LayoutKeywords), html) }
  /** `/column|col-/i` */
  predicate HasColumns(html: string) { Occurs(Literal("column"), html) || Occurs(Literal("col-"), html) }
  /** `/[●○◆◇■□▲△]/` */
  predicate HasSpecialChars(html: string) { Occurs(OneOf(Glyphs), html) }
  /** `/<header|<footer/i` */
  predicate HasHeadersFooters(html: string) { Occurs(Literal("<header"), html) || Occurs(Literal("<footer"), html) }
  /** `/(PROFESSIONAL SUMMARY|WORK EXPERIENCE|EDUCATION|SKILLS)/i` */
  predicate HasStandardSections(html: string) { OccursAnyLiteral(SectionHeadings, html) }
  /** `/[•·-]\s/` */
  predicate HasBulletPoints(html: string) { Occurs(OneOfThenSpace(BulletMarks), html) }

  datatype Checks = Checks(
    hasTables: bool,
    hasImages: bool,
    hasComplexCss: bool,
    hasColumns: bool,
    hasSpecialChars: bool,
    hasHeadersFooters: bool,
    hasStandardSections: bool,
    hasBulletPoints: bool)

  /** The `checks` record built from the eight classifiers. */
  function RunChecks(html: string): Checks {
    Checks(HasTables(html), HasImages(html), HasComplexCss(html), HasColumns(html),
           HasSpecialChars(html), HasHeadersFooters(html), HasStandardSections(html),
           HasBulletPoints(html))
  }

  datatype ComplianceReport = ComplianceReport(
    score: int,
    isCompliant: bool,
    issues: seq<string>,
    warnings: seq<string>,
    positives: seq<string>,
    checks: Checks)

  // ---------------------------------------------------------------------
  // Reference definition: the rule table of the design

  datatype Signal = Tables | Images | ComplexCss | MissingSections | BulletPoints
  datatype Severity = Blocking | Warning | Positive
  datatype Rule = Rule(signal: Signal, severity: Severity, message: string)

  /** The scored rules, in the order the report lists them. */
  const Rules: seq<Rule> := [
    Rule(Tables, Blocking, TableMsg),
    Rule(Images, Blocking, ImageMsg),
    Rule(ComplexCss, Warning, ComplexCssMsg),
    Rule(MissingSections, Warning, MissingSectionsMsg),
    Rule(BulletPoints, Positive, BulletMsg)
  ]

  predicate Fires(c: Checks, s: Signal) {
    match s
    case Tables => c.hasTables
    case Images => c.hasImages
    case ComplexCss => c.hasComplexCss
    case MissingSections => !c.hasStandardSections
    case BulletPoints => c.hasBulletPoints
  }

  /** The message of a rule, when it has the given severity and fires. */
  function Hit(r: Rule, c: Checks, severity: Severity): seq<string> {
    if r.severity == severity && Fires(c, r.signal) then [r.message] else []
  }

  /** The messages of the rules of one severity that fire, in rule order. */
  function Findings(rules: seq<Rule>, c: Checks, severity: Severity): seq<string>
    decreases |rules|
  {
    if rules == [] then [] else Hit(rules[0], c, severity) + Findings(rules[1..], c, severity)
  }

  function Clamp(x: int, lo: int, hi: int): (r: int)
    requires lo <= hi
    ensures lo <= r <= hi
    ensures lo <= x <= hi ==> r == x
    ensures x < lo ==> r == lo
    ensures hi < x ==> r == hi
  {
    if x < lo then lo else if hi < x then hi else x
  }

  /** The score of the design: 100, minus 25 per issue and 5 per warning, plus the two bonuses, clamped. */
  function Score(c: Checks, issueCount: nat, warningCount: nat): (r: int)
    ensures 0 <= r <= 100
    ensures issueCount >= 5 ==> r == 0
    ensures issueCount == 0 && warningCount == 0 && c.hasStandardSections ==> r == 100
  {
    Clamp(100 - 25 * issueCount - 5 * warningCount
          + (if c.hasBulletPoints then 5 else 0) + (if c.hasStandardSections then 10 else 0), 0, 100)
  }

  /** The report the design prescribes for a fragment. */
  function Report(html: string): ComplianceReport {
    var c := RunChecks(html);
    var issues := Findings(Rules, c, Blocking);
    var warnings := Findings(Rules, c, Warning);
    ComplianceReport(Score(c, |issues|, |warnings|), issues == [], issues, warnings,
                     Findings(Rules, c, Positive), c)
  }

  // ---------------------------------------------------------------------
  // The operations

  /** `calculateATSScore`: the score counted down and up step by step, then clamped. */
  method CalculateATSScore(checks: Checks, issues: seq<string>, warnings: seq<string>) returns (score: int)
    ensures score == Score(checks, |issues|, |warnings|)
    ensures 0 <= score <= 100
  {
    score := 100;
    score := score - |issues| * 25;
    score := score - |warnings| * 5;
    if checks.hasBulletPoints {
      score := score + 5;
    }
    if checks.hasStandardSections {
      score := score + 10;
    }
    var capped := if score < 100 then score else 100;
    score := if 0 < capped then capped else 0;
  }

  /** `validateATSCompliance`: issues, warnings and positives pushed one by one. */
  method ValidateATSCompliance(cvHtml: string) returns (report: ComplianceReport)
    ensures report == Report(cvHtml)
    ensures report.isCompliant <==> report.issues == []
    ensures 0 <= report.score <= 100
  {
    var issues: seq<string> := [];
    var warnings: seq<string> := [];
    var checks := RunChecks(cvHtml);
    if checks.hasTables {
      issues := issues + [TableMsg];
    }
    if checks.hasImages {
      issues := issues + [ImageMsg];
    }
    if checks.hasComplexCss {
      warnings := warnings + [ComplexCssMsg];
    }
    if !checks.hasStandardSections {
      warnings := warnings + [MissingSectionsMsg];
    }
    var positives: seq<string> := [];
    if checks.hasBulletPoints {
      positives := positives + [BulletMsg];
    }
    var score := CalculateATSScore(checks, issues, warnings);
    report := ComplianceReport(score, |issues| == 0, issues, warnings, positives, checks);
    ListsMatchRules(checks);
    assert issues == Findings(Rules, checks, Blocking);
    assert warnings == Findings(Rules, checks, Warning);
    assert positives == Findings(Rules, checks, Positive);
  }

  // ---------------------------------------------------------------------
  // Properties of the report

  /** The rule table spelled out: which messages appear, and in which order. */
  lemma ListsMatchRules(c: Checks)
    ensures Findings(Rules, c, Blocking) ==
              (if c.hasTables then [TableMsg] else []) + (if c.hasImages then [ImageMsg] else [])
    ensures Findings(Rules, c, Warning) ==
              (if c.hasComplexCss then [ComplexCssMsg] else [])
              + (if !c.hasStandardSections then [MissingSectionsMsg] else [])
    ensures Findings(Rules, c, Positive) == if c.hasBulletPoints then [BulletMsg] else []
  {
    forall severity: Severity
      ensures Findings(Rules, c, severity) == Hit(Rules[0], c, severity) + Hit(Rules[1], c, severity)
                + Hit(Rules[2], c, severity) + Hit(Rules[3], c, severity) + Hit(Rules[4], c, severity)
    {
      assert Rules[4..][1..] == [];
      assert Rules[3..][1..] == Rules[4..];
      assert Rules[2..][1..] == Rules[3..];
      assert Rules[1..][1..] == Rules[2..];
      assert Rules[0..][1..] == Rules[1..] && Rules[0..] == Rules;
      assert Findings(Rules[4..], c, severity) == Hit(Rules[4], c, severity);
      assert Findings(Rules[3..], c, severity) == Hit(Rules[3], c, severity) + Findings(Rules[4..], c, severity);
      assert Findings(Rules[2..], c, severity) == Hit(Rules[2], c, severity) + Findings(Rules[3..], c, severity);
      assert Findings(Rules[1..], c, severity) == Hit(Rules[1], c, severity) + Findings(Rules[2..], c, severity);
    }
  }

  /** Issues: tables then images; warnings: complex CSS then missing sections; at most the bullet positive. */
  lemma {:induction false} ReportLists(html: string)
    ensures Report(html).issues ==
              (if HasTables(html) then [TableMsg] else []) + (if HasImages(html) then [ImageMsg] else [])
    ensures Report(html).warnings ==
              (if HasComplexCss(html) then [ComplexCssMsg] else [])
              + (if !HasStandardSections(html) then [MissingSectionsMsg] else [])
    ensures Report(html).positives == if HasBulletPoints(html) then [BulletMsg] else []
    ensures |Report(html).positives| <= 1
  {
    ListsMatchRules(RunChecks(html));
  }

  /** Compliance is the absence of issues, which is the absence of tables and images; warnings play no part. */
  lemma {:induction false} CompliantIff(html: string)
    ensures Report(html).isCompliant <==> Report(html).issues == []
    ensures Report(html).isCompliant <==> !HasTables(html) && !HasImages(html)
  {
    ListsMatchRules(RunChecks(html));
  }

  /** The score in closed form over the five scored classifiers, always within [0, 100]. */
  lemma {:induction false} ScoreClosedForm(html: string)
    ensures Report(html).score == Clamp(100
              - 25 * ((if HasTables(html) then 1 else 0) + (if HasImages(html) then 1 else 0))
              - 5 * ((if HasComplexCss(html) then 1 else 0) + (if HasStandardSections(html) then 0 else 1))
              + (if HasBulletPoints(html) then 5 else 0)
              + (if HasStandardSections(html) then 10 else 0), 0, 100)
    ensures 0 <= Report(html).score <= 100
  {
    ListsMatchRules(RunChecks(html));
  }

  /** Columns, special glyphs and header/footer tags never change issues, warnings, positives or score. */
  lemma {:induction false} InformationalChecksUnscored(a: string, b: string)
    requires HasTables(a) == HasTables(b) && HasImages(a) == HasImages(b)
    requires HasComplexCss(a) == HasComplexCss(b)
    requires HasStandardSections(a) == HasStandardSections(b)
    requires HasBulletPoints(a) == HasBulletPoints(b)
    ensures Report(a).score == Report(b).score
    ensures Report(a).isCompliant == Report(b).isCompliant
    ensures Report(a).issues == Report(b).issues
    ensures Report(a).warnings == Report(b).warnings
    ensures Report(a).positives == Report(b).positives
  {
    ReportLists(a);
    ReportLists(b);
  }

  /** A fragment with a table is not compliant and scores at most 90. */
  lemma {:induction false} TableCapsScore(html: string)
    requires HasTables(html)
    ensures !Report(html).isCompliant
    ensures Report(html).score <= 90
  {
    ListsMatchRules(RunChecks(html));
  }

  const TableFragment: string := "<table><tr><td>x</td></tr></table>"

  /** The one-cell table holds a table tag. */
  lemma TableFragmentHasTable()
    ensures HasTables(TableFragment)
  {
    var s := TableFragment;
    assert StartsWithCi(s, "<table") by {
      forall k | 0 <= k < 6 ensures Lower(s[k]) == Lower("<table"[k]) {
        assert s[k] == "<table"[k];
      }
    }
    assert s[6..][0] == '>';
    assert IndexOf(s[6..], '>') == Some(0);
    assert MatchLength(OpenTag("<table"), s) == Some(7);
  }

  /** Without the letter m there is no image tag. */
  lemma NoImageWithoutM(s: string)
    requires 'm' !in s && 'M' !in s
    ensures !HasImages(s)
  {
    assert Lower("<img"[2]) == 'm';
    MissingLetterNoMatch(OpenTag("<img"), s, 'm');
  }

  /** Without the letter s there is no style attribute and no SKILLS heading. */
  lemma NoStyleWithoutS(s: string)
    requires 's' !in s && 'S' !in s
    ensures !HasComplexCss(s) && !Occurs(Literal("SKILLS"), s)
  {
    assert Lower(StyleOpen[0]) == 's';
    MissingLetterNoMatch(StyleAttr(LayoutKeywords), s, 's');
    assert Lower("SKILLS"[0]) == 's';
    MissingLetterNoMatch(Literal("SKILLS"), s, 's');
  }

  /** Without the letters p, w, u and s there is no canonical heading. */
  lemma NoSectionsWithout(s: string)
    requires 'p' !in s && 'P' !in s && 'w' !in s && 'W' !in s
    requires 'u' !in s && 'U' !in s && 's' !in s && 'S' !in s
    ensures !HasStandardSections(s)
  {
    assert Lower("PROFESSIONAL SUMMARY"[0]) == 'p';
    MissingLetterNoMatch(Literal("PROFESSIONAL SUMMARY"), s, 'p');
    assert Lower("WORK EXPERIENCE"[0]) == 'w';
    MissingLetterNoMatch(Literal("WORK EXPERIENCE"), s, 'w');
    assert Lower("EDUCATION"[2]) == 'u';
    MissingLetterNoMatch(Literal("EDUCATION"), s, 'u');
    NoStyleWithoutS(s);
    assert SectionHeadings[1..][1..][1..][1..] == [];
  }

  /** Text made only of the letters of table markup holds no scored construct other than a table. */
  lemma TableLettersOnly(s: string)
    requires forall i :: 0 <= i < |s| ==> s[i] in "<>/tabledrx"
    ensures !HasImages(s) && !HasComplexCss(s) && !HasStandardSections(s) && !HasBulletPoints(s)
  {
    assert 'm' !in s && 'M' !in s && 's' !in s && 'S' !in s;
    assert 'p' !in s && 'P' !in s && 'w' !in s && 'W' !in s && 'u' !in s && 'U' !in s;
    NoImageWithoutM(s);
    NoStyleWithoutS(s);
    NoSectionsWithout(s);
    forall i | 0 <= i < |s| ensures s[i] !in BulletMarks {
      assert s[i] in "<>/tabledrx";
    }
    MissingClassNoMatch(BulletMarks, s);
  }

  /** A fragment whose only scored finding is a table: one issue, the missing-headings warning, score 70. */
  lemma {:induction false} OnlyTableReport(html: string)
    requires HasTables(html) && !HasImages(html) && !HasComplexCss(html)
    requires !HasStandardSections(html) && !HasBulletPoints(html)
    ensures Report(html).issues == [TableMsg]
    ensures Report(html).warnings == [MissingSectionsMsg]
    ensures Report(html).positives == []
    ensures !Report(html).isCompliant
    ensures Report(html).score == 70
  {
    ReportLists(html);
  }

  /** The one-cell table: one issue, the missing-headings warning, not compliant, score 70. */
  lemma TableFragmentReport(html: string)
    requires html == TableFragment
    ensures Report(html).issues == [TableMsg]
    ensures Report(html).warnings == [MissingSectionsMsg]
    ensures Report(html).positives == []
    ensures !Report(html).isCompliant
    ensures Report(html).score == 70
  {
    TableFragmentHasTable();
    TableLettersOnly(html);
    OnlyTableReport(html);
  }
}
