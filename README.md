# cv-builder server utilities in Dafny

This project models the deterministic core of the cv-builder server. It has four parts.

- **The ATS validator and sanitizer** (`AtsValidator`, `Sanitizer`, `Patterns`).
  - The validator runs eight pattern checks over a CV's HTML.
  - Table and image tags are blocking issues.
  - Layout CSS and missing section headings are warnings.
  - A bullet followed by white space is the one positive.
  - The score is 100, minus 25 per issue and 5 per warning, plus 5 for bullets and 10 for standard headings, clamped to 0..100.
  - The sanitizer is nine `replace` passes run in order. They remove image tags and layout `style` attributes, turn eight glyphs into `•`, and downgrade table, row and cell tags to `div` and `span`.
  - Each regular expression the code uses is written out as a hand-made matcher (`Patterns.MatchLength`).
  - `Patterns.Occurs` plays the part of `.test` and `Patterns.ReplaceAll` the part of a global `.replace`.
- **The template CV generator** (`TemplateProvider`).
  - It reads labelled fields out of a prompt and fills in the defaults.
  - It renders a CV in one of two layouts and a cover letter.
  - It wraps both in the four comment markers the client splits the reply on.
- **The provider registry** (`AiFactory`). Three providers are registered by id. A requested name falls back to the `AI_PROVIDER` setting, then to `openai`. An unknown id resolves to the OpenAI provider.
- **The date and phone formatters** (`DateFormatter`).
  - `Present` is shown for an open end date.
  - The `YYYY-MM` and `MM/YYYY` forms are shown as `Month YYYY`.
  - Phone numbers get an international rewrite.

`Text` gives the JavaScript meaning of the string built-ins the code uses:
- `\s` and `trim`;
- ASCII case folding for `/i`;
- `indexOf`, `split`/`join` and `substring`;
- the decimal rendering of a number.

`Wrappers` holds `Option`.

Four functions of the source change local state step by step. Each is a method, proved equal to a reference function:
- `validateATSCompliance` pushes onto three lists; it is `AtsValidator.ValidateATSCompliance`, proved equal to `AtsValidator.Report`.
- `calculateATSScore` adjusts a running score; it is `AtsValidator.CalculateATSScore`, proved equal to `AtsValidator.Score`.
- `sanitizeForATS` reassigns one variable nine times; it is `Sanitizer.SanitizeForATS`, proved equal to `Sanitizer.Sanitized`.
- `formatPhoneInternational` reassigns its cleaned number; it is `DateFormatter.FormatPhone`, proved equal to `DateFormatter.FormatPhoneInternational`.

Where the code and its evident design differ, the model follows the code.
- The one-table fragment `<table><tr><td>x</td></tr></table>` scores 70, not 75. The missing-headings warning fires as well as the table issue.
- The style pass deletes the whole `style="…"` attribute, not only the offending declaration.
- Each sanitizer rule is a single pass. So `<im<img…>g>` sanitizes to `<img>`, and the output need not be free of images.

## Model

| member | source | states |
|---|---|---|
| AtsValidator.ValidateATSCompliance | server/utils/atsValidator.js:4-53 | The report built by pushing onto the issue, warning and positive lists equals the reference report. It is compliant exactly when there are no issues, and its score lies in 0..100. |
| AtsValidator.CalculateATSScore | server/utils/atsValidator.js:55-69 | The score computed step by step equals 100 − 25·issues − 5·warnings + 5·bullets + 10·sections, clamped, and lies in 0..100. |
| AtsValidator.HasTables | server/utils/atsValidator.js:10 | Reference definition with no contract of its own: `/<table[^>]*>/i` matches somewhere. Its facts are AtsValidator.TableFragmentHasTable and Patterns.MissingLetterNoMatch. |
| AtsValidator.HasImages | server/utils/atsValidator.js:11 | Reference definition with no contract of its own: `/<img[^>]*>/i` matches somewhere. AtsValidator.NoImageWithoutM states what it excludes. |
| AtsValidator.HasComplexCss | server/utils/atsValidator.js:12 | Reference definition with no contract of its own: a double-quoted `style="…"` value mentions one of the seven layout keywords, in any case. Sanitizer.GridOrFlexFlagged and AtsValidator.NoStyleWithoutS state its facts. |
| AtsValidator.HasColumns | server/utils/atsValidator.js:13 | Reference definition with no contract of its own: `column` or `col-` occurs in any case. AtsValidator.InformationalChecksUnscored shows it changes nothing in the report. |
| AtsValidator.HasSpecialChars | server/utils/atsValidator.js:14 | Reference definition with no contract of its own: one of the eight glyphs occurs. Sanitizer.SanitizedHasNoGlyph shows it never holds after sanitizing. |
| AtsValidator.HasHeadersFooters | server/utils/atsValidator.js:15 | Reference definition with no contract of its own: `<header` or `<footer` occurs in any case. AtsValidator.InformationalChecksUnscored shows it changes nothing in the report. |
| AtsValidator.HasStandardSections | server/utils/atsValidator.js:16 | Reference definition with no contract of its own: one of the four headings occurs in any case. AtsValidator.NoSectionsWithout states what it excludes. |
| AtsValidator.HasBulletPoints | server/utils/atsValidator.js:17 | Reference definition with no contract of its own: `•`, `·` or `-` followed by a white-space character occurs, case mattering. AtsValidator.TableLettersOnly states a case it excludes. |
| AtsValidator.Score | server/utils/atsValidator.js:55-69 | The score lies in 0..100. Five or more issues give 0. No issues, no warnings and standard headings give 100. |
| AtsValidator.Report | server/utils/atsValidator.js:4-53 | Reference definition with no contract of its own: the report of the rule table. Its properties are AtsValidator.ReportLists, AtsValidator.CompliantIff and AtsValidator.ScoreClosedForm, and the method AtsValidator.ValidateATSCompliance is proved equal to it. |
| AtsValidator.Clamp | server/utils/atsValidator.js:68 | `Math.max(lo, Math.min(hi, x))` lies in lo..hi, equals x inside the range, and equals the nearer bound outside it. |
| AtsValidator.ListsMatchRules | server/utils/atsValidator.js:20-41 | For any check results: issues are the table message then the image message, each only if its check fires. Warnings are the complex-CSS message then the missing-sections message. Positives are the bullet message or nothing. |
| AtsValidator.ReportLists | server/utils/atsValidator.js:10-41 | For any HTML, the three lists hold exactly the messages whose patterns match, in source order, with at most one positive. |
| AtsValidator.CompliantIff | server/utils/atsValidator.js:10-47 | A report is compliant exactly when it has no issues, that is, exactly when the HTML has neither a table tag nor an image tag. |
| AtsValidator.ScoreClosedForm | server/utils/atsValidator.js:43-69 | The report's score is the clamped closed form over the check results and lies in 0..100. |
| AtsValidator.InformationalChecksUnscored | server/utils/atsValidator.js:13-69 | Two fragments that agree on the five scored checks get the same score, compliance, issues, warnings and positives, whatever their column, glyph and header/footer checks say. |
| AtsValidator.TableCapsScore | server/utils/atsValidator.js:21-66 | With a table tag present, the fragment is not compliant and scores at most 90. |
| AtsValidator.TableFragmentHasTable | server/utils/atsValidator.js:10 | The one-table fragment matches `/<table[^>]*>/i`. |
| AtsValidator.NoImageWithoutM | server/utils/atsValidator.js:11 | Text without `m` or `M` has no image tag. |
| AtsValidator.NoStyleWithoutS | server/utils/atsValidator.js:12-16 | Text without `s` or `S` has no complex-CSS style attribute and no `SKILLS` heading. |
| AtsValidator.NoSectionsWithout | server/utils/atsValidator.js:16 | Text without any of p, w, u, s in either case holds none of the four standard headings. |
| AtsValidator.TableLettersOnly | server/utils/atsValidator.js:11-17 | Text made only of the fragment's characters has no image, no complex CSS, no standard heading and no bullet. |
| AtsValidator.OnlyTableReport | server/utils/atsValidator.js:21-68 | A fragment whose only matching scored check is the table check has issues [table], warnings [missing sections], no positives, is not compliant and scores 70. |
| AtsValidator.TableFragmentReport | server/utils/atsValidator.js:10-68 | `<table><tr><td>x</td></tr></table>` gets issues [table], warnings [missing sections], no positives, is not compliant and scores 70. |
| Sanitizer.Sanitized | server/utils/atsValidator.js:71-93 | Reference definition with no contract of its own: the nine passes applied in order. Its properties are Sanitizer.SanitizedHasNoGlyph, Sanitizer.SanitizeTables and Sanitizer.GridOrFlexSurvives, and the method Sanitizer.SanitizeForATS is proved equal to it. |
| Sanitizer.SanitizeForATS | server/utils/atsValidator.js:71-93 | Reassigning the fragment through the nine passes in order gives the reference result of the passes. |
| Sanitizer.BulletedPointwise | server/utils/atsValidator.js:82 | The glyph pass keeps the length and replaces each of ●○◆◇■□▲△ one for one by `•`, leaving every other character. |
| Sanitizer.SanitizedHasNoGlyph | server/utils/atsValidator.js:76-90 | No sanitized output holds any of the eight glyphs, for any input. |
| Sanitizer.ClassPassClears | server/utils/atsValidator.js:82-90 | After a replace-by-`•` pass, a replaced character stays gone through later passes whose replacements do not contain it. |
| Sanitizer.SanitizeTables | server/utils/atsValidator.js:76-90 | A fragment made of text, image tags, table, row and cell tags, and other tags sanitizes piece by piece. Images are dropped. `table`/`tr` tags become `div` and `td` tags `span`. Text and other tags are kept, with glyphs bulleted. Text may hold no `<` or `"`. Tag attributes may hold quotes and glyphs but no `<`, `>` or `style="` opening. |
| SanitizerExamples.StyledCellSanitized | server/utils/atsValidator.js:76-90 | `<td class="cv"><img src="a.png"><b>x</b></td>` sanitizes to `<span><b>x</b></span>` (x bulleted), for any x without `<` or `"`. |
| Sanitizer.StylePassRemovesWhole | server/utils/atsValidator.js:79 | A double-quoted `style="…"` value that mentions position, float, absolute, relative or transform is removed whole, attribute name and quotes included. The text before it is kept. |
| Sanitizer.StylePassKeeps | server/utils/atsValidator.js:79 | A style value that mentions none of the five keywords is kept as it is. |
| Sanitizer.GridOrFlexFlagged | server/utils/atsValidator.js:12 | A style value mentioning grid or flex is flagged as complex CSS by the validator. |
| Sanitizer.GridOrFlexSurvives | server/utils/atsValidator.js:76-90 | A grid or flex style with no `<`, quote, `=` or glyph in it, after text with no `<`, quote or glyph, comes through all nine passes unchanged, and the sanitized page is still flagged as complex CSS. |
| Sanitizer.ImagePassRemoves | server/utils/atsValidator.js:76 | An `<img…>` tag is removed and the text before it is kept. |
| Sanitizer.LaterPassesKeep | server/utils/atsValidator.js:79-90 | A plain text starting `<i`, with no other `<`, no quote and no glyph, passes through every pass after the image pass unchanged. |
| Sanitizer.PassesOnlyCopy | server/utils/atsValidator.js:76-90 | A character in the output of a run of passes comes from the input when no replacement holds it. |
| SanitizerExamples.SingleCellTable | server/utils/atsValidator.js:85-90 | `<table><tr><td>x</td></tr></table>` sanitizes to `<div><div><span>x</span></div></div>` (x bulleted) for any x without `<` or `"`. |
| SanitizerExamples.TableScenario | server/utils/atsValidator.js:85-90 | The scenario fragment with cell text `x` sanitizes to `<div><div><span>x</span></div></div>`. |
| SanitizerExamples.ImageReforms | server/utils/atsValidator.js:76-90 | `<im<img…>g>` sanitizes to `<img>`, which still matches the image check, because each rule is a single pass. |
| Patterns.ReplaceNothing | server/utils/atsValidator.js:76-90 | A global replace of a pattern that never matches leaves the text unchanged. |
| Patterns.ReplaceOnlyCopies | server/utils/atsValidator.js:76-90 | Every character of a replace's output comes from the input or from the replacement. |
| Patterns.ReplaceOneOfPointwise | server/utils/atsValidator.js:82 | Replacing single characters of a class by one character keeps the length and changes exactly the class members. |
| Patterns.MissingLetterNoMatch | server/utils/atsValidator.js:10-16 | A pattern needing a letter never matches text lacking that letter in either case. |
| AiFactory.RequestedId | server/ai-providers/aiFactory.js:12 | The id is the argument when truthy, else the `AI_PROVIDER` setting when truthy, else `openai`. |
| AiFactory.GetAIProvider | server/ai-providers/aiFactory.js:11-20 | The result is always a registered provider. It is the registry entry of the requested id when there is one, and the OpenAI provider otherwise. |
| AiFactory.RegistryIds | server/ai-providers/aiFactory.js:5-9 | The registry holds exactly `openai`, `ollama` and `template`, each mapped to a different provider. |
| AiFactory.RegisteredResolvesToItself | server/ai-providers/aiFactory.js:19 | A registered id resolves to its own provider, whatever the environment says. |
| AiFactory.UnknownFallsBackToOpenAI | server/ai-providers/aiFactory.js:14-17 | A non-empty unregistered id resolves to OpenAI, never to the configured default. |
| AiFactory.UnknownMatchesNoRequest | server/ai-providers/aiFactory.js:12-17 | An unknown id resolves like no id exactly when the setting names neither `ollama` nor `template`, that is, when it is unset, empty, `openai` or itself unknown. |
| DateFormatter.FormatDateForCV | server/utils/dateFormatter.js:4-43 | An empty input or `Present` gives `Present`. A `YYYY-MM` or `MM/YYYY` input always gives a text. |
| DateFormatter.IsoMonthYear | server/utils/dateFormatter.js:11-30 | A month outside 01..12 is an invalid date. |
| DateFormatter.YearMonthFormatted | server/utils/dateFormatter.js:11-42 | On a host at or east of UTC, `YYYY-MM` with month 01..12 gives the month's name, a space and the year, and the year reads back as the four digits' value. |
| DateFormatter.YearMonthInvalidUnchanged | server/utils/dateFormatter.js:11-30 | `YYYY-MM` with month 00 or 13..99 comes back unchanged. |
| DateFormatter.MonthSlashYearFormatted | server/utils/dateFormatter.js:19-42 | `MM/YYYY` with month 01..12 gives that month's name and the year, with years 0000..0099 read as 1900..1999, on any host. |
| DateFormatter.MonthZeroIsPreviousDecember | server/utils/dateFormatter.js:19-42 | `00/YYYY` with a year of at least 100 gives December of the year before. |
| DateFormatter.MonthThirteenIsNextJanuary | server/utils/dateFormatter.js:19-42 | `13/YYYY` with a year of at least 100 gives January of the year after. |
| DateFormatter.LocalMonthYear | server/utils/dateFormatter.js:19-42 | Reference definition with no contract of its own: `new Date(year, month - 1)` read back locally, with years 0..99 taken as 1900..1999 and an out-of-range month carried into the year. DateFormatter.MonthSlashYearFormatted, DateFormatter.MonthZeroIsPreviousDecember and DateFormatter.MonthThirteenIsNextJanuary state its results. |
| DateFormatter.YearMonthEarlyWestOfUtc | server/utils/dateFormatter.js:11-42 | On a host west of UTC, `YYYY-MM` with month 02..12 is shown as the month before. |
| DateFormatter.JanuaryWestOfUtcIsPreviousDecember | server/utils/dateFormatter.js:11-42 | On a host west of UTC, `YYYY-01` is shown as December of the year before, so `0000-01` gives `December -1`. |
| DateFormatter.March2020WestOfUtc | server/utils/dateFormatter.js:11-42 | `2020-03` is shown as `February 2020` west of UTC and `March 2020` elsewhere. |
| DateFormatter.FormatDateLocal | server/utils/dateFormatter.js:11-42 | Reference definition with no contract of its own: the corrected `YYYY-MM` branch, which reads the date in local time like the `MM/YYYY` branch. DateFormatter.YearMonthLocalNamesItsMonth states its result. |
| DateFormatter.YearMonthLocalNamesItsMonth | server/utils/dateFormatter.js:11-42 | Read as a local date, `YYYY-MM` names its own month on every host, as on a host east of UTC. |
| DateFormatter.FormatPhoneInternational | server/utils/dateFormatter.js:45-73 | Reference definition with no contract of its own: `formatPhoneInternational` as written, with the TypeError of a missing country code as a result. Its properties are the DateFormatter.Phone… lemmas below, and the method DateFormatter.FormatPhone is proved equal to it. |
| DateFormatter.KeepDigitsAndPlus | server/utils/dateFormatter.js:49 | The cleaned text holds only digits and `+`, is no longer than the input, and is the input itself when that holds only digits and `+`. |
| DateFormatter.KeepDigits | server/utils/dateFormatter.js:63 | `replace(/\D/g, '')` holds only digits and is the input itself when that is all digits. |
| DateFormatter.CountryCodeLength | server/utils/dateFormatter.js:62 | The greedy `^\+\d{1,3}` fails exactly when no digit follows the `+`. Otherwise it is 2 to 4 characters of `+` and digits, stopping early only at a non-digit. |
| DateFormatter.Spaced | server/utils/dateFormatter.js:65-66 | The spaced form is 15 characters, `+1 ` then groups split by spaces at positions 6 and 10. |
| DateFormatter.FormatPhone | server/utils/dateFormatter.js:45-73 | The method that reassigns `cleaned` step by step returns what the reference function returns. |
| DateFormatter.PhoneFalsyUnchanged | server/utils/dateFormatter.js:46 | A missing number comes back as it was. |
| DateFormatter.PhoneKeptWithoutCountryCode | server/utils/dateFormatter.js:49-72 | A number whose cleaned form has no leading `+` and is not ten characters comes back exactly as given, punctuation included. |
| DateFormatter.PhonePlusWithoutDigitThrows | server/utils/dateFormatter.js:61-63 | A cleaned number that is `+` with no digit after it makes the call throw a TypeError. |
| DateFormatter.CleanedChars | server/utils/dateFormatter.js:49-57 | The cleaned number, with or without the added `+1`, holds only digits and `+`. |
| DateFormatter.PhoneSpacedIff | server/utils/dateFormatter.js:61-67 | The spaced `+1 ddd ddd dddd` form comes out exactly when the cleaned number starts `+1+` and ten digits follow the `+1`. |
| DateFormatter.PhonePlusOtherwiseCleaned | server/utils/dateFormatter.js:49-69 | Every other cleaned number starting with `+` and a digit comes back as the cleaned form, which holds only digits and `+`. |
| DateFormatter.TenDigitsUnspaced | server/utils/dateFormatter.js:55-69 | Ten digits with nothing else come back as `+1` and the ten digits, unspaced. |
| DateFormatter.UsNumberUnspaced | server/utils/dateFormatter.js:55-69 | `5551234567` comes back as `+15551234567`. |
| DateFormatter.FormatPhoneIntended | server/utils/dateFormatter.js:55-66 | Reference definition with no contract of its own: the phone rule as the format comment intends, which takes `+1` as the country code whenever ten digits follow it. DateFormatter.TenDigitsSpacedIntended states its result. |
| DateFormatter.TenDigitsSpacedIntended | server/utils/dateFormatter.js:61-66 | Under the corrected rule, ten digits come back as `+1 ddd ddd dddd`. |
| TemplateProvider.ExtractFields | server/ai-providers/templateProvider.js:6-24 | Reference definition with no contract of its own: the nine fields read from the prompt, each with its default. TemplateProvider.MissingFieldsDefault, TemplateProvider.LineFieldValue, TemplateProvider.BlockStopsAtFirstStop and TemplateProvider.TemplateFromQuote state its values. |
| TemplateProvider.FindFirst | server/ai-providers/templateProvider.js:6-14 | The position where a label first starts. There is none exactly when the prompt does not hold it, and no earlier position starts it. |
| TemplateProvider.LineCapture | server/ai-providers/templateProvider.js:6-22 | A captured single-line value has no line break and starts and ends with a character that is not white space. |
| TemplateProvider.FirstStop | server/ai-providers/templateProvider.js:10-13 | The lookahead stop is the first position where a stop word starts, or the end. No earlier position starts one. |
| TemplateProvider.BlockCapture | server/ai-providers/templateProvider.js:10-23 | A captured multi-line value is trimmed at both ends. |
| TemplateProvider.TemplateStyle | server/ai-providers/templateProvider.js:14-24 | A captured template name is non-empty and quote-free, and comes from a prompt holding a quote. |
| TemplateProvider.MissingFieldsDefault | server/ai-providers/templateProvider.js:16-24 | A prompt without a label gets that field's default: `Your Name`, `Not provided` for education and experience, the empty string for the other five, and `classic` for the template without a quote. |
| TemplateProvider.LineFieldValue | server/ai-providers/templateProvider.js:6-22 | A single-line field is the trimmed text after the label's first occurrence, past any white space, up to the next line break. |
| TemplateProvider.NameFromFirstLabel | server/ai-providers/templateProvider.js:6-16 | The name is the trimmed rest of the line after the first `Name:`. |
| TemplateProvider.BlockStopsAtFirstStop | server/ai-providers/templateProvider.js:10-23 | A multi-line field is the trimmed text after the label up to the first stop word. |
| TemplateProvider.BlockRunsToEnd | server/ai-providers/templateProvider.js:10-23 | With no stop word after it, a multi-line field runs, trimmed, to the end of the prompt. |
| TemplateProvider.TemplateSkipsUnquoted | server/ai-providers/templateProvider.js:14 | Quote-free text in front of the prompt does not change which template is found. |
| TemplateProvider.TemplateFromQuote | server/ai-providers/templateProvider.js:14-24 | The template is the quoted name followed by white space and `template style`, when no quote comes before it. |
| TemplateProvider.CvHtml | server/ai-providers/templateProvider.js:41-87 | Reference definition with no contract of its own: the ATS-optimized layout or the accented one. TemplateProvider.AtsHeadingsInOrder, TemplateProvider.AccentedHeadingsInOrder and the empty-skills lemmas state its content. |
| TemplateProvider.RenderedHeadingsInOrder | server/ai-providers/templateProvider.js:50-84 | The rendered sections show their `HEADING</h2>` tags in list order. |
| TemplateProvider.RenderedSectionShown | server/ai-providers/templateProvider.js:50-84 | Each rendered section shows its heading, then its body. |
| TemplateProvider.AtsHeadingsInOrder | server/ai-providers/templateProvider.js:43-62 | The ATS-optimized CV shows PROFESSIONAL SUMMARY, WORK EXPERIENCE, EDUCATION and SKILLS headings in that order. |
| TemplateProvider.AccentedHeadingsInOrder | server/ai-providers/templateProvider.js:66-86 | Every other template shows EDUCATION, WORK EXPERIENCE and SKILLS headings in that order, and none of its sections is a summary. |
| TemplateProvider.AtsEmptySkillsNotProvided | server/ai-providers/templateProvider.js:60-61 | With no skills, the ATS-optimized CV shows the SKILLS heading followed by the skills `div` holding `Not provided`. |
| TemplateProvider.AccentedEmptySkillsNotProvided | server/ai-providers/templateProvider.js:83-84 | With no skills, every other template shows the SKILLS heading followed by `Not provided` too. |
| TemplateProvider.ContactSeparatorIff | server/ai-providers/templateProvider.js:48 | With no pipe character in either field, the ATS contact line holds the pipe separator (space, pipe, space) exactly when both email and phone are given. |
| TemplateProvider.NonBlankLines | server/ai-providers/templateProvider.js:112 | The filtered lines are non-blank lines of the input, no more of them than there were. |
| TemplateProvider.ExperienceItems | server/ai-providers/templateProvider.js:112 | At most three items, each non-blank and one line long. They are the first non-blank lines of the experience, all of them when there are fewer than three. |
| TemplateProvider.ExperienceItemsOfLines | server/ai-providers/templateProvider.js:112 | Non-blank lines joined with line breaks give back all of the lines as items, or the first three. |
| TemplateProvider.CoverLetterHtml | server/ai-providers/templateProvider.js:89-121 | Reference definition with no contract of its own: the letter's heading block, subject line and body, with the date as a parameter. TemplateProvider.LetterShowsSubject, TemplateProvider.LetterShowsInterest and TemplateProvider.JobQuoteBounded state its content. |
| TemplateProvider.LetterShowsSubject | server/ai-providers/templateProvider.js:103 | The letter holds its `Re:` subject line. |
| TemplateProvider.LetterShowsInterest | server/ai-providers/templateProvider.js:110 | The letter holds `interest in the <title> role.` with `position` for a missing title. |
| TemplateProvider.EmptyJobTitleDefaults | server/ai-providers/templateProvider.js:103-110 | Without a job title the letter holds `<strong>Re: Job Application</strong>` and `interest in the position role.` |
| TemplateProvider.JobQuoteBounded | server/ai-providers/templateProvider.js:114 | An empty description gives no paragraph. Otherwise the paragraph is `<p>I am particularly excited about this opportunity because `, the quote, then `...</p>`. The quote is the whole description when that has at most 200 characters, and exactly its first 200 characters when it is longer. |
| TemplateProvider.FramedMarkersInOrder | server/ai-providers/templateProvider.js:32-38 | A framed reply holds CV_START, CV_END, COVER_LETTER_START and COVER_LETTER_END in that order. |
| TemplateProvider.FramedEnds | server/ai-providers/templateProvider.js:32-38 | A framed reply starts with `<!-- CV_START -->` and ends with `<!-- COVER_LETTER_END -->`. |
| TemplateProvider.FramedLayout | server/ai-providers/templateProvider.js:32-38 | The CV and the letter sit each on its own lines right inside its markers. A blank line separates the two parts. |
| TemplateProvider.GenerateCV | server/ai-providers/templateProvider.js:4-39 | Reference definition with no contract of its own: the framed reply built from the extracted fields and the date. TemplateProvider.GenerateCVFramed states its frame. |
| TemplateProvider.GenerateCVFramed | server/ai-providers/templateProvider.js:4-39 | For every prompt and date, the generated reply starts with CV_START, ends with COVER_LETTER_END and holds the four markers in order. |
| Text.TrimEmptyIff | server/ai-providers/templateProvider.js:112 | `trim()` gives the empty string exactly when the text is all white space, which is what `filter(e => e.trim())` drops. |
| Text.SplitJoin | server/ai-providers/templateProvider.js:112 | Splitting parts joined by a separator none of them holds gives back the parts. |
| Text.DecimalRoundTrip | server/utils/dateFormatter.js:40-42 | The rendered year reads back as the year. |

## Left out

- Strings are sequences of Unicode scalar values. JavaScript counts UTF-16 code units, so `substring(0, 200)` and lengths differ from the model for characters outside the Basic Multilingual Plane.
- DateFormatter.FormatDateForCV: a full ISO date and every other string go to the engine's general `new Date(string)` parser, which is a foreign call. The model gives None for those, so the "returned as-is when invalid" path is modelled only for `YYYY-MM`.
- The unused `format` parameter of `formatDateForCV` and the `options` parameter of `generateCV` are not modelled.
- The date in the cover letter comes from the clock and the locale (`toLocaleDateString`). It is a parameter of `CoverLetterHtml` and `GenerateCV`.
- The host's time zone is a `westOfUtc` flag: the sign of the host's UTC offset at midnight UTC on the first of the month being read. The model takes one flag per host, so a zone whose offset changes sign during the year (Atlantic/Azores, at UTC−1 in winter and UTC+0 in summer) is not captured date by date.
- `process.env.AI_PROVIDER` is a parameter of `GetAIProvider`.
- Providers are tags, not the provider objects. `server/ai-providers/openaiProvider.js` and `server/ai-providers/ollamaProvider.js` (network clients) are not part of this model, and neither are `server/index.js` and the React client.
- AiFactory.GetAIProvider: the lookup `AI_PROVIDERS[provider]` also finds keys inherited from the object prototype (such as `toString`). The model's registry is the three-entry map only.
- `console.warn` and `console.error` messages are not modelled.
- Sanitizer.SanitizeTables: the fragment must cut into the pieces its row lists. Text may hold no `<` or `"`. Table, row and cell attributes may hold no `<`, `>` or `style="` opening, even one naming no stripped keyword (`<td style="padding: 4px">` is not covered). Other tags must differ from the seven tag leads and hold no `style="` opening. The output for other fragments is stated only by Sanitizer.SanitizedHasNoGlyph and Sanitizer.PassesOnlyCopy.
- Falsy values other than the empty string (`null`, `undefined`) are the empty string or `None`.
- The general regular expression engine is not modelled. Each pattern the code uses has a hand-written matcher with the same leftmost, greedy or lazy choices.

## Findings

| source | as written | input that shows it | evidently intended | confidence | as-written member | corrected member |
|---|---|---|---|---|---|---|
| server/utils/dateFormatter.js:55-66 | A ten-digit number gets `+1` in front. The greedy `^\+\d{1,3}` then takes `+1` and two more digits as the country code, so the `+1` test never passes and the number comes back unspaced. | `5551234567` gives `+15551234567` | `+1 555 123 4567`, as the format comment shows | not executed | DateFormatter.UsNumberUnspaced | DateFormatter.TenDigitsSpacedIntended |
| server/utils/dateFormatter.js:11-40 | `new Date("YYYY-MM-01")` is read as midnight UTC, and the month is read back in local time. | `2020-03` gives `February 2020` on a host west of UTC | `March 2020` on every host, as the `MM/YYYY` branch already reads its date locally | not executed | DateFormatter.March2020WestOfUtc | DateFormatter.YearMonthLocalNamesItsMonth |
