# Body-template spacing normalisation, modelled in Dafny

The script `scripts/update-body-spacing.py` brings the spacing values of HTML
e-mail body templates to a 20px standard. It reads each template and runs
seven regular-expression substitutions over the content, one after another.
The script numbers them 1 to 8; number 7 is a comment with no substitution.
Each substitution finds one HTML/CSS fragment carrying a 13px, 10px or 24px
value and rewrites that value to 20px. The file is written back only when the
content changed; otherwise the script reports "No changes made".

This project models that pipeline as pure functions over `string`
(`seq<char>`) and proves what each substitution does and what the pipeline as a
whole guarantees.

- `Text`: Python's `\s` class and the greedy whitespace run.
  `\s` is exactly the characters for which `str.isspace()` holds.
- `Pattern`: the shape shared by all seven patterns.
  - A pattern is a literal head, an optional whitespace gap (nothing, `\s*` or
    `\s+`) and a literal tail.
  - A replacement is a fixed text, `text\1` or `\1text`.
  - `MatchAt` is a matcher for that shape, proved equal to what the regular
    expression means.
  - `Sub` is Python's leftmost, non-overlapping `re.sub`.
- `Table`: the seven rules as data, in the script's order, and facts about
  their literal texts. For each rule, a lemma spells the rule out in the
  script's full literals.
- `RuleFacts`: per rule, the facts `Rewrite` asks for: which kind of rule it
  is, which pieces of text its matches avoid, and the order conditions.
- `Rewrite`: why a substitution removes its own matches and creates none of an
  earlier rule's.
  - The six "digit rules" (1, 2, 4, 5, 6 and 8) only overwrite a two-digit
    value with "20".
  - Rule 3 replaces every match by one and the same block.
- `Effect`: for each rule, which texts it matches and what it puts in their
  place.
- `Normalize`: the whole pipeline, its idempotence, and the write-or-report
  decision.

## Model

| member | source | states |
|---|---|---|
| Text.IsSpace | scripts/update-body-spacing.py:23 | definition: the characters `\s` stands for, the whitespace code points of `str.isspace()` |
| Text.SpaceRun | scripts/update-body-spacing.py:23 | the greedy `\s*` takes a run made only of whitespace and stops before a non-space or at the end of the content |
| Text.SpaceRunUnique | scripts/update-body-spacing.py:37 | any whitespace prefix followed by a non-space or the end is exactly the greedy run, so backtracking cannot choose a shorter gap |
| Table.Rule1AsWritten | scripts/update-body-spacing.py:22-26 | rule 1 is the 13px cell head, a `\s*` gap, the top-border comment as tail, and the 20px cell followed by group 1 as replacement |
| Table.Rule2AsWritten | scripts/update-body-spacing.py:29-33 | rule 2 is the whole 13px border-top divider with no gap, replaced by the same divider at 20px |
| Table.Rule3AsWritten | scripts/update-body-spacing.py:36-40 | rule 3 is `letter-spacing: -0.3px;`, a `\s+` gap and the 13px border declaration, replaced by group 1, two spaces and the 20px declaration |
| Table.Rule4AsWritten | scripts/update-body-spacing.py:43-47 | rule 4 is the 13px cell head, a `\s*` gap and `<div style="font-family`, replaced by the 20px cell followed by group 1 |
| Table.Rule5AsWritten | scripts/update-body-spacing.py:50-54 | rule 5 is `text-align: right; margin-bottom: 13px;">` with no gap, replaced by group 1 followed by ` margin-bottom: 20px;">` |
| Table.Rule6AsWritten | scripts/update-body-spacing.py:57-61 | rule 6 is `text-align: right; padding-bottom: 10px;">` with no gap, replaced by group 1 followed by ` padding-bottom: 20px;">` |
| Table.Rule8AsWritten | scripts/update-body-spacing.py:66-70 | rule 8 is the 24px cell with no gap, replaced by the 20px cell |
| Table.RulesWellFormed | scripts/update-body-spacing.py:23-44 | in every pattern with `\s*` or `\s+`, the literal after the whitespace starts with a non-space (`<` or `b`), which is what makes the greedy match unique |
| Pattern.MatchAt | scripts/update-body-spacing.py:23 | the matcher for head, optional whitespace gap and tail at the start of the content; a match covers at least the head and the tail and lies within the content |
| Pattern.Replacement | scripts/update-body-spacing.py:24 | definition: the replacement of a match, a fixed text (lines 31, 69), text followed by group 1 (lines 24, 45) or group 1 followed by text (lines 38, 52, 59) |
| Pattern.Sub | scripts/update-body-spacing.py:22-26 | definition: `re.sub`, scanning from the left, replacing each match and resuming after it, copying one character where no match starts |
| Pattern.MatchAtSound | scripts/update-body-spacing.py:23 | a match found by the matcher is head, whitespace the gap admits, and tail, all at the start of the content |
| Pattern.MatchAtComplete | scripts/update-body-spacing.py:37 | every way the regular expression can match at a position is the one the matcher finds, with the same length and the same captured whitespace |
| Pattern.MatchOfParts | scripts/update-body-spacing.py:44 | head, any whitespace the gap admits, and tail together form a match, whose captured whitespace is that whitespace |
| Pattern.MatchIsLocal | scripts/update-body-spacing.py:22-26 | whether a match occurs depends only on the characters it covers, not on what follows |
| Pattern.SubCopiesPrefix | scripts/update-body-spacing.py:22-26 | `re.sub` copies all text before the first match unchanged |
| Pattern.SubAtFirstMatch | scripts/update-body-spacing.py:22-26 | at the leftmost match, `re.sub` emits the replacement and resumes scanning after the match, never inside it |
| Pattern.SubWithoutMatch | scripts/update-body-spacing.py:29-33 | content in which the pattern occurs nowhere comes out of `re.sub` unchanged |
| Rewrite.SubDigitEdited | scripts/update-body-spacing.py:29-33 | a digit rule keeps the content's length, and every character it changes is part of a "20" it wrote |
| Rewrite.SubKeepsUncovered | scripts/update-body-spacing.py:67-71 | a digit rule leaves every character that lies outside all of its matches as it was |
| Rewrite.SubRewritesMatch | scripts/update-body-spacing.py:22-26 | for a digit rule whose matches cannot overlap, wherever a match starts in the input, the output holds that match's replacement at the same position and has the input's length |
| Rewrite.DigitClears | scripts/update-body-spacing.py:29-33 | after a digit rule has run, no match of it remains anywhere, including matches that replacement could have created across a boundary |
| Rewrite.DigitPreserves | scripts/update-body-spacing.py:22-71 | a digit rule creates no match of any rule whose matches contain no "20", so an earlier rule's patterns do not reappear |
| Rewrite.BlockPreserves | scripts/update-body-spacing.py:36-40 | rule 3 leaves no match of itself, and creates no match of a rule that cannot overlap its replacement block |
| Effect.Rule1Effect | scripts/update-body-spacing.py:22-26 | a rule 1 match is the 13px cell, whitespace and the top-border comment; it becomes the 20px cell followed by the same whitespace and comment |
| Effect.Rule1Matches | scripts/update-body-spacing.py:23 | the 13px cell followed by any whitespace, including none, and the top-border comment is a rule 1 match |
| Effect.Rule4Effect | scripts/update-body-spacing.py:43-47 | a rule 4 match is the 13px cell, whitespace and `<div style="font-family`; it becomes the 20px cell followed by the same whitespace and text |
| Effect.Rule4Matches | scripts/update-body-spacing.py:44 | the 13px cell followed by any whitespace and `<div style="font-family` is a rule 4 match |
| Effect.Rule3Effect | scripts/update-body-spacing.py:36-40 | a rule 3 match is `letter-spacing: -0.3px;`, at least one whitespace character, and the 13px border declaration; it becomes the same prefix, exactly two spaces, and the 20px declaration |
| Effect.Rule3Matches | scripts/update-body-spacing.py:37 | any non-empty whitespace run between the two declarations gives a rule 3 match |
| Effect.Rule5Effect | scripts/update-body-spacing.py:50-54 | rule 5 matches exactly `text-align: right; margin-bottom: 13px;">` and keeps `text-align: right;`, changing only 13px to 20px |
| Effect.Rule6Effect | scripts/update-body-spacing.py:57-61 | rule 6 matches exactly `text-align: right; padding-bottom: 10px;">` and keeps `text-align: right;`, changing only 10px to 20px |
| Effect.Rule2Effect | scripts/update-body-spacing.py:29-33 | rule 2 matches exactly the 13px border-top divider and replaces it by the 20px divider |
| Effect.Rule8Effect | scripts/update-body-spacing.py:67-71 | rule 8 matches exactly the 24px cell and replaces it by the 20px cell |
| Normalize.DigitRulePass | scripts/update-body-spacing.py:22-71 | each of rules 1, 2, 4, 5, 6 and 8 keeps the length, keeps every character outside its matches, and leaves no match of itself |
| Normalize.DigitRuleRewritesEach | scripts/update-body-spacing.py:22-71 | for each of rules 1, 2, 4, 5, 6 and 8, every match in the content it is given, wherever it starts, is replaced in place by its replacement |
| Normalize.Rule8EveryCell | scripts/update-body-spacing.py:66-70 | every 24px cell in the content, wherever it stands, becomes the 20px cell at the same position |
| Normalize.Rule2EveryDivider | scripts/update-body-spacing.py:29-33 | every 13px divider in the content, wherever it stands, becomes the 20px divider at the same position |
| Normalize.Rule3Pass | scripts/update-body-spacing.py:36-40 | rule 3 copies the text before its first match, puts the two-space block in its place, and leaves no match of itself |
| Normalize.Apply | scripts/update-body-spacing.py:22-71 | definition: `content = re.sub(...)` for each rule in turn, first to last, each substitution reading the previous one's output |
| Normalize.ApplyLeavesNone | scripts/update-body-spacing.py:22-71 | a sequence of rules, each of which removes its own matches and creates none of an earlier rule's, leaves no match of any of them |
| Normalize.ApplyKeepsClean | scripts/update-body-spacing.py:19-71 | content with no match of any rule passes through the whole sequence unchanged |
| Normalize.RulesOrdered | scripts/update-body-spacing.py:22-71 | the script's seven rules, in the script's order, satisfy the condition of ApplyLeavesNone |
| Normalize.Normalize | scripts/update-body-spacing.py:19-71 | definition: the content after the script's seven substitutions, in the script's order |
| Normalize.NormalizeLeavesNone | scripts/update-body-spacing.py:22-71 | the content after all seven substitutions contains no match of any rule: no 24px cell, no 13px divider, and so on |
| Normalize.NormalizeKeepsClean | scripts/update-body-spacing.py:22-73 | content in which no pattern occurs comes out of the seven substitutions identical |
| Normalize.NormalizeIdempotent | scripts/update-body-spacing.py:22-73 | running the substitutions over their own output changes nothing |
| Normalize.ChangedIffPattern | scripts/update-body-spacing.py:73 | the content changes exactly when at least one pattern occurs in it |
| Normalize.Process | scripts/update-body-spacing.py:73-78 | the template is written back exactly when the new content differs from the original, and the new content is what is written; "No changes made" is reported exactly when no pattern occurs |
| Normalize.SecondRunNoChanges | scripts/update-body-spacing.py:73-78 | a second run of the script over a template it has already updated reports "No changes made" |

## Left out

- `my_tool.py` is not part of this model. Its `fix_text` is a single call into the `bidi` library's implementation of the Unicode Bidirectional Algorithm, whose source is not available. The rest of that file is console rendering with `rich`.
- Template discovery with `glob.glob('templates/bodies/*.html')` (line 9) is filesystem I/O.
- Reading and writing the files, and their UTF-8 decoding (lines 16-17, 74-75), are I/O. The content is a parameter. The decision to write is modelled by `Normalize.Process`: `Updated(content)` stands for the write and `NoChanges` for the report.
- The progress and summary messages (lines 11, 14, 76-80) are console output. Only the choice between "Updated" and "No changes made" is modelled.
- No general regular-expression engine is modelled. `Pattern.MatchAt` handles exactly the shape the seven patterns share: literal, optional `\s*`/`\s+`, literal.
- A Python `str` is a sequence of code points. It is modelled as a Dafny `string`, a sequence of Unicode scalar values. Content decoded from strict UTF-8 contains no lone surrogates, so the two agree on every template the script can read.
- The script's comment numbered 7 (lines 63-64) makes no substitution. The model has rules 1-6 and 8 in that order, seven substitutions in all.
- `Normalize.Normalize` returns the new content; its properties are the lemmas about it. The changed flag is `Normalize(c) != c`, and `Normalize.Process` returns it in the shape of the script's two outcomes rather than as a separate boolean.
