# Resume builder core, modelled in Dafny

The resume builder has a React front end and a Spring Boot back end. This
project models the deterministic core of both and proves properties of the
model.

- **ATS engine** (`src/lib/atsSuggestions.ts`, modules `AtsRules`,
  `AtsSuggestions`, `AtsScore`, `AtsDataset`):
  - the rule-based analyser that emits an ordered list of suggestions;
  - the rule-based score (100 minus fixed deductions, verdict line first);
  - the dataset path's post-processing: sample filtering and sorting, the
    3-to-5 truncation, and the weighted-pattern score with its clamp.

  Every `Math.random` choice is an injected number: an index into a
  candidate list, a truncation count, or a permutation standing for a
  shuffle. Regular expressions are hand-written string predicates. The
  analysed text keeps the source's concatenation quirk. The source spreads
  a joined *string* into an array, so every character of the experience and
  skill text becomes its own space-separated piece (`AtsRules.Spread`).
- **LaTeX substitution** (`LatexTemplateService.java`, module
  `LatexTemplate`): `escapeLatex` is a chain of seven replace-all steps.
  `replace`, `substitute` and the `substituteBlock` loop expand
  `{{#section}}…{{/section}}` blocks by string splicing.
- **Admin controller** (`AdminController.java`, module `AdminController`),
  over in-memory repositories (module `Model`):
  - CSV escaping per section 2 of RFC 4180, with a parser proving the round
    trip;
  - the last-admin guard on role updates;
  - self-delete refusal and the cascade to the user's resumes;
  - per-template counts;
  - both CSV exports, built row by row.
- **Resume store** (`ResumeController.java`, module `ResumeController`):
  owner-checked get, update and delete, and create with its stamping. The
  clock and fresh ids are parameters.
- **Registration** (`AuthController.java`, module `AuthController`):
  uniqueness checks, role defaulting and the seed-admin reset. The password
  encoder is a function parameter.
- **Client-side state updates** (modules `IndexPage`, `ResumeForm`,
  `AiSuggestions`, `AdminUsers`):
  - applying a suggestion and loading a resume on the editor page;
  - the form's add/change/remove handlers;
  - the mock AI suggestion rules and their apply/mark logic;
  - the admin page's role toggle, save guard and pagination.

The front-end resume (`FrontResume`) uses plain strings, with `""` standing
for a missing value, since both are falsy in JavaScript. The back-end
resume (`Model`) follows `Resume.java`, with nullable fields as `Option`.
`Text` and `Wrappers` hold the string and option helpers the modules share.
They model ASCII `toLowerCase`, `trim`, `includes`, `indexOf`, `replace`, `split`,
`join` and integer printing.

Where the code and its documentation disagree, the model follows the code.
One such case, the analysed text, is listed under Findings.

## Model

| member | source | states |
|---|---|---|
| AtsRules.AnalysedText | src/lib/atsSuggestions.ts:56-60 | the analysed text as written: the summary, then every character of the joined descriptions and the joined skill names, each preceded by a space, all lower-cased (specified through the lemmas below) |
| AtsRules.SpreadAppend | src/lib/atsSuggestions.ts:58-59 | spreading a concatenation is the concatenation of the spreads |
| AtsRules.SpreadAt | src/lib/atsSuggestions.ts:58-59 | in the spread text every even position is a space and odd position 2i+1 holds character i |
| AtsRules.NoPairInSpread | src/lib/atsSuggestions.ts:58-59 | a keyword whose first two characters are not spaces never occurs in spread text |
| AtsRules.KeywordSeenOnlyInSummary | src/lib/atsSuggestions.ts:194-202 | a keyword of two or more characters without spaces occurs in the analysed text iff it occurs in the lower-cased summary |
| AtsRules.SummaryFreeText | src/lib/atsSuggestions.ts:194-202 | with an empty summary, no keyword starting with two non-space characters occurs in the analysed text, whatever the skills and descriptions |
| AtsRules.SkillKeywordMissed | src/lib/atsSuggestions.ts:194-202 | a resume whose only content is the skill "Java" does not contain "java" in its analysed text |
| AtsRules.IntendedText | src/lib/atsSuggestions.ts:194-198 | the evidently intended text: summary, descriptions and skill names joined by spaces, lower-cased |
| AtsRules.IntendedTextSeesSummary | src/lib/atsSuggestions.ts:195 | whatever occurs in the lower-cased summary occurs in the intended text |
| AtsRules.IntendedTextSeesDescription | src/lib/atsSuggestions.ts:196 | whatever occurs in a lower-cased description occurs in the intended text |
| AtsRules.IntendedTextSeesSkill | src/lib/atsSuggestions.ts:197 | whatever occurs in a lower-cased skill name occurs in the intended text |
| AtsSuggestions.DatasetPart | src/lib/atsSuggestions.ts:64-75 | dataset suggestion i becomes field `dataset-pattern-i` with its value, one per suggestion, in order |
| AtsSuggestions.ExperienceFieldInjective | src/lib/atsSuggestions.ts:124 | distinct entries get distinct `experience-<i>-description` fields |
| AtsSuggestions.SummaryPart | src/lib/atsSuggestions.ts:79-96 | shorter than 50 (or missing): one high `summary` suggestion carrying the fallback text; longer than 200: one medium one whose value is the first 150 characters and "..."; 50..200: none |
| AtsSuggestions.SummaryFallbackTooLong | src/lib/atsSuggestions.ts:259-263 | the fallback summary is always longer than 200 characters |
| AtsSuggestions.SkillOffer | src/lib/atsSuggestions.ts:106-116 | a skill suggestion exists iff some keyword is missing and there are fewer than 10 skills; its value is among the first min(k,5) missing keywords |
| AtsSuggestions.KeywordsByMembers | src/lib/atsSuggestions.ts:102-104 | a keyword is in the filtered list iff it is a technical keyword whose presence among the skill names is as asked |
| AtsSuggestions.MissingKeywords | src/lib/atsSuggestions.ts:102-106 | the missing list is non-empty iff some technical keyword is no substring of any lower-cased skill name |
| AtsSuggestions.MissingOffered | src/lib/atsSuggestions.ts:102-104 | every missing keyword is a technical keyword no skill name contains |
| AtsSuggestions.SkillSuggestionOffersMissing | src/lib/atsSuggestions.ts:99-116 | a skill is offered iff some technical keyword is missing from every skill name and there are fewer than 10 skills; the one offered is such a keyword |
| AtsSuggestions.ExperienceFallbackLongEnough | src/lib/atsSuggestions.ts:269-312 | the fallback description is non-empty and at least 30 characters after trimming |
| AtsSuggestions.ImproveExperienceDescription | src/lib/atsSuggestions.ts:318-328 | the result starts (after trimming) with a capital; a description that already does is returned unchanged; otherwise it is a verb, a space and the trimmed, lower-cased description |
| AtsSuggestions.ImprovedStartsUpper | src/lib/atsSuggestions.ts:319-324 | each of the five verbs gives a text starting with a capital |
| AtsSuggestions.ImproveIdempotent | src/lib/atsSuggestions.ts:318-328 | improving an improved description changes nothing, whatever verb is drawn |
| AtsSuggestions.AddMetricsToDescription | src/lib/atsSuggestions.ts:333-352 | the result contains a digit; a description with a digit is returned unchanged; otherwise the trimmed text gets the quantifiable-results hint |
| AtsSuggestions.MetricsHaveDigits | src/lib/atsSuggestions.ts:335-343 | every metric example contains a digit |
| AtsSuggestions.AddMetricsIdempotent | src/lib/atsSuggestions.ts:333-352 | adding metrics twice is adding them once |
| AtsSuggestions.ExperienceCheck | src/lib/atsSuggestions.ts:120-159 | a suggestion for an entry carries field `experience-<i>-description` and type experience |
| AtsSuggestions.ExperienceCheckCases | src/lib/atsSuggestions.ts:121-158 | a suggestion exists iff the description is too short, lacks a verb (no action-verb substring and no a–z first character) or lacks a digit; high priority iff too short; checks taken in that order with the fallback, rewrite and metric values |
| AtsSuggestions.ExperienceFieldsDistinct | src/lib/atsSuggestions.ts:119-167 | every experience suggestion names an existing entry's description field, and no two name the same one |
| AtsSuggestions.ExperienceEntryCovered | src/lib/atsSuggestions.ts:119-167 | entry i gets a suggestion iff its description needs one |
| AtsSuggestions.EducationPart | src/lib/atsSuggestions.ts:169-180 | as many high `education` suggestions as there are entries lacking degree or school, each naming such an entry |
| AtsSuggestions.EducationFieldInjective | src/lib/atsSuggestions.ts:173 | distinct entries get distinct `education-<i>` fields |
| AtsSuggestions.EducationPartValues | src/lib/atsSuggestions.ts:174-177 | every education suggestion carries the fixed value and reason |
| AtsSuggestions.EducationPartCovers | src/lib/atsSuggestions.ts:170-171 | entry i gets an `education-<i>` suggestion iff it lacks degree or school |
| AtsSuggestions.EducationPartOrdered | src/lib/atsSuggestions.ts:170-180 | the suggestions follow entry order, so no entry gets two |
| AtsSuggestions.FormatPart | src/lib/atsSuggestions.ts:183-191 | a high `format` suggestion iff the email is non-empty and has no '@' |
| AtsSuggestions.KeywordsInMembers | src/lib/atsSuggestions.ts:200-204 | every technical keyword occurring in the text is counted |
| AtsSuggestions.KeywordsInPrefix | src/lib/atsSuggestions.ts:200-204 | when the first n keywords occur, at least n are counted |
| AtsSuggestions.KeywordsInOnly | src/lib/atsSuggestions.ts:200-204 | only keywords occurring in the text are counted, so the count is the size of the source's set |
| AtsSuggestions.KeywordsInNone | src/lib/atsSuggestions.ts:200-204 | when no keyword occurs, none is counted |
| AtsSuggestions.KeywordPart | src/lib/atsSuggestions.ts:194-214 | as written: the keyword suggestion appears iff fewer than 5 technical keywords occur in the analysed text and there are fewer than 8 skills |
| AtsSuggestions.KeywordCheckIgnoresSkills | src/lib/atsSuggestions.ts:194-214 | as written: with an empty summary and fewer than 8 skills the keyword suggestion always appears, whatever the skills are named |
| AtsSuggestions.KeywordSkillsExample | src/lib/atsSuggestions.ts:194-214 | five skills named java, python, javascript, typescript and react with no summary get the keyword suggestion as written, and none with the intended text |
| AtsSuggestions.IntendedKeywordPart | src/lib/atsSuggestions.ts:194-214 | the corrected check: the same rule over the intended text |
| AtsSuggestions.KeywordCheckSeesSkills | src/lib/atsSuggestions.ts:194-214 | with the intended text a keyword named in a skill is counted |
| AtsSuggestions.TechnicalStarts | src/lib/atsSuggestions.ts:32-36 | every technical keyword starts with two non-space characters |
| AtsSuggestions.RuleFieldsNotDataset | src/lib/atsSuggestions.ts:79-214 | no rule-based suggestion carries a `dataset-pattern-` field |
| AtsSuggestions.DatasetSuggestionsFirst | src/lib/atsSuggestions.ts:64-75 | dataset suggestions come first, in order, numbered from 0; everything after them is rule-based |
| AtsSuggestions.GenerateATSSuggestions | src/lib/atsSuggestions.ts:52-217 | pushing step by step yields exactly the specified list: dataset part, summary, skill, experience, education, format, keyword |
| AtsSuggestions.AppendEducationSuggestions | src/lib/atsSuggestions.ts:170-180 | the loop appends exactly the education suggestions to the list |
| AtsScore.ShortCount | src/lib/atsSuggestions.ts:691 | the number of short descriptions is at most the number of entries, and 0 iff none is short |
| AtsScore.ScoreBounds | src/lib/atsSuggestions.ts:655-739 | the score is 100 minus the deductions applied, lies in [20, 100], is 100 iff no check fires, and is at least 80 when at most one fires |
| AtsScore.PerfectRuleScore | src/lib/atsSuggestions.ts:677-729 | 100 iff the summary has 50+ characters, there are 5+ skills, no short description, an action verb and a metric in the experience text, email and phone, and some education |
| AtsScore.FeedbackShape | src/lib/atsSuggestions.ts:731-739 | feedback is the verdict (≥80, ≥60, else) followed by one line per applied deduction |
| AtsScore.Deduct | src/lib/atsSuggestions.ts:678-681 | one check: the score drops by its points and its line is appended exactly when it applies |
| AtsScore.ApplyDeductions | src/lib/atsSuggestions.ts:677-739 | applying the checks in source order and putting the verdict first gives the specified result |
| AtsScore.CalculateATSScore | src/lib/atsSuggestions.ts:655-740 | a dataset result is returned unchanged; otherwise the rule score, within [20, 100] |
| AtsDataset.HighScoringExamples | src/lib/atsSuggestions.ts:405-410 | every kept example has non-empty text and a score above 70 |
| AtsDataset.HighScoringKept | src/lib/atsSuggestions.ts:405-410 | an example is kept iff it is high-scoring and comes from some row |
| AtsDataset.InsertDescSorted | src/lib/atsSuggestions.ts:421 | inserting into a descending list keeps it descending |
| AtsDataset.SortDesc | src/lib/atsSuggestions.ts:421 | the sort is a permutation and descending by score |
| AtsDataset.SampleProperties | src/lib/atsSuggestions.ts:403-423 | null iff the limit is 0 or nothing is high-scoring; otherwise min(limit, n) high-scoring examples, a sub-multiset, sorted descending |
| AtsDataset.TruncateBounds | src/lib/atsSuggestions.ts:573-582 | null iff there are no suggestions; otherwise between min(n,3) and min(n,5) of them, a sub-multiset |
| AtsDataset.CountMatching | src/lib/atsSuggestions.ts:616 | the count of matching examples is at most their number |
| AtsDataset.Frequency | src/lib/atsSuggestions.ts:616 | a pattern's frequency lies in [0, 1] |
| AtsDataset.MissingOptions | src/lib/atsSuggestions.ts:613-623 | one optional feedback line per pattern, in pattern order |
| AtsDataset.MatchedWeight | src/lib/atsSuggestions.ts:613-619 | the matched weight never exceeds the total weight |
| AtsDataset.AllWeights | src/lib/atsSuggestions.ts:604-611 | the six pattern weights total 14 |
| AtsDataset.MinScore | src/lib/atsSuggestions.ts:630 | the minimum is a sample score and no score is below it |
| AtsDataset.MaxScore | src/lib/atsSuggestions.ts:631 | the maximum is a sample score and no score is above it |
| AtsDataset.AverageBetween | src/lib/atsSuggestions.ts:629-631 | the average lies between the minimum and the maximum |
| AtsDataset.ClampBetween | src/lib/atsSuggestions.ts:638 | the clamp lies between its bounds and leaves values within them alone |
| AtsDataset.DatasetScoreProperties | src/lib/atsSuggestions.ts:589-649 | with examples the score lies between the rounded minimum and maximum; feedback is a verdict then one line exactly for each unmatched pattern with frequency above 0.7, in pattern order |
| AtsDataset.PatternLoop | src/lib/atsSuggestions.ts:613-623 | the loop accumulates exactly the total weight, the matched weight and the feedback lines |
| AtsDataset.CalculateDatasetBasedScore | src/lib/atsSuggestions.ts:589-650 | the method computes the specified score on the lower-cased text; null without examples |
| AtsDataset.ScoreResume | src/lib/atsSuggestions.ts:655-672 | with examples the dataset score on the analysed text; without, the rule score in [20, 100] |
| LatexTemplate.EscapeLatex | spring-boot-backend/src/main/java/com/resumebuilder/service/LatexTemplateService.java:167-177 | null gives "" (the seven replacements are specified through the lemmas below) |
| LatexTemplate.EscapeStages | spring-boot-backend/src/main/java/com/resumebuilder/service/LatexTemplateService.java:169-176 | after k replacements each character has become its stage-k form |
| LatexTemplate.EscapeLatexPerChar | spring-boot-backend/src/main/java/com/resumebuilder/service/LatexTemplateService.java:169-176 | the chain equals escaping each character on its own |
| LatexTemplate.EscapeLatexPlain | spring-boot-backend/src/main/java/com/resumebuilder/service/LatexTemplateService.java:167-177 | text without any of the seven special characters is returned unchanged |
| LatexTemplate.EscapeLatexBackslash | spring-boot-backend/src/main/java/com/resumebuilder/service/LatexTemplateService.java:170-176 | a backslash becomes `\textbackslash\{\}` |
| LatexTemplate.EscapeLatexSpecial | spring-boot-backend/src/main/java/com/resumebuilder/service/LatexTemplateService.java:171-176 | each other special character gets a backslash in front |
| LatexTemplate.EscapeLatexBraces | spring-boot-backend/src/main/java/com/resumebuilder/service/LatexTemplateService.java:170-176 | every brace of the output follows a backslash, so it holds neither `{{` nor `}}` |
| LatexTemplate.ReplaceSplice | spring-boot-backend/src/main/java/com/resumebuilder/service/LatexTemplateService.java:159-162 | the first placeholder becomes the escaped value (null as ""), and the rest is replaced in turn |
| LatexTemplate.ReplaceAbsent | spring-boot-backend/src/main/java/com/resumebuilder/service/LatexTemplateService.java:159-162 | text without the placeholder is unchanged |
| LatexTemplate.ReplaceNull | spring-boot-backend/src/main/java/com/resumebuilder/service/LatexTemplateService.java:160-161 | a null value deletes every placeholder |
| LatexTemplate.FillPersonalInfo | spring-boot-backend/src/main/java/com/resumebuilder/service/LatexTemplateService.java:59-68 | without personal information the text is unchanged |
| LatexTemplate.FillName | spring-boot-backend/src/main/java/com/resumebuilder/service/LatexTemplateService.java:60 | the name placeholder between brace-free texts becomes the escaped name, or nothing for null |
| LatexTemplate.FillPlain | spring-boot-backend/src/main/java/com/resumebuilder/service/LatexTemplateService.java:59-68 | a text without `{{` is unchanged |
| LatexTemplate.FillPersonal | spring-boot-backend/src/main/java/com/resumebuilder/service/LatexTemplateService.java:59-68 | reassigning the result eight times yields the specified text |
| LatexTemplate.CopiesAppend | spring-boot-backend/src/main/java/com/resumebuilder/service/LatexTemplateService.java:145-153 | the copies for two lists are the copies of the first followed by those of the second |
| LatexTemplate.Locate | spring-boot-backend/src/main/java/com/resumebuilder/service/LatexTemplateService.java:139-142 | a found block lies within the text, close tag after open tag |
| LatexTemplate.LocateBlock | spring-boot-backend/src/main/java/com/resumebuilder/service/LatexTemplateService.java:139-141 | the block found is the first open tag and the first close tag after it |
| LatexTemplate.ExpandNoBlock | spring-boot-backend/src/main/java/com/resumebuilder/service/LatexTemplateService.java:138 | text without an open tag is unchanged |
| LatexTemplate.ExpandOneBlock | spring-boot-backend/src/main/java/com/resumebuilder/service/LatexTemplateService.java:138-155 | a closed block is replaced by its copies; the text before the open tag and after the close tag stays |
| LatexTemplate.ExpandSingleBlock | spring-boot-backend/src/main/java/com/resumebuilder/service/LatexTemplateService.java:138-156 | with one block and no new open tag the result is the text with that block replaced |
| LatexTemplate.ExpandNoItems | spring-boot-backend/src/main/java/com/resumebuilder/service/LatexTemplateService.java:145-154 | with no items the block and its tags are deleted |
| LatexTemplate.ExpandUnclosed | spring-boot-backend/src/main/java/com/resumebuilder/service/LatexTemplateService.java:141-142 | an open tag without a close tag stops the loop with the text unchanged |
| LatexTemplate.CopiesOne | spring-boot-backend/src/main/java/com/resumebuilder/service/LatexTemplateService.java:145-153 | one item gives one instantiated copy |
| LatexTemplate.InstantiateBlock | spring-boot-backend/src/main/java/com/resumebuilder/service/LatexTemplateService.java:146-151 | the getter loop replaces each placeholder in getter order by the escaped value |
| LatexTemplate.CopiesOf | spring-boot-backend/src/main/java/com/resumebuilder/service/LatexTemplateService.java:144-153 | the builder receives one copy per item, in list order |
| LatexTemplate.FindBlock | spring-boot-backend/src/main/java/com/resumebuilder/service/LatexTemplateService.java:139-142 | the indices found are those of the specified block, or -1 for a missing close tag |
| LatexTemplate.SpliceCopies | spring-boot-backend/src/main/java/com/resumebuilder/service/LatexTemplateService.java:154 | the splice replaces exactly the block with its copies |
| LatexTemplate.SubstituteBlock | spring-boot-backend/src/main/java/com/resumebuilder/service/LatexTemplateService.java:133-157 | the loop computes the specified block expansion |
| LatexTemplate.Items | spring-boot-backend/src/main/java/com/resumebuilder/service/LatexTemplateService.java:71-127 | one item per list element, with one value per getter |
| LatexTemplate.Substituted | spring-boot-backend/src/main/java/com/resumebuilder/service/LatexTemplateService.java:54-55 | a null template gives ""; the getter orders are orders of each getter map's keys |
| LatexTemplate.Substitute | spring-boot-backend/src/main/java/com/resumebuilder/service/LatexTemplateService.java:54-130 | reassigning the result step by step yields the specified substitution |
| LatexTemplate.SubstitutePlain | spring-boot-backend/src/main/java/com/resumebuilder/service/LatexTemplateService.java:54-130 | a template without `{{` comes back unchanged |
| LatexTemplate.GetterOrderNameFirst | spring-boot-backend/src/main/java/com/resumebuilder/service/LatexTemplateService.java:146-151 | on the template `{{name}}{level}}` with name "{", filling name first and then level gives `\x` |
| LatexTemplate.GetterOrderLevelFirst | spring-boot-backend/src/main/java/com/resumebuilder/service/LatexTemplateService.java:146-151 | the same item filled level first gives `\{{level}}`, so the getter order can change a copy |
| AdminController.EscapeCsv | spring-boot-backend/src/main/java/com/resumebuilder/controller/AdminController.java:237-238 | null gives "" |
| AdminController.EscapeCsvCases | spring-boot-backend/src/main/java/com/resumebuilder/controller/AdminController.java:239-242 | a value without comma, quote or newline is unchanged; any other is quoted with every quote doubled |
| AdminController.EscapeCsvRoundTrip | spring-boot-backend/src/main/java/com/resumebuilder/controller/AdminController.java:237-243 | an RFC 4180 field parser reads back exactly the value from its escaped form |
| AdminController.CarriageReturnUnquoted | spring-boot-backend/src/main/java/com/resumebuilder/controller/AdminController.java:239 | a lone carriage return does not trigger quoting |
| AdminController.CsvLineRoundTrip | spring-boot-backend/src/main/java/com/resumebuilder/controller/AdminController.java:196-200 | a comma-joined line of escaped fields parses back to the values, null as "" |
| AdminController.ResumesByTemplate | spring-boot-backend/src/main/java/com/resumebuilder/controller/AdminController.java:61-64 | each key maps to the number of resumes with that template (null or empty as "default"); absent keys have none |
| AdminController.TemplateCountsTotal | spring-boot-backend/src/main/java/com/resumebuilder/controller/AdminController.java:59-64 | the counts sum to the number of resumes |
| AdminController.UpdateUserRoles | spring-boot-backend/src/main/java/com/resumebuilder/controller/AdminController.java:159-183 | null or empty roles: 400 and no change; unknown user: 404; removing the last admin's role: 400; otherwise the roles become the requested set and no other user changes; an admin always remains |
| AdminController.AdminsAfterRoleChange | spring-boot-backend/src/main/java/com/resumebuilder/controller/AdminController.java:168-179 | changing one user's roles changes the admin set only at that user |
| AdminController.DeleteUser | spring-boot-backend/src/main/java/com/resumebuilder/controller/AdminController.java:136-148 | own id: 403 and no change; unknown id: 404; otherwise the user and exactly that user's resumes are removed |
| AdminController.ResumeCount | spring-boot-backend/src/main/java/com/resumebuilder/controller/AdminController.java:189-190 | a user's resume count is at most the number of resumes |
| AdminController.CountUnquoted | spring-boot-backend/src/main/java/com/resumebuilder/controller/AdminController.java:200 | a printed count needs no quoting |
| AdminController.UserLineFields | spring-boot-backend/src/main/java/com/resumebuilder/controller/AdminController.java:193-201 | a user line parses back to id, username, email, roles joined by ';' and the resume count |
| AdminController.ExportUsersCsv | spring-boot-backend/src/main/java/com/resumebuilder/controller/AdminController.java:185-208 | the header and then one line per user, in order |
| AdminController.ResumesOf | spring-boot-backend/src/main/java/com/resumebuilder/controller/AdminController.java:212-213 | the resumes of one user, as many as they own |
| AdminController.OwnerName | spring-boot-backend/src/main/java/com/resumebuilder/controller/AdminController.java:216-221 | the first user with that id names the owner; without one, "—" |
| AdminController.ResumeLineFields | spring-boot-backend/src/main/java/com/resumebuilder/controller/AdminController.java:220-227 | a resume line parses back to id, name, userId, owner, template or "default", updatedAt or "" |
| AdminController.ExportResumesCsv | spring-boot-backend/src/main/java/com/resumebuilder/controller/AdminController.java:210-235 | the header and then one line per exported resume (all of them, or the given user's) |
| Model.UserRepository.constructor | spring-boot-backend/src/main/java/com/resumebuilder/repository/UserRepository.java:11 | the store starts with the given users |
| Model.UserRepository.Save | spring-boot-backend/src/main/java/com/resumebuilder/repository/UserRepository.java:11 | saving stores the user under its id and changes nothing else |
| Model.UserRepository.DeleteById | spring-boot-backend/src/main/java/com/resumebuilder/repository/UserRepository.java:11 | deleting removes exactly that id |
| Model.ResumeRepository.constructor | spring-boot-backend/src/main/java/com/resumebuilder/repository/ResumeRepository.java:11 | the store starts with the given resumes |
| Model.ResumeRepository.Save | spring-boot-backend/src/main/java/com/resumebuilder/repository/ResumeRepository.java:11 | a resume with an id overwrites that entry; one without gets a fresh id |
| Model.ResumeRepository.DeleteById | spring-boot-backend/src/main/java/com/resumebuilder/repository/ResumeRepository.java:11 | deleting removes exactly that id |
| Model.ResumeRepository.DeleteByUserId | spring-boot-backend/src/main/java/com/resumebuilder/repository/ResumeRepository.java:14 | exactly the resumes with that owner are removed |
| ResumeController.GetAllResumes | spring-boot-backend/src/main/java/com/resumebuilder/controller/ResumeController.java:33-39 | exactly the caller's resumes |
| ResumeController.GetResumeById | spring-boot-backend/src/main/java/com/resumebuilder/controller/ResumeController.java:41-60 | missing: 404; another user's: 403 and no body; own: 200 and the resume |
| ResumeController.TemplateOrDefault | spring-boot-backend/src/main/java/com/resumebuilder/controller/ResumeController.java:73-75 | the template is never null or empty; a given one is kept |
| ResumeController.Stamped | spring-boot-backend/src/main/java/com/resumebuilder/controller/ResumeController.java:65-75 | owner is the caller, createdAt and updatedAt are now, the template is defaulted, nothing else changes |
| ResumeController.CreateResume | spring-boot-backend/src/main/java/com/resumebuilder/controller/ResumeController.java:62-79 | as written: the stamped resume is saved under the id it carries, or a fresh one |
| ResumeController.CreateTakesOverForeignResume | spring-boot-backend/src/main/java/com/resumebuilder/controller/ResumeController.java:64-77 | a create whose body carries another user's resume id takes that resume over |
| ResumeController.CreateResumeFresh | spring-boot-backend/src/main/java/com/resumebuilder/controller/ResumeController.java:62-79 | the corrected create saves under a fresh id |
| ResumeController.CreateFreshKeepsOthers | spring-boot-backend/src/main/java/com/resumebuilder/controller/ResumeController.java:62-79 | the corrected create adds exactly one resume, owned by the caller, and no stored resume changes |
| ResumeController.Updated | spring-boot-backend/src/main/java/com/resumebuilder/controller/ResumeController.java:96-105 | id, owner and createdAt kept; updatedAt now; every other field, template included, from the body |
| ResumeController.UpdateResume | spring-boot-backend/src/main/java/com/resumebuilder/controller/ResumeController.java:81-112 | missing: 404; another user's: 403; both with no change; own: the updated resume replaces it and nothing else changes |
| ResumeController.DeleteResume | spring-boot-backend/src/main/java/com/resumebuilder/controller/ResumeController.java:114-134 | missing: 404; another user's: 403; both with no change; own: exactly that id is removed |
| AuthController.UniqueAfterAdd | spring-boot-backend/src/main/java/com/resumebuilder/controller/AuthController.java:121-151 | adding a user with an unused username and email keeps usernames and emails unique |
| AuthController.RolesFor | spring-boot-backend/src/main/java/com/resumebuilder/controller/AuthController.java:139-148 | null roles become {ROLE_USER}; otherwise exactly the requested set |
| AuthController.RegisterUser | spring-boot-backend/src/main/java/com/resumebuilder/controller/AuthController.java:119-154 | taken username: 400 first; taken email: 400; both with no change; otherwise exactly one user added with the encoded password and defaulted roles; uniqueness preserved |
| AuthController.SeedAdmin | spring-boot-backend/src/main/java/com/resumebuilder/controller/AuthController.java:54-82 | disabled: 404, no change; enabled: "admin" has exactly {ROLE_USER, ROLE_ADMIN} and the default password, an existing admin keeps id and email, a new one gets the default email, no other user changes |
| IndexPage.ApplySuggestion | src/pages/Index.tsx:179-213 | education, projects and achievements never change |
| IndexPage.ApplySummary | src/pages/Index.tsx:180-187 | `summary` replaces the summary and nothing else |
| IndexPage.ApplyNewSkill | src/pages/Index.tsx:188-195 | `newSkill` appends exactly one skill named by the value at level 80 |
| IndexPage.DescriptionFieldTarget | src/pages/Index.tsx:196-201 | `experience-<i>-description` is parsed back to entry i |
| IndexPage.ApplyDescription | src/pages/Index.tsx:196-211 | entry i's description becomes the value; other entries and fields are unchanged |
| IndexPage.ApplyOtherExperienceField | src/pages/Index.tsx:201-211 | an experience field whose third piece is not `description` changes nothing |
| IndexPage.ApplyUnknownField | src/pages/Index.tsx:179-213 | any other field name changes nothing |
| IndexPage.NonEmptyOr | src/pages/Index.tsx:141-152 | a present non-empty list is kept; otherwise the initial one |
| IndexPage.SelectResume | src/pages/Index.tsx:129-168 | `new` resets the data and clears the id; a failed fetch changes nothing |
| IndexPage.SelectLoaded | src/pages/Index.tsx:137-156 | a loaded resume is shown with every list non-empty, its id current and its template when it names one |
| ResumeForm.WithAchievements | src/components/ResumeForm.tsx:63-66 | the result has achievements; existing ones are kept; otherwise one blank entry; nothing else changes |
| ResumeForm.ResumeObject.constructor | src/components/ResumeForm.tsx:61-62 | the object holds the data it is given |
| ResumeForm.InitialState | src/components/ResumeForm.tsx:61-68 | the state has achievements; without data it is the default; otherwise the page's own object gains achievements in place and is the state |
| ResumeForm.Refreshed | src/components/ResumeForm.tsx:71-80 | new data replaces the state with achievements added; without data the state stays |
| ResumeForm.ChangeAt | src/components/ResumeForm.tsx:100-178 | only the entry at the index changes |
| ResumeForm.KeepOthersSlices | src/components/ResumeForm.tsx:273 | the filter keeps the entries before and after the index, in order |
| ResumeForm.RemoveAt | src/components/ResumeForm.tsx:270-333 | removal is refused exactly when the list has one entry |
| ResumeForm.RemoveAtCases | src/components/ResumeForm.tsx:270-333 | otherwise exactly the entry at the index is dropped (an index past the end drops nothing) |
| ResumeForm.RemoveAtKeepsOne | src/components/ResumeForm.tsx:270-333 | no removal empties a non-empty list |
| ResumeForm.PersonalSet | src/components/ResumeForm.tsx:82-98 | only the named personal field takes the value |
| ResumeForm.ExperienceSet | src/components/ResumeForm.tsx:100-114 | only the named experience field takes the value |
| ResumeForm.EducationSet | src/components/ResumeForm.tsx:116-130 | only the named education field takes the value |
| ResumeForm.SkillSet | src/components/ResumeForm.tsx:132-146 | only the named skill field takes the value |
| ResumeForm.ProjectSet | src/components/ResumeForm.tsx:148-162 | only the named project field takes the value |
| ResumeForm.AchievementSet | src/components/ResumeForm.tsx:164-178 | only the named achievement field takes the value |
| ResumeForm.PersonalInfoChange | src/components/ResumeForm.tsx:82-98 | one personal field changes; nothing else does |
| ResumeForm.ExperienceChange | src/components/ResumeForm.tsx:100-114 | one field of one experience entry changes; nothing else does |
| ResumeForm.EducationChange | src/components/ResumeForm.tsx:116-130 | one field of one education entry changes; nothing else does |
| ResumeForm.SkillChange | src/components/ResumeForm.tsx:132-146 | one field of one skill changes; nothing else does |
| ResumeForm.ProjectChange | src/components/ResumeForm.tsx:148-162 | one field of one project changes; nothing else does |
| ResumeForm.AchievementChange | src/components/ResumeForm.tsx:164-178 | one field of one achievement changes; nothing else does |
| ResumeForm.AddExperience | src/components/ResumeForm.tsx:180-198 | exactly one empty entry with a time-stamped id is appended; nothing else changes |
| ResumeForm.AddEducation | src/components/ResumeForm.tsx:200-218 | exactly one empty entry with a time-stamped id is appended; nothing else changes |
| ResumeForm.AddSkill | src/components/ResumeForm.tsx:220-230 | exactly one empty skill at level 50 is appended; nothing else changes |
| ResumeForm.AddProject | src/components/ResumeForm.tsx:232-250 | exactly one empty entry with a time-stamped id is appended; nothing else changes |
| ResumeForm.AddAchievement | src/components/ResumeForm.tsx:252-268 | exactly one empty entry with a time-stamped id is appended; nothing else changes |
| ResumeForm.RemoveExperience | src/components/ResumeForm.tsx:270-281 | no-op at length 1; otherwise exactly the entry at the index is dropped; never empties the list |
| ResumeForm.RemoveEducation | src/components/ResumeForm.tsx:283-294 | no-op at length 1; otherwise exactly the entry at the index is dropped; never empties the list |
| ResumeForm.RemoveSkill | src/components/ResumeForm.tsx:296-307 | no-op at length 1; otherwise exactly the entry at the index is dropped; never empties the list |
| ResumeForm.RemoveProject | src/components/ResumeForm.tsx:309-320 | no-op at length 1; otherwise exactly the entry at the index is dropped; never empties the list |
| ResumeForm.RemoveAchievement | src/components/ResumeForm.tsx:322-333 | no-op at length 1; otherwise exactly the entry at the index is dropped; never empties the list |
| AiSuggestions.ExistingSkills | src/components/AiSuggestions.tsx:37 | the lower-cased skill names, in order |
| AiSuggestions.FirstMissingTech | src/components/AiSuggestions.tsx:39-48 | the first technology no skill name covers, or none when all are covered |
| AiSuggestions.FirstShort | src/components/AiSuggestions.tsx:51-52 | the first entry with a missing or short description, or none |
| AiSuggestions.MissingTech | src/components/AiSuggestions.tsx:39-48 | the loop with `break` finds exactly the first uncovered technology |
| AiSuggestions.ExperienceSuggestion | src/components/AiSuggestions.tsx:51-60 | the specified experience suggestion |
| AiSuggestions.GenerateSuggestions | src/components/AiSuggestions.tsx:24-62 | pushing in rule order yields the specified list |
| AiSuggestions.GeneratedShape | src/components/AiSuggestions.tsx:24-62 | at most three, none applied; summary iff it is missing or short; skill is the first uncovered technology; experience only for the first short entry when its title mentions a developer |
| AiSuggestions.SkillSuggestionIff | src/components/AiSuggestions.tsx:36-48 | one skill suggestion iff some technology is uncovered; never more than one |
| AiSuggestions.Forwarded | src/components/AiSuggestions.tsx:77-86 | `summary` is sent as is, `skill` as `newSkill`, an experience field as a description field, others not at all |
| AiSuggestions.ForwardDescription | src/components/AiSuggestions.tsx:82-85 | a description field is forwarded unchanged |
| AiSuggestions.ForwardOther | src/components/AiSuggestions.tsx:77-86 | other fields are not forwarded |
| AiSuggestions.MarkApplied | src/components/AiSuggestions.tsx:89-91 | only that index is marked applied; nothing else changes |
| AiSuggestions.ApplyAt | src/components/AiSuggestions.tsx:74-97 | marks the index and forwards the field as above with the value |
| AiSuggestions.GeneratedExperienceAt | src/components/AiSuggestions.tsx:51-60 | a generated suggestion that is neither summary nor skill is an entry's description field with the experience advice |
| AiSuggestions.ApplyGeneratedExperience | src/components/AiSuggestions.tsx:82-85 | applying it through the page sets that entry's description to the advice and changes no other entry |
| AdminUsers.Without | src/pages/admin/AdminUsers.tsx:112 | every occurrence of the role is removed and all other roles are kept with their counts |
| AdminUsers.ToggleRole | src/pages/admin/AdminUsers.tsx:111-113 | a present role is removed everywhere; an absent one is appended |
| AdminUsers.ToggleFlips | src/pages/admin/AdminUsers.tsx:111-113 | after a toggle the role is present iff it was absent |
| AdminUsers.ToggleTwiceAbsent | src/pages/admin/AdminUsers.tsx:111-113 | toggling an absent role twice restores the list |
| AdminUsers.ToggleKeepsDistinct | src/pages/admin/AdminUsers.tsx:111-113 | a list without duplicates stays without duplicates |
| AdminUsers.OpenEditRoles | src/pages/admin/AdminUsers.tsx:94-97 | the dialog opens for the user with a copy of its roles, or [] when it has none |
| AdminUsers.SaveRoles | src/pages/admin/AdminUsers.tsx:99-109 | nothing is sent without a user or with no roles; otherwise the user's id and the roles |
| AdminUsers.Saved | src/pages/admin/AdminUsers.tsx:104 | after saving the dialog is closed |
| AdminUsers.OpenThenSave | src/pages/admin/AdminUsers.tsx:94-109 | opening and saving sends the user's own roles when it has any |
| AdminUsers.UntickLastRole | src/pages/admin/AdminUsers.tsx:99-113 | unticking the only role leaves nothing to save |
| AdminUsers.Shown | src/pages/admin/AdminUsers.tsx:135-137 | without data the page shows no users and page 0 of 0 |
| AdminUsers.Click | src/pages/admin/AdminUsers.tsx:207-246 | Previous goes back one page when not on the first, Next forward one when not on the last, a link to its page |
| AdminUsers.ClickNoOpIffDisabled | src/pages/admin/AdminUsers.tsx:213-241 | Previous or Next leaves the page unchanged iff that button is disabled |
| AdminUsers.ClickStaysInRange | src/pages/admin/AdminUsers.tsx:207-246 | a click keeps the page in [0, totalPages-1] |
| AdminUsers.ClicksStayInRange | src/pages/admin/AdminUsers.tsx:207-246 | any sequence of clicks keeps the page in [0, totalPages-1] |

## Left out

- The Hugging Face client and the LLM branches of `generateSummarySuggestion`
  and `generateExperienceSuggestion` are external calls. Only their rule-based
  fallbacks are modelled.
- The `fetch` in `fetchHighScoringResumeExamples` is I/O. The rows are a
  parameter, and so is the dataset result `generateATSSuggestions` awaits.
- The pattern loop, summary analysis and skill analysis of
  `analyzeWithDatasetPatterns` (src/lib/atsSuggestions.ts:437-570) are not
  modelled: they depend on regular expressions with lookahead and float
  formatting. Only its final truncation is modelled (`AtsDataset.Truncate`).
- `Math.random`, `Date.now()` and `LocalDateTime.now()` are nondeterministic.
  They are parameters: a choice index, a permutation standing for a shuffle,
  a number or a timestamp.
- `Promise.all` over experience entries is evaluated sequentially, in entry
  order, since its result order is the entry order.
- Floating-point formatting is not modelled exactly. `toFixed(1)` is
  approximated by `AtsDataset.ToFixed1`, and `Math.round` by `floor(x + 0.5)`
  on reals. Neither is the exact IEEE double output.
- Termination of the `{{#section}}` loop of `substituteBlock` is not
  proved. The model carries a fuel bound and answers `None` when the fuel
  runs out, so runs longer than the fuel are not described.
- The `Map.of` iteration order of the field getters is unspecified in Java.
  It is a parameter (`LatexTemplate.GetterOrders`). It can matter:
  `GetterOrderNameFirst` and `GetterOrderLevelFirst` show two orders giving
  different copies. So there is no lemma that the order never matters.
- Text.Lower lower-cases only `A`-`Z`. JavaScript's `toLowerCase` is full
  Unicode: it maps `Ä` to `ä`, and the Kelvin sign to `k`, which can create
  ASCII keyword matches the model does not see.
- String lengths count characters (code points). JavaScript's `.length`
  and `substring` count UTF-16 units, so a character outside the Basic
  Multilingual Plane counts once here and twice in the source. The length
  thresholds of AtsSuggestions.SummaryPart (50, 200 and the 150-character
  cut), AtsSuggestions.TooShort (30) and AiSuggestions.GenerateSuggestions
  (50 and 30) agree with the source only on text inside that plane.
- The `HashSet` iteration order of a user's roles in the users CSV is a
  parameter with the same reason.
- Template loading from the classpath, PDF generation, the sign-in and JWT
  code, `getAvailableTemplates`, the paged `getStats`/`getUsers`/`getResumes`
  listings and the admin `deleteResume` are left out. They are I/O, security
  plumbing or single repository calls.
- A null `userId` on a stored resume is not modelled: the owner is a plain
  string. In Java a null owner throws inside `groupingBy` and `equals`.
- IndexPage.ApplySuggestion: an experience index equal to the list length
  appends an entry whose other fields are empty strings. JavaScript appends
  an object with only a description. An index past the end answers `None`:
  JavaScript leaves holes in the array. A non-numeric index changes nothing.
- ResumeForm.ExperienceChange, EducationChange, SkillChange, ProjectChange,
  AchievementChange and PersonalInfoChange require an index in range and a
  known field name. The form only calls them for rendered entries and
  fields. JavaScript would add an unknown key or write past the end.
- AtsSuggestions.RuleSuggestions: the keyword check in the pipeline is the
  one as written (`KeywordPart`), to reproduce the source. The corrected
  check is proved separately (see Findings).

## Findings

| source | as written | input that shows it | evidently intended | confidence | as-written member | corrected member |
|---|---|---|---|---|---|---|
| src/lib/atsSuggestions.ts:194-206 | the joined experience and skill text is spread into single characters, so no keyword from the skills or descriptions is ever found; only the summary is searched | no summary, and five skills named java, python, javascript, typescript and react: the "Add more industry-relevant keywords" suggestion still appears | the summary, descriptions and skill names joined by spaces are searched, so those skills count as five keywords and no suggestion is made | not executed; high (the same spread appears at 56-60 and 660-664) | AtsSuggestions.KeywordSkillsExample | AtsSuggestions.KeywordCheckSeesSkills |
| spring-boot-backend/src/main/java/com/resumebuilder/controller/ResumeController.java:64-77 | `createResume` saves the body under any id it carries, after setting the owner to the caller | bob creates a resume whose body carries the id "r1" of alice's resume: "r1" is overwritten and now belongs to bob | a create adds a new resume under a fresh id and leaves every stored resume alone | not executed; medium (the client may never send an id on create) | ResumeController.CreateTakesOverForeignResume | ResumeController.CreateFreshKeepsOthers |
