# Analyst scripts: verified models

This project models the deterministic cores of a collection of analyst
scripts in Dafny and proves what those cores promise. Each script becomes
one module, in the form of the original code: step-by-step loops become
methods with invariants, proved against specification functions, and
pure string or number logic becomes functions and lemmas.

- `Sanitize`: `sanitize_filename` from extract_figures.py, which makes
  file names safe.
- `Assessment`: the `Evaluator` comparisons and the first-match rule loop
  of `assess` from assessment.py.
- `CvSplits`: the train/test split indices of `time_series_cv` from
  cv_validation.py.
- `GuideScan` and `GuideConverter`: `MarkdownToJsonConverter` from
  ecb_guide_md_prompt.py. It turns a Markdown rendering of a supervisory
  guide into requirement records. The model covers the footnote index, the
  heading context, block capture, the paragraph buffer, flags, ids,
  footnote expansion and legal references.
- `ConvertDoc`: `extract_data` from convert_doc.py, a four-level
  heading/body splitter.
- `LlmTables`: `parse_markdown_table` and the scoring loop of
  `evaluate_response_accuracy` from llm_graphs_tables.py.
- `EurLexText` and `EurLex`: `EURLexParser` from parse_crr3.py. This covers:
  - the text normalisers;
  - the five-level part/title/chapter/section/subsection hierarchy;
  - the pending-division protocol of the document walk;
  - article extraction;
  - the grid-list walk, over an abstract element tree.
- `CsrWorkflow`: the clinical-study-report workflow of
  report_generation.py. It covers the document and its sections, the
  status chain, and the review, QC and final-approval managers.
- `Amortisation`: `create_amortization_schedule` from
  amortisation_schedules.py. It covers payment dates and the linear,
  bullet, annuity and off-balance schedules.
- `Text` and `Wrappers`: shared helpers.
  - `Text` holds Python's `str.strip` with its whitespace set, `split`,
    `replace`, `in`, ASCII case mapping and number formatting.
  - `Wrappers` holds `Option` and `Result`.

Exceptions the source raises become the `Err` case of a `Result`. Input
and output, network calls, language-model calls and clocks become
parameters or are left out (see below).

## Model

| member | source | states |
|---|---|---|
| Sanitize.KeepValid | extract_figures.py:15-16 | the filter keeps only characters of `-_.() `, ASCII letters and digits, and is never longer than its input |
| Sanitize.ReplaceOneChar | extract_figures.py:13 | replacing one character by another swaps it at every position, keeps the length and touches nothing else |
| Sanitize.SanitizedChars | extract_figures.py:13 | the four replacements map newline, space, `/` and `\` to `_` position by position, and keep every other character |
| Sanitize.SanitizeOutput | extract_figures.py:10-16 | the output is no longer than the input; every character is an ASCII letter, a digit or one of `-_.()`; no newline, space, `/` or `\` survives; nothing beyond ASCII |
| Sanitize.KeepValidFrom | extract_figures.py:16 | the filter only keeps characters of its input |
| Sanitize.KeepValidIdentity | extract_figures.py:16 | filtering a string made only of allowed characters returns it unchanged |
| Sanitize.ReplaceAbsent | extract_figures.py:13 | replacing a character that does not occur changes nothing |
| Sanitize.SanitizeIdempotent | extract_figures.py:10-16 | sanitising twice gives the same result as sanitising once |
| Sanitize.Alnum | extract_figures.py:15 | the ASCII letters and digits of a string, in order, are no longer than it |
| Sanitize.AlnumKeepValid | extract_figures.py:16 | the filter drops no ASCII letter or digit |
| Sanitize.AlnumUnderscored | extract_figures.py:13 | the replacements drop no ASCII letter or digit |
| Sanitize.SanitizeKeepsAlnum | extract_figures.py:10-16 | the ASCII letters and digits of the output are exactly those of the input, in the same order |
| Assessment.OperatorNamed | assessment.py:14-37 | a name picks one of `Evaluator`'s seven comparison methods exactly when it is that method's own name |
| Assessment.GetAttr | assessment.py:52-55 | `getattr` finds a comparison method exactly under its name, the inherited `__subclasshook__` under that name, another inherited attribute (such as `__init__` or `__eq__`) exactly under an inherited name, and nothing (AttributeError) for every other name; the four cases never overlap |
| Assessment.OperatorNamedName | assessment.py:14-37 | each of the seven comparison methods is found under its own name |
| Assessment.NotEqualsNegatesEquals | assessment.py:14-18 | `not_equals` is the negation of `equals`; neither raises; a number equals a target only when the target is that number |
| Assessment.OrderingsComplement | assessment.py:20-30 | `less_or_equal`, `great_or_equal`, `higher` and `lower` fail exactly on a list target; otherwise they are the plain comparisons, `higher` is the negation of `less_or_equal` and `lower` of `great_or_equal` |
| Assessment.BetweenBounds | assessment.py:32-37 | `between` raises ValueError unless the target is a list of exactly two values, and then answers `lo <= v <= hi` |
| Assessment.FirstMatchWithStops | assessment.py:50-60 | the rule loop returns None when no rule matches; otherwise it stops at the first rule that matches or fails, and its answer is that rule's |
| Assessment.FirstMatchWithExhausts | assessment.py:50-60 | when every match would give an answer other than None, a None result means every rule was tried without a match or an error |
| Assessment.SegmentRules | assessment.py:41-47 | an unknown test name raises first, then an unknown segment; otherwise the segment's rules are used |
| Assessment.AssessAsWrittenNeverColours | assessment.py:58-59 | as written, `assess` never returns a colour: once a rule matches, it raises |
| Assessment.NeverColours | assessment.py:58-59 | with attribute access on the rule, the loop returns None or an error, never a colour |
| Assessment.AssessAsWrittenCounterexample | assessment.py:59-62 | the module's own call, on a configuration whose first rule matches, raises AttributeError where a colour was meant |
| Assessment.AssessErrors | assessment.py:41-45 | an unknown test name raises ValueError for the test; a known test with an unknown segment raises ValueError for the segment |
| Assessment.AssessFirstMatch | assessment.py:50-60 | the intended `assess` returns None exactly when every rule is tried without a match, and otherwise the colour of the first matching rule, or the error of the first failing one |
| Assessment.UnsupportedOperatorReached | assessment.py:51-55 | an operator name `getattr` does not find raises ValueError once the loop reaches its rule |
| Assessment.SubclassHookReached | assessment.py:52-59 | a rule whose operator is `__subclasshook__` matches whatever the value, because the call returns NotImplemented, which is true: the intended `assess` returns its colour and the one as written raises AttributeError |
| Assessment.InheritedOperatorReached | assessment.py:52-58 | an operator naming any other inherited attribute is found by `getattr`, so no ValueError: calling it with `(value, target)` raises TypeError, which escapes the `except AttributeError`, once the loop reaches its rule |
| CvSplits.Range | cv_validation.py:114-115 | `list(range(lo, hi))` holds `lo, lo+1, …, hi-1` and is empty when `hi <= lo` |
| CvSplits.FoldOfWellFormed | cv_validation.py:107-115 | a recorded fold trains on `[0, train_end)` and tests on a non-empty `[train_end, test_end)` with `test_end <= n`; train and test are disjoint and every test index exceeds every train index |
| CvSplits.SplitIndices | cv_validation.py:99-115 | the loop records exactly the folds of the specification, at most `n_splits` of them, each well formed |
| CvSplits.FirstFold | cv_validation.py:100-108 | fold 0 trains on `[0, min_train_samples)` and tests on `[min_train_samples, min(min_train_samples + test_samples, n))` |
| CvSplits.FoldsPrefix | cv_validation.py:99-111 | later iterations only append folds |
| CvSplits.StepBound | cv_validation.py:105 | when `min_train_samples + test_samples <= n`, the expanding step is non-negative and `i` steps stay within `n - min_train_samples - test_samples` |
| CvSplits.TrainEndBounds | cv_validation.py:100-105 | `train_end` stays between `min_train_samples` and `n - test_samples` |
| CvSplits.TrainEndMonotone | cv_validation.py:105 | `train_end` never decreases from one split to the next |
| CvSplits.ExpandingWindow | cv_validation.py:58-115 | when `min_train_samples + test_samples <= n` and `test_samples > 0`, every split is recorded; split `i` trains on `[0, train_end_i)` and tests on the next `test_samples` rows |
| ConvertDoc.MarkerHashes | convert_doc.py:30-38 | the marker of level `k` is `k + 2` `#` characters |
| ConvertDoc.HeadingLevelDeepest | convert_doc.py:30-41 | markers are tried longest first: the level found is the deepest whose marker starts the line; a line not starting with `###` is body text |
| ConvertDoc.SetLabelLevels | convert_doc.py:31-40 | setting level `k` keeps the shallower labels, sets label `k` and clears every deeper label |
| ConvertDoc.ExtractData | convert_doc.py:14-48 | the function returns exactly the rows of the line-by-line specification, including the final flush of a non-empty buffer |
| ConvertDoc.RunLines | convert_doc.py:20-42 | the loop leaves the labels, buffer and rows of the line-by-line specification after all lines |
| ConvertDoc.ProcessLine | convert_doc.py:21-42 | one pass of the loop body moves the labels, buffer and rows exactly as one step of the specification does |
| ConvertDoc.HeadingStep | convert_doc.py:29-40 | a heading line sets its level to the text left after every occurrence of its marker is removed and the rest stripped; it clears deeper levels, keeps shallower ones, and neither flushes nor touches the buffer |
| ConvertDoc.BlankFlushes | convert_doc.py:23-27 | a blank line after buffered text emits one row with the current labels and the space-joined buffer, and empties the buffer |
| ConvertDoc.BlankBuffered | convert_doc.py:24-42 | a blank line with nothing buffered is itself buffered, as "" |
| ConvertDoc.StepAccounted | convert_doc.py:20-42 | each line keeps the account of the lines read: rows hold their buffers joined, and the non-blank buffered text is exactly the body lines read |
| ConvertDoc.RunAccounted | convert_doc.py:20-42 | after any number of lines, the rows and the buffer account for exactly the body lines read, in order |
| ConvertDoc.ExtractedAccounts | convert_doc.py:42-48 | at the end the buffer is empty; each row's body is its buffer joined by spaces; every non-blank, non-heading line lands, stripped, in exactly one row, in input order; there are at most as many rows as lines |
| LlmTables.StrippedLines | llm_graphs_tables.py:364 | the kept lines are non-blank and no more numerous than the pieces split from the text |
| LlmTables.Cells | llm_graphs_tables.py:365-371 | splitting a line on the pipe character after its outer pipes are stripped gives at least one cell |
| LlmTables.RowMapKeys | llm_graphs_tables.py:372 | a row dictionary is keyed by exactly the headers |
| LlmTables.Piped | llm_graphs_tables.py:368-370 | only lines holding a pipe are kept, and never more than there were |
| LlmTables.ParseMarkdownTable | llm_graphs_tables.py:362-375 | the result is the table of the line-by-line specification, including IndexError for an empty text or a short row |
| LlmTables.CollectRows | llm_graphs_tables.py:368-373 | the row loop skips lines without a pipe, raises IndexError at the first short row and otherwise keeps a row per line, as the line-by-line specification does |
| LlmTables.RowsOfRaises | llm_graphs_tables.py:368-373 | the loop raises IndexError exactly when some piped line has fewer cells than headers |
| LlmTables.RowsOfPiped | llm_graphs_tables.py:368-373 | when nothing raises, the loop keeps one row per piped line, in order, keyed by that line's cells |
| LlmTables.ParsedTableShape | llm_graphs_tables.py:362-375 | an empty table raises IndexError; otherwise the headers are the first line's cells, there is one row per piped line after the separator, each row has exactly the headers as keys, the last occurrence of a header holds its column's cell, and extra cells are ignored |
| LlmTables.RowMapAt | llm_graphs_tables.py:372 | a header not repeated later maps to the cell in its own column (a repeated header keeps the later column's value) |
| LlmTables.DataLinesSkip | llm_graphs_tables.py:368-370 | the header and separator lines never become rows, and every data line holds a pipe |
| LlmTables.Dollars | llm_graphs_tables.py:133-136 | every dollar amount found is a piece of the answer |
| LlmTables.NumberEnd | llm_graphs_tables.py:141 | a number match starting at a digit is non-empty and stays inside the text |
| LlmTables.PercentEnd | llm_graphs_tables.py:141 | a percentage match, when there is one, is non-empty and stays inside the text |
| LlmTables.Percents | llm_graphs_tables.py:139-142 | every percentage found is a piece of the answer |
| LlmTables.StatementsIn | llm_graphs_tables.py:146-148 | every statement kept occurs in the answer |
| LlmTables.KeyFactsInAnswer | llm_graphs_tables.py:131-148 | every key fact extracted is a piece of the lower-cased answer |
| LlmTables.CountSubjective | llm_graphs_tables.py:124-127 | no more questions are skipped as subjective than there are questions |
| LlmTables.CountScoredBound | llm_graphs_tables.py:150-162 | the correct counts never exceed the number of factual questions |
| LlmTables.WholeAnswerScores | llm_graphs_tables.py:150-162 | a response containing the whole lower-cased answer is always counted correct, whether key facts were found or the 10-character prefix is used |
| LlmTables.CountAnswers | llm_graphs_tables.py:114-164 | the question loop leaves the question count less the subjective ones, and the number of questions each response scores |
| LlmTables.ScoreAnswer | llm_graphs_tables.py:118-164 | a question is skipped exactly when its lower-cased answer mentions "subjective" or "looking for"; otherwise each response scores as the key-fact or ten-character rule says |
| LlmTables.ScoreTest | llm_graphs_tables.py:111-181 | the record carries the test case's name; one test case's total is the number of non-subjective questions; the table and chart counts are the scored questions and never exceed the total; the accuracies are `correct / total * 100` when the total is positive and absent ("N/A") otherwise |
| LlmTables.EvaluateResponseAccuracy | llm_graphs_tables.py:107-183 | one record per test case, in order, each with that test case's name, its number of non-subjective questions, the questions each response scores (never more than that number), and the two accuracies `correct / total * 100`, absent exactly when no question is left |
| EurLexText.StripIsSlice | parse_crr3.py:52 | `strip()` returns a contiguous piece of its input (the same call recurs at line 321) |
| EurLexText.RemoveMarkers | parse_crr3.py:47 | after the modification markers are removed, no `◄` or `▲` is left |
| EurLexText.NoBreakToSpace | parse_crr3.py:48 | each no-break space becomes a plain space and every other character is kept in place |
| EurLexText.CollapseSpaces | parse_crr3.py:49 | every whitespace run becomes one plain space: no two whitespace characters follow each other, and no marker is introduced |
| EurLexText.DropSpaceBeforeDot | parse_crr3.py:50 | dropping a space before a dot (not after a digit) keeps the text free of double spaces, of non-plain whitespace and of end markers |
| EurLexText.CleanTextShape | parse_crr3.py:41-52 | `clean_text` gives "" for empty input; otherwise its output is stripped, has only single plain spaces and no `◄` or `▲` |
| EurLexText.TokenEnd | parse_crr3.py:313-315 | a list marker, when found, is at least three characters and ends with `)` |
| EurLexText.BreakAt | parse_crr3.py:313-315 | a marker match after a separator, when found, is non-empty and inside the text |
| EurLexText.CollapseNewlines | parse_crr3.py:321 | after the final substitution no run of three newlines is left |
| EurLexText.AddPagebreaksShape | parse_crr3.py:306-321 | `add_pagebreaks_to_text` returns empty text unchanged; otherwise its output is stripped and holds no run of three or more newlines |
| EurLexText.LetterBreakExample | parse_crr3.py:314-319 | a letter marker after a separator and a space is moved onto its own paragraph: "x; (a) y" becomes "x;\n\n(a) y" |
| EurLex.LevelIndex | parse_crr3.py:22-57 | `levels.index(level)` finds the position of a known level and reports an unknown one as absent |
| EurLex.ClearFrom | parse_crr3.py:59-61 | entries before the start index are kept and every entry from it on is emptied |
| EurLex.ResetBelowLevels | parse_crr3.py:54-61 | resetting below a known level keeps that level and the shallower ones and empties every deeper number and heading; an unknown level empties all of them |
| EurLex.FirstLevel | parse_crr3.py:68-72 | the level chosen is the first, outermost first, whose upper-cased name occurs in the text and either starts the stripped text or stands as a separate word; no earlier level passes that test |
| EurLex.TailStart | parse_crr3.py:75 | the heading group `(.+)$` starts where a non-empty run of non-newline characters reaches the end of the text (or a final newline) |
| EurLex.PartSplit | parse_crr3.py:75 | a match of the inline part pattern starts with "PART", blanks and letters, and its heading group is non-empty, has no newline and reaches the end (the converse is PartSplitComplete) |
| EurLex.EntryCases | parse_crr3.py:73-84 | with a non-empty second text a level stores the first text and the second as heading; with none, a part text that matches the inline pattern stores its two stripped groups, a part text that does not stores itself with an empty heading, and every other level gets an empty heading |
| EurLex.PartSplitComplete | parse_crr3.py:75 | every text of the form `PART` (any case), whitespace, ASCII letters, optional whitespace, a dash, optional whitespace and a one-line heading not starting with whitespace matches, with group 1 ending after the letters and group 2 the whole heading |
| EurLex.PartEntry | parse_crr3.py:74-78 | with no second text, such a text stores `PART <letters>` as the part and the stripped heading as its heading |
| EurLex.PartFirstLevel | parse_crr3.py:68-72 | a text that starts with PART in any case, followed later by a non-space character, is taken as a part |
| EurLex.PartInlineUpdated | parse_crr3.py:63-86 | `update_hierarchy` with such a text alone sets the part to `PART <letters>`, its heading to the stripped heading, and empties every deeper level |
| EurLex.Updated | parse_crr3.py:63-89 | updating keeps the hierarchy's five levels |
| EurLex.UpdatedLevels | parse_crr3.py:63-89 | the first matching level gets the new number and heading, shallower levels keep theirs, deeper ones are emptied; when no level matches nothing changes |
| EurLex.PartLevelExample | parse_crr3.py:68-72 | "PART A - B" is recognised at the part level |
| EurLex.PartMatchExample | parse_crr3.py:75 | the inline pattern matches "PART A - B" with group 1 "PART A" and group 2 "B" |
| EurLex.EntryExample | parse_crr3.py:74-78 | with no second text, "PART A - B" stores number "PART A" and heading "B" |
| EurLex.PartSplitExample | parse_crr3.py:63-89 | updating a fresh hierarchy with "PART A - B" alone sets the part number to "PART A" and its heading to "B" |
| EurLex.StrippedText | parse_crr3.py:100 | `get_text(strip=True)` has no whitespace at either end |
| EurLex.StrippedJoin | parse_crr3.py:128-132 | joining non-empty stripped pieces with single spaces gives a stripped text, non-empty when there is a piece (the same code recurs at lines 207 and 214) |
| EurLex.FindIn | parse_crr3.py:137-185 | `find` returns the first descendant, in document order, with the requested name and class, and None exactly when there is no such descendant |
| EurLex.NextColumn | parse_crr3.py:103-104 | the column-2 sibling found is the first later `div` whose class text holds the tag; None means no later sibling does |
| EurLex.GridList | parse_crr3.py:91-132 | `extract_grid_list` returns a stripped text |
| EurLex.GridListKeepsItem | parse_crr3.py:91-132 | every numbering marker is kept: the `marker content` item of each column-1 child that gives one occurs in the text of the grid |
| EurLex.GridItems | parse_crr3.py:99-130 | each grid item ("marker content") is non-empty and stripped |
| EurLex.ItemColumns | parse_crr3.py:99-130 | the positions of the children that give an item, in increasing order: every such position and no other |
| EurLex.GridItemsColumns | parse_crr3.py:99-130 | the grid items are, in column order, exactly the items `marker + " " + content` of the column-1 children with a later column-2 sibling whose stripped marker and joined content are both non-empty |
| EurLex.CellPiece | parse_crr3.py:109-125 | a child of a column-2 cell that is not a nested grid, text nodes included, gives its `clean_text`: stripped, single plain spaces, no `◄` or `▲` |
| EurLex.CellParts | parse_crr3.py:107-126 | the pieces of a column-2 cell are non-empty and stripped, no more numerous than the children, and, without nested grids, hold single plain spaces and no `◄` or `▲` |
| EurLex.ArticleNumber | parse_crr3.py:144-147 | the article pattern matches exactly when the heading starts with "Article" in any case, then whitespace, then a digit; the number starts with a digit and holds only digits and letters |
| EurLex.NormParts | parse_crr3.py:189-205 | the pieces of a `div.norm` skip the paragraph-number span, take `clean_text` of every other child (text nodes included) or a nested grid list, are non-empty and stripped, no more numerous than the children, and, without nested grids, hold single plain spaces and no `◄` or `▲` |
| EurLex.ArticlePiece | parse_crr3.py:160-209 | each child of the article contributes a stripped piece (or nothing) |
| EurLex.ArticlePieces | parse_crr3.py:157-209 | the content pieces kept are non-empty and stripped |
| EurLex.ArticleOf | parse_crr3.py:134-216 | `extract_article_content` returns an article exactly when the first title paragraph's cleaned text matches the article pattern; the article has a number starting with a digit, stripped text and the hierarchy current at the time |
| EurLex.ActionOf | parse_crr3.py:230-249 | an element with empty cleaned text is skipped; the branches are tried in order (division 1, division 2 with a pending text, section, article `div`) |
| EurLex.Step | parse_crr3.py:230-253 | one element keeps the hierarchy's five levels |
| EurLex.Run | parse_crr3.py:230-253 | any number of elements keeps the hierarchy's five levels |
| EurLex.Parser.constructor | parse_crr3.py:24-30 | a fresh parser has every hierarchy entry empty, no articles and no pending division |
| EurLex.Parser.ResetHierarchyBelow | parse_crr3.py:54-61 | the loop empties exactly the levels below the given one and changes nothing else |
| EurLex.Parser.UpdateHierarchy | parse_crr3.py:63-89 | the loop leaves the hierarchy as the specification does and returns True exactly when some level matched |
| EurLex.Parser.HandleElement | parse_crr3.py:230-253 | one pass of the loop body changes the parser as `Step` says |
| EurLex.Parser.ParseElements | parse_crr3.py:230-253 | the loop leaves the parser in the state `Run` gives for all elements |
| EurLex.PendingSet | parse_crr3.py:238-239 | a `title-division-1` element with text becomes the pending division, replacing any earlier one, and nothing else changes |
| EurLex.PendingCommit | parse_crr3.py:240-242 | a `title-division-2` element after a pending division updates the hierarchy with the pair and clears the pending text |
| EurLex.SectionUpdate | parse_crr3.py:245-246 | a section element updates the hierarchy with its text alone |
| EurLex.StepKeeps | parse_crr3.py:230-253 | one element keeps a pending text non-empty, keeps the recorded articles and adds at most one |
| EurLex.PendingNeverEmpty | parse_crr3.py:238-242 | the pending division is never an empty text |
| EurLex.ArticlesAppend | parse_crr3.py:249-252 | articles are only appended, in document order, at most one per element |
| EurLex.ArticleSnapshot | parse_crr3.py:211-252 | a newly recorded article carries the hierarchy current when its element was reached, and recording it leaves the hierarchy unchanged |
| CsrWorkflow.OverallEmpty | report_generation.py:134-139 | a document without sections gets APPROVED, since `all` of nothing holds |
| CsrWorkflow.OverallApprovedIff | report_generation.py:134-139 | the document status is APPROVED exactly when every section is APPROVED |
| CsrWorkflow.OverallUniform | report_generation.py:134-157 | when every section of a non-empty document has the same status, the document has that status |
| CsrWorkflow.OverallFinalApprovalWins | report_generation.py:138-141 | one section in final approval puts the document in final approval |
| CsrWorkflow.OverallMixedCompleted | report_generation.py:134-157 | one section through QC and another through review only leaves the document at NOT_STARTED, since the chain has no rule for sections at different completed stages |
| CsrWorkflow.WithStatus | report_generation.py:705-758 | setting every section's status keeps the same titles and leaves every section at that status |
| CsrWorkflow.Present | report_generation.py:787-798 | the first loop emits exactly the fixed titles that are sections, without repeats |
| CsrWorkflow.Remaining | report_generation.py:800-803 | the second loop emits exactly the inserted titles that are not in the fixed list, without repeats |
| CsrWorkflow.EmittedOnce | report_generation.py:787-803 | every section is emitted exactly once, and nothing else is |
| CsrWorkflow.Document.constructor | report_generation.py:97-105 | a new document has the given title, no sections, status NOT_STARTED and no approvers |
| CsrWorkflow.Document.AddSection | report_generation.py:111-114 | the section is stored under its title; a new title goes to the end of the insertion order, a known one replaces the section in place |
| CsrWorkflow.Document.UpdateSection | report_generation.py:116-132 | an unknown title raises "not found" and changes nothing; otherwise the old content and status go to the history and the section gets the new content and status |
| CsrWorkflow.Document.UpdateStatus | report_generation.py:134-157 | the document status becomes the first status of the chain whose test holds, and nothing else changes |
| CsrWorkflow.Document.MarkAll | report_generation.py:705-758 | the loop sets every section's status and changes nothing else |
| CsrWorkflow.ReviewManager.constructor | report_generation.py:433-435 | the manager works on the given document |
| CsrWorkflow.ReviewManager.AssignSectionForReview | report_generation.py:437-451 | only a DRAFT_COMPLETED section moves, to HUMAN_REVIEW_IN_PROGRESS with the reviewer recorded; anything else changes nothing |
| CsrWorkflow.ReviewManager.SubmitReviewFeedback | report_generation.py:453-503 | an unknown section or a reviewer not assigned changes nothing; otherwise the comment is appended; approval completes the review; otherwise a successful refinement saves the old version and replaces the content, a failed one keeps the rest and skips the status update; the document status is recomputed in the other cases |
| CsrWorkflow.QcManager.constructor | report_generation.py:521-524 | the manager works on the given document |
| CsrWorkflow.QcManager.AssignQcReview | report_generation.py:545-559 | only a HUMAN_REVIEW_COMPLETED section moves, to QC_IN_PROGRESS with the QC reviewer recorded |
| CsrWorkflow.QcManager.SubmitQcFeedback | report_generation.py:648-682 | an unknown section or QC reviewer not assigned changes nothing; otherwise the comment is appended, the section goes to QC_COMPLETED or back to HUMAN_REVIEW_IN_PROGRESS, and the document status is recomputed |
| CsrWorkflow.FirstWithId | report_generation.py:737-746 | the approver found is the first with the id, and no earlier one has it |
| CsrWorkflow.ApprovalManager.constructor | report_generation.py:688-689 | the manager works on the given document |
| CsrWorkflow.ApprovalManager.InitiateApprovalProcess | report_generation.py:691-709 | returns True exactly when every section has passed QC; then the document and every section enter final approval, otherwise nothing changes |
| CsrWorkflow.ApprovalManager.AssignApprover | report_generation.py:711-728 | outside final approval nothing changes; otherwise a pending approver is appended, the list being created on first use |
| CsrWorkflow.ApprovalManager.RecordApproval | report_generation.py:730-760 | a missing list or an unknown id changes nothing; otherwise the first approver with the id is marked approved with the comments, and once every approver has approved, the document and all its sections become APPROVED |
| CsrWorkflow.ApprovalManager.FinalizeDocument | report_generation.py:779-812 | a document not APPROVED gives "" and changes nothing; otherwise the text is the blocks of the fixed-order sections and then of the others in insertion order (every section once), and its length is recorded |
| CsrWorkflow.FixedBlocks | report_generation.py:795-798 | the first loop emits the blocks of the fixed titles that are sections, in the fixed order |
| CsrWorkflow.RemainingBlocks | report_generation.py:800-803 | the second loop emits the blocks of the other sections, in insertion order |
| CsrWorkflow.BlocksAppend | report_generation.py:795-803 | the text of two title lists in turn is the first text followed by the second |
| Amortisation.DaysIn | amortisation_schedules.py:72 | a month has 28 to 31 days, and February has 29 exactly in leap years |
| Amortisation.AddMonth | amortisation_schedules.py:72 | `relativedelta(months=1)` gives a valid, later date in the next month, with the same day or, if that day does not exist, the month's last day |
| Amortisation.AddYear | amortisation_schedules.py:60 | `relativedelta(years=1)` gives a valid, later date in the same month of the next year, with the same day except that 29 February becomes 28 February |
| Amortisation.ShortMonthDrift | amortisation_schedules.py:69-80 | each date is built from the previous one, so a day clamped by a short month stays clamped: 31 January, 28 February, 28 March |
| Amortisation.DaysInYear | amortisation_schedules.py:120-141 | the months of a year add up to 365 days, or 366 in a leap year |
| Amortisation.MonthsInOrder | amortisation_schedules.py:120-141 | the days before a month plus its own days never exceed the days before a later month |
| Amortisation.YearStartsInOrder | amortisation_schedules.py:120-141 | a year's first day number plus its length never exceeds a later year's first day number |
| Amortisation.OrdinalOrder | amortisation_schedules.py:63-120 | one valid date is before another exactly when its day number is smaller, so date comparison and `(b - a).days` agree |
| Amortisation.OrdinalBefore | amortisation_schedules.py:120-141 | a later payment date is a positive number of days after an earlier one |
| Amortisation.WithBalanceType | amortisation_schedules.py:41-43 | a frame without a `balance_type` column gets "on_balance" for every loan, and one with it keeps every loan unchanged |
| Amortisation.InterestNonNegative | amortisation_schedules.py:120-142 | interest over a period that does not run backwards, on a non-negative balance at a non-negative rate, is non-negative |
| Amortisation.PaymentRow | amortisation_schedules.py:150-158 | a payment row has the given principal and the next payment date, and its remaining balance is the balance before it less the principal |
| Amortisation.AppendPaymentRow | amortisation_schedules.py:139-163 | appending the next payment row keeps every row built so far in the shape of the schedule |
| Amortisation.PaymentInterestNonNegative | amortisation_schedules.py:139-142 | with increasing payment dates not before the start, a non-negative rate and a non-negative balance, every interest payment is non-negative (the same code recurs at lines 167-170 and 216-219) |
| Amortisation.PrincipalsTelescope | amortisation_schedules.py:157-162 | the principals paid so far add up to the starting amount less the balance left (the same code recurs at lines 190-195 and 240-245) |
| Amortisation.PrincipalsRepay | amortisation_schedules.py:145-147 | when the last row leaves nothing outstanding, the principals add up to the starting amount (the same code recurs at lines 177-181 and 224-226) |
| Amortisation.ChainReachesEnd | amortisation_schedules.py:69-80 | dates built month after month from the start are the monthly schedule that ends at the last of them |
| Amortisation.ChainThenEnd | amortisation_schedules.py:74-77 | when the next monthly date would pass the end, the end date closes the schedule |
| Amortisation.DatesStep | amortisation_schedules.py:71-80 | a monthly date not past the end is appended and becomes the current date |
| Amortisation.DatesBreak | amortisation_schedules.py:74-77 | a monthly date past the end makes the end date the last payment, and the loop stops |
| Amortisation.DatesExit | amortisation_schedules.py:71-85 | when the loop ends on its own, the dates are the schedule, or just the end date when none was generated |
| Amortisation.PaymentDates | amortisation_schedules.py:56-85 | the dates are non-empty, valid and strictly increasing, and after the start when the start is before the end; an off-balance loan gets one date, a year after the start or the end date if that comes first; an on-balance loan gets the monthly dates then the end date |
| Amortisation.LinearRows | amortisation_schedules.py:135-163 | every payment but the last repays `starting_amount / num_payments`; the last repays the balance left, which leaves nothing outstanding |
| Amortisation.BulletRows | amortisation_schedules.py:165-196 | every payment but the last repays no principal and leaves the full amount outstanding; the last repays the full amount and leaves nothing |
| Amortisation.PowAboveOne | amortisation_schedules.py:210-211 | `(1 + r) ** n` exceeds 1 for a positive monthly rate and at least one payment, so the annuity formula's divisor is not zero |
| Amortisation.AnnuityRows | amortisation_schedules.py:198-246 | no payment repays more than the balance before it; every payment but the last repays the annuity less the interest, capped at that balance; the last repays the balance left, which leaves nothing outstanding |
| Amortisation.ScheduleFacts | amortisation_schedules.py:101-110 | the start row followed by payment rows that end at a zero balance is a schedule whose principals add up to the starting amount, with dates in order when the loan ends after it starts (the same code recurs at lines 145-147, 177-181 and 224-226) |
| Amortisation.Payments | amortisation_schedules.py:117-249 | the type branch fails exactly for an on-balance loan of unsupported type; otherwise one payment row per date with the balance paid off by the last: an off-balance loan repays the whole amount at once; linear repays `amount / n` each month before the last; bullet repays nothing and keeps the balance until the last, which repays the whole amount; annuity never repays more than the balance and repays the fixed payment less interest, capped at the balance, before the last |
| Amortisation.ScheduleFrom | amortisation_schedules.py:101-110 | the time-0 row followed by such payment rows, due on the loan's payment dates, is the loan's schedule |
| Amortisation.LoanRows | amortisation_schedules.py:46-249 | an on-balance loan of unsupported type raises "Unsupported amortisation type: ..."; otherwise the rows are the time-0 row then one row per payment date; an off-balance loan pays the whole amount once, a year after the start or on the end date if that comes first; an on-balance loan pays monthly with its last payment on the end date, with the principals of its type (linear `amount / n`, bullet zero until the last, annuity the fixed payment less interest capped at the balance); the principals repay the starting amount; dates strictly increase when the start is before the end |
| Amortisation.SchedulesAppend | amortisation_schedules.py:46-249 | appending the next loan's schedule keeps every block the schedule of its own loan |
| Amortisation.CreateSchedule | amortisation_schedules.py:39-252 | the run raises exactly when some loan is unsupported, with the first such loan's message; otherwise the rows are the loans' schedules one loan after another, each with the dates and principal pattern of its balance and amortisation type |
| GuideScan.MatchPattern | ecb_guide_md_prompt.py:230-241 | a citation pattern that matches at a position ends inside the text, no earlier than where it started |
| GuideScan.FindAll | ecb_guide_md_prompt.py:244 | every match `re.findall` returns is non-empty |
| GuideScan.Dedup | ecb_guide_md_prompt.py:247-254 | the `seen`-guarded loop keeps exactly the elements of its input, each once, and never more than the input |
| GuideScan.FirstIndex | ecb_guide_md_prompt.py:249-252 | the first occurrence of an element holds it and has no earlier copy |
| GuideScan.FirstIndexUnique | ecb_guide_md_prompt.py:249-252 | the only position holding an element with no earlier copy is its first occurrence |
| GuideScan.DedupFirstOrder | ecb_guide_md_prompt.py:247-254 | the de-duplicated list keeps the order of first occurrences |
| GuideScan.FindAllPatterns | ecb_guide_md_prompt.py:243-245 | the loop collects every pattern's matches, pattern by pattern in the listed order |
| GuideScan.ExtractReferences | ecb_guide_md_prompt.py:228-254 | the references are the collected matches with repeats removed: the same set of citations, each once, in order of first occurrence |
| GuideScan.FootnoteAt | ecb_guide_md_prompt.py:132 | a footnote definition found has a non-empty all-digit number and non-empty content without `<`, and ends inside the text |
| GuideScan.IndexFootnotesKeys | ecb_guide_md_prompt.py:133-135 | a footnote number is indexed exactly when some definition has it |
| GuideScan.IndexFootnotesLastWins | ecb_guide_md_prompt.py:134-135 | a number defined several times keeps the content of its last definition |
| GuideScan.IndexFootnotesKept | ecb_guide_md_prompt.py:134-135 | a number that no definition has keeps the content it had |
| GuideScan.SuperscriptRuns | ecb_guide_md_prompt.py:158 | every superscript run found is non-empty |
| GuideScan.AsciiDigits | ecb_guide_md_prompt.py:161 | the chain of `replace` calls maps each character of a run on its own and keeps the length |
| GuideScan.SuperscriptsBecomeDigits | ecb_guide_md_prompt.py:161 | a run of superscript digits becomes a run of ASCII digits |
| GuideScan.AsciiRuns | ecb_guide_md_prompt.py:159-161 | each run is converted in place, in order |
| GuideScan.FootnoteText | ecb_guide_md_prompt.py:166-172 | the footnote text is empty exactly when the index knows none of the numbers |
| GuideConverter.CleanLines | ecb_guide_md_prompt.py:151 | the kept lines are exactly the paragraph lines that do not start with `<footnote>` |
| GuideConverter.NumberedIds | ecb_guide_md_prompt.py:186-194 | the ids run `kind_counter_1` to `kind_counter_n`, one per number |
| GuideConverter.ElementIds | ecb_guide_md_prompt.py:175-194 | there is one id per occurrence of the tag in the text, numbered from 1, and none exactly when the tag does not occur |
| GuideConverter.ParagraphText | ecb_guide_md_prompt.py:151-172 | the body starts with the paragraph's non-footnote lines joined by newlines |
| GuideConverter.DedupEmpty | ecb_guide_md_prompt.py:162-215 | the de-duplicated footnote numbers are empty exactly when no superscript mark was found |
| GuideConverter.RecordOf | ecb_guide_md_prompt.py:146-226 | the record carries index `doc_page_NNNN` with the next counter value, the page, document and item number; `is_footnote` is set exactly when a superscript mark occurs; `has_footnote` is the distinct numbers joined by commas; each `has_*` flag holds exactly when its tag occurs, with one id per occurrence; the reference ids are the citations of the body, each once |
| GuideConverter.CollectFootnoteNumbers | ecb_guide_md_prompt.py:155-163 | the loop gives the superscript numbers converted to ASCII, each once, in order of first appearance |
| GuideConverter.RenderFootnotes | ecb_guide_md_prompt.py:166-172 | the loop appends one footnote line per number that the index knows, in order |
| GuideConverter.BuildRequirement | ecb_guide_md_prompt.py:146-224 | the method builds exactly the record of the specification |
| GuideConverter.PageSearch | ecb_guide_md_prompt.py:60 | a page number found is a non-empty run of digits |
| GuideConverter.PageMarkerNumber | ecb_guide_md_prompt.py:59-60 | a well-formed marker `<page>N</page>` sets the page to N |
| GuideConverter.NumberedItem | ecb_guide_md_prompt.py:73-79 | a numbered-item match gives a non-empty all-digit number and non-empty text |
| GuideConverter.SetHeading | ecb_guide_md_prompt.py:137-144 | the heading context keeps its six levels |
| GuideConverter.HeadingUpdate | ecb_guide_md_prompt.py:137-144 | a heading with k leading `#` (1 to 6) sets heading k to its text, keeps shallower headings and clears deeper ones; more than six `#` change nothing |
| GuideConverter.Classify | ecb_guide_md_prompt.py:52-121 | each line is classified by the source's tests in their order; item texts and block tags are non-empty and a plain line is the trimmed line |
| GuideConverter.Step | ecb_guide_md_prompt.py:51-123 | one line keeps the heading context at six levels |
| GuideConverter.RunFrozen | ecb_guide_md_prompt.py:60 | once a page marker without a number has raised, later lines change nothing |
| GuideConverter.FinalFrozen | ecb_guide_md_prompt.py:60-126 | after such a marker the paragraph pending at the end is not processed |
| GuideConverter.MalformedPageEnds | ecb_guide_md_prompt.py:59-60 | a `<page>` marker without a number ends the parse as failed, keeping only the records built before it |
| GuideConverter.StepOk | ecb_guide_md_prompt.py:51-123 | one line keeps every buffer starting with a non-empty line and every flushed buffer non-empty |
| GuideConverter.RunOk | ecb_guide_md_prompt.py:51-123 | any number of lines keeps those buffer properties |
| GuideConverter.FlushesNonEmpty | ecb_guide_md_prompt.py:65-66 | no paragraph is ever processed from an empty buffer, and every buffer starts with a non-empty line (the same code recurs at lines 75-76, 125-126 and 146-148) |
| GuideConverter.RunFlushBound | ecb_guide_md_prompt.py:64-81 | lines handed to the walk flush at most one paragraph per heading or numbered item |
| GuideConverter.FlushBound | ecb_guide_md_prompt.py:64-126 | paragraphs end only at a heading, a numbered item or the end of input, so a blank line never ends one |
| GuideConverter.MarkerLines | ecb_guide_md_prompt.py:55-81 | footnote and page lines never enter the buffer; a heading or numbered item flushes a pending buffer first; a heading clears the item number and a numbered item starts a new buffer with its text |
| GuideConverter.HeadingsPersist | ecb_guide_md_prompt.py:137-144 | headings of level at most `depth` stay as they are across lines with no heading that shallow |
| GuideConverter.BlockContinues | ecb_guide_md_prompt.py:87-113 | inside a block, raw lines join the buffer until one ends with the closing tag |
| GuideConverter.UnterminatedBlock | ecb_guide_md_prompt.py:84-126 | a block that never closes absorbs the rest of the input into one last paragraph, without error |
| GuideConverter.FootnoteSkipped | ecb_guide_md_prompt.py:55-57 | a footnote definition line outside a block leaves the walk unchanged |
| GuideConverter.BlockOpens | ecb_guide_md_prompt.py:84-110 | a block opener outside a block puts the bare opening tag in the buffer, whatever follows it on the line |
| GuideConverter.BlockCloses | ecb_guide_md_prompt.py:90-116 | the line ending with the closing tag joins the buffer raw and ends the block |
| GuideConverter.ClosedBlockRun | ecb_guide_md_prompt.py:84-94 | a closed block adds the bare tag, then the raw lines up to and including the closing line |
| GuideConverter.RecordsFromAppend | ecb_guide_md_prompt.py:199-226 | processing one more paragraph appends its record with the next counter value |
| GuideConverter.IndicesDistinct | ecb_guide_md_prompt.py:199-200 | no two records share an index, since each carries its own counter value |
| GuideConverter.IndexedAppend | ecb_guide_md_prompt.py:199-226 | appending the record with the next counter value keeps records numbered in order |
| GuideConverter.RecordsIndexed | ecb_guide_md_prompt.py:199-200 | records built by a parse continue the numbering of the records before them |
| GuideConverter.Converter.constructor | ecb_guide_md_prompt.py:33-40 | a new converter has no requirements, six empty headings, page "1", counter 0 and an empty footnote index |
| GuideConverter.Converter.BuildFootnoteIndex | ecb_guide_md_prompt.py:130-135 | every footnote definition of the text enters the index, in text order, so a later definition of a number overwrites an earlier one |
| GuideConverter.Converter.ProcessHeading | ecb_guide_md_prompt.py:137-144 | the loop over levels 1 to 6 leaves the heading context the specification gives |
| GuideConverter.Converter.ProcessParagraph | ecb_guide_md_prompt.py:146-226 | one record, built from the buffer with the current page and headings, is appended, and the counter goes up by one |
| GuideConverter.Converter.CaptureBlock | ecb_guide_md_prompt.py:84-118 | the captured block is the bare tag then the raw lines up to and including the first that closes it, or to the end of input when none does |
| GuideConverter.Converter.FlushContent | ecb_guide_md_prompt.py:65-126 | a non-empty buffer becomes one more record, as one more flush of the walk |
| GuideConverter.Converter.ParseLine | ecb_guide_md_prompt.py:52-123 | one turn of the loop moves the converter as the walk does, or reports the malformed page marker |
| GuideConverter.Converter.Parse | ecb_guide_md_prompt.py:42-128 | after building the footnote index, the loop yields one record per paragraph of the walk, in order; it fails exactly when the walk meets a page marker without a number |
| GuideConverter.Converter.TakePage | ecb_guide_md_prompt.py:59-62 | a page marker with a number changes the current page as the walk does |
| GuideConverter.Converter.TakeHeading | ecb_guide_md_prompt.py:64-71 | a heading flushes a non-empty buffer, forgets its item number and updates the headings, as the walk does |
| GuideConverter.Converter.TakeItem | ecb_guide_md_prompt.py:73-81 | a numbered item flushes a non-empty buffer, then starts a new one with its text and number, as the walk does |
| GuideConverter.Converter.TakeBlock | ecb_guide_md_prompt.py:84-118 | a block opener captures the whole block into the buffer, as the walk does line by line |
| GuideConverter.Converter.TakePlain | ecb_guide_md_prompt.py:83-123 | any other line is kept when non-empty, or when blank with a non-empty buffer and another line following |

## Left out

- File and network input/output: PyPDF2 in `convert_pdf_to_text`, fitz in
  `extract_figures.py`, YAML loading in assessment.py (the configuration is
  a parameter), `requests` in `parse_document` (the page is a parameter),
  and all file writes. The model starts from the text or tree those calls
  produce.
- BeautifulSoup: an element is an abstract tree of text nodes and tagged
  elements with a name, a class list and children. `find` and `find_all`
  are written over that tree. A text node has a `name` attribute whose
  value is None, as bs4's `NavigableString` does, so `hasattr(child,
  'name')` holds for it: in the grid and `div.norm` loops it takes the
  `clean_text(child.get_text())` branch, and the `str(child).strip()`
  branches of parse_crr3.py:121-125 and :201-205 are never reached. Comments,
  doctypes and other special strings are not distinguished from text.
- `create_dataframe`, `parse_eurlex_document`, `print_summary` and
  `check_article` in parse_crr3.py: pandas shaping and token counts
  (tiktoken), not part of the parse.
- `process_markdown` and the module-level run in ecb_guide_md_prompt.py:
  file reading and JSON writing around `parse`.
- Language-model calls: `ContentGenerator` refinement in
  report_generation.py is the `refine` parameter of the review method,
  and a failed call is `None`, which keeps the old content. `run_test`, the
  chart builders and `generate_summary_report` in llm_graphs_tables.py are
  not part of this model.
- `MetricsTracker`, `get_review_status`, `get_approval_status` and
  `perform_automated_qc_checks` in report_generation.py: timing averages,
  report views and placeholder checks with no state change worth stating.
- Timestamps, uuid values and logging: dropped everywhere. History entries,
  comments and approvals keep their other fields.
- The model of `evaluate_response_accuracy` returns `Score` records rather
  than a DataFrame, and an accuracy shown as "N/A (subjective only)" is
  `None`.
- LlmTables.EvaluateResponseAccuracy: each test run arrives with its
  questions already paired with their expected answer and both responses,
  so two errors of llm_graphs_tables.py are not modelled: the KeyError when
  a name in `results` is missing from `TEST_CASES` (line 110), and the
  IndexError when an answer or response list is shorter than the question
  list (lines 118-120).
- Python dictionaries: iteration order is kept where it matters. CSR
  sections carry an explicit insertion-order sequence beside the map.
- Floating point: amounts, rates and accuracies are exact `real` values,
  so float rounding error is not modelled. `int(n * min_train_size)` and
  `int(n * test_size)` in `time_series_cv` are given as integer parameters,
  since they are float products. OLS fitting, error metrics and plots in
  cv_validation.py are outside the model.
- `pd.to_datetime` parsing: dates are given as (year, month, day) values.
  Adding months clamps the day to the end of a shorter month, as dateutil's
  `relativedelta` does. Because of that, concrete calendar dates are used
  rather than day numbers with an abstract month step.
- Text.Lower and Text.Upper: Python's `str.lower()` and `str.upper()`
  map case over all of Unicode, while the model maps only ASCII letters.
  Every use follows that choice: the level tests of `update_hierarchy`
  (parse_crr3.py:65-70), the answer and response lowering of
  `evaluate_response_accuracy` (llm_graphs_tables.py:118-120), and the
  type tests of `create_amortization_schedule`. Texts with other cased
  letters can differ. For example, `"tıtle 1".upper()` is `"TITLE 1"`,
  so Python takes it as a title where `FirstLevel` finds no level. And
  `"ß".upper()` is `"SS"`, which changes the length; the model keeps the
  length.
- Regular expressions: `\d`, `\w` and case-insensitive matching are
  ASCII-only. Python's Unicode classes also accept other digits and
  letters. `\s` and `str.strip` use Python's full whitespace set.
- Amortisation.WithBalanceType: returns a new sequence of loans. The
  source assigns `loans_df['balance_type'] = 'on_balance'` on the caller's
  own DataFrame (amortisation_schedules.py:42-43), so after the call the
  caller's frame also has the new column. The model does not capture this
  update of the input.
- Amortisation.CreateSchedule: returns the rows loan after loan, before
  the final sort by loan id and payment date and the 2-decimal rounding of
  the money columns (amortisation_schedules.py:254-259). Rounding is a
  floating-point effect; the sort is a reordering of the same rows. Loan
  ids are positions in the frame: `loan_id = idx` is the DataFrame's index
  label (line 47), which equals the position only for the default
  `RangeIndex`.
- Assessment.GetAttr: the attributes are those of a plain class on CPython
  3.11 and 3.12 only. `__getstate__` is absent before 3.11. From 3.13 a class
  also has `__firstlineno__` and `__static_attributes__`, which the model
  takes as absent. On 3.14 the NotImplemented that `__subclasshook__`
  returns raises TypeError at `if result:` instead of matching. Rule
  values are numbers or lists of numbers, and operator names are strings;
  a non-string operator or a string source value (with which
  `__setattr__` would return None and let the loop go on) is not modelled.
- Assessment.AssessAsWritten: models line 59 as written. Every match is an
  error there, so its first-match result is stated on `Assess`, which reads
  the colour as a dictionary entry (see Findings).

## Findings

| source | as written | input that shows it | evidently intended | confidence | as-written member | corrected member |
|---|---|---|---|---|---|---|
| assessment.py:59 | `return rule.color` reads an attribute of a rule loaded from YAML, which is a plain `dict` | the module's own call at line 62, `assess(1, 'JEFFREYS_TEST', 'HIGH_DEFAULT_PORTFOLIO')`, with a first rule `equals 1 → green`: the rule matches and `rule.color` raises AttributeError | `return rule['color']`, which returns "green" | not executed | Assessment.AssessAsWrittenCounterexample | Assessment.AssessFirstMatch |
