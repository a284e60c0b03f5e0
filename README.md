# Content sheet normaliser and Turn exporter, modelled in Dafny

The repository keeps a WhatsApp help-line's content in one spreadsheet
workbook. It has one sheet per language and country, an "English master"
sheet, and two metadata sheets ("Language codes" and "ImportInfo"). Two
scripts work on it:

- `process_sheet.py` normalises the workbook in six passes, in this order:
  1. fill in missing languages;
  2. normalise content titles;
  3. clean keywords;
  4. copy the English keywords into every other language;
  5. check content length;
  6. fill in missing content from English.

  Problems are logged through `error()`, and the workbook is saved only when
  nothing was logged.
- `convert_to_json.py` reads the ImportInfo sheet: the content sheets, their
  numbers, their countries and the text each country replaces. It turns
  every content row into a Turn record with substituted answer text,
  attached media and synthesised automations, and gathers the records per
  output file.

The model is split into these modules:

- `Sheets`: the workbook as openpyxl presents it.
  - A `Cell` is blank, a string or an integer.
  - A sheet is a title, a header row and data rows.
  - Columns are found by header synonyms (`get_index`, `get_cell`).
  - The `Error` records are what `error()` prints.
  - The `Crash` values are the Python exceptions that end a run.
- `LanguageFill`, `TitleClean`, `KeywordClean`, `EnglishKeywords` and
  `ContentChecks`: the six passes, one row at a time. Each is a method with
  a loop, proved equal to a fold over the rows. Lemmas then state, row by
  row, what the fold writes and logs.
- `EmojiKeywords` (`base_emoji` and the variation-selector strip) and
  `EnglishMaster` (`get_keywords`, `get_content`).
- `Normaliser`: the `__main__` block.
  - The class `Workbook` holds the sheets and the error log.
  - Each pass method updates the sheets and the log.
  - `Process` runs the six passes and decides whether to save.
- `ImportTable`: the ImportInfo loop. Python's insertion-ordered dicts are
  kept as sequences of key/value pairs.
- `Automations`: `clean_keyword`, `process_automators`,
  `process_language_automations` and `strip_language`.
- `Substitution`: `replace_content_values` and `replace_content_languages`.
- `Export`: the record assembly and the loop that fills each output file.
- `Text`: the Python string operations the scripts use (`strip`, `split`,
  `join`, `replace`, `startswith`, `str(int)`, order-keeping dedup).
- `Wrappers`: `Option` and `Result`.
- `Unicode`: the `Foreign` record.

Four things come from libraries and are passed in as the `Foreign` record
(module `Unicode`):

- the emoji regular expression of the `emoji` package, as the length of
  its match at the start of a string;
- the `\W` character class of Python's `re`;
- `str.lower`;
- `str.upper`.

The model assumes only these three facts about them:

- `_` is a word character.
- Whitespace is not a word character.
- `lower` agrees with ASCII lowering on ASCII text.

The media export fetched over HTTP (`get_media`) is a parameter as well: a
map from question, without its language prefix, to attachment fields.

Where a pass could raise, the model returns `Err(crash)` and the workbook
keeps its state from before that pass. Because `get_index` is cached and no
pass writes the header row, each sheet's four column lookups are resolved
once, as `Result`s. Each lookup is used at the point where the source first
calls `get_cell`, row by row, so a missing header raises only on a sheet
that has data rows.

## Model

| member | source | states |
|---|---|---|
| Sheets.TextOrEmpty | process_sheet.py:50 | `value or ""` raises an AttributeError exactly on a non-zero number, is the text of a string cell, and is empty for a falsy cell |
| Sheets.SetCell | process_sheet.py:191 | writing a cell changes that column to the new value, leaves every other column as it was, and extends a short row with blanks |
| Sheets.HeaderKey | process_sheet.py:50 | a header cell's comparison key raises an AttributeError exactly when the cell is a non-zero number, which has no `strip` |
| Sheets.HeaderKeysOk | process_sheet.py:50 | the header list has one key per header cell, each the stripped lower-cased text of that cell |
| Sheets.HeaderKeysErr | process_sheet.py:50 | building the header list fails, with an AttributeError, exactly when some header cell is a non-zero number |
| Sheets.IndexOf | process_sheet.py:54 | `list.index` gives a position that holds the value, with no earlier occurrence |
| Sheets.NormNames | process_sheet.py:52 | each candidate name is compared stripped and lower-cased |
| Sheets.FirstMatchSpec | process_sheet.py:51-55 | no match exactly when no name is in the header; otherwise a position of a name in the header whose earlier names are all absent, at that name's first occurrence |
| Sheets.FirstMatchName | process_sheet.py:51-54 | a match comes with the name that produced it: that name is present, every earlier name is absent, and no earlier header cell has the same key |
| Sheets.FirstMatchEarliest | process_sheet.py:51-54 | a match of the normalised names is the first header position of the earliest name present |
| Sheets.GetIndexBadHeader | process_sheet.py:50 | `get_index` raises an AttributeError for an unreadable header exactly when some header cell is a non-zero number |
| Sheets.GetIndexMissing | process_sheet.py:55 | on a readable header, `get_index` raises the AttributeError exactly when none of the names is in the header |
| Sheets.GetIndexFound | process_sheet.py:44-55 | a found column is the first header position of the earliest given name that occurs in the header |
| Sheets.GetIndex | process_sheet.py:44-55 | `get_index` returns a position inside the header row, and raises only its two AttributeErrors: a header cell without `strip`, or none of the names in the header |
| Sheets.GetIndexNamed | process_sheet.py:44-55 | the header cell at a found column reads, stripped and lower-cased, as one of the names, and no earlier name is anywhere in the header |
| Sheets.ResolveColumnsSpec | process_sheet.py:58-68 | in `ResolveColumns` (`get_cell`), each column is read at a header position whose stripped, lower-cased cell is one of that column's synonyms, with no earlier synonym in the header; a failed lookup raises the AttributeError naming the synonyms, or the one for a numeric header cell |
| Sheets.MetadataExempt | process_sheet.py:219-224 | every sheet all passes skip is also skipped by the two English-filling passes |
| Sheets.FindSheet | process_sheet.py:217 | `workbook[title]` finds the first sheet with exactly that title, and fails only when no sheet has it |
| Sheets.EnglishMasterLowered | process_sheet.py:222 | the English master's title, lowered, is the name the two English passes skip |
| Sheets.EnglishMasterExempt | process_sheet.py:217-224 | the sheet the English maps are read from is one the English-filling passes skip |
| Sheets.StripLanguagePrefix | process_sheet.py:235-236 | a title that starts with the row's language loses the language and the separator after it; otherwise it is unchanged; a language that is not a string raises a TypeError |
| LanguageFill.FillLanguage | process_sheet.py:171-191 | the method computes exactly the language pass on one sheet |
| LanguageFill.LanguageRows | process_sheet.py:183-191 | the row loop, carrying the last language seen, computes exactly the fold of the row step |
| LanguageFill.LastLanguageSpec | process_sheet.py:183-191 | the carried language is blank when no titled row above names a language; otherwise it is the language of the last titled row above that names one |
| LanguageFill.LanguageState | process_sheet.py:183-191 | with both columns present the pass never raises, logs nothing, and ends carrying the last language named |
| LanguageFill.LanguageSheetCrash | process_sheet.py:176-187 | the pass raises on a sheet exactly when the sheet is not a metadata sheet, has data rows, and lacks the language or title column |
| LanguageFill.LanguageSheetRows | process_sheet.py:184-191 | each row with a title and no language gets the last language named above it; every other row is unchanged; a language already present is never overwritten |
| TitleClean.Underscore | process_sheet.py:210 | substituting `_` for each run of non-word characters leaves only word characters |
| TitleClean.UnderscoreLetters | process_sheet.py:210 | the substitution keeps every word character, in order |
| TitleClean.UnderscoreOfWords | process_sheet.py:210 | a string of word characters is left unchanged |
| TitleClean.NormaliseIdempotent | process_sheet.py:210 | a normalised title consists of word characters, and normalising it again changes nothing |
| TitleClean.CleanTitle | process_sheet.py:208-210 | a falsy title is left alone, a non-zero number raises an AttributeError, and a non-empty string becomes its normalised form |
| TitleClean.CleanTitles | process_sheet.py:194-210 | the method computes exactly the title pass on one sheet |
| TitleClean.TitleRows | process_sheet.py:207-210 | the row loop computes exactly the fold of the title step |
| TitleClean.TitleStepIdempotent | process_sheet.py:207-210 | running the title step on a row it produced changes nothing and logs nothing |
| TitleClean.TitleFoldIdempotent | process_sheet.py:207-210 | running the row loop again on its own output changes nothing and logs nothing |
| TitleClean.TitleSheetIdempotent | process_sheet.py:200-210 | the title pass on a sheet is idempotent |
| TitleClean.TitleSheetRows | process_sheet.py:207-210 | in each row the title cell becomes its cleaned value and every other cell is unchanged |
| EmojiKeywords.RemoveSet | process_sheet.py:38-39 | removing a set of characters keeps exactly the characters outside the set |
| EmojiKeywords.ReplaceEachChars | process_sheet.py:38-39 | replacing each one-character modifier by nothing, in turn, removes the set of those characters |
| EmojiKeywords.SkinToneChars | process_sheet.py:27-36 | the five modifiers are single characters, and they are exactly the skin tones U+1F3FB to U+1F3FF |
| EmojiKeywords.BaseEmojiSpec | process_sheet.py:23-41 | `BaseEmoji` (`base_emoji`) leaves a keyword with no emoji match unchanged; a keyword with a match loses every skin-tone modifier and keeps everything else |
| EmojiKeywords.WithoutSkinTonesIdempotent | process_sheet.py:38-39 | removing skin tones twice is removing them once |
| EmojiKeywords.BaseEmojiIdempotent | process_sheet.py:23-41 | `base_emoji` applied twice is `base_emoji` applied once |
| EmojiKeywords.WithoutVariationSpec | process_sheet.py:146-147 | the checked keyword contains neither variation selector U+FE0F nor U+FE0E |
| KeywordClean.MapBaseEmojiSpec | process_sheet.py:142 | the list comprehension applies `base_emoji` to each keyword in place |
| KeywordClean.InvalidErrorsHas | process_sheet.py:144-153 | every keyword whose emoji match is shorter than the keyword is reported, without its variation selectors |
| KeywordClean.InvalidErrorsOnly | process_sheet.py:144-153 | every reported invalid-keyword error comes from such a keyword of the row |
| KeywordClean.CheckEmojiKeywords | process_sheet.py:144-153 | the loop logs exactly the invalid-emoji errors of the row's keywords, in keyword order |
| KeywordClean.DedupKeywords | process_sheet.py:155-159 | the loop keeps the first occurrence of each keyword, in order |
| KeywordClean.SeenBeforeCount | process_sheet.py:161-167 | on distinct keywords, a duplicate error for `k` is logged once if `k` is both in the row and already seen, and not at all otherwise |
| KeywordClean.SeenBeforeOnly | process_sheet.py:161-167 | each duplicate error names a keyword of the row that was seen before, on this sheet |
| KeywordClean.DupScanSpec | process_sheet.py:161-167 | the duplicate scan logs those errors and adds every keyword of the row to the seen set |
| KeywordClean.ScanDuplicates | process_sheet.py:161-167 | the loop computes exactly the duplicate scan and the new seen set |
| KeywordClean.CleanRow | process_sheet.py:128-168 | the row body computes exactly the keyword step |
| KeywordClean.CleanKeywords | process_sheet.py:114-168 | the method computes exactly the keyword pass on one sheet |
| KeywordClean.KeywordRows | process_sheet.py:127-168 | the row loop, carrying the seen set, computes exactly the fold of the keyword step |
| KeywordClean.PiecesNoComma | process_sheet.py:138 | no piece of a comma split contains a comma |
| KeywordClean.StrippedNoneHolds | process_sheet.py:138 | stripping keeps pieces free of a character |
| KeywordClean.BaseEmojiNoneHolds | process_sheet.py:142 | removing emoji modifiers keeps keywords free of a character |
| KeywordClean.TokensNoComma | process_sheet.py:129-142 | no keyword that `Tokens` takes from a cell (split at commas, stripped, empty ones dropped, `base_emoji` applied) contains a comma |
| KeywordClean.RewrittenCellSplits | process_sheet.py:168 | the keyword cell written back splits at commas into exactly the deduplicated keywords |
| KeywordClean.SeenInSpec | process_sheet.py:161-167 | a keyword is in the seen set exactly when an earlier row that is not a myths row has it |
| KeywordClean.KeywordsStepSpec | process_sheet.py:128-168 | the row step writes the joined deduplicated keywords, adds the row's keywords to the seen set unless it is a myths row, and logs the emoji errors followed by the duplicate errors |
| KeywordClean.KeywordsState | process_sheet.py:127-167 | after any rows, the seen set is the keywords of the non-myths rows among them |
| KeywordClean.KeywordsSheetRow | process_sheet.py:128-168 | in every row the keyword cell becomes the joined deduplicated keywords and every other cell is unchanged |
| KeywordClean.KeywordsErrors | process_sheet.py:144-167 | the pass logs each row's errors in turn, each checked against the rows above it |
| EnglishMaster.EntryMapErr | process_sheet.py:87-91 | the dict comprehension raises exactly when some row's entry raises |
| EnglishMaster.EntryMapKeys | process_sheet.py:87-91 | the dict's keys are exactly the keys the rows give |
| EnglishMaster.EntryMapLast | process_sheet.py:87-91 | a key holds the value of the last row giving it |
| EnglishMaster.GetKeywordsKeys | process_sheet.py:87-91 | `get_keywords` has a key for exactly the language-stripped titles of the rows with a title |
| EnglishMaster.GetKeywordsValue | process_sheet.py:71-91 | in `GetKeywords` (`get_keywords`), a title's keywords are the comma split of the keyword cell of the last row with that title |
| EnglishMaster.GetContentKeys | process_sheet.py:106-111 | `get_content` has a key for exactly the language-stripped titles of the rows with both a title and content |
| EnglishMaster.GetContentValue | process_sheet.py:94-111 | in `GetContent` (`get_content`), a title's content is the content cell of the last such row with that title |
| EnglishMaster.GetKeywordsErr | process_sheet.py:76-91 | `get_keywords` raises exactly when some row's entry raises |
| EnglishMaster.KeywordEntryErr | process_sheet.py:76-90 | a row's entry raises exactly when: the title column is missing; or the row has a title and one of these holds: the language column is missing, the title is a number, the language is not a string, the keyword column is missing, or the keyword cell is a non-zero number |
| EnglishKeywords.AbsentSpec | process_sheet.py:241-243 | the English keywords to add are exactly those not already among the row's own |
| EnglishKeywords.AppendMissingSpec | process_sheet.py:241-243 | the merge loop yields the row's own keywords followed by the missing English ones, each once, in English order |
| EnglishKeywords.MergeSpec | process_sheet.py:241-244 | after the empty ones are dropped, a keyword is in the result exactly when it is non-empty and among the row's own or the English keywords |
| EnglishKeywords.AppendEnglish | process_sheet.py:241-243 | the loop computes exactly that merge |
| EnglishKeywords.FallbackTitle | process_sheet.py:240 | the fallback title, read from the English master's cell in column A at the same row, exists exactly when that cell holds text, and is that text without its first four characters |
| EnglishKeywords.EnglishRow | process_sheet.py:228-245 | the row body computes exactly the English-keyword step |
| EnglishKeywords.AddEnglishKeywords | process_sheet.py:213-245 | the method computes exactly the English-keyword pass on one sheet |
| EnglishKeywords.EnglishRows | process_sheet.py:227-245 | the row loop computes exactly the fold of the English-keyword step |
| EnglishKeywords.EnglishStepSkip | process_sheet.py:231-234 | a row without a title is left unchanged and logs nothing |
| EnglishKeywords.EnglishStepFound | process_sheet.py:235-245 | a row whose title has English keywords gets its own non-empty keywords followed by the missing English ones, logs nothing, and keeps its other cells |
| EnglishKeywords.EnglishStepMissing | process_sheet.py:237-245 | a row whose title has no English keywords logs a missing-English error and takes the keywords of the fallback title; it succeeds exactly when that fallback exists and has English keywords |
| EnglishKeywords.EnglishStepCrash | process_sheet.py:229-236 | a keyword or title cell holding a non-zero number raises an AttributeError, and a titled row whose language is not a string raises a TypeError |
| EnglishKeywords.EnglishSheetRows | process_sheet.py:227-245 | each row of a completed pass is its step's output, and the log is the steps' errors in row order |
| ContentChecks.LengthRow | process_sheet.py:254-259 | the row body computes exactly the length-check step |
| ContentChecks.CheckContentLength | process_sheet.py:248-259 | the method computes exactly the length check on one sheet |
| ContentChecks.LengthRows | process_sheet.py:253-259 | the row loop computes exactly the fold of the length-check step |
| ContentChecks.LengthFold | process_sheet.py:253-259 | the check changes no row and logs one error per over-long content, naming each row's title in row order |
| ContentChecks.LengthSheetSpec | process_sheet.py:248-259 | on a content sheet, the pass leaves the sheet unchanged and logs exactly the over-long rows |
| ContentChecks.LengthBoundary | process_sheet.py:255 | content of 4096 characters passes and content of 4097 is reported |
| ContentChecks.FillRow | process_sheet.py:277-287 | the row body computes exactly the missing-content step |
| ContentChecks.AddMissingContent | process_sheet.py:262-287 | the method computes exactly the missing-content pass on one sheet |
| ContentChecks.FillRows | process_sheet.py:276-287 | the row loop computes exactly the fold of the missing-content step |
| ContentChecks.FillStepSpec | process_sheet.py:277-287 | a row with content or without a title is unchanged; a titled row with blank content gets the English content of its language-stripped title |
| ContentChecks.FillStepMissing | process_sheet.py:287 | blank content whose title has no English content raises a KeyError for that title |
| ContentChecks.FillSheetRows | process_sheet.py:276-287 | each row of a completed pass is its step's output, and nothing is logged |
| ContentChecks.FillLogsNothing | process_sheet.py:262-287 | the missing-content pass never logs an error |
| ContentChecks.FillStepLogsNothing | process_sheet.py:276-287 | no missing-content row step logs an error |
| Normaliser.RunOnSheet | process_sheet.py:123-125 | the method computes exactly one pass on one sheet, with the sheet's columns looked up by header |
| Normaliser.PassLoop | process_sheet.py:123 | the loop over the sheets computes exactly the pass over the workbook: every sheet is replaced by its pass output, the errors are appended in sheet order, and the first exception stops the loop |
| Normaliser.Workbook.constructor | process_sheet.py:291 | the loaded workbook starts with its sheets and an empty error log |
| Normaliser.Workbook.Run | process_sheet.py:292-297 | a pass that completes replaces the sheets and extends the log; a pass that raises leaves both unchanged |
| Normaliser.Workbook.CleanLanguage | process_sheet.py:171-191 | the first pass over the workbook, with sheets and log updated as above |
| Normaliser.Workbook.CleanContentTitle | process_sheet.py:194-210 | the second pass over the workbook, with sheets and log updated as above |
| Normaliser.Workbook.CleanKeywords | process_sheet.py:114-168 | the third pass over the workbook, with sheets and log updated as above |
| Normaliser.Workbook.AddEnglishKeywords | process_sheet.py:213-245 | the fourth pass: the English master's keyword map is read first, and a missing master raises |
| Normaliser.Workbook.CheckContentLength | process_sheet.py:248-259 | the fifth pass over the workbook, with sheets and log updated as above |
| Normaliser.Workbook.AddMissingContent | process_sheet.py:262-287 | the sixth pass: the English master's content map is read first, and a missing master raises |
| Normaliser.Workbook.Process | process_sheet.py:290-300 | the six passes run in order; the workbook is saved exactly when they all complete with an empty log; a run that completes leaves the final sheets and the full log |
| Normaliser.CrashFrom | process_sheet.py:292-297 | the first pass that raises ends the run with its exception |
| Normaliser.DecideSpec | process_sheet.py:290-300 | `Decide` on the run `Normalise` makes: the run ends saved exactly when it completes with an empty log, is refused exactly when it completes with errors logged, and crashes exactly when a pass raises |
| Normaliser.LogGrows | process_sheet.py:13-20 | errors are only ever added to the log, never removed |
| Normaliser.ErrorBlocksSave | process_sheet.py:298-299 | once an error is logged, no later pass can empty the log, so the workbook is not saved |
| Normaliser.MetadataUntouched | process_sheet.py:124-125 | every pass leaves the Language codes and ImportInfo sheets unchanged and logs nothing for them |
| Normaliser.ExemptUntouched | process_sheet.py:219-225 | the two English-filling passes leave the exempt sheets unchanged |
| Normaliser.EnglishPassFound | process_sheet.py:217 | an English-filling pass is prepared only when the workbook has an English master sheet |
| Normaliser.KeywordsPassFound | process_sheet.py:217 | reading the English keywords succeeds only on a workbook with an English master, and gives the keyword pass |
| Normaliser.ContentPassFound | process_sheet.py:266 | reading the English content succeeds only on a workbook with an English master, and gives the content pass |
| Normaliser.MasterUntouched | process_sheet.py:217-225 | the English-filling passes leave the English master sheet, their own source, unchanged |
| Normaliser.MasterSkipped | process_sheet.py:219-225 | a sheet titled "English master" is skipped by both English-filling passes |
| Text.StripSlice | process_sheet.py:138 | `strip` returns the middle slice of the string between leading and trailing whitespace, and that slice neither starts nor ends with whitespace |
| Text.StripIdempotent | process_sheet.py:138 | stripping twice is stripping once |
| Text.MapStringsSpec | process_sheet.py:138 | a list comprehension has one entry per element, entry `i` being the function applied to element `i` |
| Text.MapStripSpec | process_sheet.py:138 | the comprehension strips each piece in place |
| Text.NonEmptySpec | process_sheet.py:140 | dropping empty keywords keeps exactly the non-empty ones |
| Text.DedupSpec | process_sheet.py:155-159 | deduplication keeps every value and repeats none |
| Text.DedupOfDistinct | process_sheet.py:155-159 | deduplicating a list without repeats changes nothing |
| Text.JoinSplit | process_sheet.py:168 | joining the pieces of a split with the separator gives back the string |
| Text.SplitJoin | process_sheet.py:168 | splitting a join of comma-free pieces at commas gives back the pieces |
| Text.IntToStringRoundTrip | process_sheet.py:135-136 | `str` of an integer is an integer literal that parses back to that integer |
| Text.RemoveChar | process_sheet.py:146 | removing a character keeps exactly the other characters |
| Text.ReplaceCharByNothing | process_sheet.py:146 | replacing a one-character string by nothing is removing that character |
| Text.ReplaceIsSplitJoin | convert_to_json.py:150 | `replace` of a pattern is split at the pattern then join with the replacement |
| Text.ReplaceAbsent | convert_to_json.py:150 | replacing a pattern that does not occur changes nothing |
| Text.ReplaceCharByChar | convert_to_json.py:38 | replacing one character by another maps that character and keeps every other character in place |
| Text.SplitFirst | convert_to_json.py:51 | the first piece of a split is the text before the first occurrence of the separator, or the whole string when it does not occur |
| Automations.MakeAutomator | convert_to_json.py:179-193 | an automator has the given name, actions and triggers, the AND operator, version 0.2.0, and is enabled and not deleted |
| Automations.AfterUnderscore | convert_to_json.py:12 | the part after the first underscore: the string is an underscore-free prefix, an underscore, then the result |
| Automations.StripLanguage | convert_to_json.py:11-12 | a question without an underscore is unchanged; otherwise the result is what follows its first underscore |
| Automations.StripLanguageOfPrefixed | convert_to_json.py:11-12 | an underscore-free prefix and its underscore are removed, whatever follows |
| Automations.IntegerKeywordClean | convert_to_json.py:59-65 | the decimal text of an integer is its own clean keyword |
| Automations.CleanKeywordIdempotent | convert_to_json.py:59-65 | `CleanKeyword` (`clean_keyword`) applied twice is applied once |
| Automations.KeywordList | convert_to_json.py:69 | one cleaned keyword per comma piece of the cell's text, never empty |
| Automations.ProcessAutomators | convert_to_json.py:66-111 | raises, with an AttributeError from `upper`, exactly when the keywords are truthy and the language is not a string |
| Automations.AutomatorsOfFalsy | convert_to_json.py:110-111 | no keywords give no triggers |
| Automations.AutomatorsLanguageValue | convert_to_json.py:70-72 | the first trigger matches the contact's language field as `LanguageMatch` gives it: no value for "no-lang", the upper-cased language otherwise |
| Automations.AutomatorsCatchAll | convert_to_json.py:73-83 | the single keyword CATCHALL gives one catch-all trigger on the language |
| Automations.AutomatorsKeywords | convert_to_json.py:84-108 | other keywords give the inbound language trigger, then one trigger matching the single keyword, or the whole list of keywords |
| Automations.AutomatorsPair | convert_to_json.py:84-108 | the non-catch-all triggers are exactly the language trigger and the keyword trigger |
| Automations.AutomatorsSameLanguage | convert_to_json.py:70-94 | the language trigger depends only on the language, not on the keywords |
| Automations.AutomatorsNoLanguage | convert_to_json.py:195 | the "no-lang" triggers are the language's triggers with the language match made empty and the rest unchanged |
| Automations.ProcessLanguageAutomations | convert_to_json.py:112-147 | raises, with an AttributeError from `upper`, exactly when the keywords are truthy and the language is not a string |
| Automations.LanguageSwitchShape | convert_to_json.py:112-147 | there is a switch exactly when the keywords are truthy; it is named after the language, replies and sets the contact's language to its upper-cased form, and has one inbound trigger on the single keyword or the keyword list |
| ImportTable.Upsert | convert_to_json.py:39 | assigning a dict key keeps the key order, adding a new key at the end, and leaves the other entries unchanged |
| ImportTable.UpsertDistinct | convert_to_json.py:39 | after an assignment the keys stay distinct and the key holds the new value |
| ImportTable.ReadImportInfo | convert_to_json.py:36-57 | the loop over the ImportInfo rows computes exactly the sheet entries, the per-country languages and the list of all languages |
| ImportTable.ReadRow | convert_to_json.py:37-57 | the loop body computes exactly one row's step on the three collections |
| ImportTable.CollectKeys | convert_to_json.py:39 | the keys of a dict filled row by row are the keys given, each once, in first-given order |
| ImportTable.CollectValues | convert_to_json.py:39 | each key holds the value of the last row that gave it |
| ImportTable.ImportKeys | convert_to_json.py:36-50 | the sheet keys are the `SheetKey`s of the `Listed` rows, each once, in first-seen order |
| ImportTable.SheetsDistinct | convert_to_json.py:39 | no sheet key occurs twice |
| ImportTable.ImportValues | convert_to_json.py:39-50 | each key's entry is built from the last listed row with that key |
| ImportTable.ImportLanguages | convert_to_json.py:51-55 | each country's languages are the `LanguageOf` of each of its listed rows, each once, in first-seen order, and only countries with listed rows appear |
| ImportTable.ListedAscii | convert_to_json.py:37 | on an ASCII title, `Listed` holds exactly when the number type is truthy and the first cell is not "sheet" in any mix of cases, so the heading row is never an entry |
| ImportTable.SlugSpec | convert_to_json.py:38 | the title part of `SheetKey` has no spaces or parentheses, keeps every other character of the title, and has an underscore where the title had a space |
| ImportTable.LanguageOfSpec | convert_to_json.py:51 | `LanguageOf` is the sheet title up to its first " (", or the whole title when it has none |
| ImportTable.ImportUniq | convert_to_json.py:56-57 | the list of all languages is those of all listed rows, each once, in first-seen order |
| ImportTable.LanguagesDistinct | convert_to_json.py:52-57 | no language list repeats a language |
| ImportTable.CountryOfListed | convert_to_json.py:52-55 | a listed row's country has at least one language |
| ImportTable.LastInfoCountry | convert_to_json.py:39-55 | the country of each sheet entry has at least one language |
| ImportTable.CountriesKnown | convert_to_json.py:39-55 | the country of every sheet entry is a key of the language map, so line 215 of the exporter never raises a KeyError |
| ImportTable.CountryKnown | convert_to_json.py:52-55 | a country with languages is a key of the language map |
| Substitution.TableKeys | convert_to_json.py:43-49 | the replacement table has the five placeholders as its keys, in order and distinct |
| Substitution.CountryReplacementsSpec | convert_to_json.py:43-49 | the table `CountryReplacements` builds for a row has the five distinct placeholders as keys, in order; both country names become the row's country, their upper-case forms the upper-cased country, and the number has no `=` |
| Substitution.PlaceholdersDistinct | convert_to_json.py:43-49 | no placeholder occurs twice |
| Substitution.NumberWithoutEquals | convert_to_json.py:48 | the phone number substituted contains no `=` |
| Substitution.ReplaceContentValues | convert_to_json.py:148-151 | the loop computes `ApplyReplacements`: each replacement of the table applied in turn |
| Substitution.ApplyConcat | convert_to_json.py:148-151 | applying a concatenated table applies the first part, then the second |
| Substitution.ApplyAbsent | convert_to_json.py:148-151 | content containing none of the placeholders is unchanged |
| Substitution.ReplaceContentLanguages | convert_to_json.py:152-157 | content of any other question is unchanged; the language menu raises an IndexError exactly when its content has fewer than four paragraphs |
| Substitution.LanguagesSplice | convert_to_json.py:152-156 | the menu keeps its first, second and fourth paragraphs and puts the language list, one per line, third |
| Substitution.LanguagesSpliceFixpoint | convert_to_json.py:152-156 | a four-paragraph menu that already lists the languages is unchanged |
| Export.RowRecord | convert_to_json.py:170-229 | a record keeps the row's question and language, carries the media of the question without its language, and is not deleted |
| Export.AutomatorOrder | convert_to_json.py:177-213 | a record's automators are: the reply automator when there are triggers; then, for English rows, its any-language copy; then the language switch when there is one |
| Export.RecordAutomators | convert_to_json.py:175-213 | the automators are the reply automators followed by the language switch |
| Export.ReplyOrder | convert_to_json.py:178-211 | in `ReplyAutomators`, the reply automator is named after the question with `_` made `-`; the English copy has "eng" made "null-language" and the no-lang triggers |
| Export.RecordAnswer | convert_to_json.py:214-215 | any answer other than the language menu is the content with the country's replacements applied; the menu's answer is that replaced text cut to its first four paragraphs with the third made the country's languages, one per line |
| Export.MediaForLanguages | convert_to_json.py:216 | in `MediaFor`, translations of a question that differ only in their language code get the same media: the export's entry for the bare question, or none |
| Export.RecordKeyError | convert_to_json.py:215 | a country in the language map never raises a KeyError |
| Export.SheetRecordsSpec | convert_to_json.py:170-229 | a sheet yields exactly one record per row with content, in row order, and succeeds exactly when every such row does |
| Export.SheetRecordsErr | convert_to_json.py:170-229 | the first row that raises ends the sheet with its exception |
| Export.Touch | convert_to_json.py:166-167 | an output file is created only when new, with an empty record list at the end, and the earlier files are kept in order |
| Export.TouchFiles | convert_to_json.py:166-167 | creating a file changes no file's records |
| Export.AppendAt | convert_to_json.py:217 | file `d`'s list becomes its old list followed by the records; every other file and the order of files are unchanged |
| Export.AppendAtFiles | convert_to_json.py:217 | appending to file `d` extends `d`'s records by exactly the new ones and leaves every other file's records as they were |
| Export.ExportStep | convert_to_json.py:161-229 | an entry adds its file name when it is new and appends its sheet's records to that file; it raises exactly the exception looking up the sheet or building a record raises |
| Export.ExportFiles | convert_to_json.py:161-167 | the output files are the entries' `FileName`s, each once, in first-seen order |
| Export.ExportContents | convert_to_json.py:161-217 | after a completed export, file `f` holds the records of exactly the entries whose file name is `f`, sheet after sheet in entry order, each sheet's in row order |
| Export.FileNameShared | convert_to_json.py:165 | `FileName`: entries with the same country and number type share one file, whose name begins with "content_" and ends with ".json" |
| Export.SheetOfSpec | convert_to_json.py:169 | `SheetOf` (`wb[sheet_name]`) gives the first sheet with the entry's title, and raises a KeyError exactly when no sheet has it |
| Export.Convert | convert_to_json.py:32-231 | the method computes exactly `ConvertWorkbook`: ImportInfo, heading row included, read first, then every entry's sheet exported |
| Export.ConvertSpec | convert_to_json.py:31-231 | `ConvertWorkbook` without an ImportInfo sheet raises a KeyError for it; a conversion that completes has one output file per distinct file name of the ImportInfo entries, in first-seen order |
| Export.ConvertContents | convert_to_json.py:31-231 | a completed conversion gives each output file the records of the ImportInfo entries (heading row included) that name it, in entry order |
| Export.ExportAll | convert_to_json.py:161-231 | the outer loop computes exactly the fold over the entries |
| Export.ExportSheet | convert_to_json.py:162-231 | the loop body computes exactly one entry's step |
| Export.SheetRows | convert_to_json.py:170-229 | the row loop appends the sheet's records to its file, or ends with the first row's exception |

## Left out

- `get_media` (convert_to_json.py:14-29) makes an HTTP request with a token from the environment. It is not modelled; the media map it returns is a parameter of `Export.Convert`.
- Not modelled, because they are I/O:
  - loading and saving the workbook;
  - writing the JSON files, including the space-to-underscore change in their names (convert_to_json.py:232-235);
  - the `print` calls and the two counters (convert_to_json.py:158-159, 230-231, 236-242).
- Only the records end up in the model's output; what is written to disk is not modelled.
- Float cells are not modelled. A `Cell` is blank, a string or an integer, so the `float` branch at process_sheet.py:133-134 has no counterpart.
- Automations.CleanKeyword: normalises only integer literals (optional sign, ASCII digits) of magnitude at most 2^53, the range where a double holds every integer exactly. Any other keyword is kept as its stripped text, where the source differs:
  - `int(float(word))` also converts larger literals, rounding each to the nearest double, so "9007199254740993" becomes "9007199254740992";
  - past about 1.8e308 `float` gives infinity, `int` raises OverflowError, and the bare `except` keeps the stripped text;
  - decimal and exponent forms ("1.0", "1e3"), underscores ("1_000") and non-ASCII digits are also converted by the source.
- `lru_cache` on `get_index` has no counterpart. Each sheet's lookups are resolved once instead. This gives the same results because no pass writes a header row.
- A pass that raises part-way through a sheet has already changed the earlier rows in place. In the model that pass leaves the whole workbook unchanged. Nothing is saved after an exception, so the saved result is the same either way.
- The emoji regular expression, the `\W` class and `str.lower`/`str.upper` are parameters (`Unicode.Foreign`). Their Unicode tables are not modelled. The model does not assume that an emoji match is at most as long as the keyword.
- `Text.Strip` uses Python's whitespace set for `str.strip()` with no arguments. Unicode normalisation is not modelled.
- sheet_preperation.js, a spreadsheet-side script, is not part of this model. test_process_sheet.py is not part of this model either.
- Concurrency and the global `is_error` flag are not modelled as such. Whether an error was flagged is whether the `Error` log is non-empty.
