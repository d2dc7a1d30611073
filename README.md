# Word test-paper generator: a Dafny model of its core

The generator reads an item bank from a JSON configuration file. The bank has
two lists of `(text, word)` pairs: "explain" items and "statement" items. It
validates the bank, shuffles each list, and writes two Word documents built in
lockstep. The test paper shows a numbered line per item with a blank for the
word. The answer sheet shows the same line with the word filled in. Both files
get collision-free names in the output folder.

This project models that pipeline (`services.py`) and its data model
(`models.py`):

- `strings.dfy` (`Strings`) defines the Python string operations the code
  relies on: `endswith`, the substring test `w in s`, `str.replace` (every
  occurrence, left to right), `f"{n}"` for a counter, `split(".")[0]` and
  POSIX `os.path.join`.
- `errors.dfy` (`Errors`) defines the three domain exceptions and a
  `Result` type. Python errors that the code does not catch become
  `UnexpectedError`.
- `json.dfy` (`Json`) is the shape of a parsed document: object, array,
  string, other.
- `models.dfy` (`Models`) holds `TestItem`, `TestData` with `validate` and
  `get_total_items`, `TestPaperConfig` with its defaults, and `GeneratedFiles`.
- `config_loader.dfy` (`ConfigLoader`) covers `load_config` and
  `get_available_files`:
  - the configuration folder is a map from path to what reading it yields;
  - the loop over the entries is a method proved equal to a specification
    function.
- `file_manager.dfy` (`FileManager`) covers `get_unique_filename` and the two
  counter loops of `generate_test_paper`:
  - the output folder is the set of names already in it;
  - one loop method finds the first free `{prefix}{ext}`, `{prefix}-1{ext}`,
    and so on.
- `data_shuffler.dfy` (`DataShuffler`) models `shuffle_data` as CPython's
  `random.shuffle` on array copies:
  - the random draws are a parameter;
  - the property proved is that each list is permuted.
- `documents.dfy` (`Documents`) is the part of a python-docx `Document` the
  generator uses:
  - a class with a paragraph list and a section list, updated in place;
  - paragraphs are made of runs that carry a font.
- `document_generator.dfy`, module `DocumentGenerator`, covers
  `_generate_document_content`, `_apply_document_formatting`,
  `_set_document_header` and `generate_test_paper`. Each method is proved
  against specification functions (`Content`, `FormatParagraphs`,
  `FinalDocument`).
- `document_generator.dfy`, module `DocumentProperties`, proves what those
  functions promise:
  - headings and numbering;
  - the paragraph count;
  - statement blanking;
  - formatting that keeps the text and every formatted run.

Five facts about the code that the model keeps exactly as written:

- `str.replace` blanks every occurrence of the word, not only the first
  (services.py:209).
- No path-separator check is made on the configuration name
  (services.py:30-33).
- `"statement"` may be missing and then gives an empty list (services.py:54).
- `get_available_files` keeps directory order, unsorted (services.py:72).
- A statement word that is absent from its text raises nothing while
  building: `replace` changes nothing (services.py:209).

## Model

| member | source | states |
|---|---|---|
| Strings.EndsWithAppended | services.py:30-31 | a name with `.json` appended ends with `.json` |
| Strings.ContainsIffWindow | models.py:35 | the substring test `word in text` holds exactly when some window of the text equals the word |
| Strings.ReplaceAtFirstOccurrence | services.py:209 | replacing keeps the text before the word's first occurrence, puts the marker in place of that occurrence, and carries on with the rest of the text |
| Strings.ReplaceAbsent | services.py:209 | replacing a word that does not occur leaves the text unchanged |
| Strings.ReplaceShowsMarker | services.py:209 | when the word occurs, the replacement marker occurs in the result |
| Strings.ReplaceRemovesEvery | services.py:209 | if the word is non-empty and shares no character with the marker, no occurrence of it survives the replacement |
| Strings.NatToString | services.py:93 | a counter renders as a non-empty string of decimal digits with no leading zero (only 0 starts with `0`), one digit exactly for counters below 10 |
| Strings.NatToStringRoundTrip | services.py:93 | reading the rendered digits back gives the counter |
| Strings.NatToStringInjective | services.py:93 | distinct counters render differently |
| Strings.BeforeFirstDot | services.py:130 | `split(".")[0]` is a dot-free prefix of the input, ending at its first dot or at its end |
| Strings.JoinPath | services.py:33 | `os.path.join` ends with the given name; an absolute name replaces the folder; a relative name goes under the folder, with a `/` added exactly when the folder is non-empty and does not already end in `/` |
| Models.AllValidIffEvery | models.py:29-36 | the early-exit validation loop over a list succeeds exactly when every item passes the per-kind rule |
| Models.ValidateIffEveryItem | models.py:15-38 | `validate` holds iff every explain item has non-empty text and word, and every statement item does and also contains its word; explain items need not contain their word |
| Models.AllValidPermutation | models.py:29-36 | list validity is unchanged by reordering the list |
| Models.ValidateUnderPermutation | models.py:26-42 | banks with the same multisets of items agree on `validate` and on `get_total_items` |
| Models.DefaultConfig | models.py:45-56 | the default configuration is Comic Sans MS, size 12, margin 1/2.54, headings `["1st", "2nd"]` |
| ConfigLoader.NormalizeFilename | services.py:30-31 | the resolved name ends with `.json`, is unchanged if it already did, and otherwise is the name with `.json` appended |
| ConfigLoader.SameFileWithOrWithoutExtension | services.py:30-33 | `"x"` and `"x.json"` resolve to the same path under the configuration folder |
| ConfigLoader.FirstNonPair | services.py:46-50 | the position returned is the first entry that is not a two-element list; every earlier entry is one |
| ConfigLoader.ItemsFromJson | services.py:44-58 | a list of entries loads iff every entry is a pair; on success item j is entry j, in order; on failure the error is a ConfigurationError at the first bad entry; the empty string and empty object give no items; a non-empty string or object fails at position 0; a non-iterable value is an uncaught Python error |
| ConfigLoader.ParseItems | services.py:45-58 | the append loop returns exactly what the specification of one list yields, error cases included |
| ConfigLoader.Load | services.py:28-65 | a returned bank always validates; a missing file is a ConfigurationError naming the path; an unreadable or unparsable file is a ConfigurationError; a file that is not UTF-8 raises an uncaught UnicodeDecodeError, not a domain error; a document that is not an object is an uncaught Python error |
| ConfigLoader.LoadConfig | services.py:28-65 | the method returns exactly what `Load` specifies |
| ConfigLoader.LoadedItemsAreTheEntries | services.py:44-60 | after a successful load, the file existed and held an object; a missing or empty key gives an empty list; with a list under a key, the items are the entries in source order |
| ConfigLoader.ValidationErrorExactlyForInvalidBanks | services.py:60-65 | a ValidationError is raised iff both lists parse and the resulting bank fails `validate` |
| ConfigLoader.LoadSucceedsOnValidSource | services.py:44-65 | for a file holding an object, the load succeeds iff both lists parse and the bank validates, and then returns exactly the bank built from the two lists |
| ConfigLoader.LoadReportsFirstListError | services.py:44-58 | a failing explain list's error is what the load raises; with a good explain list, a failing statement list's error is |
| ConfigLoader.NonPairEntryIsConfigurationError | services.py:46-50 | a list under `explain` or `statement` with an entry that is not a pair makes the load raise a ConfigurationError naming that list's kind and its first such position |
| ConfigLoader.AvailableFiles | services.py:67-72 | an absent configuration folder gives no names; otherwise a name is listed iff it is in the folder and ends with `.json`, and the listing is no longer than the folder |
| ConfigLoader.JsonNames | services.py:67-72 | a name is listed iff it is in the directory and ends with `.json`; the listing is no longer than the directory |
| ConfigLoader.JsonNamesAppend | services.py:72 | the filter keeps directory order: it distributes over concatenation |
| FileManager.NumberedInjective | services.py:88-98 | distinct counters give distinct candidate names |
| FileManager.FirstFreeNumbered | services.py:88-98 | the counter loop returns the candidate with its counter; that name is not taken, and every candidate with a smaller counter is |
| FileManager.GetUniqueFilename | services.py:86-98 | `get_unique_filename` returns a name not in the folder, and it is the first free candidate |
| FileManager.FirstFreeIsUnique | services.py:86-98 | there is only one first free candidate |
| FileManager.TestFileNameIsNumbered | services.py:137-146 | the test name with counter k is candidate k of `{base}_test` + `.docx` |
| FileManager.AnswerFileNameIsNumbered | services.py:149-158 | the answer name with counters k and n is candidate n of `{base}_test-{k}-ans` + `.docx`; k is rendered even when it is 0 |
| FileManager.TestAndAnswerNamesDiffer | services.py:137-158 | no test name equals any answer name |
| FileManager.FirstAnswerNameInjective | services.py:151 | distinct test counters give distinct first answer names |
| FileManager.NextRunGetsNextCounter | services.py:133-158 | after r earlier runs whose files are all that the folder holds, test counter r and the first answer name are both free |
| DataShuffler.SwapPermutes | services.py:112-113 | one swap keeps the length and the multiset of the list |
| DataShuffler.ShuffleStepsPermutes | services.py:112-113 | the remaining shuffle steps keep the length and the multiset |
| DataShuffler.ShuffledPermutes | services.py:112-113 | `random.shuffle` leaves a permutation of its list |
| DataShuffler.ShuffleInPlace | services.py:112-113 | the in-place loop leaves the array equal to the specified shuffle of its old contents |
| DataShuffler.ShuffleData | services.py:104-118 | each list of the new bank is the shuffle of the old one, with the same length and multiset; the new bank validates iff the old one does and has the same total; the input bank is a value and is untouched |
| Documents.RunsOfText | services.py:195-201 | a paragraph or heading added with a text reads back as that text |
| Documents.Document.constructor | services.py:161-162 | a new document has no paragraphs and one default section |
| Documents.Document.AddHeading | services.py:195-196 | a heading paragraph of the given level and text is appended; nothing else changes, and the document keeps its section |
| Documents.Document.AddParagraph | services.py:200-201 | a plain paragraph with the given text is appended; nothing else changes, and the document keeps its section |
| DocumentGenerator.MissingHeadingIffTooFew | services.py:191-206 | a heading index is missing iff there are fewer headings than non-empty sections; the missing index is then the number of headings |
| DocumentGenerator.AppendLine | services.py:200-201 | one item's test line goes to the test document and its answer line to the answer document, each as one plain paragraph; sections are untouched |
| DocumentGenerator.AppendSection | services.py:195-211 | both documents get the heading, then one line per item numbered from 1: the test line in one, the answer line in the other |
| DocumentGenerator.GenerateDocumentContent | services.py:188-211 | reports the missing heading exactly as specified; otherwise appends the specified content to each document; sections are untouched |
| DocumentGenerator.ApplyDocumentFormatting | services.py:213-226 | every run of every paragraph gets the font, every section gets the four margins; nothing else changes |
| DocumentGenerator.SetDocumentHeader | services.py:228-231 | the first section's header becomes the file name; nothing else changes |
| DocumentGenerator.BuildDocuments | services.py:160-173 | two new documents, filled, formatted and headed, equal the specified final documents unless a heading is missing |
| DocumentGenerator.GenerateTestPaper | services.py:127-186 | fails iff there are too few headings, with a DocumentGenerationError; otherwise the base name is the input up to its first dot, the test and answer names are the first free candidates (the answer name reuses the test counter), neither existed, they differ, the paths join them to the output folder, and each document is the final document headed with its own name |
| DocumentProperties.ContentTexts | services.py:191-211 | with enough headings, each document's headings are the first headings, one per non-empty section, and its plain paragraphs are the explain lines followed by the statement lines |
| DocumentProperties.HeadingIffSectionNonEmpty | services.py:194-206 | the explain heading is `headings[0]`; the statement heading is `headings[1]` only after an explain section, and `headings[0]` otherwise; there is one heading per non-empty section |
| DocumentProperties.ParagraphCountIsTotalItems | services.py:199-211 | each document has exactly `get_total_items()` plain paragraphs |
| DocumentProperties.ContentLockstep | services.py:194-211 | both documents have the same length and the same style at every position, and identical headings |
| DocumentProperties.LinesNumberedFromOne | services.py:199-211 | line k of a section starts with `k+1` and a space; answer lines are `"{i} {word} : {text}"`; answer lines and explain test lines end with the item's text |
| DocumentProperties.StatementLineBlanksEveryOccurrence | services.py:208-210 | after its number, a statement test line no longer contains its word (non-empty, without `_`), and shows the blank when the text had the word |
| DocumentProperties.StatementLineAtFirstOccurrence | services.py:209-210 | a statement test line is the number, the text up to the word's first occurrence, the blank, and the rest of the text blanked the same way |
| DocumentProperties.StatementLineWithoutWord | services.py:209-210 | when the word does not occur in the text, the test line is the number and the text unchanged |
| DocumentProperties.FormattingKeepsTexts | services.py:216-219 | formatting keeps the number of paragraphs and every paragraph's style, and changes no heading text and no paragraph text |
| DocumentProperties.FormattingIdempotent | services.py:213-226 | formatting twice gives the same paragraphs as formatting once |
| DocumentProperties.FinalDocumentShape | services.py:160-173 | a finished document has one heading per non-empty section, exactly `get_total_items()` item lines in section order, the configured font and size on every run, the four margins set, and its own file name as header |
| DocumentProperties.DefaultHeadingsSuffice | models.py:54-56 | the default two headings suffice for every bank |

Definitions that stand for a source function but carry no contract of
their own are specified by the lemmas above:
- `Models.TestItem.Validate`, `Models.TestData.Validate` and `Models.TestData.GetTotalItems` (models.py:15-42), by `Models.ValidateIffEveryItem`, `Models.AllValidIffEvery` and `Models.ValidateUnderPermutation`;
- `Models.NewTestPaperConfig` (models.py:45-56), by `Models.DefaultConfig`;
- `Strings.ReplaceAll` (services.py:209), by `Strings.ReplaceAtFirstOccurrence`, `Strings.ReplaceAbsent`, `Strings.ReplaceShowsMarker` and `Strings.ReplaceRemovesEvery`;
- `DocumentGenerator.Content` (services.py:188-211), by `DocumentProperties.ContentTexts`, `DocumentProperties.HeadingIffSectionNonEmpty`, `DocumentProperties.ParagraphCountIsTotalItems` and `DocumentProperties.ContentLockstep`.

## Left out

- python-docx internals are not modelled. A document is the class `Documents.Document` with paragraphs of runs and sections.
  - `Pt` and `Inches` are opaque tagged values.
  - The margin `1/2.54` is a `real`, with no floating-point reasoning.
  - The header is one string standing for the first header paragraph's text.
- `save` is not modelled. The two paths are returned instead.
- `ensure_output_directory` and `os.makedirs` (services.py:82-84) are not modelled; they are filesystem I/O.
- Filesystem reads are replaced by parameters:
  - `os.path.exists`, `open` and `json.load` by a map from path to a parsed document or a read failure;
  - `os.listdir` by an optional list of names;
  - the output folder by the set of names in it.
- The naming loops (`FileManager.FirstFreeNumbered`, `DocumentGenerator.GenerateTestPaper`) look names up in that set. The source tests `os.path.join(folder, name)`; for a flat folder the two tests agree.
- The timestamp seeding of `random` (services.py:106) is a parameter: the draws are passed in.
- `DataShuffler.ShuffleData`: any valid draws are allowed. Their distribution, and so the uniformity of the shuffle, is not modelled.
- `ConfigLoader.ItemsFromJson`: a two-element entry whose fields are not both strings is rejected with a ConfigurationError. Python would instead build an item with non-string fields, so this is stricter than the source.
- Error messages are not modelled. Errors record the path, the list and the position of the bad entry instead.
- `DocumentGenerator.GenerateTestPaper`: the only failure wrapped into DocumentGenerationError is a missing heading. Other failures the broad `except` would catch are not modelled: save errors, file-system errors, non-string item fields.
  - The error records the missing heading index rather than a message.
- The failures `load_config` catches, an `IOError` or a `JSONDecodeError` from `open`/`json.load`, are one read-failure case. A file that is not UTF-8 is a separate case: its `UnicodeDecodeError` escapes as an unexpected error. JSON key order and duplicate keys do not matter in the map model.
- `Strings.JoinPath` follows POSIX `os.path.join`. Windows joining (`ntpath`: backslash separators, drive letters) is not modelled.
- application.py is not part of this model. This includes its rule that domain errors pass through and others are wrapped. `Errors.Error.IsDomainError` names the distinction.
- gui_manager.py, gui.py, app.py, static/app.js and run.py are not part of this model: GUI, web front end and command line.
- interfaces.py and variables.py are not part of this model: abstract interfaces and folder constants. The constants become parameters.
