/**
 * `DocumentGenerator` of services.py: build the test document and the
 * answer document in lockstep from an item bank, format every run and
 * section of both, put each document's own file name in its header, and
 * pick collision-free names for the two files.
 *
 * Saving is not modelled: a successful run returns the two documents as
 * values together with the names and paths they would be saved under.
 */
module DocumentGenerator {
  import opened Strings
  import opened Errors
  import opened Models
  import opened Documents
  import opened FileManager

  /** The answer slot of an explain line (services.py:200). */
  const ExplainBlank := "________________"

  /** What replaces the word in a statement line (services.py:209). */
  const StatementBlank := "__________________"

  /** `f"{i} ________________: {item.text}"` */
  function ExplainTestLine(i: nat, item: TestItem): string {
    NatToString(i) + " " + ExplainBlank + ": " + item.text
  }

  /** `f"{i} {item.text.replace(item.word, blank)}"` */
  function StatementTestLine(i: nat, item: TestItem): string {
    NatToString(i) + " " + ReplaceAll(item.text, item.word, StatementBlank)
  }

  /** `f"{i} {item.word} : {item.text}"`, the answer line of both kinds. */
  function AnswerLine(i: nat, item: TestItem): string {
    NatToString(i) + " " + item.word + " : " + item.text
  }

  function TestLine(kind: ItemKind, i: nat, item: TestItem): string {
    match kind
    case Explain => ExplainTestLine(i, item)
    case Statement => StatementTestLine(i, item)
  }

  /** The lines of one section, numbered from 1. */
  function Lines(items: seq<TestItem>, kind: ItemKind, forTest: bool): seq<string> {
    seq(|items|, k requires 0 <= k < |items| =>
      if forTest then TestLine(kind, k + 1, items[k]) else AnswerLine(k + 1, items[k]))
  }

  function Paras(lines: seq<string>): seq<Paragraph> {
    seq(|lines|, k requires 0 <= k < |lines| => Paragraph(Normal, RunsOf(lines[k])))
  }

  function SectionContent(heading: string, lines: seq<string>): seq<Paragraph> {
    [Paragraph(Heading(1), RunsOf(heading))] + Paras(lines)
  }

  /** One heading per non-empty section. */
  function HeadingsNeeded(data: TestData): nat {
    (if |data.explainItems| > 0 then 1 else 0) + (if |data.statementItems| > 0 then 1 else 0)
  }

  /** `heading_count` when the statement section is reached. */
  function StatementHeadingIndex(data: TestData): nat {
    if |data.explainItems| > 0 then 1 else 0
  }

  /** The index `config.headings[heading_count]` fails on, if any. */
  function MissingHeading(data: TestData, headings: seq<string>): Option<nat> {
    if |data.explainItems| > 0 && |headings| == 0 then Some(0)
    else if |data.statementItems| > 0 && StatementHeadingIndex(data) >= |headings| then Some(StatementHeadingIndex(data))
    else None
  }

  lemma MissingHeadingIffTooFew(data: TestData, headings: seq<string>)
    ensures MissingHeading(data, headings).None? <==> HeadingsNeeded(data) <= |headings|
    ensures MissingHeading(data, headings).Some? ==> MissingHeading(data, headings).value == |headings|
  {
  }

  function ExplainPart(data: TestData, headings: seq<string>, forTest: bool): seq<Paragraph> {
    if |data.explainItems| > 0 && |headings| > 0 then
      SectionContent(headings[0], Lines(data.explainItems, Explain, forTest))
    else []
  }

  function StatementPart(data: TestData, headings: seq<string>, forTest: bool): seq<Paragraph> {
    var hc := StatementHeadingIndex(data);
    if |data.statementItems| > 0 && hc < |headings| then
      SectionContent(headings[hc], Lines(data.statementItems, Statement, forTest))
    else []
  }

  /**
   * What `_generate_document_content` appends to the test document
   * (`forTest`) or the answer document: everything up to the point where a
   * heading is missing, if one is.
   */
  function Content(data: TestData, headings: seq<string>, forTest: bool): seq<Paragraph> {
    ExplainPart(data, headings, forTest) + StatementPart(data, headings, forTest)
  }

  lemma ParasSnoc(lines: seq<string>, i: nat)
    requires i < |lines|
    ensures Paras(lines[..i + 1]) == Paras(lines[..i]) + [Paragraph(Normal, RunsOf(lines[i]))]
  {
  }

  /** One item: its test line on the test document, its answer line on the answer document. */
  method AppendLine(testDoc: Document, ansDoc: Document, testText: string, ansText: string)
    requires testDoc != ansDoc && testDoc.Valid() && ansDoc.Valid()
    modifies testDoc, ansDoc
    ensures testDoc.Valid() && ansDoc.Valid()
    ensures testDoc.paragraphs == old(testDoc.paragraphs) + [Paragraph(Normal, RunsOf(testText))]
    ensures ansDoc.paragraphs == old(ansDoc.paragraphs) + [Paragraph(Normal, RunsOf(ansText))]
    ensures testDoc.sections == old(testDoc.sections) && ansDoc.sections == old(ansDoc.sections)
  {
    testDoc.AddParagraph(testText);
    ansDoc.AddParagraph(ansText);
  }

  /**
   * One section of `_generate_document_content`: the heading on both
   * documents, then for each item, numbered from 1, its test line and its
   * answer line.
   */
  method AppendSection(testDoc: Document, ansDoc: Document, heading: string, items: seq<TestItem>, kind: ItemKind)
    requires testDoc != ansDoc && testDoc.Valid() && ansDoc.Valid()
    modifies testDoc, ansDoc
    ensures testDoc.Valid() && ansDoc.Valid()
    ensures testDoc.paragraphs == old(testDoc.paragraphs) + SectionContent(heading, Lines(items, kind, true))
    ensures ansDoc.paragraphs == old(ansDoc.paragraphs) + SectionContent(heading, Lines(items, kind, false))
    ensures testDoc.sections == old(testDoc.sections) && ansDoc.sections == old(ansDoc.sections)
  {
    testDoc.AddHeading(heading, 1);
    ansDoc.AddHeading(heading, 1);
    ghost var testLines, ansLines := Lines(items, kind, true), Lines(items, kind, false);
    ghost var testStart, ansStart := testDoc.paragraphs, ansDoc.paragraphs;
    var i := 0;
    while i < |items|
      invariant 0 <= i <= |items|
      invariant testDoc.paragraphs == testStart + Paras(testLines[..i])
      invariant ansDoc.paragraphs == ansStart + Paras(ansLines[..i])
      invariant testDoc.sections == old(testDoc.sections) && ansDoc.sections == old(ansDoc.sections)
    {
      AppendLine(testDoc, ansDoc, TestLine(kind, i + 1, items[i]), AnswerLine(i + 1, items[i]));
      ParasSnoc(testLines, i);
      ParasSnoc(ansLines, i);
      i := i + 1;
    }
    assert testLines[..i] == testLines && ansLines[..i] == ansLines;
  }

  /**
   * `_generate_document_content`: append each non-empty section to both
   * documents, taking the next heading only when a section is emitted.  A
   * missing heading is Python's IndexError, reported as the missing index.
   */
  method GenerateDocumentContent(testDoc: Document, ansDoc: Document, data: TestData, config: TestPaperConfig)
    returns (missing: Option<nat>)
    requires testDoc != ansDoc && testDoc.Valid() && ansDoc.Valid()
    modifies testDoc, ansDoc
    ensures testDoc.Valid() && ansDoc.Valid()
    ensures missing == MissingHeading(data, config.headings)
    ensures testDoc.paragraphs == old(testDoc.paragraphs) + Content(data, config.headings, true)
    ensures ansDoc.paragraphs == old(ansDoc.paragraphs) + Content(data, config.headings, false)
    ensures testDoc.sections == old(testDoc.sections) && ansDoc.sections == old(ansDoc.sections)
  {
    var headings := config.headings;
    var headingCount := 0;
    if |data.explainItems| > 0 {
      if headingCount >= |headings| {
        return Some(headingCount);
      }
      AppendSection(testDoc, ansDoc, headings[headingCount], data.explainItems, Explain);
      headingCount := headingCount + 1;
    }
    assert testDoc.paragraphs == old(testDoc.paragraphs) + ExplainPart(data, headings, true);
    assert ansDoc.paragraphs == old(ansDoc.paragraphs) + ExplainPart(data, headings, false);
    if |data.statementItems| > 0 {
      if headingCount >= |headings| {
        return Some(headingCount);
      }
      AppendSection(testDoc, ansDoc, headings[headingCount], data.statementItems, Statement);
    }
    return None;
  }

  function FormatRun(r: Run, config: TestPaperConfig): Run {
    r.(fontSize := Some(Pt(config.fontSize)), fontName := Some(config.fontName))
  }

  function FormatRuns(runs: seq<Run>, config: TestPaperConfig): seq<Run> {
    seq(|runs|, k requires 0 <= k < |runs| => FormatRun(runs[k], config))
  }

  function FormatParagraph(p: Paragraph, config: TestPaperConfig): Paragraph {
    p.(runs := FormatRuns(p.runs, config))
  }

  function FormatParagraphs(ps: seq<Paragraph>, config: TestPaperConfig): seq<Paragraph> {
    seq(|ps|, i requires 0 <= i < |ps| => FormatParagraph(ps[i], config))
  }

  function FormatSection(s: Section, config: TestPaperConfig): Section {
    var m := Some(Inches(config.marginInches));
    s.(topMargin := m, bottomMargin := m, leftMargin := m, rightMargin := m)
  }

  function FormatSections(ss: seq<Section>, config: TestPaperConfig): seq<Section> {
    seq(|ss|, i requires 0 <= i < |ss| => FormatSection(ss[i], config))
  }

  /** `_apply_document_formatting`: every run gets the font, every section the margins. */
  method ApplyDocumentFormatting(doc: Document, config: TestPaperConfig)
    requires doc.Valid()
    modifies doc
    ensures doc.Valid()
    ensures doc.paragraphs == FormatParagraphs(old(doc.paragraphs), config)
    ensures doc.sections == FormatSections(old(doc.sections), config)
  {
    var i := 0;
    while i < |doc.paragraphs|
      invariant 0 <= i <= |doc.paragraphs| == |old(doc.paragraphs)|
      invariant forall j :: 0 <= j < i ==> doc.paragraphs[j] == FormatParagraph(old(doc.paragraphs)[j], config)
      invariant forall j :: i <= j < |doc.paragraphs| ==> doc.paragraphs[j] == old(doc.paragraphs)[j]
      invariant doc.sections == old(doc.sections)
    {
      var runs := doc.paragraphs[i].runs;
      var k := 0;
      while k < |runs|
        invariant 0 <= k <= |runs| == |doc.paragraphs[i].runs|
        invariant forall q :: 0 <= q < k ==> runs[q] == FormatRun(doc.paragraphs[i].runs[q], config)
        invariant forall q :: k <= q < |runs| ==> runs[q] == doc.paragraphs[i].runs[q]
      {
        runs := runs[k := FormatRun(runs[k], config)];
        k := k + 1;
      }
      assert runs == FormatParagraph(doc.paragraphs[i], config).runs;
      doc.paragraphs := doc.paragraphs[i := doc.paragraphs[i].(runs := runs)];
      i := i + 1;
    }
    var s := 0;
    while s < |doc.sections|
      invariant 0 <= s <= |doc.sections| == |old(doc.sections)|
      invariant forall j :: 0 <= j < s ==> doc.sections[j] == FormatSection(old(doc.sections)[j], config)
      invariant forall j :: s <= j < |doc.sections| ==> doc.sections[j] == old(doc.sections)[j]
      invariant doc.paragraphs == FormatParagraphs(old(doc.paragraphs), config)
    {
      doc.sections := doc.sections[s := FormatSection(doc.sections[s], config)];
      s := s + 1;
    }
  }

  /** `_set_document_header`: the first section's header line becomes `filename`. */
  method SetDocumentHeader(doc: Document, filename: string)
    requires doc.Valid()
    modifies doc
    ensures doc.Valid()
    ensures doc.sections == old(doc.sections)[0 := old(doc.sections)[0].(header := filename)]
    ensures doc.paragraphs == old(doc.paragraphs)
  {
    doc.sections := doc.sections[0 := doc.sections[0].(header := filename)];
  }

  /** A finished document: built, formatted, and headed with its own file name. */
  function FinalDocument(data: TestData, config: TestPaperConfig, forTest: bool, fileName: string): DocValue {
    DocValue(FormatParagraphs(Content(data, config.headings, forTest), config),
             [FormatSection(DefaultSection, config).(header := fileName)])
  }

  /** A successful run: the source's `GeneratedFiles`, plus the names, counters and documents behind it. */
  datatype Generated = Generated(
    files: GeneratedFiles,
    testFileName: string,
    answerFileName: string,
    testCounter: nat,
    answerCounter: nat,
    testDocument: DocValue,
    answerDocument: DocValue)

  /**
   * `generate_test_paper`: choose the test name by the first counter loop,
   * the answer name by the second (which reuses the test counter), build,
   * format and head both documents.  Any failure is a
   * DocumentGenerationError.
   */
  method GenerateTestPaper(data: TestData, config: TestPaperConfig, existing: set<string>, outputFolder: string)
    returns (r: Result<Generated>)
    ensures r.Err? <==> HeadingsNeeded(data) > |config.headings|
    ensures r.Err? ==> r.error == DocumentGenerationError(|config.headings|)
    ensures r.Ok? ==>
      var g := r.value;
      var base := BeforeFirstDot(config.inputFilename);
      && g.files.baseFilename == base
      && g.testFileName == TestFileName(base, g.testCounter)
      && g.testFileName !in existing
      && (forall j :: 0 <= j < g.testCounter ==> TestFileName(base, j) in existing)
      && g.answerFileName == AnswerFileName(base, g.testCounter, g.answerCounter)
      && g.answerFileName !in existing
      && (forall j :: 0 <= j < g.answerCounter ==> AnswerFileName(base, g.testCounter, j) in existing)
      && g.testFileName != g.answerFileName
      && g.files.testFilePath == JoinPath(outputFolder, g.testFileName)
      && g.files.answerFilePath == JoinPath(outputFolder, g.answerFileName)
      && g.testDocument == FinalDocument(data, config, true, g.testFileName)
      && g.answerDocument == FinalDocument(data, config, false, g.answerFileName)
  {
    var base := BeforeFirstDot(config.inputFilename);

    var testFilename, testCounter := FirstFreeNumbered(existing, base + "_test", ".docx");
    var ansFilename, ansCounter := FirstFreeNumbered(existing, base + "_test-" + NatToString(testCounter) + "-ans", ".docx");
    TestFileNameIsNumbered(base, testCounter);
    AnswerFileNameIsNumbered(base, testCounter, ansCounter);
    forall j | 0 <= j < testCounter ensures TestFileName(base, j) in existing {
      TestFileNameIsNumbered(base, j);
    }
    forall j | 0 <= j < ansCounter ensures AnswerFileName(base, testCounter, j) in existing {
      AnswerFileNameIsNumbered(base, testCounter, j);
    }
    TestAndAnswerNamesDiffer(base, testCounter, testCounter, ansCounter);
    var testFilepath := JoinPath(outputFolder, testFilename);
    var ansFilepath := JoinPath(outputFolder, ansFilename);

    var missing, testValue, ansValue := BuildDocuments(data, config, testFilename, ansFilename);
    MissingHeadingIffTooFew(data, config.headings);
    if missing.Some? {
      return Err(DocumentGenerationError(missing.value));
    }
    var files := GeneratedFiles(testFilepath, ansFilepath, base);
    r := Ok(Generated(files, testFilename, ansFilename, testCounter, ansCounter, testValue, ansValue));
  }

  /**
   * The document half of `generate_test_paper`: two new documents, their
   * content, their formatting and their headers.
   */
  method BuildDocuments(data: TestData, config: TestPaperConfig, testFilename: string, ansFilename: string)
    returns (missing: Option<nat>, testValue: DocValue, ansValue: DocValue)
    ensures missing == MissingHeading(data, config.headings)
    ensures missing.None? ==> testValue == FinalDocument(data, config, true, testFilename)
    ensures missing.None? ==> ansValue == FinalDocument(data, config, false, ansFilename)
  {
    var testDoc := new Document();
    var ansDoc := new Document();
    missing := GenerateDocumentContent(testDoc, ansDoc, data, config);
    if missing.Some? {
      return missing, testDoc.Value(), ansDoc.Value();
    }
    ApplyDocumentFormatting(testDoc, config);
    ApplyDocumentFormatting(ansDoc, config);
    assert testDoc.sections == [FormatSection(DefaultSection, config)];
    assert ansDoc.sections == [FormatSection(DefaultSection, config)];
    SetDocumentHeader(testDoc, testFilename);
    SetDocumentHeader(ansDoc, ansFilename);
    assert [] + Content(data, config.headings, true) == Content(data, config.headings, true);
    assert [] + Content(data, config.headings, false) == Content(data, config.headings, false);
    testValue, ansValue := testDoc.Value(), ansDoc.Value();
  }
}

/** What the generated documents contain, stated over the specification functions. */
module DocumentProperties {
  import opened Strings
  import opened Errors
  import opened Models
  import opened Documents
  import opened DocumentGenerator

  lemma {:induction false} ParasTexts(lines: seq<string>)
    ensures HeadingTexts(Paras(lines)) == []
    ensures BodyTexts(Paras(lines)) == lines
  {
    if lines != [] {
      assert Paras(lines)[1..] == Paras(lines[1..]);
      RunsOfText(Normal, lines[0]);
      ParasTexts(lines[1..]);
    }
  }

  lemma SectionTexts(heading: string, lines: seq<string>)
    ensures HeadingTexts(SectionContent(heading, lines)) == [heading]
    ensures BodyTexts(SectionContent(heading, lines)) == lines
  {
    var h := [Paragraph(Heading(1), RunsOf(heading))];
    TextsAppend(h, Paras(lines));
    RunsOfText(Heading(1), heading);
    assert h[1..] == [];
    ParasTexts(lines);
  }

  /**
   * With enough headings, each document gets one heading per non-empty
   * section, `headings[0]` first, and its plain paragraphs are the explain
   * lines followed by the statement lines.
   */
  lemma ContentTexts(data: TestData, headings: seq<string>, forTest: bool)
    requires HeadingsNeeded(data) <= |headings|
    ensures HeadingTexts(Content(data, headings, forTest)) == headings[..HeadingsNeeded(data)]
    ensures BodyTexts(Content(data, headings, forTest))
         == Lines(data.explainItems, Explain, forTest) + Lines(data.statementItems, Statement, forTest)
  {
    var e, s := ExplainPart(data, headings, forTest), StatementPart(data, headings, forTest);
    TextsAppend(e, s);
    if |data.explainItems| > 0 {
      SectionTexts(headings[0], Lines(data.explainItems, Explain, forTest));
    }
    if |data.statementItems| > 0 {
      SectionTexts(headings[StatementHeadingIndex(data)], Lines(data.statementItems, Statement, forTest));
    }
    var n := HeadingsNeeded(data);
    assert n == 0 ==> headings[..n] == [];
    assert n == 1 ==> headings[..n] == [headings[0]];
    assert n == 2 ==> headings[..n] == [headings[0], headings[1]];
  }

  /** A section gets a heading exactly when it has items; `headings[1]` is used only after an explain section. */
  lemma HeadingIffSectionNonEmpty(data: TestData, headings: seq<string>, forTest: bool)
    requires HeadingsNeeded(data) <= |headings|
    ensures |data.explainItems| > 0 ==> Content(data, headings, forTest)[0] == Paragraph(Heading(1), RunsOf(headings[0]))
    ensures |data.statementItems| > 0 ==>
      var at := if |data.explainItems| > 0 then |data.explainItems| + 1 else 0;
      at < |Content(data, headings, forTest)| &&
      Content(data, headings, forTest)[at]
        == Paragraph(Heading(1), RunsOf(if |data.explainItems| > 0 then headings[1] else headings[0]))
    ensures |HeadingTexts(Content(data, headings, forTest))|
         == (if |data.explainItems| > 0 then 1 else 0) + (if |data.statementItems| > 0 then 1 else 0)
  {
    ContentTexts(data, headings, forTest);
  }

  /** Each document gets exactly `get_total_items()` plain paragraphs. */
  lemma ParagraphCountIsTotalItems(data: TestData, headings: seq<string>, forTest: bool)
    requires HeadingsNeeded(data) <= |headings|
    ensures |BodyTexts(Content(data, headings, forTest))| == data.GetTotalItems()
  {
    ContentTexts(data, headings, forTest);
  }

  /** The two documents are built in lockstep: same shape, same headings, one answer line per test line. */
  lemma ContentLockstep(data: TestData, headings: seq<string>)
    ensures |Content(data, headings, true)| == |Content(data, headings, false)|
    ensures forall i :: 0 <= i < |Content(data, headings, true)| ==>
      Content(data, headings, true)[i].style == Content(data, headings, false)[i].style &&
      (Content(data, headings, true)[i].style.Heading? ==>
         Content(data, headings, true)[i] == Content(data, headings, false)[i])
  {
  }

  /** Line `k` of a section carries the number `k + 1`; answer lines and explain test lines end with the item's text. */
  lemma LinesNumberedFromOne(items: seq<TestItem>, kind: ItemKind, forTest: bool, k: nat)
    requires k < |items|
    ensures NatToString(k + 1) + " " <= Lines(items, kind, forTest)[k]
    ensures !forTest ==> Lines(items, kind, forTest)[k] == NatToString(k + 1) + " " + items[k].word + " : " + items[k].text
    ensures (!forTest || kind == Explain) ==> EndsWith(Lines(items, kind, forTest)[k], items[k].text)
  {
  }

  lemma BlankDisjoint(word: string)
    requires '_' !in word
    ensures Disjoint(StatementBlank, word)
  {
  }

  /**
   * A statement test line blanks EVERY occurrence of the word: after the
   * number, the word no longer occurs (for a non-empty word that has no
   * underscore of its own), and the blank does occur when the word did.
   */
  lemma StatementLineBlanksEveryOccurrence(i: nat, item: TestItem)
    requires item.word != [] && '_' !in item.word
    ensures var prefix := NatToString(i) + " ";
      && prefix <= StatementTestLine(i, item)
      && !Contains(StatementTestLine(i, item)[|prefix|..], item.word)
      && (Contains(item.text, item.word) ==> Contains(StatementTestLine(i, item)[|prefix|..], StatementBlank))
  {
    var prefix := NatToString(i) + " ";
    var rest := ReplaceAll(item.text, item.word, StatementBlank);
    assert StatementTestLine(i, item) == prefix + rest;
    assert (prefix + rest)[|prefix|..] == rest;
    BlankDisjoint(item.word);
    ReplaceRemovesEvery(item.text, item.word, StatementBlank);
    if Contains(item.text, item.word) {
      ReplaceShowsMarker(item.text, item.word, StatementBlank);
    }
  }

  /**
   * The text around the blanks is kept: up to the word's first occurrence
   * the line is the original text, then the blank, then the rest of the
   * text blanked in the same way.
   */
  lemma StatementLineAtFirstOccurrence(i: nat, item: TestItem, k: nat)
    requires item.word != [] && OccursAt(item.text, item.word, k)
    requires forall j :: 0 <= j < k ==> !OccursAt(item.text, item.word, j)
    ensures StatementTestLine(i, item)
         == NatToString(i) + " " + item.text[..k] + StatementBlank
            + ReplaceAll(item.text[k + |item.word|..], item.word, StatementBlank)
  {
    ReplaceAtFirstOccurrence(item.text, item.word, StatementBlank, k);
  }

  /** No error is raised when the word is absent: the text is kept as it is. */
  lemma StatementLineWithoutWord(i: nat, item: TestItem)
    requires !Contains(item.text, item.word)
    ensures StatementTestLine(i, item) == NatToString(i) + " " + item.text
  {
    ReplaceAbsent(item.text, item.word, StatementBlank);
  }

  lemma {:induction false} FormattingKeepsRunsText(runs: seq<Run>, config: TestPaperConfig)
    ensures RunsText(FormatRuns(runs, config)) == RunsText(runs)
  {
    if runs != [] {
      assert FormatRuns(runs, config)[1..] == FormatRuns(runs[1..], config);
      FormattingKeepsRunsText(runs[1..], config);
    }
  }

  /** Formatting changes no text and no style. */
  lemma {:induction false} FormattingKeepsTexts(ps: seq<Paragraph>, config: TestPaperConfig)
    ensures |FormatParagraphs(ps, config)| == |ps|
    ensures forall i :: 0 <= i < |ps| ==> FormatParagraphs(ps, config)[i].style == ps[i].style
    ensures HeadingTexts(FormatParagraphs(ps, config)) == HeadingTexts(ps)
    ensures BodyTexts(FormatParagraphs(ps, config)) == BodyTexts(ps)
  {
    if ps != [] {
      assert FormatParagraphs(ps, config)[1..] == FormatParagraphs(ps[1..], config);
      FormattingKeepsRunsText(ps[0].runs, config);
      FormattingKeepsTexts(ps[1..], config);
    }
  }

  /** Formatting twice is formatting once. */
  lemma FormattingIdempotent(ps: seq<Paragraph>, config: TestPaperConfig)
    ensures FormatParagraphs(FormatParagraphs(ps, config), config) == FormatParagraphs(ps, config)
  {
    forall i | 0 <= i < |ps|
      ensures FormatParagraph(FormatParagraph(ps[i], config), config) == FormatParagraph(ps[i], config)
    {
      var p := ps[i];
      assert FormatParagraph(FormatParagraph(p, config), config).runs == FormatParagraph(p, config).runs;
    }
  }

  /**
   * A finished document: one heading per non-empty section, exactly
   * `get_total_items()` item lines, every run in the configured font and
   * size, every margin set, and its own file name as header.
   */
  lemma FinalDocumentShape(data: TestData, config: TestPaperConfig, forTest: bool, fileName: string)
    requires HeadingsNeeded(data) <= |config.headings|
    ensures var doc := FinalDocument(data, config, forTest, fileName);
      && HeadingTexts(doc.paragraphs) == config.headings[..HeadingsNeeded(data)]
      && BodyTexts(doc.paragraphs)
         == Lines(data.explainItems, Explain, forTest) + Lines(data.statementItems, Statement, forTest)
      && |BodyTexts(doc.paragraphs)| == data.GetTotalItems()
      && (forall i, k :: 0 <= i < |doc.paragraphs| && 0 <= k < |doc.paragraphs[i].runs| ==>
            doc.paragraphs[i].runs[k].fontName == Some(config.fontName) &&
            doc.paragraphs[i].runs[k].fontSize == Some(Pt(config.fontSize)))
      && |doc.sections| == 1
      && doc.sections[0].header == fileName
      && doc.sections[0].topMargin == doc.sections[0].bottomMargin == Some(Inches(config.marginInches))
      && doc.sections[0].leftMargin == doc.sections[0].rightMargin == Some(Inches(config.marginInches))
  {
    ContentTexts(data, config.headings, forTest);
    FormattingKeepsTexts(Content(data, config.headings, forTest), config);
  }

  /** The default configuration has enough headings for every bank. */
  lemma DefaultHeadingsSuffice(data: TestData, inputFilename: string)
    ensures HeadingsNeeded(data) <= |NewTestPaperConfig(inputFilename).headings|
  {
  }
}
