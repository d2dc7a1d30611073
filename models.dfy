/**
 * The data model of models.py: test items, the item bank with its validity
 * rule and item count, the generation configuration with its defaults, and
 * the record of generated files.
 */
module Models {
  import opened Strings
  import opened Errors

  /** One question: a text and the word it tests. */
  datatype TestItem = TestItem(text: string, word: string) {
    /** Python's `bool(self.text and self.word)` on two strings. */
    predicate Validate() {
      text != [] && word != []
    }
  }

  /** The per-kind rule: statement items must also contain their word. */
  predicate ValidAs(item: TestItem, kind: ItemKind) {
    match kind
    case Explain => item.Validate()
    case Statement => item.Validate() && Contains(item.text, item.word)
  }

  /** The loop of `TestData.validate` over one list: stop at the first bad item. */
  predicate AllValid(items: seq<TestItem>, kind: ItemKind) {
    items == [] || (ValidAs(items[0], kind) && AllValid(items[1..], kind))
  }

  /** The item bank: two ordered lists. */
  datatype TestData = TestData(explainItems: seq<TestItem>, statementItems: seq<TestItem>) {
    predicate Validate() {
      AllValid(explainItems, Explain) && AllValid(statementItems, Statement)
    }

    function GetTotalItems(): nat {
      |explainItems| + |statementItems|
    }
  }

  /** The early-exit loop accepts a list exactly when every item passes. */
  lemma {:induction false} AllValidIffEvery(items: seq<TestItem>, kind: ItemKind)
    ensures AllValid(items, kind) <==> forall i :: 0 <= i < |items| ==> ValidAs(items[i], kind)
  {
    if items != [] {
      AllValidIffEvery(items[1..], kind);
      assert forall i :: 1 <= i < |items| ==> items[i] == items[1..][i - 1];
    }
  }

  /**
   * `TestData.validate` holds exactly when every explain item is non-empty in
   * both fields and every statement item is, and also contains its word.
   * Explain items need not contain their word.
   */
  lemma ValidateIffEveryItem(data: TestData)
    ensures data.Validate() <==>
      (forall i :: 0 <= i < |data.explainItems| ==>
         data.explainItems[i].text != [] && data.explainItems[i].word != [])
      && (forall i :: 0 <= i < |data.statementItems| ==>
         data.statementItems[i].text != [] && data.statementItems[i].word != []
         && Contains(data.statementItems[i].text, data.statementItems[i].word))
  {
    AllValidIffEvery(data.explainItems, Explain);
    AllValidIffEvery(data.statementItems, Statement);
  }

  /** Validity of a list depends only on which items it holds, not their order. */
  lemma AllValidPermutation(a: seq<TestItem>, b: seq<TestItem>, kind: ItemKind)
    requires multiset(a) == multiset(b)
    ensures AllValid(a, kind) == AllValid(b, kind)
  {
    AllValidIffEvery(a, kind);
    AllValidIffEvery(b, kind);
    if forall i :: 0 <= i < |a| ==> ValidAs(a[i], kind) {
      EveryCarriesOver(a, b, kind);
    }
    if forall i :: 0 <= i < |b| ==> ValidAs(b[i], kind) {
      EveryCarriesOver(b, a, kind);
    }
  }

  lemma EveryCarriesOver(a: seq<TestItem>, b: seq<TestItem>, kind: ItemKind)
    requires multiset(a) == multiset(b)
    requires forall i :: 0 <= i < |a| ==> ValidAs(a[i], kind)
    ensures forall i :: 0 <= i < |b| ==> ValidAs(b[i], kind)
  {
    forall i | 0 <= i < |b| ensures ValidAs(b[i], kind) {
      assert b[i] in multiset(b);
      assert b[i] in a;
      var j :| 0 <= j < |a| && a[j] == b[i];
    }
  }

  lemma SameMultisetSameLength<T>(a: seq<T>, b: seq<T>)
    requires multiset(a) == multiset(b)
    ensures |a| == |b|
  {
    calc {
      |a|;
      |multiset(a)|;
      |multiset(b)|;
      |b|;
    }
  }

  /** Reordering either list leaves the bank's validity and size unchanged. */
  lemma ValidateUnderPermutation(data: TestData, other: TestData)
    requires multiset(other.explainItems) == multiset(data.explainItems)
    requires multiset(other.statementItems) == multiset(data.statementItems)
    ensures other.Validate() == data.Validate()
    ensures other.GetTotalItems() == data.GetTotalItems()
  {
    AllValidPermutation(data.explainItems, other.explainItems, Explain);
    AllValidPermutation(data.statementItems, other.statementItems, Statement);
    SameMultisetSameLength(other.explainItems, data.explainItems);
    SameMultisetSameLength(other.statementItems, data.statementItems);
  }

  /** The settings of one generation run. */
  datatype TestPaperConfig = TestPaperConfig(
    inputFilename: string,
    fontName: string,
    fontSize: int,
    marginInches: real,
    headings: seq<string>)

  /** The dataclass constructor: defaults, and `["1st", "2nd"]` when no headings are given. */
  function NewTestPaperConfig(
    inputFilename: string,
    fontName: string := "Comic Sans MS",
    fontSize: int := 12,
    marginInches: real := 1.0 / 2.54,
    headings: Option<seq<string>> := None): TestPaperConfig
  {
    TestPaperConfig(inputFilename, fontName, fontSize, marginInches,
                    if headings.None? then ["1st", "2nd"] else headings.value)
  }

  lemma DefaultConfig(inputFilename: string)
    ensures NewTestPaperConfig(inputFilename)
         == TestPaperConfig(inputFilename, "Comic Sans MS", 12, 1.0 / 2.54, ["1st", "2nd"])
  {
  }

  /** What a successful run reports back. */
  datatype GeneratedFiles = GeneratedFiles(testFilePath: string, answerFilePath: string, baseFilename: string)
}
