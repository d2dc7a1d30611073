/**
 * `ConfigLoader` of services.py: resolve a configuration name under the
 * configuration folder, turn the parsed JSON document into an item bank,
 * reject malformed entries and invalid banks, and list the available
 * configuration files.
 *
 * The configuration folder is a parameter; the files in it are a map from
 * path to what reading that path yields (a parsed document, a read
 * failure, or bytes that are not UTF-8), so that `os.path.exists`, `open` and `json.load` need no model.
 */
module ConfigLoader {
  import opened Strings
  import opened Errors
  import opened Json
  import opened Models

  /**
   * What reading and parsing one configuration path yields: a document, a
   * failure the loader catches (`IOError`, `JSONDecodeError`), or bytes that
   * are not UTF-8, whose `UnicodeDecodeError` the loader does not catch.
   */
  datatype Source = Parsed(data: Json) | Unreadable | Undecodable

  /** The configuration files on disk, by path. */
  type ConfigStore = map<string, Source>

  /** `load_config` appends `.json` unless the name already ends with it. */
  function NormalizeFilename(filename: string): (r: string)
    ensures EndsWith(r, ".json")
    ensures EndsWith(filename, ".json") ==> r == filename
    ensures !EndsWith(filename, ".json") ==> r == filename + ".json"
  {
    EndsWithAppended(filename, ".json");
    if EndsWith(filename, ".json") then filename else filename + ".json"
  }

  /** The path `load_config` looks up: no check is made for separators in the name. */
  function ConfigPath(folder: string, filename: string): string {
    JoinPath(folder, NormalizeFilename(filename))
  }

  /** `"x"` and `"x.json"` name the same configuration file. */
  lemma SameFileWithOrWithoutExtension(folder: string, filename: string)
    requires !EndsWith(filename, ".json")
    ensures ConfigPath(folder, filename) == ConfigPath(folder, filename + ".json")
  {
  }

  /** An entry the loader accepts: a two-element list (of two strings, in this model). */
  predicate IsPair(entry: Json) {
    entry.JArray? && |entry.elems| == 2 && entry.elems[0].JString? && entry.elems[1].JString?
  }

  /** `TestItem(text=item[0], word=item[1])`. */
  function ToItem(entry: Json): TestItem
    requires IsPair(entry)
  {
    TestItem(entry.elems[0].str, entry.elems[1].str)
  }

  /** The position of the first entry that is not a pair (`|entries|` if there is none). */
  function FirstNonPair(entries: seq<Json>): (k: nat)
    ensures k <= |entries|
    ensures forall j :: 0 <= j < k ==> IsPair(entries[j])
    ensures k < |entries| ==> !IsPair(entries[k])
  {
    if entries == [] || !IsPair(entries[0]) then 0 else 1 + FirstNonPair(entries[1..])
  }

  /**
   * One loop of `load_config` over `data.get(key, [])`.  Iterating a list
   * visits its entries; iterating a string visits its characters and
   * iterating an object visits its keys, none of which is a list, so a
   * non-empty one fails on its first element; iterating anything else is a
   * Python TypeError, which `load_config` does not catch.
   */
  function ItemsFromJson(value: Json, kind: ItemKind, key: string): (r: Result<seq<TestItem>>)
    ensures value.JArray? ==> (r.Ok? <==> forall j :: 0 <= j < |value.elems| ==> IsPair(value.elems[j]))
    ensures value.JArray? && r.Ok? ==>
      |r.value| == |value.elems| &&
      forall j :: 0 <= j < |value.elems| ==> r.value[j] == ToItem(value.elems[j])
    ensures value.JArray? && r.Err? ==>
      r.error.ConfigurationError? && r.error.fault.InvalidItemFormat? &&
      r.error.fault.kind == kind &&
      r.error.fault.position < |value.elems| && !IsPair(value.elems[r.error.fault.position]) &&
      forall j :: 0 <= j < r.error.fault.position ==> IsPair(value.elems[j])
    ensures (value.JString? && value.str == []) || (value.JObject? && value.members == map[]) ==> r == Ok([])
    ensures (value.JString? && value.str != []) || (value.JObject? && value.members != map[]) ==>
      r == Err(ConfigurationError(InvalidItemFormat(kind, 0)))
    ensures value.JOther? ==> r == Err(UnexpectedError(NotIterable(key)))
  {
    match value
    case JArray(entries) =>
      var k := FirstNonPair(entries);
      if k < |entries| then Err(ConfigurationError(InvalidItemFormat(kind, k)))
      else Ok(seq(|entries|, j requires 0 <= j < |entries| => ToItem(entries[j])))
    case JString(s) =>
      if s == [] then Ok([]) else Err(ConfigurationError(InvalidItemFormat(kind, 0)))
    case JObject(m) =>
      if m == map[] then Ok([]) else Err(ConfigurationError(InvalidItemFormat(kind, 0)))
    case JOther =>
      Err(UnexpectedError(NotIterable(key)))
  }

  /** The loop itself: append one item per entry, raise at the first malformed one. */
  method ParseItems(value: Json, kind: ItemKind, key: string) returns (r: Result<seq<TestItem>>)
    ensures r == ItemsFromJson(value, kind, key)
  {
    match value {
      case JArray(entries) =>
        var items: seq<TestItem> := [];
        var i := 0;
        while i < |entries|
          invariant 0 <= i <= |entries|
          invariant forall j :: 0 <= j < i ==> IsPair(entries[j])
          invariant |items| == i
          invariant forall j :: 0 <= j < i ==> items[j] == ToItem(entries[j])
        {
          var entry := entries[i];
          if entry.JArray? && |entry.elems| == 2 && entry.elems[0].JString? && entry.elems[1].JString? {
            items := items + [TestItem(entry.elems[0].str, entry.elems[1].str)];
          } else {
            assert FirstNonPair(entries) == i;
            return Err(ConfigurationError(InvalidItemFormat(kind, i)));
          }
          i := i + 1;
        }
        assert FirstNonPair(entries) == |entries|;
        assert items == seq(|entries|, j requires 0 <= j < |entries| => ToItem(entries[j]));
        return Ok(items);
      case JString(s) =>
        if s == [] {
          return Ok([]);
        }
        return Err(ConfigurationError(InvalidItemFormat(kind, 0)));
      case JObject(m) =>
        if m == map[] {
          return Ok([]);
        }
        return Err(ConfigurationError(InvalidItemFormat(kind, 0)));
      case JOther =>
        return Err(UnexpectedError(NotIterable(key)));
    }
  }

  /** What `load_config(filename)` returns or raises. */
  function Load(store: ConfigStore, folder: string, filename: string): (r: Result<TestData>)
    ensures r.Ok? ==> r.value.Validate()
    ensures ConfigPath(folder, filename) !in store ==>
      r == Err(ConfigurationError(NotFound(ConfigPath(folder, filename))))
    ensures ConfigPath(folder, filename) in store && store[ConfigPath(folder, filename)].Unreadable? ==>
      r == Err(ConfigurationError(ReadFailed))
    ensures ConfigPath(folder, filename) in store && store[ConfigPath(folder, filename)].Undecodable? ==>
      r == Err(UnexpectedError(NotUtf8))
    ensures ConfigPath(folder, filename) in store && store[ConfigPath(folder, filename)].Parsed?
            && !store[ConfigPath(folder, filename)].data.JObject? ==>
            r == Err(UnexpectedError(NotAnObject))
  {
    var path := ConfigPath(folder, filename);
    if path !in store then Err(ConfigurationError(NotFound(path)))
    else match store[path]
      case Unreadable => Err(ConfigurationError(ReadFailed))
      case Undecodable => Err(UnexpectedError(NotUtf8))
      case Parsed(data) =>
        if !data.JObject? then Err(UnexpectedError(NotAnObject))
        else
          var explain := ItemsFromJson(Get(data.members, "explain", JArray([])), Explain, "explain");
          if explain.Err? then Err(explain.error)
          else
            var statement := ItemsFromJson(Get(data.members, "statement", JArray([])), Statement, "statement");
            if statement.Err? then Err(statement.error)
            else
              var bank := TestData(explain.value, statement.value);
              if !bank.Validate() then Err(ValidationError) else Ok(bank)
  }

  /** `ConfigLoader.load_config`. */
  method LoadConfig(store: ConfigStore, folder: string, filename: string) returns (r: Result<TestData>)
    ensures r == Load(store, folder, filename)
  {
    var name := filename;
    if !EndsWith(name, ".json") {
      name := name + ".json";
    }
    var path := JoinPath(folder, name);
    if path !in store {
      return Err(ConfigurationError(NotFound(path)));
    }
    if store[path].Unreadable? {
      return Err(ConfigurationError(ReadFailed));
    }
    if store[path].Undecodable? {
      return Err(UnexpectedError(NotUtf8));
    }
    var data := store[path].data;
    if !data.JObject? {
      return Err(UnexpectedError(NotAnObject));
    }
    var explain := ParseItems(Get(data.members, "explain", JArray([])), Explain, "explain");
    if explain.Err? {
      return Err(explain.error);
    }
    var statement := ParseItems(Get(data.members, "statement", JArray([])), Statement, "statement");
    if statement.Err? {
      return Err(statement.error);
    }
    var bank := TestData(explain.value, statement.value);
    if !bank.Validate() {
      return Err(ValidationError);
    }
    return Ok(bank);
  }

  /** A successful load returns the entries of both lists, in order; a missing key gives an empty list. */
  lemma LoadedItemsAreTheEntries(store: ConfigStore, folder: string, filename: string)
    requires Load(store, folder, filename).Ok?
    ensures ConfigPath(folder, filename) in store
    ensures store[ConfigPath(folder, filename)].Parsed?
    ensures store[ConfigPath(folder, filename)].data.JObject?
    ensures var data := store[ConfigPath(folder, filename)].data.members;
            var bank := Load(store, folder, filename).value;
            (("explain" !in data || data["explain"] == JArray([])) ==> bank.explainItems == [])
            && (("statement" !in data || data["statement"] == JArray([])) ==> bank.statementItems == [])
            && ("explain" in data && data["explain"].JArray? ==>
                  |bank.explainItems| == |data["explain"].elems| &&
                  forall j :: 0 <= j < |bank.explainItems| ==>
                    IsPair(data["explain"].elems[j]) && bank.explainItems[j] == ToItem(data["explain"].elems[j]))
            && ("statement" in data && data["statement"].JArray? ==>
                  |bank.statementItems| == |data["statement"].elems| &&
                  forall j :: 0 <= j < |bank.statementItems| ==>
                    IsPair(data["statement"].elems[j]) && bank.statementItems[j] == ToItem(data["statement"].elems[j]))
  {
  }

  /** A bank that parses but fails `validate()` is rejected, and only such a bank. */
  lemma ValidationErrorExactlyForInvalidBanks(store: ConfigStore, folder: string, filename: string)
    ensures Load(store, folder, filename) == Err(ValidationError) <==>
      ConfigPath(folder, filename) in store &&
      store[ConfigPath(folder, filename)].Parsed? &&
      store[ConfigPath(folder, filename)].data.JObject? &&
      var data := store[ConfigPath(folder, filename)].data.members;
      var explain := ItemsFromJson(Get(data, "explain", JArray([])), Explain, "explain");
      var statement := ItemsFromJson(Get(data, "statement", JArray([])), Statement, "statement");
      explain.Ok? && statement.Ok? && !TestData(explain.value, statement.value).Validate()
  {
  }

  /**
   * The success direction: a file holding an object whose two lists parse
   * and whose bank validates loads as exactly that bank, and nothing else
   * loads.
   */
  lemma LoadSucceedsOnValidSource(store: ConfigStore, folder: string, filename: string, m: map<string, Json>)
    requires ConfigPath(folder, filename) in store
    requires store[ConfigPath(folder, filename)] == Parsed(JObject(m))
    ensures var explain := ItemsFromJson(Get(m, "explain", JArray([])), Explain, "explain");
            var statement := ItemsFromJson(Get(m, "statement", JArray([])), Statement, "statement");
            (Load(store, folder, filename).Ok? <==>
               explain.Ok? && statement.Ok? && TestData(explain.value, statement.value).Validate())
            && (explain.Ok? && statement.Ok? && TestData(explain.value, statement.value).Validate() ==>
               Load(store, folder, filename) == Ok(TestData(explain.value, statement.value)))
  {
  }

  /**
   * The errors of the two lists reach the caller unchanged, the explain
   * list's first: a malformed entry is a ConfigurationError at its
   * position, a non-iterable value an uncaught Python error.
   */
  lemma LoadReportsFirstListError(store: ConfigStore, folder: string, filename: string, m: map<string, Json>)
    requires ConfigPath(folder, filename) in store
    requires store[ConfigPath(folder, filename)] == Parsed(JObject(m))
    ensures var explain := ItemsFromJson(Get(m, "explain", JArray([])), Explain, "explain");
            var statement := ItemsFromJson(Get(m, "statement", JArray([])), Statement, "statement");
            (explain.Err? ==> Load(store, folder, filename) == Err(explain.error))
            && (explain.Ok? && statement.Err? ==> Load(store, folder, filename) == Err(statement.error))
  {
  }

  /** A list entry that is not a pair makes the load fail with a ConfigurationError naming the first such position. */
  lemma NonPairEntryIsConfigurationError(store: ConfigStore, folder: string, filename: string,
                                         m: map<string, Json>, key: string)
    requires ConfigPath(folder, filename) in store
    requires store[ConfigPath(folder, filename)] == Parsed(JObject(m))
    requires key == "explain" || key == "statement"
    requires key in m && m[key].JArray?
    requires FirstNonPair(m[key].elems) < |m[key].elems|
    requires key == "statement" ==> ItemsFromJson(Get(m, "explain", JArray([])), Explain, "explain").Ok?
    ensures Load(store, folder, filename) ==
      Err(ConfigurationError(InvalidItemFormat(if key == "explain" then Explain else Statement,
                                               FirstNonPair(m[key].elems))))
  {
    var kind := if key == "explain" then Explain else Statement;
    var items := ItemsFromJson(m[key], kind, key);
    assert Get(m, key, JArray([])) == m[key];
    assert !IsPair(m[key].elems[FirstNonPair(m[key].elems)]);
    assert items.Err?;
  }

  /** `get_available_files`: the `.json` names of the folder in directory order; none if it is absent. */
  function AvailableFiles(listing: Option<seq<string>>): (r: seq<string>)
    ensures listing.None? ==> r == []
    ensures listing.Some? ==> forall x :: x in r <==> x in listing.value && EndsWith(x, ".json")
    ensures listing.Some? ==> |r| <= |listing.value|
  {
    match listing
    case None => []
    case Some(names) => JsonNames(names)
  }

  function JsonNames(names: seq<string>): (r: seq<string>)
    ensures forall x :: x in r <==> x in names && EndsWith(x, ".json")
    ensures |r| <= |names|
  {
    if names == [] then []
    else (if EndsWith(names[0], ".json") then [names[0]] else []) + JsonNames(names[1..])
  }

  /** The filter keeps directory order: it distributes over concatenation. */
  lemma {:induction false} JsonNamesAppend(a: seq<string>, b: seq<string>)
    ensures JsonNames(a + b) == JsonNames(a) + JsonNames(b)
  {
    if a != [] {
      assert (a + b)[1..] == a[1..] + b;
      JsonNamesAppend(a[1..], b);
    } else {
      assert a + b == b;
    }
  }
}
