/** The store operations written inline in inventory_manager.cpp: the binary-search
    lookup `GetItemByName`, the case-folded lookup of the item menu, adding, editing
    and deleting the selected item, and the rule for a new export separator. The
    selected item (`current_item`, a raw pointer in the program) is an index here. */
module InventoryManager {
  import opened Wrappers
  import opened ItemClass
  import opened Store
  import opened SaveLoad

  // ---------------------------------------------------------------------------
  // std::string operator<

  /** Lexicographic order of `std::string`: the first differing character decides,
      and a proper prefix comes first. */
  predicate LexLess(a: string, b: string)
    ensures LexLess(a, b) ==> a != b
    ensures |a| < |b| && a == b[..|a|] ==> LexLess(a, b)
    ensures a != [] && b != [] && a[0] < b[0] ==> LexLess(a, b)
  {
    if a == [] then b != []
    else if b == [] then false
    else if a[0] != b[0] then a[0] < b[0]
    else LexLess(a[1..], b[1..])
  }

  lemma {:induction false} LexIrreflexive(a: string)
    ensures !LexLess(a, a)
  {
    if a != [] {
      LexIrreflexive(a[1..]);
    }
  }

  lemma {:induction false} LexTransitive(a: string, b: string, c: string)
    requires LexLess(a, b) && LexLess(b, c)
    ensures LexLess(a, c)
  {
    if a != [] && b != [] && c != [] && a[0] == b[0] && b[0] == c[0] {
      LexTransitive(a[1..], b[1..], c[1..]);
    }
  }

  /** Two different strings are ordered one way or the other. */
  lemma {:induction false} LexTotal(a: string, b: string)
    requires a != b
    ensures LexLess(a, b) || LexLess(b, a)
  {
    if a != [] && b != [] && a[0] == b[0] {
      assert a == [a[0]] + a[1..] && b == [b[0]] + b[1..];
      LexTotal(a[1..], b[1..]);
    }
  }

  // ---------------------------------------------------------------------------
  // GetItemByName

  /** Names never decrease along the sequence. */
  predicate SortedByName(items: seq<ItemState>) {
    forall i, j :: 0 <= i < j < |items| ==> !LexLess(items[j].name, items[i].name)
  }

  /** What `std::lower_bound` demands: every name below the key comes before every
      name that is not. */
  predicate PartitionedBy(items: seq<ItemState>, key: string) {
    forall i, j :: 0 <= i < j < |items| && LexLess(items[j].name, key) ==> LexLess(items[i].name, key)
  }

  lemma SortedIsPartitioned(items: seq<ItemState>, key: string)
    requires SortedByName(items)
    ensures PartitionedBy(items, key)
  {
    forall i, j | 0 <= i < j < |items| && LexLess(items[j].name, key)
      ensures LexLess(items[i].name, key)
    {
      if items[i].name != items[j].name {
        LexTotal(items[i].name, items[j].name);
        LexTransitive(items[i].name, items[j].name, key);
      }
    }
  }

  /** `std::lower_bound` over `count` items from `first`, halving the range as the
      library does: the position of the first name not below the key. */
  function LowerBound(items: seq<ItemState>, key: string, first: nat, count: nat): (r: nat)
    requires first + count <= |items|
    requires PartitionedBy(items, key)
    ensures first <= r <= first + count
    ensures forall i :: first <= i < r ==> LexLess(items[i].name, key)
    ensures forall i :: r <= i < first + count ==> !LexLess(items[i].name, key)
    decreases count
  {
    if count == 0 then first
    else
      var step := count / 2;
      var it := first + step;
      if LexLess(items[it].name, key) then LowerBound(items, key, it + 1, count - step - 1)
      else LowerBound(items, key, first, step)
  }

  /** `GetItemByName`: on items partitioned by the key, as `std::lower_bound` demands,
      the index of the first item whose name is the key, compared verbatim; None (the
      null pointer) when the item at the bound does not have it. */
  function GetItemByName(items: seq<ItemState>, name: string): (r: Option<nat>)
    requires PartitionedBy(items, name)
    ensures r.Some? ==> r.value < |items| && items[r.value].name == name
    ensures r.Some? ==> forall j :: 0 <= j < r.value ==> items[j].name != name
  {
    var k := LowerBound(items, name, 0, |items|);
    LexIrreflexive(name);
    if k < |items| && items[k].name == name then Some(k) else None
  }

  /** On items sorted by name the lookup is exact: the null pointer comes back if and
      only if no item has the name. */
  lemma GetItemByNameSorted(items: seq<ItemState>, name: string)
    requires SortedByName(items)
    ensures PartitionedBy(items, name)
    ensures GetItemByName(items, name).None? <==> forall j :: 0 <= j < |items| ==> items[j].name != name
  {
    SortedIsPartitioned(items, name);
    var k := LowerBound(items, name, 0, |items|);
    if !(k < |items| && items[k].name == name) {
      NotFoundAfterBound(items, name, k);
    }
  }

  lemma NotFoundAfterBound(items: seq<ItemState>, name: string, k: nat)
    requires SortedByName(items) && k <= |items|
    requires forall i :: 0 <= i < k ==> LexLess(items[i].name, name)
    requires forall i :: k <= i < |items| ==> !LexLess(items[i].name, name)
    requires k < |items| ==> items[k].name != name
    ensures forall j :: 0 <= j < |items| ==> items[j].name != name
  {
    LexIrreflexive(name);
    if k < |items| {
      LexTotal(items[k].name, name);
      forall j | k < j < |items|
        ensures LexLess(name, items[j].name)
      {
        if items[j].name != items[k].name {
          LexTotal(items[j].name, items[k].name);
          LexTransitive(name, items[k].name, items[j].name);
        }
      }
    }
  }

  /** The key is not lower-cased: a key holding an upper-case letter never matches a
      stored (lower-cased) name. */
  lemma UppercaseKeyNotFound(items: seq<ItemState>, name: string, k: nat)
    requires PartitionedBy(items, name) && NamesLowercase(items)
    requires k < |name| && IsUpperAscii(name[k])
    ensures GetItemByName(items, name).None?
  {
    forall j | 0 <= j < |items|
      ensures items[j].name != name
    {
      if k < |items[j].name| {
        assert !IsUpperAscii(items[j].name[k]);
      }
    }
  }

  // ---------------------------------------------------------------------------
  // The item menu's lookup: toLowerCase then find_if

  /** `std::find_if` with "name equals key": the first such item in insertion order. */
  function FindName(items: seq<ItemState>, key: string): (r: Option<nat>)
    ensures r.Some? ==> r.value < |items| && items[r.value].name == key
    ensures r.Some? ==> forall j :: 0 <= j < r.value ==> items[j].name != key
    ensures r.None? ==> forall j :: 0 <= j < |items| ==> items[j].name != key
  {
    if items == [] then None
    else if items[0].name == key then Some(0)
    else match FindName(items[1..], key)
      case None => None
      case Some(j) => Some(j + 1)
  }

  /** The lookup of the "Interact with an item" menu: the query is lower-cased first;
      no order of the items is assumed. */
  function FindItemByName(items: seq<ItemState>, query: string): (r: Option<nat>)
    ensures r.Some? ==> r.value < |items| && items[r.value].name == Lowered(query)
    ensures r.Some? ==> forall j :: 0 <= j < r.value ==> items[j].name != Lowered(query)
    ensures r.None? ==> forall j :: 0 <= j < |items| ==> items[j].name != Lowered(query)
  {
    FindName(items, Lowered(query))
  }

  /** The menu lookup ignores the case of ASCII letters in the query: an item stored
      under any spelling of a name is found by any other spelling of it. */
  lemma MenuLookupIgnoresCase(items: seq<ItemState>, stored: string, query: string, k: nat)
    requires k < |items| && items[k].name == Lowered(stored)
    requires Lowered(query) == Lowered(stored)
    ensures FindItemByName(items, query).Some?
    ensures FindItemByName(items, query).value <= k
    ensures items[FindItemByName(items, query).value].name == Lowered(query)
  {
  }

  // ---------------------------------------------------------------------------
  // Adding and deleting

  /** The "Add an item" branch: `items.emplace_back(name, description, amount, image)`.
      Exactly one item is appended, its name lower-cased; the others are unchanged. */
  method AddItem(items: Inventory, name: string, description: string, amount: Int32, image: string)
    requires items.Valid()
    modifies items
    ensures items.Valid()
    ensures |items.Contents()| == |old(items.Contents())| + 1
    ensures items.Contents()[..|old(items.Contents())|] == old(items.Contents())
    ensures items.Contents()[|old(items.Contents())|] == ItemState(Lowered(name), description, amount, image)
  {
    items.EmplaceBack(name, description, amount, image);
  }

  /** `std::find` for a value that is present: the first position holding it. */
  function FirstEqual(items: seq<ItemState>, target: ItemState): (j: nat)
    requires target in items
    ensures j < |items| && items[j] == target
    ensures forall k :: 0 <= k < j ==> items[k] != target
  {
    if items[0] == target then 0
    else
      assert target in items[1..];
      1 + FirstEqual(items[1..], target)
  }

  lemma FirstEqualAtMost(items: seq<ItemState>, cur: nat)
    requires cur < |items|
    ensures FirstEqual(items, items[cur]) <= cur
  {
  }

  /** The "Delete item" branch: `find` the first item equal (by `operator==`) to the
      selected one and `erase` it. That may be an earlier item with the same four
      fields rather than the selected object itself. */
  method DeleteItem(items: Inventory, cur: nat)
    requires items.Valid() && cur < |items.items|
    modifies items
    ensures items.Valid()
    ensures var before := old(items.Contents());
            var j := FirstEqual(before, before[cur]);
            j <= cur && items.Contents() == before[..j] + before[j + 1..]
    ensures multiset(items.Contents()) == multiset(old(items.Contents())) - multiset{old(items.Contents())[cur]}
    ensures old(var j := FirstEqual(items.Contents(), items.Contents()[cur]);
                items.items[j].Equals(items.items[cur])
                && forall k :: 0 <= k < j ==> !items.items[k].Equals(items.items[cur]))
  {
    var before := items.Contents();
    var j := FirstEqual(before, before[cur]);
    FirstEqualAtMost(before, cur);
    items.Erase(j);
    RemovedOne(before, j);
  }

  lemma RemovedOne(s: seq<ItemState>, j: nat)
    requires j < |s|
    ensures multiset(s[..j] + s[j + 1..]) == multiset(s) - multiset{s[j]}
  {
    assert s == s[..j] + [s[j]] + s[j + 1..];
  }

  // ---------------------------------------------------------------------------
  // Editing the selected item in place

  /** The edits of the item menu, each done through `current_item`. */
  datatype ItemAction =
    | ChangeName(newName: string)
    | ChangeDescription(newDescription: string)
    | ChangeImage(newImagePath: string)
    | IncrementAmount
    | DecrementAmount

  /** The amount stays within int for this action (C++ overflow is undefined). */
  predicate InRange(item: ItemState, action: ItemAction) {
    && (action.IncrementAmount? ==> item.amount < INT_MAX)
    && (action.DecrementAmount? ==> item.amount > INT_MIN)
  }

  function Edited(item: ItemState, action: ItemAction): ItemState
    requires InRange(item, action)
  {
    match action
    case ChangeName(n) => item.(name := Lowered(n))
    case ChangeDescription(d) => item.(description := d)
    case ChangeImage(p) => item.(imagePath := p)
    case IncrementAmount => item.(amount := item.amount + 1)
    case DecrementAmount => item.(amount := item.amount - 1)
  }

  /** One choice of the item menu applied to the selected item: only that element of the
      vector changes, and the vector keeps its objects and their order. */
  method EditItem(items: Inventory, cur: nat, action: ItemAction)
    requires items.Valid() && cur < |items.items|
    requires InRange(items.Contents()[cur], action)
    modifies items.items[cur]
    ensures items.Valid()
    ensures items.items == old(items.items)
    ensures items.Contents() == old(items.Contents())[cur := Edited(old(items.Contents())[cur], action)]
  {
    var item := items.items[cur];
    match action
    case ChangeName(n) => item.SetName(n);
    case ChangeDescription(d) => item.SetDescription(d);
    case ChangeImage(p) => item.SetImage(p);
    case IncrementAmount => item.Increment();
    case DecrementAmount => item.Decrement();
  }

  /** Incrementing then decrementing restores the item. */
  lemma IncrementThenDecrement(item: ItemState)
    requires item.amount < INT_MAX
    ensures Edited(Edited(item, IncrementAmount), DecrementAmount) == item
  {
  }

  /** Decrementing has no floor: an amount of zero becomes minus one. */
  lemma DecrementBelowZero(item: ItemState)
    requires item.amount == 0
    ensures Edited(item, DecrementAmount).amount == -1
  {
  }

  /** Every edit but a rename leaves the name alone, and a rename lower-cases it. */
  lemma EditKeepsNameLowercase(item: ItemState, action: ItemAction)
    requires InRange(item, action) && IsLowercase(item.name)
    ensures IsLowercase(Edited(item, action).name)
  {
    if action.ChangeName? {
      LoweredIsLowercase(action.newName);
    }
  }

  // ---------------------------------------------------------------------------
  // Save and export

  /** The two menu entries that write the inventory to a file. */
  datatype WriteRequest =
    | SaveInventory                      // choice 3
    | ExportInventory(exportName: string) // choice 4, with the name typed in

  /** A file the program writes: its path and its text. */
  datatype WrittenFile = WrittenFile(path: string, text: string)

  const SAVE_FILE_PATH: string := "save/inventory.csv"

  /** The separator `main` reads once at start-up: the first character of the first
      settings line, or the null character `operator[]` gives for an empty line. */
  function StartupSeparator(firstSetting: string): char {
    if |firstSetting| > 0 then firstSetting[0] else 0 as char
  }

  /** The file the menu writes for a request: "Save inventory" calls `saveItemsToFile`
      with the default argument, "Export inventory" with the separator read at
      start-up, under `export/<name>.csv`. */
  function WriteInventory(items: seq<ItemState>, firstSetting: string, request: WriteRequest): WrittenFile {
    match request
    case SaveInventory => WrittenFile(SAVE_FILE_PATH, SavedText(items, DEFAULT_SEPARATOR))
    case ExportInventory(exportName) =>
      WrittenFile("export/" + exportName + ".csv", SavedText(items, StartupSeparator(firstSetting)))
  }

  /** Whatever separator the settings hold, "Save inventory" writes the save file with
      the comma, so it loads back: one item per item saved, in order, each with its
      quotes removed. */
  lemma SavedInventoryLoads(items: seq<ItemState>, firstSetting: string)
    requires forall i :: 0 <= i < |items| ==> OneLine(items[i])
    ensures WriteInventory(items, firstSetting, SaveInventory).path == SAVE_FILE_PATH
    ensures NoOutOfRange(Lines(WriteInventory(items, firstSetting, SaveInventory).text))
    ensures LoadedItems(Lines(WriteInventory(items, firstSetting, SaveInventory).text)) == ReloadedAll(items)
  {
    SaveThenLoad(items);
  }

  /** "Export inventory" writes with the separator of the settings; when that is not
      the comma, a quote or a newline, the exported file loads no item. */
  lemma ExportedInventoryDoesNotLoad(items: seq<ItemState>, firstSetting: string, exportName: string)
    requires StartupSeparator(firstSetting) !in {DEFAULT_SEPARATOR, QUOTE, NEWLINE}
    requires forall i :: 0 <= i < |items| ==> OneLine(items[i])
    ensures WriteInventory(items, firstSetting, ExportInventory(exportName)).path
      == "export/" + exportName + ".csv"
    ensures LoadedItems(Lines(WriteInventory(items, firstSetting, ExportInventory(exportName)).text)) == []
  {
    OtherSeparatorLoadsNothing(items, StartupSeparator(firstSetting));
  }

  /** An accepted entry is saved as the first settings line, so after a restart the
      export separator is the one chosen. */
  lemma ChosenSeparatorIsReadBack(entered: string)
    requires ChooseSeparator(entered).Accepted?
    ensures StartupSeparator(ChooseSeparator(entered).setting) == ChooseSeparator(entered).separator
  {
  }

  // ---------------------------------------------------------------------------
  // Export separator

  /** The outcome of entering a new separator in the settings menu. */
  datatype SeparatorChoice =
    | Rejected                                  // "Invalid seperator. Try again."
    | Accepted(separator: char, setting: string) // saved to the settings file

  /** A new separator is refused only when the entered word is exactly a double or a
      single quote; otherwise the word is saved and its first character becomes the
      separator (the null character for an empty word). */
  function ChooseSeparator(entered: string): (r: SeparatorChoice)
    ensures r.Rejected? <==> entered == "\"" || entered == "'"
    ensures r.Accepted? ==> r.setting == entered
    ensures r.Accepted? && |entered| > 0 ==> r.separator == entered[0]
    ensures r.Accepted? && entered == [] ==> r.separator == 0 as char
  {
    if entered == "\"" || entered == "'" then Rejected
    else Accepted(if |entered| > 0 then entered[0] else 0 as char, entered)
  }

  /** The separator in force after an entry: unchanged when the entry is rejected. */
  function NextSeparator(current: char, entered: string): (r: char)
  {
    match ChooseSeparator(entered)
    case Rejected => current
    case Accepted(s, _) => s
  }

  lemma RejectedKeepsSeparator(current: char, entered: string)
    requires entered == "\"" || entered == "'"
    ensures NextSeparator(current, entered) == current
  {
  }

  /** Only the whole word is checked: a longer word that starts with a quote is
      accepted and makes the quote the separator. */
  lemma QuoteSeparatorSlipsThrough(rest: string)
    requires |rest| > 0
    ensures ChooseSeparator("\"" + rest) == Accepted('"', "\"" + rest)
  {
  }

  /** With the quote as separator an export can still load, as another item: the
      description ",,5," is read back as an empty description, amount 5 and image
      path "0". */
  lemma QuoteSeparatorMisloads()
    ensures RecordLine(ItemState("", ",,5,", 0, ""), QUOTE) == "\"\"\"\",,5,\"\"0\"\"\""
    ensures ClassifyLine(RecordLine(ItemState("", ",,5,", 0, ""), QUOTE))
         == Loaded(ItemState("", "", 5, "0"))
  {
    var line := "\"\"\"\",,5,\"\"0\"\"\"";
    QuoteSeparatedRecord(line);
    ParseQuoteSeparated(line);
    ClassifyQuoteSeparated(line);
  }

  lemma QuoteSeparatedRecord(line: string)
    requires line == "\"\"\"\",,5,\"\"0\"\"\""
    ensures RecordLine(ItemState("", ",,5,", 0, ""), QUOTE) == line
  {
    var name, description, amount := Escaped(""), Escaped(",,5,"), Decimal(0);
    assert name == "\"\"" by {
      assert Doubled("") == "";
    }
    assert description == "\",,5,\"" by {
      DoubledCommas();
    }
    assert amount == "0";
    assert RecordLine(ItemState("", ",,5,", 0, ""), QUOTE)
        == name + [QUOTE] + description + [QUOTE] + amount + [QUOTE] + name;
  }

  lemma DoubledCommas()
    ensures Doubled(",,5,") == ",,5,"
  {
    assert ",,5,"[..3] == ",,5";
    assert ",,5"[..2] == ",,";
    assert ",,"[..1] == ",";
    assert ","[..0] == "";
  }


  lemma ClassifyQuoteSeparated(line: string)
    requires Parsed(line) == ["", "", "5", "0"]
    ensures ClassifyLine(line) == Loaded(ItemState("", "", 5, "0"))
  {
    var fields := Parsed(line);
    assert fields[0] == "" && fields[1] == "" && fields[2] == "5" && fields[3] == "0";
    StoiFive();
    assert Lowered("") == "";
  }

  lemma StoiFive()
    ensures Stoi("5") == Some(5)
  {
    assert Decimal(5) == "5";
    StoiDecimal(5);
  }

  /** The export line of that item splits into four fields at the quotes and commas. */
  lemma ParseQuoteSeparated(line: string)
    requires line == "\"\"\"\",,5,\"\"0\"\"\""
    ensures Parsed(line) == ["", "", "5", "0"]
  {
    ParseQuoteSeparatedHead(line);
    assert Run(START, line[..8]) == Tokenizer(["", "", "5"], "", false) by {
      RunSnoc(START, line, 7);
    }
    assert Run(START, line[..9]) == Tokenizer(["", "", "5"], "", true) by {
      RunSnoc(START, line, 8);
    }
    assert Run(START, line[..10]) == Tokenizer(["", "", "5"], "", false) by {
      RunSnoc(START, line, 9);
    }
    assert Run(START, line[..11]) == Tokenizer(["", "", "5"], "0", false) by {
      RunSnoc(START, line, 10);
    }
    assert Run(START, line[..12]) == Tokenizer(["", "", "5"], "0", true) by {
      RunSnoc(START, line, 11);
    }
    assert Run(START, line[..13]) == Tokenizer(["", "", "5"], "0", false) by {
      RunSnoc(START, line, 12);
    }
    assert Run(START, line[..14]) == Tokenizer(["", "", "5"], "0", true) by {
      RunSnoc(START, line, 13);
    }
    assert line[..14] == line;
  }

  /** The first seven characters: two empty fields closed, "5" in the open field. */
  lemma ParseQuoteSeparatedHead(line: string)
    requires line == "\"\"\"\",,5,\"\"0\"\"\""
    ensures Run(START, line[..7]) == Tokenizer(["", ""], "5", false)
  {
    ParseQuoteSeparatedQuotes(line);
    assert Run(START, line[..5]) == Tokenizer([""], "", false) by {
      RunSnoc(START, line, 4);
    }
    assert Run(START, line[..6]) == Tokenizer(["", ""], "", false) by {
      RunSnoc(START, line, 5);
    }
    assert Run(START, line[..7]) == Tokenizer(["", ""], "5", false) by {
      RunSnoc(START, line, 6);
    }
  }

  /** The four opening quotes leave the tokenizer where it started. */
  lemma ParseQuoteSeparatedQuotes(line: string)
    requires line == "\"\"\"\",,5,\"\"0\"\"\""
    ensures Run(START, line[..4]) == Tokenizer([], "", false)
  {
    assert line[..0] == [];
    assert Run(START, line[..1]) == Tokenizer([], "", true) by {
      RunSnoc(START, line, 0);
    }
    assert Run(START, line[..2]) == Tokenizer([], "", false) by {
      RunSnoc(START, line, 1);
    }
    assert Run(START, line[..3]) == Tokenizer([], "", true) by {
      RunSnoc(START, line, 2);
    }
    assert Run(START, line[..4]) == Tokenizer([], "", false) by {
      RunSnoc(START, line, 3);
    }
  }
}
