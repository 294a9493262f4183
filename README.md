# Inventory-Manager, modelled in Dafny

A model of the core of a small single-user inventory tracker written in C++. An
inventory is a `vector<Item>`; an `Item` holds a name (always stored lower-cased), a
description, an amount and an image path. The inventory is saved to and loaded from a
comma-separated file in which every text field is wrapped in double quotes with embedded
quotes doubled.

The model has five modules, one file each:

- `ItemClass` (item_class.dfy): `toLowerCase` as a loop that transforms a copy, the
  `Item` class with its setters, `increment`, `decrement` and `operator==`, and the
  value `ItemState` of an item's four fields.
- `Store` (store.dfy): the program's `vector<Item>` as the class `Inventory`, whose
  elements are distinct `Item` objects, with `emplace_back` and `erase`.
- `SaveLoad` (save_load.dfy): `escapeForCSV`, the record line that `saveItemsToFile`
  writes, the quote-aware splitter `parseCSVLine`, the per-line accept/skip rule of
  `loadItemsFromFile`, `std::stoi` and `getline`. Each loop of the program is a method
  proved equal to a functional specification, and the round-trip properties are
  proved about those specifications.
- `InventoryManager` (inventory_manager.dfy): the binary-search lookup
  `GetItemByName` (`std::lower_bound` under `std::string`'s `<`), the case-folded
  lookup of the item menu (`std::find_if`), adding, editing and deleting the selected
  item, the save/export behaviour and the rule for a new export separator.
- `Wrappers` (wrappers.dfy): `Option`, standing for a pointer that may be null.

What the model establishes, in the program's terms:

- `escapeForCSV` always quotes. Its result is two plus one per embedded quote longer
  than the field. Read by the rules of RFC 4180 (section 2, rule 7), it gives the field
  back.
- `parseCSVLine` returns one field more than the commas it meets outside quotes.
  Joined with commas, the fields are the line without its quotes. No field ever
  holds a quote. Quotes only toggle the state, so `""` is not collapsed to `"`.
  An embedded quote is therefore lost on reload.
- A record written with the comma reads back as exactly four fields: the
  quote-stripped name, the quote-stripped description, the amount in decimal and the
  quote-stripped image path. `stoi` reads back exactly the amount written.
- Saving and then loading gives back every item in order. The only changes are that
  quotes are lost from text fields and the name is lower-cased again. This holds when
  no field contains a newline, because such a field would split its record across two
  lines. Items without quotes and with lower-case names come back exactly.
- The splitter only splits on a hard-coded comma. A file exported with any other
  separator (not a quote or a newline) therefore loads nothing: every line is one
  field, and the loader skips it.
- A file exported with the quote as separator can still load, but as other items. The
  item with an empty name, the description `,,5,`, amount 0 and an empty image path is
  exported as `"""",,5,""0"""` and loads as an item with an empty description,
  amount 5 and image path `0`.
- Loading only appends. Existing items stay unchanged as a prefix, one item is
  appended per accepted line in file order, and a file that cannot be opened changes
  nothing.
- `GetItemByName` needs what `std::lower_bound` needs: every name below the key comes
  before every name that is not. If it returns an item, that item is the first whose
  name equals the key, compared verbatim. On items sorted by name it returns null if and only if no
  item has that name. A key with an upper-case letter never matches a stored name.
  The program defines `GetItemByName` but never calls it, and its vector is kept in
  insertion order, not sorted.
- The menu lookup lower-cases the query and returns the first match in insertion
  order. Any spelling of a stored name finds it.
- Deleting removes exactly the first item equal to the selected one. That can be an
  earlier item with the same four fields rather than the selected item itself.
- `decrement` has no floor.
- A new separator is refused only when the entered word is exactly `"` or `'`. A
  longer word beginning with `"` is accepted, and its first character, the quote,
  becomes the separator.

Four details of the code that the model keeps as written:

- `decrement` is a bare `--amount`, with no clamp at zero (src/item_class.cpp:76-78).
- `parseCSVLine` drops every quote character instead of keeping or collapsing doubled
  quotes (src/save_load.cpp:72-73).
- Saving and loading therefore round-trips only fields that hold no quote.
- `parseCSVLine` splits on the comma alone (src/save_load.cpp:74). A file written with
  any other separator, except a quote or a newline, loads nothing. A file written with
  the quote may load wrong items.

## Model

| member | source | states |
|---|---|---|
| ItemClass.ToLowerCase | src/item_class.cpp:6-10 | the result is the argument with `A`-`Z` lower-cased, character by character |
| ItemClass.LoweredMapsOnlyUpper | src/item_class.cpp:6-10 | lower-casing keeps the length, changes every `A`-`Z` and leaves every other character as it is |
| ItemClass.LoweredIdempotent | src/item_class.cpp:6-10 | lower-casing twice is lower-casing once |
| ItemClass.LoweredIsLowercase | src/item_class.h:18 | a lower-cased string holds no upper-case ASCII letter |
| ItemClass.LowercaseIsFixedPoint | src/item_class.cpp:6-10 | a string without upper-case letters is its own lower-casing |
| ItemClass.Item.constructor | src/item_class.cpp:13-20 | stores the lower-cased name and the description, amount and image path verbatim; the name holds no upper-case letter |
| ItemClass.Item.SetName | src/item_class.cpp:23-25 | replaces only the name, with its lower-casing |
| ItemClass.Item.SetDescription | src/item_class.cpp:33-35 | replaces only the description; the other three fields are unchanged |
| ItemClass.Item.SetImage | src/item_class.cpp:43-45 | replaces only the image path; the other three fields are unchanged |
| ItemClass.Item.SetAmount | src/item_class.cpp:53-55 | replaces only the amount; the other three fields are unchanged |
| ItemClass.Item.Increment | src/item_class.cpp:71-73 | the amount rises by exactly one and nothing else changes |
| ItemClass.Item.Decrement | src/item_class.cpp:76-78 | the amount falls by exactly one, with no lower bound, and nothing else changes |
| ItemClass.Item.Equals | src/item_class.cpp:81-86 | holds if and only if all four fields are equal |
| ItemClass.EqualsIsEquivalence | src/item_class.cpp:81-86 | `operator==` is reflexive, symmetric and transitive |
| Store.Inventory.constructor | inventory_manager.cpp:118 | a new vector is empty |
| Store.Inventory.ValidNamesLowercase | src/item_class.h:18 | every name in a valid inventory is lower-cased |
| Store.Inventory.EmplaceBack | inventory_manager.cpp:46 | appends one item built by the constructor; every earlier item is unchanged |
| Store.Inventory.Erase | inventory_manager.cpp:218 | removes exactly the element at the position; the others keep their order |
| SaveLoad.EscapeForCSV | src/save_load.cpp:14-25 | returns the field between quotes with every embedded quote doubled |
| SaveLoad.EscapedShape | src/save_load.cpp:14-25 | the result starts and ends with a quote and its length is the field's plus two plus the number of quotes in it |
| SaveLoad.EscapeIsInvertible | src/save_load.cpp:16-22 | the inside of the result, read with doubled quotes standing for one, is the field: each non-quote character is copied in order and each quote doubled |
| SaveLoad.ParseCSVLine | src/save_load.cpp:65-85 | returns the fields of the quote-toggling, comma-splitting scan |
| SaveLoad.ParsedFields | src/save_load.cpp:70-84 | at least one field, one more than the commas met outside quotes; joined with commas the fields are the line without its quotes; no field holds a quote |
| SaveLoad.ParseEscaped | src/save_load.cpp:65-85 | splitting an escaped field gives the single field without its quotes, or exactly the field when it holds no quote, whatever commas it holds |
| SaveLoad.EmbeddedQuoteIsLost | src/save_load.cpp:72-73 | the field `a"b` is written as `"a""b"` and read back as `ab` |
| SaveLoad.Stoi | src/save_load.cpp:109 | a field starting with a digit reads as a non-negative number; an empty field or one starting with anything but white space, a digit or a sign is an invalid number; a negative value needs a minus sign |
| SaveLoad.StoiDecimal | src/save_load.cpp:109 | `stoi` reads back exactly the amount that the stream wrote in decimal |
| SaveLoad.SaveItemsToFile | src/save_load.cpp:45-50 | the text written is each item's record line followed by a newline, in order |
| SaveLoad.Lines | src/save_load.cpp:102 | empty text has no lines, and text without a newline is a single line |
| SaveLoad.LinesHaveNoNewline | src/save_load.cpp:102 | no line that `getline` returns holds a newline |
| SaveLoad.LinesOfSavedText | src/save_load.cpp:102 | reading the saved text line by line gives one record line per item, in order, when no field holds a newline |
| SaveLoad.ParseRecordLineComma | src/save_load.cpp:46-49 | a record written with the comma splits into the quote-stripped name, the quote-stripped description, the decimal amount and the quote-stripped image path |
| SaveLoad.ParseRecordLineOther | src/save_load.cpp:74 | a record written with another separator (not the comma or a quote) is a single field and is skipped |
| SaveLoad.ClassifyLine | src/save_load.cpp:103-115 | a line is skipped as malformed if and only if it does not split into four fields, and as an invalid number if and only if it does and the third field is not a number |
| SaveLoad.ClassifyLineLoads | src/save_load.cpp:103-115 | a line loads if and only if it has four fields and an amount within an `int`; the item is built from the fields with its name lower-cased |
| SaveLoad.LoadLine | src/save_load.cpp:103-115 | one line appends the item it is classified as, and nothing when it is skipped |
| SaveLoad.LoadItemsFromFile | src/save_load.cpp:94-116 | existing items stay as an unchanged prefix, one item is appended per accepted line in file order, and nothing changes when the file cannot be opened |
| SaveLoad.LoadedItemsConcat | src/save_load.cpp:102-116 | lines are accepted or skipped independently of each other |
| SaveLoad.LoadedItemsBound | src/save_load.cpp:106-115 | at most one item per line, and none when no line splits into four fields |
| SaveLoad.SaveThenLoad | src/save_load.cpp:33-116 | saving with the comma and loading gives every item back in order, with its quotes removed and its name lower-cased |
| SaveLoad.SaveThenLoadExact | src/save_load.cpp:33-116 | items without quotes and with lower-case names are read back exactly |
| SaveLoad.OtherSeparatorLoadsNothing | src/save_load.cpp:106-115 | a file saved with another separator (not the comma, a quote or a newline) loads no item |
| InventoryManager.SortedIsPartitioned | inventory_manager.cpp:13-15 | items sorted by name meet the precondition of `lower_bound` for every key |
| InventoryManager.LowerBound | inventory_manager.cpp:13-15 | returns the position before which every name is below the key and from which none is |
| InventoryManager.LexLess | inventory_manager.cpp:14 | `std::string`'s `<`: never between equal strings, a proper prefix comes first, and a smaller first character decides |
| InventoryManager.LexTransitive | inventory_manager.cpp:14 | the order is transitive |
| InventoryManager.LexTotal | inventory_manager.cpp:14 | two different strings are ordered one way or the other |
| InventoryManager.GetItemByName | inventory_manager.cpp:12-22 | on items partitioned by the key, as `lower_bound` requires, a returned item is the first whose name is the key |
| InventoryManager.GetItemByNameSorted | inventory_manager.cpp:12-22 | on items sorted by name, null comes back if and only if no item has the name |
| InventoryManager.UppercaseKeyNotFound | inventory_manager.cpp:17 | a key holding an upper-case letter is never found among lower-cased names |
| InventoryManager.FindName | inventory_manager.cpp:167-169 | the first item in insertion order whose name is the key, or none if and only if no item has it |
| InventoryManager.FindItemByName | inventory_manager.cpp:165-171 | the first item in insertion order whose name is the lower-cased query, or none if and only if no item has it |
| InventoryManager.MenuLookupIgnoresCase | inventory_manager.cpp:165-171 | an item stored under one spelling of a name is found by any other spelling of it, at or before its position |
| InventoryManager.AddItem | inventory_manager.cpp:256 | exactly one item is appended, its name lower-cased; the existing items are unchanged |
| InventoryManager.FirstEqual | inventory_manager.cpp:217 | the first position holding a value equal to the target |
| InventoryManager.DeleteItem | inventory_manager.cpp:216-219 | removes the first item equal to the selected one, at or before it; the rest keep their order; exactly one copy of the selected value leaves; the erased object is `operator==` to the selected one and no earlier object is |
| InventoryManager.EditItem | inventory_manager.cpp:192-215 | a menu edit changes only the selected element, as the matching setter does, and keeps the vector's objects and order |
| InventoryManager.IncrementThenDecrement | src/item_class.cpp:71-78 | incrementing then decrementing restores the item |
| InventoryManager.DecrementBelowZero | src/item_class.cpp:76-78 | decrementing an amount of zero gives minus one |
| InventoryManager.EditKeepsNameLowercase | inventory_manager.cpp:192-215 | after any edit the name is still lower-cased |
| InventoryManager.SavedInventoryLoads | inventory_manager.cpp:260-262 | "Save inventory" writes `save/inventory.csv` with the default comma whatever the settings hold, and that file loads back item for item |
| InventoryManager.ExportedInventoryDoesNotLoad | inventory_manager.cpp:263-268 | "Export inventory" writes `export/<name>.csv` with the separator `main` reads from the settings at start-up (inventory_manager.cpp:114); when that is not the comma, a quote or a newline, the file loads no item |
| InventoryManager.ChosenSeparatorIsReadBack | inventory_manager.cpp:84-85 | an accepted entry is saved so that the separator read back at start-up is the one chosen |
| InventoryManager.ChooseSeparator | inventory_manager.cpp:80-87 | the entry is refused if and only if it is exactly `"` or `'`; otherwise it is saved and its first character is the separator, or the null character for an empty entry |
| InventoryManager.RejectedKeepsSeparator | inventory_manager.cpp:80-82 | a refused entry leaves the separator unchanged |
| InventoryManager.QuoteSeparatorSlipsThrough | inventory_manager.cpp:80-84 | a longer entry starting with `"` is accepted and makes the quote the separator |
| InventoryManager.QuoteSeparatorMisloads | inventory_manager.cpp:268 | an item exported with the quote as separator can load back as a different item |

## Left out

- File-system I/O is not modelled: opening files, `filesystem::create_directory`, `fileDoesNotExist`, `SaveSettings` and `loadSettings`. A saved file is its text. A loaded file is `None`, when it cannot be opened, or else the sequence of lines `getline` reads.
- Failing to open the file when saving is not modelled. The program prints an error and writes nothing.
- The settings file is modelled only by its first line. `main` reads the export separator from it once, at start-up, as the first character of that line. A separator changed in the settings menu only takes effect for exports after a restart. Taking `front()` of an empty settings list is undefined behaviour.
- Console input, menus and prompt text are not modelled: `LoadScreen`, `main`, `Item::display` and the printed warnings. The "New Inventory" choice is `EmplaceBack` of a fixed sample item.
- The getters of `Item` are not modelled separately. They are plain reads of the fields.
- InventoryManager.AddItem stores the description it is given. In the program the second `cin.ignore()` (inventory_manager.cpp:246) runs after `getline` has already consumed the newline, so it discards the first character typed for the description. Console input is not modelled.
- Store.Inventory: `current_item` is an index, not a raw pointer, so the model does not capture a pointer left dangling after `erase`.
- SaveLoad.LoadItemsFromFile: requires that no accepted line holds an amount beyond the range of an `int`. `std::stoi` throws `out_of_range` for such a line, nothing catches it, and the program ends.
- SaveLoad.Stoi takes the longest run of digits after optional white space and sign, as `std::stoi` does. It does not model `stoi` range errors beyond the range of an `int`.
- ItemClass.Item.Increment and ItemClass.Item.Decrement: require that the amount stays within an `int`. Overflow of a signed `int` is undefined behaviour in C++.
- ItemClass.LowerChar: only the ASCII letters `A`-`Z` are lower-cased, as `::tolower` does in the "C" locale. Other locales are not modelled.
- Characters are compared by code point, which agrees with `std::string`'s `<` when each `char` is read as an unsigned byte.
