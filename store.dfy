/** The program's `vector<Item> items`: an ordered collection of distinct `Item`
    objects that the program appends to, erases from, and edits element by element. */
module Store {
  import opened ItemClass

  /** Every name in a sequence of item values is lower-cased. */
  predicate NamesLowercase(items: seq<ItemState>) {
    forall i :: 0 <= i < |items| ==> IsLowercase(items[i].name)
  }

  class Inventory {
    var items: seq<Item>

    /** Each element is its own object (a vector holds its items by value), and
        every item keeps its lower-cased name. */
    ghost predicate Valid()
      reads this, items
    {
      && (forall i, j :: 0 <= i < j < |items| ==> items[i] != items[j])
      && (forall i :: 0 <= i < |items| ==> items[i].Valid())
    }

    function Contents(): seq<ItemState>
      reads this, items
    {
      States(items)
    }

    lemma ValidNamesLowercase()
      requires Valid()
      ensures NamesLowercase(Contents())
    {
    }

    /** An empty `vector<Item>`. */
    constructor ()
      ensures Valid() && Contents() == []
    {
      items := [];
    }

    /** `items.emplace_back(name, description, amount, image)`: an `Item` is
        constructed at the end; everything before it is unchanged. */
    method EmplaceBack(itemName: string, itemDescription: string, itemAmount: Int32, itemImagePath: string)
      requires Valid()
      modifies this
      ensures Valid()
      ensures Contents() == old(Contents()) + [ItemState(Lowered(itemName), itemDescription, itemAmount, itemImagePath)]
    {
      var item := new Item(itemName, itemDescription, itemAmount, itemImagePath);
      items := items + [item];
    }

    /** `items.erase(items.begin() + k)`: the element at k leaves, the rest keep their order. */
    method Erase(k: nat)
      requires Valid() && k < |items|
      modifies this
      ensures Valid()
      ensures items == old(items[..k] + items[k + 1..])
      ensures Contents() == old(Contents()[..k] + Contents()[k + 1..])
    {
      items := items[..k] + items[k + 1..];
    }
  }
}
