/** The inventory record of src/item_class.cpp: the `Item` class, its lower-casing
    of names, and the value (`ItemState`) that the rest of the model reasons about. */
module ItemClass {

  /** The range of a C++ `int` on the targets the program is built for (32 bits). */
  const INT_MIN: int := -0x8000_0000
  const INT_MAX: int := 0x7fff_ffff

  type Int32 = x: int | INT_MIN <= x <= INT_MAX

  /** The characters that `::tolower` changes in the "C" locale. */
  predicate IsUpperAscii(c: char) {
    'A' <= c <= 'Z'
  }

  function LowerChar(c: char): (r: char)
    ensures IsUpperAscii(c) ==> 'a' <= r <= 'z' && r as int - c as int == 'a' as int - 'A' as int
    ensures !IsUpperAscii(c) ==> r == c
  {
    if IsUpperAscii(c) then (c as int - 'A' as int + 'a' as int) as char else c
  }

  /** The string that `toLowerCase` returns: every character passed through `::tolower`. */
  function Lowered(s: string): string {
    seq(|s|, i requires 0 <= i < |s| => LowerChar(s[i]))
  }

  /** A name as the class stores it: no upper-case ASCII letter anywhere. */
  predicate IsLowercase(s: string) {
    forall i :: 0 <= i < |s| ==> !IsUpperAscii(s[i])
  }

  /** `toLowerCase` copies its argument and transforms the copy in place. */
  method ToLowerCase(str: string) returns (result: string)
    ensures result == Lowered(str)
  {
    result := str;
    var i := 0;
    while i < |result|
      invariant 0 <= i <= |result| == |str|
      invariant forall k :: 0 <= k < i ==> result[k] == LowerChar(str[k])
      invariant forall k :: i <= k < |str| ==> result[k] == str[k]
    {
      result := result[i := LowerChar(result[i])];
      i := i + 1;
    }
  }

  /** Lower-casing keeps the length and changes exactly the letters A to Z. */
  lemma LoweredMapsOnlyUpper(s: string)
    ensures |Lowered(s)| == |s|
    ensures forall i :: 0 <= i < |s| && !IsUpperAscii(s[i]) ==> Lowered(s)[i] == s[i]
    ensures forall i :: 0 <= i < |s| && IsUpperAscii(s[i]) ==> Lowered(s)[i] != s[i] && Lowered(s)[i] == LowerChar(s[i])
  {
  }

  lemma LoweredIsLowercase(s: string)
    ensures IsLowercase(Lowered(s))
  {
  }

  lemma LoweredIdempotent(s: string)
    ensures Lowered(Lowered(s)) == Lowered(s)
  {
  }

  /** A string with no upper-case letter is its own lower-casing. */
  lemma LowercaseIsFixedPoint(s: string)
    requires IsLowercase(s)
    ensures Lowered(s) == s
  {
  }

  /** The four fields of an `Item`, as a value. Structural equality of this
      datatype is exactly what `Item::operator==` compares. */
  datatype ItemState = ItemState(name: string, description: string, amount: Int32, imagePath: string)

  class Item {
    var name: string
    var description: string
    var imagePath: string
    var amount: Int32

    /** The name is stored lower-cased (constructor and `setName`). */
    ghost predicate Valid()
      reads this
    {
      IsLowercase(name)
    }

    function State(): ItemState
      reads this
    {
      ItemState(name, description, amount, imagePath)
    }

    constructor (itemName: string, itemDescription: string, itemAmount: Int32, itemImagePath: string)
      ensures Valid()
      ensures State() == ItemState(Lowered(itemName), itemDescription, itemAmount, itemImagePath)
    {
      var lowered := ToLowerCase(itemName);
      name := lowered;
      description := itemDescription;
      amount := itemAmount;
      imagePath := itemImagePath;
      LoweredIsLowercase(itemName);
    }

    method SetName(itemName: string)
      modifies this
      ensures Valid()
      ensures State() == old(State()).(name := Lowered(itemName))
    {
      name := ToLowerCase(itemName);
      LoweredIsLowercase(itemName);
    }

    method SetDescription(itemDescription: string)
      modifies this
      ensures Valid() <==> old(Valid())
      ensures State() == old(State()).(description := itemDescription)
    {
      description := itemDescription;
    }

    method SetImage(itemImagePath: string)
      modifies this
      ensures Valid() <==> old(Valid())
      ensures State() == old(State()).(imagePath := itemImagePath)
    {
      imagePath := itemImagePath;
    }

    method SetAmount(itemAmount: Int32)
      modifies this
      ensures Valid() <==> old(Valid())
      ensures State() == old(State()).(amount := itemAmount)
    {
      amount := itemAmount;
    }

    /** `++amount`; overflow past INT_MAX is undefined behaviour in C++, so it is excluded. */
    method Increment()
      requires amount < INT_MAX
      modifies this
      ensures Valid() <==> old(Valid())
      ensures State() == old(State()).(amount := old(amount) + 1)
    {
      amount := amount + 1;
    }

    /** `--amount`, with no lower bound at zero: the amount may become negative. */
    method Decrement()
      requires amount > INT_MIN
      modifies this
      ensures Valid() <==> old(Valid())
      ensures State() == old(State()).(amount := old(amount) - 1)
    {
      amount := amount - 1;
    }

    /** `operator==`: all four fields equal. */
    predicate Equals(other: Item)
      reads this, other
      ensures Equals(other) <==> State() == other.State()
    {
      name == other.name && description == other.description &&
      amount == other.amount && imagePath == other.imagePath
    }
  }

  /** `operator==` is an equivalence relation. */
  lemma EqualsIsEquivalence(a: Item, b: Item, c: Item)
    ensures a.Equals(a)
    ensures a.Equals(b) <==> b.Equals(a)
    ensures a.Equals(b) && b.Equals(c) ==> a.Equals(c)
  {
  }

  /** The values of a sequence of items, element by element. */
  function States(items: seq<Item>): (r: seq<ItemState>)
    reads items
    ensures |r| == |items|
    ensures forall i :: 0 <= i < |items| ==> r[i] == items[i].State()
  {
    seq(|items|, i reads items requires 0 <= i < |items| => items[i].State())
  }
}
