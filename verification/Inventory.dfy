/** Item stacks and the inventory: picking up a stack fills the slots in order. */
module Inventory {

  datatype Item = Item(id: nat, maxStacksize: int)

  /** A struct of an item and a count; Blank is the stack without an item. */
  datatype ItemStack = Blank | Stack(item: Item, stackSize: int) {
    predicate Null() { Blank? }
    predicate Of(it: Item) { Stack? && item == it }

    /** At most the maximum; a stack without an item is trivially so. */
    predicate Fits() { Stack? ==> stackSize <= item.maxStacksize }

    function Amount(it: Item): int { if Of(it) then stackSize else 0 }
  }

  function Min(a: int, b: int): int { if a < b then a else b }

  /** `StackUp`: the stack takes what it can; the rest is returned. */
  method StackUp(s: ItemStack, amount: int) returns (s': ItemStack, rest: int)
    requires s.Stack?
    ensures s'.Of(s.item) && s'.stackSize + rest == s.stackSize + amount && rest >= 0
    ensures s'.Fits() && (rest > 0 ==> s'.stackSize == s.item.maxStacksize)
  {
    s' := s.(stackSize := s.stackSize + amount);
    if s'.stackSize > s.item.maxStacksize {
      rest := s'.stackSize - s.item.maxStacksize;
      s' := s'.(stackSize := s.item.maxStacksize);
    } else {
      rest := 0;
    }
  }

  /** What `Apply` makes of a slot and a stack dropped on it. */
  function Applied(dest: ItemStack, src: ItemStack): (ItemStack, ItemStack) {
    if dest.Stack? && src.Of(dest.item) then
      var sum, most := dest.stackSize + src.stackSize, dest.item.maxStacksize;
      if sum > most then (Stack(dest.item, most), Stack(src.item, sum - most)) else (Stack(dest.item, sum), Blank)
    else (src, dest)
  }

  /** `Apply` merges stacks of one item and exchanges any others. */
  method Apply(dest: ItemStack, src: ItemStack) returns (dest': ItemStack, src': ItemStack)
    ensures (dest', src') == Applied(dest, src)
    ensures !(dest.Stack? && src.Stack? && dest.item == src.item) ==> dest' == src && src' == dest
    ensures dest.Stack? && src.Stack? && dest.item == src.item ==>
              && dest'.Stack? && dest'.item == dest.item && dest'.stackSize <= dest.item.maxStacksize
              && (src'.Blank? || (src'.Stack? && src'.item == dest.item && src'.stackSize > 0))
              && dest'.stackSize + (if src'.Stack? then src'.stackSize else 0) == dest.stackSize + src.stackSize
              && (src'.Stack? ==> dest'.stackSize == dest.item.maxStacksize)
  {
    if dest.Stack? && src.Stack? && dest.item == src.item {
      var size;
      dest', size := StackUp(dest, src.stackSize);
      src' := if size > 0 then src.(stackSize := size) else Blank;
    } else {
      dest', src' := src, dest;
    }
  }

  /** Two exchanges undo each other; so does a click with the empty cursor, and putting back. */
  lemma ExchangedTwice(dest: ItemStack, src: ItemStack)
    requires !(dest.Stack? && src.Stack? && dest.item == src.item)
    ensures var (dest', src') := Applied(dest, src);
            dest' == src && src' == dest && Applied(dest', src') == (dest, src)
  {}

  /** `AddStack`: the stack grows or shrinks; used up, it is gone. */
  method AddStack(dest: ItemStack, amount: int) returns (dest': ItemStack)
    requires dest.Stack?
    ensures dest'.Fits()
    ensures dest.stackSize + amount <= 0 < dest.item.maxStacksize ==> dest' == Blank
    ensures dest.stackSize + amount > 0 && dest.item.maxStacksize > 0 ==>
              dest' == Stack(dest.item, Min(dest.stackSize + amount, dest.item.maxStacksize))
  {
    var rest;
    dest', rest := StackUp(dest, amount);
    if dest'.stackSize <= 0 {
      dest' := Blank;
    }
  }

  // ---------------------------------------------------------------- the inventory as a function

  /** Is the slot tried for the item? */
  predicate Takes(slot: ItemStack, item: Item) { slot.Null() || slot.Of(item) }

  /** The slots after a stack was put in, and what is left of it. */
  function Filled(slots: seq<ItemStack>, rest: ItemStack, item: Item): (seq<ItemStack>, ItemStack) {
    if slots == [] || rest.Null() then (slots, rest)
    else if Takes(slots[0], item) then
      var (first, more) := Applied(slots[0], rest);
      var (others, left) := Filled(slots[1..], more, item);
      ([first] + others, left)
    else
      var (others, left) := Filled(slots[1..], rest, item);
      ([slots[0]] + others, left)
  }

  function Total(slots: seq<ItemStack>, item: Item): int {
    if slots == [] then 0 else slots[0].Amount(item) + Total(slots[1..], item)
  }

  /** How much more of an item the stacks of it can take. */
  function Room(slots: seq<ItemStack>, item: Item): int {
    if slots == [] then 0
    else (if slots[0].Of(item) then item.maxStacksize - slots[0].stackSize else 0) + Room(slots[1..], item)
  }

  predicate HasBlank(slots: seq<ItemStack>) { exists i | 0 <= i < |slots| :: slots[i].Null() }

  ghost predicate AllFit(slots: seq<ItemStack>) { forall i | 0 <= i < |slots| :: slots[i].Fits() }

  /** Nothing is made or lost: of every item, slots and rest together hold what they held. */
  lemma {:induction false} FillingConserves(slots: seq<ItemStack>, rest: ItemStack, item: Item, other: Item)
    requires rest.Stack? ==> rest.item == item
    ensures var (slots', left) := Filled(slots, rest, item);
            && |slots'| == |slots| && (left.Null() || left.Of(item))
            && Total(slots', other) + left.Amount(other) == Total(slots, other) + rest.Amount(other)
  {
    if slots != [] && !rest.Null() {
      var more := if Takes(slots[0], item) then Applied(slots[0], rest).1 else rest;
      FillingConserves(slots[1..], more, item, other);
    }
  }

  /** No slot is overfilled, and nor is the rest. */
  lemma {:induction false} FillingFits(slots: seq<ItemStack>, rest: ItemStack, item: Item)
    requires AllFit(slots) && rest.Fits() && (rest.Stack? ==> rest.item == item)
    ensures var (slots', left) := Filled(slots, rest, item);
            AllFit(slots') && left.Fits()
  {
    if slots != [] && !rest.Null() {
      var more := if Takes(slots[0], item) then Applied(slots[0], rest).1 else rest;
      FillingFits(slots[1..], more, item);
    }
  }

  /** Slots of other items are left alone. */
  lemma {:induction false} FillingKeepsOthers(slots: seq<ItemStack>, rest: ItemStack, item: Item, i: nat)
    requires i < |slots| && slots[i].Stack? && slots[i].item != item
    ensures |Filled(slots, rest, item).0| == |slots| && Filled(slots, rest, item).0[i] == slots[i]
  {
    FilledLength(slots, rest, item);
    if !rest.Null() && i > 0 {
      var more := if Takes(slots[0], item) then Applied(slots[0], rest).1 else rest;
      FillingKeepsOthers(slots[1..], more, item, i - 1);
    }
  }

  lemma {:induction false} FilledLength(slots: seq<ItemStack>, rest: ItemStack, item: Item)
    ensures |Filled(slots, rest, item).0| == |slots|
  {
    if slots != [] && !rest.Null() {
      var more := if Takes(slots[0], item) then Applied(slots[0], rest).1 else rest;
      FilledLength(slots[1..], more, item);
    }
  }

  /** Exactly when there is a remainder: no slot is blank and the stacks of the item cannot
      take it all. The remainder is then what they cannot take, and they are all full. */
  lemma {:induction false} RemainderIff(slots: seq<ItemStack>, rest: ItemStack, item: Item)
    requires AllFit(slots) && rest.Of(item) && rest.stackSize > 0
    ensures Room(slots, item) >= 0
    ensures var (slots', left) := Filled(slots, rest, item);
            && (left.Null() <==> HasBlank(slots) || rest.stackSize <= Room(slots, item))
            && (!left.Null() ==>
                  && left == Stack(item, rest.stackSize - Room(slots, item))
                  && forall i | 0 <= i < |slots'| && slots'[i].Of(item) :: slots'[i].stackSize == item.maxStacksize)
  {
    if slots != [] {
      var tail := slots[1..];
      assert HasBlank(slots) <==> slots[0].Null() || HasBlank(tail) by {
        if HasBlank(tail) {
          var i :| 0 <= i < |tail| && tail[i].Null();
          assert slots[i + 1].Null();
        }
      }
      RemainderIff(tail, rest, item);
      if slots[0].Of(item) {
        var (first, more) := Applied(slots[0], rest);
        if more.Stack? { RemainderIff(tail, more, item); }
      }
    }
  }

  /** The slots are filled in order: one changes only if those before it can take no more. */
  lemma {:induction false} FillingInOrder(slots: seq<ItemStack>, rest: ItemStack, item: Item, i: nat, j: nat)
    requires i < j < |slots| && rest.Of(item)
    ensures var (slots', left) := Filled(slots, rest, item);
            && |slots'| == |slots|
            && (slots'[j] != slots[j] ==>
                  slots'[i].Stack? && (slots'[i].Of(item) ==> slots'[i].stackSize == item.maxStacksize))
  {
    var (slots', left) := Filled(slots, rest, item);
    FillingKeepsLength(slots, rest, item);
    var tail, more := slots[1..], if Takes(slots[0], item) then Applied(slots[0], rest).1 else rest;
    FillingKeepsLength(tail, more, item);
    if more.Null() {
      assert Filled(tail, more, item).0 == tail;
      assert slots'[j] == tail[j - 1];
    } else if i > 0 {
      FillingInOrder(tail, more, item, i - 1, j - 1);
    }
  }

  lemma {:induction false} FillingKeepsLength(slots: seq<ItemStack>, rest: ItemStack, item: Item)
    ensures |Filled(slots, rest, item).0| == |slots|
  {
    if slots != [] && !rest.Null() {
      FillingKeepsLength(slots[1..], if Takes(slots[0], item) then Applied(slots[0], rest).1 else rest, item);
    }
  }

  /** However many slots there are: with all of them full the whole stack is the remainder. */
  lemma {:induction false} FullSlotsRefuse(n: nat, item: Item, amount: int)
    requires 0 < amount <= item.maxStacksize
    ensures var slots := seq(n, _ => Stack(item, item.maxStacksize));
            Filled(slots, Stack(item, amount), item) == (slots, Stack(item, amount))
  {
    var slots := seq(n, _ => Stack(item, item.maxStacksize));
    if n > 0 {
      assert slots[1..] == seq(n - 1, _ => Stack(item, item.maxStacksize));
      FullSlotsRefuse(n - 1, item, amount);
      assert [Stack(item, item.maxStacksize)] + slots[1..] == slots;
    }
  }

  // ---------------------------------------------------------------- the containers

  class TRItemContainer {
    var itemStack: ItemStack

    constructor ()
      ensures itemStack == Blank
    {
      itemStack := Blank;
    }

    method ApplyStack(src: ItemStack) returns (rest: ItemStack)
      modifies this
      ensures (itemStack, rest) == Applied(old(itemStack), src)
      ensures var was := old(itemStack);
              !(was.Stack? && src.Stack? && was.item == src.item) ==> itemStack == src && rest == was
      ensures var was := old(itemStack);
              was.Stack? && src.Stack? && was.item == src.item ==>
                && itemStack.Stack? && itemStack.item == was.item && itemStack.stackSize <= was.item.maxStacksize
                && (rest.Blank? || (rest.Stack? && rest.item == was.item && rest.stackSize > 0))
                && itemStack.stackSize + (if rest.Stack? then rest.stackSize else 0) == was.stackSize + src.stackSize
                && (rest.Stack? ==> itemStack.stackSize == was.item.maxStacksize)
    {
      itemStack, rest := Apply(itemStack, src);
    }
  }

  ghost function Stacks(inventory: seq<TRItemContainer>): seq<ItemStack>
    reads inventory
  { seq(|inventory|, i requires 0 <= i < |inventory| reads inventory => inventory[i].itemStack) }

  /** The slots before i are done, the others are as they were, and filling those will do. */
  ghost predicate Halfway(slots: seq<ItemStack>, stack: ItemStack, item: Item, now: seq<ItemStack>, i: nat,
      left: ItemStack) {
    && i <= |slots| == |now| && now[i..] == slots[i..]
    && Filled(slots[i..], left, item).1 == Filled(slots, stack, item).1
    && now[..i] + Filled(slots[i..], left, item).0 == Filled(slots, stack, item).0
  }

  lemma HalfwayStarts(slots: seq<ItemStack>, stack: ItemStack, item: Item)
    ensures Halfway(slots, stack, item, slots, 0, stack)
  {
    assert slots[0..] == slots;
    assert slots[..0] + Filled(slots, stack, item).0 == Filled(slots, stack, item).0;
  }

  lemma FilledStep(slots: seq<ItemStack>, rest: ItemStack, item: Item)
    requires slots != [] && !rest.Null()
    ensures var (first, more) := if Takes(slots[0], item) then Applied(slots[0], rest) else (slots[0], rest);
            Filled(slots, rest, item) == ([first] + Filled(slots[1..], more, item).0, Filled(slots[1..], more, item).1)
  {
    hide Applied, Takes;
  }

  lemma HalfwaySteps(slots: seq<ItemStack>, stack: ItemStack, item: Item, now: seq<ItemStack>, i: nat, left: ItemStack)
    requires Halfway(slots, stack, item, now, i, left) && i < |slots| && !left.Null()
    ensures var (first, more) := if Takes(slots[i], item) then Applied(slots[i], left) else (slots[i], left);
            Halfway(slots, stack, item, now[i := first], i + 1, more)
  {
    hide Applied, Takes, Filled, ItemStack.Null;
    FilledStep(slots[i..], left, item);
    var (first, more) := if Takes(slots[i], item) then Applied(slots[i], left) else (slots[i], left);
    assert slots[i..][0] == slots[i] && slots[i..][1..] == slots[i + 1..];
    var others := Filled(slots[i + 1..], more, item).0;
    var now' := now[i := first];
    assert now'[..i + 1] == now[..i] + [first] && now'[i + 1..] == now[i..][1..];
    assert now[..i] + ([first] + others) == now[..i] + [first] + others;
  }

  lemma HalfwayEnds(slots: seq<ItemStack>, stack: ItemStack, item: Item, now: seq<ItemStack>, i: nat, left: ItemStack)
    requires Halfway(slots, stack, item, now, i, left) && (i == |slots| || left.Null())
    ensures Filled(slots, stack, item) == (now, left)
  {
    assert now[..i] + now[i..] == now;
  }

  /** The slots are tried in order until the stack is used up. The source drops what is
      returned here. */
  method AddItemToInventory(inventory: seq<TRItemContainer>, stack: ItemStack) returns (returned: ItemStack)
    requires stack.Stack?
    requires forall i, j | 0 <= i < j < |inventory| :: inventory[i] != inventory[j]
    modifies inventory
    ensures (Stacks(inventory), returned) == Filled(old(Stacks(inventory)), stack, stack.item)
  {
    ghost var slots := Stacks(inventory);
    hide Halfway, Filled, Applied;
    HalfwayStarts(slots, stack, stack.item);
    returned := stack;
    var i := 0;
    while i < |inventory|
      invariant 0 <= i <= |inventory| && !returned.Null()
      invariant Halfway(slots, stack, stack.item, Stacks(inventory), i, returned)
    {
      ghost var now, left := Stacks(inventory), returned;
      HalfwayAt(slots, stack, stack.item, now, i, left);
      HalfwaySteps(slots, stack, stack.item, now, i, left);
      var container := inventory[i];
      if container.itemStack.Null() || container.itemStack.Of(stack.item) {
        returned := container.ApplyStack(returned);
      }
      assert Stacks(inventory) == now[i := container.itemStack];
      i := i + 1;
      if returned.Null() {
        break;
      }
    }
    HalfwayEnds(slots, stack, stack.item, Stacks(inventory), i, returned);
  }

  lemma HalfwayAt(slots: seq<ItemStack>, stack: ItemStack, item: Item, now: seq<ItemStack>, i: nat, left: ItemStack)
    requires Halfway(slots, stack, item, now, i, left) && i < |slots|
    ensures |now| == |slots| && now[i] == slots[i]
  {
    assert now[i..][0] == slots[i..][0];
  }
}
