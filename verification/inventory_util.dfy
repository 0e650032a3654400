/** `InventoryUtil.getStacks`: the non-empty stacks of an item handler, in
    slot order. A handler is its list of slots; Java `null` is `None`. */
module InventoryUtil {
  import opened Wrappers
  import opened GameTypes

  /** The non-empty stacks of `slots`, keeping their order. */
  function NonEmpty(slots: seq<ItemStack>): seq<ItemStack> {
    if |slots| == 0 then []
    else
      var last := slots[|slots| - 1];
      NonEmpty(slots[..|slots| - 1]) + (if StackIsEmpty(last) then [] else [last])
  }

  /** Filtering distributes over concatenation, so the filter keeps the
      relative order of the stacks it keeps. */
  lemma {:induction false} NonEmptyAppend(a: seq<ItemStack>, b: seq<ItemStack>)
    ensures NonEmpty(a + b) == NonEmpty(a) + NonEmpty(b)
  {
    if |b| == 0 {
      assert a + b == a;
    } else {
      var init := b[..|b| - 1];
      assert (a + b)[..|a + b| - 1] == a + init;
      NonEmptyAppend(a, init);
    }
  }

  /** A stack is kept exactly when it is in the slots and is not empty; the
      result is never longer than the slots. */
  lemma {:induction false} NonEmptyContents(slots: seq<ItemStack>)
    ensures forall x :: x in NonEmpty(slots) <==> x in slots && !StackIsEmpty(x)
    ensures |NonEmpty(slots)| <= |slots|
  {
    if |slots| > 0 {
      var init := slots[..|slots| - 1];
      NonEmptyContents(init);
      assert slots == init + [slots[|slots| - 1]];
    }
  }

  /** `getStacks(handler)`: nothing for a null handler, else each slot's
      stack that is not empty, by increasing slot. */
  method GetStacks(handler: Option<seq<ItemStack>>) returns (r: seq<ItemStack>)
    ensures handler.None? ==> r == []
    ensures handler.Some? ==> r == NonEmpty(handler.value)
    ensures forall i :: 0 <= i < |r| ==> !StackIsEmpty(r[i])
    ensures handler.Some? ==> |r| <= |handler.value|
  {
    if handler.None? {
      return [];
    }
    var slots := handler.value;
    r := [];
    var slot := 0;
    while slot < |slots|
      invariant 0 <= slot <= |slots|
      invariant r == NonEmpty(slots[..slot])
    {
      assert slots[..slot + 1][..slot] == slots[..slot];
      var stack := slots[slot];
      if !StackIsEmpty(stack) {
        r := r + [stack];
      }
      slot := slot + 1;
    }
    assert slots[..slot] == slots;
    NonEmptyContents(slots);
  }
}
