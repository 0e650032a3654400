/** `TagUtil`: reading the entries of registry tags, and choosing one item
    of an item tag by mod preference. A registry is reduced to its bound
    tags, each an ordered list of entries. */
module TagUtil {
  import opened Wrappers
  import opened GameTypes
  import Text

  /** A tag's name within its registry. */
  datatype TagKey = TagKey(location: ResLoc)

  /** The bound tags of a registry and their entries, in registry order. */
  datatype Registry<T> = Registry(tags: map<TagKey, seq<T>>)

  /** `getTagOrEmpty(tag)` as a list of values: an unbound tag has none. */
  function Entries<T>(reg: Registry<T>, tag: TagKey): seq<T> {
    if tag in reg.tags then reg.tags[tag] else []
  }

  /** `hasTag(registry, value, tag)`: some entry of the tag is the value. */
  function HasTag<T(==)>(reg: Registry<T>, value: T, tag: TagKey): (b: bool)
    ensures b <==> tag in reg.tags && value in reg.tags[tag]
  {
    value in Entries(reg, tag)
  }

  /** The entries of every tag in turn. */
  function Concat<T>(reg: Registry<T>, tags: seq<TagKey>): seq<T> {
    if |tags| == 0 then [] else Concat(reg, tags[..|tags| - 1]) + Entries(reg, tags[|tags| - 1])
  }

  /** A value is among the concatenated entries exactly when one of the tags
      holds it. */
  lemma {:induction false} ConcatHolds<T>(reg: Registry<T>, tags: seq<TagKey>, x: T)
    ensures x in Concat(reg, tags) <==> exists i :: 0 <= i < |tags| && x in Entries(reg, tags[i])
  {
    if |tags| > 0 {
      var init := tags[..|tags| - 1];
      ConcatHolds(reg, init, x);
      if x in Concat(reg, tags) && x !in Entries(reg, tags[|tags| - 1]) {
        var i :| 0 <= i < |init| && x in Entries(reg, init[i]);
        assert tags[i] == init[i];
      }
      if i :| 0 <= i < |tags| && x in Entries(reg, tags[i]) {
        if i < |init| {
          assert init[i] == tags[i];
        }
      }
    }
  }

  /** The length is the sum of the tags' sizes: duplicates are kept. */
  function TotalSize<T>(reg: Registry<T>, tags: seq<TagKey>): nat {
    if |tags| == 0 then 0 else TotalSize(reg, tags[..|tags| - 1]) + |Entries(reg, tags[|tags| - 1])|
  }

  lemma {:induction false} ConcatSize<T>(reg: Registry<T>, tags: seq<TagKey>)
    ensures |Concat(reg, tags)| == TotalSize(reg, tags)
  {
    if |tags| > 0 {
      ConcatSize(reg, tags[..|tags| - 1]);
    }
  }

  /** `getAllEntries(registry, tags...)`: no tags give the empty list, one
      tag its own entries, several the entries of each in argument order. */
  method GetAllEntries<T>(reg: Registry<T>, tags: seq<TagKey>) returns (r: seq<T>)
    ensures |tags| == 0 ==> r == []
    ensures |tags| == 1 ==> r == Entries(reg, tags[0])
    ensures r == Concat(reg, tags)
  {
    if |tags| == 0 {
      return [];
    }
    if |tags| == 1 {
      assert tags[..0] == [];
      return Entries(reg, tags[0]);
    }
    r := [];
    var i := 0;
    while i < |tags|
      invariant 0 <= i <= |tags|
      invariant r == Concat(reg, tags[..i])
    {
      assert tags[..i + 1][..i] == tags[..i];
      r := r + Entries(reg, tags[i]);
      i := i + 1;
    }
    assert tags[..|tags|] == tags;
  }

  // -----------------------------------------------------------------------
  // Preferred item of a tag.

  datatype TagError = IndexOutOfBounds   // `elements.get(0)` of a bound but empty tag

  /** The item's mod matches a preferred mod id, ignoring case. */
  predicate FromMod(item: Item, modid: string) {
    Text.EqualsIgnoreCase(item.key.namespace, modid)
  }

  /** A registered item's namespace is ASCII (`ResourceLocation` admits only
      `[a-z0-9_.-]`), so a configured mod id matches it exactly by the
      reference character match: the same letter in either case, or one of
      the four non-ASCII characters whose case mapping is that letter. */
  lemma FromModReference(item: Item, modid: string)
    requires ValidNamespace(item.key.namespace)
    ensures FromMod(item, modid) <==>
              |modid| == |item.key.namespace| &&
              forall i :: 0 <= i < |modid| ==> Text.AsciiFoldMatch(item.key.namespace[i], modid[i])
  {
    var ns := item.key.namespace;
    assert forall i :: 0 <= i < |ns| ==> NamespaceChar(ns[i]);
    Text.AsciiEqualsIgnoreCase(ns, modid);
  }

  /** Configured mod ids that spell a namespace with a dotless i or a Kelvin
      sign still select that mod's items, as `equalsIgnoreCase` folds them. */
  lemma UnicodeModIdsMatch()
    ensures var elements := [Item(ResLoc("minecraft", "iron_ingot")), Item(ResLoc("mekanism", "ingot_iron")),
                             Item(ResLoc("kubejs", "iron"))];
            && FirstPref(elements, ["MEKAN" + [Text.DOTLESS_SMALL_I] + "SM"]) == 0
            && FirstFromMod(elements, ["MEKAN" + [Text.DOTLESS_SMALL_I] + "SM"][0]) == 1
            && FirstFromMod(elements, [Text.KELVIN_SIGN] + "ubejs") == 2
  {
    var elements := [Item(ResLoc("minecraft", "iron_ingot")), Item(ResLoc("mekanism", "ingot_iron")),
                     Item(ResLoc("kubejs", "iron"))];
    var mek := "MEKAN" + [Text.DOTLESS_SMALL_I] + "SM";
    var kube := [Text.KELVIN_SIGN] + "ubejs";
    assert !FromMod(elements[0], mek) by { assert |mek| == 8; }
    assert FromMod(elements[1], mek) by {
      assert forall i :: 0 <= i < 8 ==> Text.CharsMatchIgnoreCase("mekanism"[i], mek[i]);
    }
    assert FirstFromMod(elements, mek) == 1 by { FirstIsFirst(elements, mek, 1); }
    assert !FromMod(elements[0], kube) by { assert |kube| == 6; }
    assert !FromMod(elements[1], kube) by { assert |kube| == 6; }
    assert FromMod(elements[2], kube) by {
      assert forall i :: 0 <= i < 6 ==> Text.CharsMatchIgnoreCase("kubejs"[i], kube[i]);
    }
    FirstIsFirst(elements, kube, 2);
    FirstPrefIs(elements, [mek], 0);
  }

  /** The position of the first element from `modid`, or `|elements|`. */
  function FirstFromMod(elements: seq<Item>, modid: string): (i: nat)
    ensures i <= |elements|
    ensures forall j :: 0 <= j < i ==> !FromMod(elements[j], modid)
    ensures i < |elements| ==> FromMod(elements[i], modid)
  {
    if |elements| == 0 then 0
    else if FromMod(elements[0], modid) then 0
    else 1 + FirstFromMod(elements[1..], modid)
  }

  /** The position of the first preferred mod id that some element is from,
      or `|prefs|`. */
  function FirstPref(elements: seq<Item>, prefs: seq<string>): (p: nat)
    ensures p <= |prefs|
    ensures forall q :: 0 <= q < p ==> FirstFromMod(elements, prefs[q]) == |elements|
    ensures p < |prefs| ==> FirstFromMod(elements, prefs[p]) < |elements|
  {
    if |prefs| == 0 then 0
    else if FirstFromMod(elements, prefs[0]) < |elements| then 0
    else 1 + FirstPref(elements, prefs[1..])
  }

  /** No preferred mod is found exactly when no element is from any of them. */
  lemma NoPreferredMod(elements: seq<Item>, prefs: seq<string>)
    ensures FirstPref(elements, prefs) == |prefs| <==>
              forall p, j :: 0 <= p < |prefs| && 0 <= j < |elements| ==> !FromMod(elements[j], prefs[p])
  {
    var p := FirstPref(elements, prefs);
    if p < |prefs| {
      var j := FirstFromMod(elements, prefs[p]);
      assert FromMod(elements[j], prefs[p]);
    }
  }

  /** The preference loops: for each mod id in order, the first element from
      that mod. */
  method PreferredElement(elements: seq<Item>, prefs: seq<string>) returns (r: Option<Item>)
    ensures r.None? <==> FirstPref(elements, prefs) == |prefs|
    ensures r.Some? ==> r.value == elements[FirstFromMod(elements, prefs[FirstPref(elements, prefs)])]
  {
    var p := 0;
    while p < |prefs|
      invariant 0 <= p <= |prefs|
      invariant forall q :: 0 <= q < p ==> FirstFromMod(elements, prefs[q]) == |elements|
    {
      var j := 0;
      while j < |elements|
        invariant 0 <= j <= |elements|
        invariant forall k :: 0 <= k < j ==> !FromMod(elements[k], prefs[p])
      {
        if FromMod(elements[j], prefs[p]) {
          FirstIsFirst(elements, prefs[p], j);
          FirstPrefIs(elements, prefs, p);
          return Some(elements[j]);
        }
        j := j + 1;
      }
      FirstIsFirst(elements, prefs[p], j);
      p := p + 1;
    }
    FirstPrefIs(elements, prefs, p);
    return None;
  }

  /** A position with nothing matching before it, and a match there or at
      the end, is the first match. */
  lemma FirstIsFirst(elements: seq<Item>, modid: string, j: nat)
    requires j <= |elements|
    requires forall k :: 0 <= k < j ==> !FromMod(elements[k], modid)
    requires j < |elements| ==> FromMod(elements[j], modid)
    ensures FirstFromMod(elements, modid) == j
  {
  }

  lemma FirstPrefIs(elements: seq<Item>, prefs: seq<string>, p: nat)
    requires p <= |prefs|
    requires forall q :: 0 <= q < p ==> FirstFromMod(elements, prefs[q]) == |elements|
    requires p < |prefs| ==> FirstFromMod(elements, prefs[p]) < |elements|
    ensures FirstPref(elements, prefs) == p
  {
  }

  /** `getItemWithPreference(tag)`: the adapter's preferred item when it
      names one; the empty stack for an unbound tag; else the first element of
      the first preferred mod that has one; else the tag's first element. */
  method ItemWithPreference(itemTags: Registry<Item>, tag: TagKey, adapterChoice: Option<Item>,
                            prefs: seq<string>) returns (r: Result<ItemStack, TagError>)
    ensures adapterChoice.Some? ==> r == Ok(StackOf(adapterChoice.value))
    ensures adapterChoice.None? && tag !in itemTags.tags ==> r == Ok(EMPTY_STACK)
    ensures adapterChoice.None? && tag in itemTags.tags ==>
              var elements := itemTags.tags[tag];
              var p := FirstPref(elements, prefs);
              if p < |prefs| then r == Ok(StackOf(elements[FirstFromMod(elements, prefs[p])]))
              else if |elements| == 0 then r == Err(IndexOutOfBounds)
              else r == Ok(StackOf(elements[0]))
  {
    if adapterChoice.Some? {
      return Ok(StackOf(adapterChoice.value));
    }
    if tag !in itemTags.tags {
      return Ok(EMPTY_STACK);
    }
    var elements := itemTags.tags[tag];
    var choice := PreferredElement(elements, prefs);
    if choice.Some? {
      return Ok(StackOf(choice.value));
    }
    if |elements| == 0 {
      return Err(IndexOutOfBounds);
    }
    return Ok(StackOf(elements[0]));
  }
}
