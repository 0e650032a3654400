/** The game-engine values the modelled code passes around. Most are opaque
    (an identity and nothing else); resource locations, registry keys, item
    and fluid stacks and compound tags carry the structure the code inspects. */
module GameTypes {
  import opened Wrappers
  import opened JavaInt
  import Text

  // ---------------------------------------------------------------------
  // ResourceLocation: `namespace:path`.

  datatype ResLoc = ResLoc(namespace: string, path: string)

  const DEFAULT_NAMESPACE: string := "minecraft"

  predicate NamespaceChar(c: char) {
    c == '_' || c == '-' || c == '.' || ('a' <= c <= 'z') || ('0' <= c <= '9')
  }

  predicate PathChar(c: char) { NamespaceChar(c) || c == '/' }

  predicate ValidNamespace(s: string) { forall i :: 0 <= i < |s| ==> NamespaceChar(s[i]) }
  predicate ValidPath(s: string) { forall i :: 0 <= i < |s| ==> PathChar(s[i]) }

  /** A location that survives `toString` followed by `parse` unchanged: its
      characters are legal and its namespace is spelled out. */
  predicate Printable(l: ResLoc) {
    ValidNamespace(l.namespace) && ValidPath(l.path) && |l.namespace| > 0
  }

  /** `ResourceLocation.toString()`. */
  function ResLocString(l: ResLoc): string {
    l.namespace + ":" + l.path
  }

  /** `ResourceLocation.parse`: split at the first ':'; no ':' or an empty
      namespace means the default namespace; illegal characters throw. */
  function ParseResLoc(s: string): (r: Option<ResLoc>)
    ensures r.Some? ==> ValidNamespace(r.value.namespace) && ValidPath(r.value.path)
  {
    var i := Text.IndexOf(s, ':');
    var l :=
      if i < 0 then ResLoc(DEFAULT_NAMESPACE, s)
      else if i == 0 then ResLoc(DEFAULT_NAMESPACE, s[1..])
      else ResLoc(s[..i], s[i + 1..]);
    if ValidNamespace(l.namespace) && ValidPath(l.path) then Some(l) else None
  }

  lemma ParsePrintedResLoc(l: ResLoc)
    requires Printable(l)
    ensures ParseResLoc(ResLocString(l)) == Some(l)
  {
    var s := ResLocString(l);
    assert s[..|l.namespace|] == l.namespace;
    assert s[|l.namespace|] == ':';
    var i := Text.IndexOf(s, ':');
    assert i == |l.namespace|;
    assert s[i + 1..] == l.path;
  }

  /** `ResourceKey`: an entry `location` of the registry named `registry`. */
  datatype ResourceKey = ResourceKey(registry: ResLoc, location: ResLoc)

  // ---------------------------------------------------------------------
  // Items, blocks and stacks.

  /** A registered item, identified by its registry name. */
  datatype Item = Item(key: ResLoc)

  /** A block, identified by its registry name. */
  datatype Block = Block(key: ResLoc)

  /** The names `BuiltInRegistries.BLOCK` holds. The registry's contents are
      game data, so the model takes them as an arbitrary fixed set. */
  const BLOCK_REGISTRY: set<ResLoc>

  /** The block registry's default entry. */
  const AIR_BLOCK: Block := Block(ResLoc("minecraft", "air"))

  /** `BuiltInRegistries.BLOCK.get(l)`: the registry is defaulted, so a name
      it does not hold gives air instead of null. */
  function BlockById(l: ResLoc): (b: Block)
    ensures b.key in BLOCK_REGISTRY || b == AIR_BLOCK
    ensures l in BLOCK_REGISTRY ==> b == Block(l)
    ensures b.key == l || b == AIR_BLOCK
  {
    if l in BLOCK_REGISTRY then Block(l) else AIR_BLOCK
  }

  /** `BuiltInRegistries.BLOCK.getKey(b)`: a block the registry does not hold,
      and `null` (`None`), are answered with the default's name. */
  function BlockName(b: Option<Block>): (l: ResLoc)
    ensures b.Some? && b.value.key in BLOCK_REGISTRY ==> l == b.value.key
    ensures l in BLOCK_REGISTRY || l == AIR_BLOCK.key
  {
    if b.Some? && b.value.key in BLOCK_REGISTRY then b.value.key else AIR_BLOCK.key
  }

  /** Looking a block's name back up gives the block when it is registered,
      and air otherwise. */
  lemma BlockNameById(b: Option<Block>)
    ensures BlockById(BlockName(b)) == if b.Some? && b.value.key in BLOCK_REGISTRY then b.value else AIR_BLOCK
  {
  }

  const AIR: Item := Item(ResLoc("minecraft", "air"))

  /** An item stack: the item and a count. */
  datatype ItemStack = ItemStack(item: Item, count: int)

  const EMPTY_STACK: ItemStack := ItemStack(AIR, 0)

  /** `ItemStack.isEmpty()`. */
  predicate StackIsEmpty(s: ItemStack) {
    s.item == AIR || s.count <= 0
  }

  /** `new ItemStack(item)`: a stack of one. */
  function StackOf(item: Item): ItemStack {
    ItemStack(item, 1)
  }

  /** Fluids are named by their numeric id in the fluid registry; id 0 is
      the registry's default, the empty fluid. */
  const EMPTY_FLUID: nat := 0

  datatype FluidStack = FluidStack(fluid: nat, amount: int)

  const EMPTY_FLUID_STACK: FluidStack := FluidStack(EMPTY_FLUID, 0)

  /** `FluidStack.isEmpty()`. */
  predicate FluidIsEmpty(s: FluidStack) {
    s.fluid == EMPTY_FLUID || s.amount <= 0
  }

  // ---------------------------------------------------------------------
  // Compound tags (NBT).

  /** String and compound tags are what the model reads; every other tag kind
      is an opaque leaf. */
  datatype Tag = StringTag(s: string) | CompoundTag(entries: map<string, Tag>) | OtherTag(id: nat)

  const EMPTY_COMPOUND: Tag := CompoundTag(map[])

  /** `CompoundTag.contains(key)`. */
  predicate TagContains(t: Tag, key: string) {
    t.CompoundTag? && key in t.entries
  }

  /** `CompoundTag.getCompound(key)`: a missing or non-compound entry reads as
      a fresh empty compound. */
  function GetCompound(t: Tag, key: string): (r: Tag)
    ensures r.CompoundTag?
  {
    if t.CompoundTag? && key in t.entries && t.entries[key].CompoundTag? then t.entries[key]
    else EMPTY_COMPOUND
  }

  /** `CompoundTag.getString(key)`: a missing or non-string entry reads as "". */
  function GetString(t: Tag, key: string): string {
    if t.CompoundTag? && key in t.entries && t.entries[key].StringTag? then t.entries[key].s
    else ""
  }

  /** `CompoundTag.put(key, value)`; a non-compound receiver is treated as empty. */
  function PutTag(t: Tag, key: string, value: Tag): (r: Tag)
    ensures r.CompoundTag? && key in r.entries && r.entries[key] == value
    ensures t.CompoundTag? ==> forall k :: k in t.entries && k != key ==> k in r.entries && r.entries[k] == t.entries[k]
  {
    var base := if t.CompoundTag? then t.entries else map[];
    CompoundTag(base[key := value])
  }

  // ---------------------------------------------------------------------
  // Opaque engine values: only their identity matters to the model.

  datatype BlockPos = BlockPos(x: i32, y: i32, z: i32)
  datatype Component = Component(id: nat)
  datatype Uuid = Uuid(most: i64, least: i64)
  datatype UpdatePacket = UpdatePacket(id: nat)
  datatype Locator = Locator(id: nat)
  datatype Ingredient = Ingredient(id: nat)
  datatype FloatBits = FloatBits(bits: bv32)
  datatype DoubleBits = DoubleBits(bits: bv64)

  /** `Ingredient.Value`: the two engine kinds and Titanium's
      `CollectionItemList`; `getItems()` lists the stacks of each. */
  datatype IngredientValue =
    | ItemValue(stack: ItemStack)
    | TagValue(tag: ResLoc, members: seq<ItemStack>)
    | CollectionItemList(stacks: seq<ItemStack>)

  function Items(v: IngredientValue): seq<ItemStack> {
    match v
    case ItemValue(s) => [s]
    case TagValue(_, ms) => ms
    case CollectionItemList(ss) => ss
  }
}
