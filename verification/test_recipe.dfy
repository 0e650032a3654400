/** `TestSerializableRecipe`: the sample recipe sent through
    `GenericSerializer`. It has four public static fields (the serializer and
    type holders, the list of every recipe built with the three-argument
    constructor, the map codec) and three public instance fields (`input`,
    `output`, `block`). Only the instance fields travel. */
module TestRecipe {
  import opened Wrappers
  import opened GameTypes
  import opened Reflect
  import opened Wire
  import opened CompoundCodec
  import opened FieldWalk
  import GenericSerializer

  const PUBLIC: Modifiers := Modifiers(true, false, false, false)
  const PUBLIC_STATIC: Modifiers := Modifiers(true, true, false, false)
  const PUBLIC_STATIC_FINAL: Modifiers := Modifiers(true, true, true, false)

  const SERIALIZER_FIELD: Field := Field("SERIALIZER", PUBLIC_STATIC, ClassType("Holder"))
  const RECIPE_TYPE_FIELD: Field := Field("RECIPE_TYPE", PUBLIC_STATIC, ClassType("Holder"))
  const RECIPES_FIELD: Field := Field("RECIPES", PUBLIC_STATIC_FINAL, ClassType("List"))
  const CODEC_FIELD: Field := Field("CODEC", PUBLIC_STATIC_FINAL, ClassType("MapCodec"))
  const INPUT_FIELD: Field := Field("input", PUBLIC, IngredientType)
  const OUTPUT_FIELD: Field := Field("output", PUBLIC, ItemStackType)
  const BLOCK_FIELD: Field := Field("block", PUBLIC, BlockType)

  const STATIC_FIELDS: seq<Field> := [SERIALIZER_FIELD, RECIPE_TYPE_FIELD, RECIPES_FIELD, CODEC_FIELD]
  const INSTANCE_FIELDS: seq<Field> := [INPUT_FIELD, OUTPUT_FIELD, BLOCK_FIELD]

  /** The class as reflection sees it, fields in declaration order. Static
      fields appear in `getFields()` like instance fields; the object model
      gives them a slot that always holds null, since no instance owns them. */
  const RECIPE_CLASS: ClassDesc :=
    ClassDesc("TestSerializableRecipe", STATIC_FIELDS + INSTANCE_FIELDS, [], true,
              NullSlots(STATIC_FIELDS + INSTANCE_FIELDS))

  /** Every field null: what the no-argument constructor leaves when no
      field has a primitive type. */
  function NullSlots(fs: seq<Field>): (m: map<string, Value>)
    ensures m.Keys == Names(fs)
  {
    map n | n in Names(fs) :: VNull
  }

  /** `TestSerializableRecipe.SERIALIZER`'s network half. */
  const RECIPE_SERIALIZER: GenericSerializer.Serializer := GenericSerializer.Serializer(RECIPE_CLASS)

  /** An instance; `None` is a null field. */
  datatype Recipe = Recipe(input: Option<Ingredient>, output: Option<ItemStack>, block: Option<Block>)

  predicate Complete(r: Recipe) {
    r.input.Some? && r.output.Some? && r.block.Some?
  }

  function IngredientValue(i: Option<Ingredient>): Value {
    if i.Some? then VIngredient(i.value) else VNull
  }

  function StackValue(s: Option<ItemStack>): Value {
    if s.Some? then VItemStack(s.value) else VNull
  }

  function BlockValue(b: Option<Block>): Value {
    if b.Some? then VBlock(b.value) else VNull
  }

  /** Names are distinct and the blank instance has a slot for each. */
  lemma RecipeClassShape()
    ensures WellFormedClass(RECIPE_CLASS)
    ensures "input" in RECIPE_CLASS.noArgInit && "output" in RECIPE_CLASS.noArgInit && "block" in RECIPE_CLASS.noArgInit
  {
    assert AllFields(RECIPE_CLASS) == STATIC_FIELDS + INSTANCE_FIELDS;
    assert INPUT_FIELD in STATIC_FIELDS + INSTANCE_FIELDS;
    assert OUTPUT_FIELD in STATIC_FIELDS + INSTANCE_FIELDS;
    assert BLOCK_FIELD in STATIC_FIELDS + INSTANCE_FIELDS;
  }

  /** Setting the three instance slots keeps the key set and every other slot. */
  lemma InstanceSlotsUpdated(m: map<string, Value>, input: Value, output: Value, block: Value)
    requires "input" in m && "output" in m && "block" in m
    ensures m["input" := input]["output" := output]["block" := block].Keys == m.Keys
    ensures forall k :: k in m && k != "input" && k != "output" && k != "block" ==>
              m["input" := input]["output" := output]["block" := block][k] == m[k]
  {
  }

  /** The reflective view of an instance. */
  function AsObj(r: Recipe): (o: Obj)
    ensures WellFormedObj(o) && o.cls == RECIPE_CLASS
    ensures o.fields["input"] == IngredientValue(r.input)
    ensures o.fields["output"] == StackValue(r.output)
    ensures o.fields["block"] == BlockValue(r.block)
  {
    RecipeClassShape();
    SetSlots(RECIPE_CLASS, IngredientValue(r.input), StackValue(r.output), BlockValue(r.block))
  }

  /** The blank instance of a well-formed class with its three instance slots set. */
  function SetSlots(c: ClassDesc, input: Value, output: Value, block: Value): (o: Obj)
    requires WellFormedClass(c)
    requires "input" in c.noArgInit && "output" in c.noArgInit && "block" in c.noArgInit
    ensures WellFormedObj(o) && o.cls == c
    ensures o.fields["input"] == input && o.fields["output"] == output && o.fields["block"] == block
    ensures o.fields.Keys == c.noArgInit.Keys
    ensures forall k :: k in c.noArgInit && k != "input" && k != "output" && k != "block" ==>
              o.fields[k] == c.noArgInit[k]
  {
    InstanceSlotsUpdated(c.noArgInit, input, output, block);
    Obj(c, c.noArgInit["input" := input]["output" := output]["block" := block])
  }

  // -----------------------------------------------------------------------
  // Constructors and the recipe list.

  /** The static state the class keeps: `RECIPES`. */
  datatype Statics = Statics(recipes: seq<Recipe>)

  /** The three-argument constructor stores its arguments and appends the new
      recipe to `RECIPES`. */
  function NewRecipe(st: Statics, input: Ingredient, output: ItemStack, block: Block): (r: (Recipe, Statics))
    ensures Complete(r.0)
    ensures r.0.input == Some(input) && r.0.output == Some(output) && r.0.block == Some(block)
    ensures |r.1.recipes| == |st.recipes| + 1
    ensures r.1.recipes[..|st.recipes|] == st.recipes && r.1.recipes[|st.recipes|] == r.0
  {
    var recipe := Recipe(Some(input), Some(output), Some(block));
    (recipe, Statics(st.recipes + [recipe]))
  }

  /** The no-argument constructor leaves every field null and registers
      nothing; it is the one `fromNetwork` calls. */
  function NewBlankRecipe(st: Statics): (r: (Recipe, Statics))
    ensures r.1 == st
    ensures AsObj(r.0) == NewInstance(RECIPE_CLASS).value
  {
    var blank := Recipe(None, None, None);
    assert AsObj(blank).fields == RECIPE_CLASS.noArgInit;
    (blank, st)
  }

  const OAK_SAPLING: Item := Item(ResLoc("minecraft", "oak_sapling"))
  const STICK: Item := Item(ResLoc("minecraft", "stick"))
  const DIAMOND: Item := Item(ResLoc("minecraft", "diamond"))
  const DIAMOND_PICKAXE: Item := Item(ResLoc("minecraft", "diamond_pickaxe"))
  const DIRT_ITEM: Item := Item(ResLoc("minecraft", "dirt"))
  const STONE_ITEM: Item := Item(ResLoc("minecraft", "stone"))
  const STONE: Block := Block(ResLoc("minecraft", "stone"))
  const DIRT: Block := Block(ResLoc("minecraft", "dirt"))

  /** The static initializer: three recipes built with the three-argument
      constructor, so `RECIPES` holds them in order. `Ingredient.of` is an
      engine call and comes in as a parameter. */
  function ClassInit(ingredientOf: ItemStack -> Ingredient): (st: Statics)
    ensures |st.recipes| == 3
    ensures forall i :: 0 <= i < 3 ==> Complete(st.recipes[i])
    ensures st.recipes[0] == Recipe(Some(ingredientOf(StackOf(OAK_SAPLING))), Some(ItemStack(STICK, 3)), Some(STONE))
    ensures st.recipes[1] == Recipe(Some(ingredientOf(StackOf(DIRT_ITEM))), Some(ItemStack(DIAMOND, 1)), Some(DIRT))
    ensures st.recipes[2] == Recipe(Some(ingredientOf(StackOf(STONE_ITEM))), Some(ItemStack(DIAMOND_PICKAXE, 1)), Some(DIRT))
  {
    var s0 := Statics([]);
    var s1 := NewRecipe(s0, ingredientOf(StackOf(OAK_SAPLING)), ItemStack(STICK, 3), STONE).1;
    var s2 := NewRecipe(s1, ingredientOf(StackOf(DIRT_ITEM)), ItemStack(DIAMOND, 1), DIRT).1;
    NewRecipe(s2, ingredientOf(StackOf(STONE_ITEM)), ItemStack(DIAMOND_PICKAXE, 1), DIRT).1
  }

  // -----------------------------------------------------------------------
  // Recipe behaviour. `Ingredient.test` is the engine's matcher and comes in
  // as a parameter.

  datatype RecipeError = NullPointer | IndexOutOfBounds

  /** `matches`: the input ingredient tested against slot 0 of the crafting
      input. Java evaluates the argument `inv.getItem(0)` before it calls
      through the receiver, so an empty crafting input, which has no slot 0,
      throws even when the input is null. */
  function Matches(r: Recipe, inv: seq<ItemStack>, test: (Ingredient, ItemStack) -> bool): (res: Result<bool, RecipeError>)
    ensures res.Ok? <==> r.input.Some? && |inv| > 0
    ensures |inv| == 0 ==> res == Err(IndexOutOfBounds)
    ensures |inv| > 0 && r.input.None? ==> res == Err(NullPointer)
    ensures res.Ok? ==> res.value == test(r.input.value, inv[0])
  {
    if |inv| == 0 then Err(IndexOutOfBounds)
    else if r.input.None? then Err(NullPointer)
    else Ok(test(r.input.value, inv[0]))
  }

  /** Only slot 0 is looked at. */
  lemma MatchesFirstSlotOnly(r: Recipe, a: seq<ItemStack>, b: seq<ItemStack>, test: (Ingredient, ItemStack) -> bool)
    requires |a| > 0 && |b| > 0 && a[0] == b[0]
    ensures Matches(r, a, test) == Matches(r, b, test)
  {
  }

  /** `assemble`: a copy of the output; a null output throws. */
  function Assemble(r: Recipe): (res: Result<ItemStack, RecipeError>)
    ensures res.Ok? <==> r.output.Some?
    ensures res.Ok? ==> res.value == r.output.value
  {
    if r.output.Some? then Ok(r.output.value) else Err(NullPointer)
  }

  /** `getResultItem`: the output itself, possibly null. */
  function ResultItem(r: Recipe): (res: Option<ItemStack>)
    ensures res.Some? <==> r.output.Some?
  {
    r.output
  }

  /** What `assemble` crafts is what `getResultItem` advertises. */
  lemma AssembleGivesResultItem(r: Recipe)
    ensures Assemble(r).Ok? <==> ResultItem(r).Some?
    ensures Assemble(r).Ok? ==> Assemble(r).value == ResultItem(r).value
  {
  }

  /** `canCraftInDimensions`: the recipe fits no crafting grid. */
  function CanCraftInDimensions(width: int, height: int): (res: bool)
    ensures !res
  {
    false
  }

  /** `isValid`: the ingredient accepts the stack and the block is the
      recipe's, compared by reference, so a null block argument matches a
      recipe whose block is null. The ingredient is dereferenced first, so a
      null input throws whatever the block. */
  function IsValid(r: Recipe, stack: ItemStack, block: Option<Block>, test: (Ingredient, ItemStack) -> bool)
    : (res: Result<bool, RecipeError>)
    ensures res.Err? <==> r.input.None?
    ensures res.Ok? ==> (res.value <==> test(r.input.value, stack) && r.block == block)
    ensures r.input.Some? && r.block.None? && block.None? ==> res == Ok(test(r.input.value, stack))
  {
    if r.input.None? then Err(NullPointer)
    else Ok(test(r.input.value, stack) && r.block == block)
  }

  /** A stack valid for the recipe also matches it from slot 0. */
  lemma ValidMatches(r: Recipe, stack: ItemStack, block: Option<Block>, more: seq<ItemStack>,
                     test: (Ingredient, ItemStack) -> bool)
    requires IsValid(r, stack, block, test) == Ok(true)
    ensures Matches(r, [stack] + more, test) == Ok(true)
  {
  }

  /** Every registered recipe is valid on its own block for exactly the
      stacks its ingredient accepts. */
  lemma RegisteredRecipesValid(ingredientOf: ItemStack -> Ingredient, i: nat, stack: ItemStack,
                               test: (Ingredient, ItemStack) -> bool)
    requires i < 3
    ensures var r := ClassInit(ingredientOf).recipes[i];
            IsValid(r, stack, r.block, test) == Ok(test(r.input.value, stack))
  {
    assert Complete(ClassInit(ingredientOf).recipes[i]);
  }

  // -----------------------------------------------------------------------
  // The network walk.

  /** `getFields()` lists all seven; the modifier test drops the four static
      ones before their types are looked up, which matters because no
      handler exists for them: a lookup would throw. */
  lemma StaticsSkipped()
    ensures PublicFields(RECIPE_CLASS) == STATIC_FIELDS + INSTANCE_FIELDS
    ensures EligibleNames(PublicFields(RECIPE_CLASS)) == {"input", "output", "block"}
    ensures forall i :: 0 <= i < |STATIC_FIELDS| ==> AcceptField(DEFAULT_TABLE, STATIC_FIELDS[i]) == Ok(false)
    ensures forall i :: 0 <= i < |STATIC_FIELDS| ==> STATIC_FIELDS[i].ty !in DEFAULT_TABLE
  {
    RecipeEligible();
    StaticsExcluded();
    StaticsUnhandled();
  }

  lemma RecipeEligible()
    ensures PublicFields(RECIPE_CLASS) == STATIC_FIELDS + INSTANCE_FIELDS
    ensures EligibleNames(PublicFields(RECIPE_CLASS)) == {"input", "output", "block"}
  {
    RecipePublicFields();
    EligibleConcat(STATIC_FIELDS, INSTANCE_FIELDS);
    StaticsExcluded();
    InstanceEligible();
  }

  lemma StaticsUnhandled()
    ensures forall i :: 0 <= i < |STATIC_FIELDS| ==> STATIC_FIELDS[i].ty !in DEFAULT_TABLE
  {
    ClassTypeUnhandled("Holder");
    ClassTypeUnhandled("List");
    ClassTypeUnhandled("MapCodec");
  }

  lemma RecipePublicFields()
    ensures PublicFields(RECIPE_CLASS) == STATIC_FIELDS + INSTANCE_FIELDS
  {
    var fs := STATIC_FIELDS + INSTANCE_FIELDS;
    assert forall i :: 0 <= i < |fs| ==> fs[i].mods.isPublic by {
      assert forall i :: 0 <= i < |STATIC_FIELDS| ==> STATIC_FIELDS[i].mods.isPublic;
      assert forall i :: 0 <= i < |INSTANCE_FIELDS| ==> INSTANCE_FIELDS[i].mods.isPublic;
    }
    PublicOfAllPublic(fs);
    assert fs + [] == fs;
  }

  /** No handler is registered for a type outside the fixed list. */
  lemma ClassTypeUnhandled(name: string)
    ensures ClassType(name) !in DEFAULT_TABLE
  {
  }

  lemma StaticsExcluded()
    ensures forall i :: 0 <= i < |STATIC_FIELDS| ==> Excluded(STATIC_FIELDS[i].mods)
    ensures EligibleNames(STATIC_FIELDS) == {}
  {
  }

  lemma EligibleConcat(a: seq<Field>, b: seq<Field>)
    ensures EligibleNames(a + b) == EligibleNames(a) + EligibleNames(b)
  {
    assert forall f :: f in a + b <==> f in a || f in b;
  }

  lemma InstanceEligible()
    ensures EligibleNames(INSTANCE_FIELDS) == {"input", "output", "block"}
  {
    assert forall f :: f in INSTANCE_FIELDS <==> f == INPUT_FIELD || f == OUTPUT_FIELD || f == BLOCK_FIELD;
  }

  lemma {:induction false} PublicOfAllPublic(fs: seq<Field>)
    requires forall i :: 0 <= i < |fs| ==> fs[i].mods.isPublic
    ensures PublicOf(fs) == fs
  {
    if |fs| > 0 {
      PublicOfAllPublic(fs[1..]);
    }
  }

  lemma RecipeHandlers()
    ensures IngredientType in DEFAULT_TABLE && DEFAULT_TABLE[IngredientType] == IngredientCodec
    ensures ItemStackType in DEFAULT_TABLE && DEFAULT_TABLE[ItemStackType] == ItemStackCodec
    ensures BlockType in DEFAULT_TABLE && DEFAULT_TABLE[BlockType] == BlockCodec
  {
  }

  lemma RecipeWriters(i: Ingredient, s: ItemStack, b: Block)
    ensures Write(IngredientCodec, VIngredient(i)) == Ok([IngredientTok(i)])
    ensures Write(ItemStackCodec, VItemStack(s)) == Ok([ItemStackTok(s)])
    ensures Write(BlockCodec, VBlock(b)) == Ok([ResLocTok(BlockName(Some(b)))])
  {
  }

  /** The payload of a complete recipe: the ingredient, the output stack and
      the block's registry name, in that order. */
  lemma RecipePayload(r: Recipe)
    requires Complete(r)
    ensures GenericSerializer.Covers(RECIPE_SERIALIZER, AsObj(r))
    ensures GenericSerializer.ToNetwork(DEFAULT_TABLE, RECIPE_SERIALIZER, AsObj(r))
              == [IngredientTok(r.input.value), ItemStackTok(r.output.value), ResLocTok(BlockName(r.block))]
  {
    RecipePublicFields();
    RecipeNames();
    var w := Written([IngredientTok(r.input.value), ItemStackTok(r.output.value), ResLocTok(BlockName(r.block))], None);
    RecipeWalkWrites(AsObj(r).fields, r.input.value, r.output.value, r.block.value);
    NetworkWrites(RECIPE_SERIALIZER, AsObj(r), STATIC_FIELDS + INSTANCE_FIELDS, w);
  }

  /** `toNetwork` is the write walk over the public fields. */
  lemma NetworkWrites(s: GenericSerializer.Serializer, recipe: Obj, fs: seq<Field>, w: Written)
    requires GenericSerializer.Covers(s, recipe) && PublicFields(s.recipeClass) == fs
    requires Names(fs) <= recipe.fields.Keys && WriteFields(DEFAULT_TABLE, fs, recipe.fields) == w
    ensures GenericSerializer.ToNetwork(DEFAULT_TABLE, s, recipe) == w.tokens
  {
  }

  lemma RecipeWalkWrites(vals: map<string, Value>, i: Ingredient, s: ItemStack, b: Block)
    requires Names(STATIC_FIELDS + INSTANCE_FIELDS) <= vals.Keys
    requires "input" in vals && "output" in vals && "block" in vals
    requires vals["input"] == VIngredient(i) && vals["output"] == VItemStack(s) && vals["block"] == VBlock(b)
    ensures WriteFields(DEFAULT_TABLE, STATIC_FIELDS + INSTANCE_FIELDS, vals)
              == Written([IngredientTok(i), ItemStackTok(s), ResLocTok(BlockName(Some(b)))], None)
  {
    StaticsExcluded();
    SkipExcludedPrefix(DEFAULT_TABLE, STATIC_FIELDS, INSTANCE_FIELDS, vals, vals, []);
    InstanceWrites(vals, i, s, b);
  }

  lemma RecipeNames()
    ensures Names(STATIC_FIELDS + INSTANCE_FIELDS) == RECIPE_CLASS.noArgInit.Keys
  {
  }

  lemma InstanceWrites(vals: map<string, Value>, i: Ingredient, s: ItemStack, b: Block)
    requires "input" in vals && vals["input"] == VIngredient(i)
    requires "output" in vals && vals["output"] == VItemStack(s)
    requires "block" in vals && vals["block"] == VBlock(b)
    ensures Names(INSTANCE_FIELDS) <= vals.Keys
    ensures WriteFields(DEFAULT_TABLE, INSTANCE_FIELDS, vals)
              == Written([IngredientTok(i), ItemStackTok(s), ResLocTok(BlockName(Some(b)))], None)
  {
    RecipeHandlers();
    RecipeWriters(i, s, b);
    OutputBlockWrites(vals, s, b);
    WriteCons(DEFAULT_TABLE, INPUT_FIELD, [OUTPUT_FIELD, BLOCK_FIELD], vals, [IngredientTok(i)]);
    assert [INPUT_FIELD] + [OUTPUT_FIELD, BLOCK_FIELD] == INSTANCE_FIELDS;
  }

  lemma OutputBlockWrites(vals: map<string, Value>, s: ItemStack, b: Block)
    requires "output" in vals && vals["output"] == VItemStack(s)
    requires "block" in vals && vals["block"] == VBlock(b)
    ensures Names([OUTPUT_FIELD, BLOCK_FIELD]) <= vals.Keys
    ensures WriteFields(DEFAULT_TABLE, [OUTPUT_FIELD, BLOCK_FIELD], vals) == Written([ItemStackTok(s), ResLocTok(BlockName(Some(b)))], None)
  {
    RecipeHandlers();
    RecipeWriters(Ingredient(0), s, b);
    WriteLast(DEFAULT_TABLE, BLOCK_FIELD, vals, [ResLocTok(BlockName(Some(b)))]);
    assert Names([BLOCK_FIELD]) == {"block"};
    WriteCons(DEFAULT_TABLE, OUTPUT_FIELD, [BLOCK_FIELD], vals, [ItemStackTok(s)]);
    assert [OUTPUT_FIELD] + [BLOCK_FIELD] == [OUTPUT_FIELD, BLOCK_FIELD];
  }

  /** A recipe built with the no-argument constructor and never filled
      writes nothing: the input field is the first one written, its writer
      throws on null, and `toNetwork` swallows the exception. */
  lemma NullInputWritesNothing(r: Recipe)
    requires r.input.None?
    ensures GenericSerializer.Covers(RECIPE_SERIALIZER, AsObj(r))
    ensures GenericSerializer.ToNetwork(DEFAULT_TABLE, RECIPE_SERIALIZER, AsObj(r)) == []
  {
    var vals := AsObj(r).fields;
    RecipePublicFields();
    StaticsExcluded();
    RecipeNames();
    SkipExcludedPrefix(DEFAULT_TABLE, STATIC_FIELDS, INSTANCE_FIELDS, vals, vals, []);
    NullInputStops(vals);
  }

  lemma NullInputStops(vals: map<string, Value>)
    requires Names(INSTANCE_FIELDS) <= vals.Keys && vals["input"] == VNull
    ensures WriteFields(DEFAULT_TABLE, INSTANCE_FIELDS, vals) == Written([], Some(NullValue))
  {
    RecipeHandlers();
    assert AcceptField(DEFAULT_TABLE, INPUT_FIELD) == Ok(true);
  }

  /** Every eligible field of a recipe whose three instance fields are set
      has a handler that writes and reads it back. */
  lemma PublicFieldsTransmissible(vals: map<string, Value>, i: Ingredient, s: ItemStack, b: Block)
    requires "input" in vals && vals["input"] == VIngredient(i)
    requires "output" in vals && vals["output"] == VItemStack(s)
    requires "block" in vals && vals["block"] == VBlock(b)
    ensures Transmissible(DEFAULT_TABLE, PublicFields(RECIPE_CLASS), vals)
  {
    RecipePublicFields();
    StaticsExcluded();
    InstancesTransmissible(vals, i, s, b);
    TransmissibleBehindExcluded(DEFAULT_TABLE, STATIC_FIELDS, INSTANCE_FIELDS, vals);
  }

  lemma InstancesTransmissible(vals: map<string, Value>, i: Ingredient, s: ItemStack, b: Block)
    requires "input" in vals && vals["input"] == VIngredient(i)
    requires "output" in vals && vals["output"] == VItemStack(s)
    requires "block" in vals && vals["block"] == VBlock(b)
    ensures Transmissible(DEFAULT_TABLE, INSTANCE_FIELDS, vals)
  {
    RecipeHandlers();
    RecipeWriters(i, s, b);
    assert forall f :: f in INSTANCE_FIELDS <==> f == INPUT_FIELD || f == OUTPUT_FIELD || f == BLOCK_FIELD;
  }

  lemma TransmissibleBehindExcluded(table: CodecTable, a: seq<Field>, b: seq<Field>, vals: map<string, Value>)
    requires forall i :: 0 <= i < |a| ==> Excluded(a[i].mods)
    requires Transmissible(table, b, vals)
    ensures Transmissible(table, a + b, vals)
  {
    assert forall g :: g in a ==> Excluded(g.mods);
    assert forall f :: f in a + b <==> f in a || f in b;
  }

  /** `fromNetwork` after `toNetwork` rebuilds a complete recipe whose block
      is registered exactly, and leaves the tokens after it. */
  lemma RecipeRoundTrip(r: Recipe, rest: seq<Token>)
    requires Complete(r) && r.block.value.key in BLOCK_REGISTRY
    ensures GenericSerializer.Covers(RECIPE_SERIALIZER, AsObj(r))
    ensures GenericSerializer.FromNetwork(DEFAULT_TABLE, RECIPE_SERIALIZER,
              GenericSerializer.ToNetwork(DEFAULT_TABLE, RECIPE_SERIALIZER, AsObj(r)) + rest)
            == Some((AsObj(r), rest))
  {
    RecipeFieldsFixed(r);
    var o := AsObj(r);
    SentRecipeCovered(o);
    SentRecipeTransmissible(o, r.input.value, r.output.value, r.block.value);
    SentRecipeRestored(o, r.input.value, r.output.value, r.block.value);
    ReadsBackWhenRestored(RECIPE_SERIALIZER, AsObj(r), rest);
  }

  lemma SentRecipeTransmissible(o: Obj, i: Ingredient, s: ItemStack, b: Block)
    requires "input" in o.fields && o.fields["input"] == VIngredient(i)
    requires "output" in o.fields && o.fields["output"] == VItemStack(s)
    requires "block" in o.fields && o.fields["block"] == VBlock(b)
    ensures Transmissible(DEFAULT_TABLE, PublicFields(RECIPE_SERIALIZER.recipeClass), o.fields)
  {
    PublicFieldsTransmissible(o.fields, i, s, b);
  }

  /** The serializer's round trip, for an instance its read restores whole. */
  lemma ReadsBackWhenRestored(ser: GenericSerializer.Serializer, o: Obj, rest: seq<Token>)
    requires WellFormedClass(ser.recipeClass) && ser.recipeClass.hasPublicNoArgCtor && o.cls == ser.recipeClass
    requires GenericSerializer.Covers(ser, o)
    requires Transmissible(DEFAULT_TABLE, PublicFields(ser.recipeClass), o.fields)
    requires EligibleNames(PublicFields(ser.recipeClass)) <= o.fields.Keys
    requires Restored(PublicFields(ser.recipeClass), ser.recipeClass.noArgInit, o.fields) == o.fields
    ensures GenericSerializer.FromNetwork(DEFAULT_TABLE, ser, GenericSerializer.ToNetwork(DEFAULT_TABLE, ser, o) + rest)
              == Some((o, rest))
  {
    GenericSerializer.NetworkRoundTrip(DEFAULT_TABLE, ser, o, rest);
  }

  lemma SentRecipeCovered(o: Obj)
    requires WellFormedObj(o) && o.cls == RECIPE_CLASS
    ensures WellFormedClass(RECIPE_SERIALIZER.recipeClass) && RECIPE_SERIALIZER.recipeClass.hasPublicNoArgCtor
    ensures GenericSerializer.Covers(RECIPE_SERIALIZER, o)
  {
    RecipeClassShape();
    RecipePublicFields();
    RecipeNames();
  }

  lemma SentRecipeRestored(o: Obj, i: Ingredient, s: ItemStack, b: Block)
    requires WellFormedObj(o) && o.cls == RECIPE_CLASS
    requires "input" in o.fields && o.fields["input"] == VIngredient(i)
    requires "output" in o.fields && o.fields["output"] == VItemStack(s)
    requires "block" in o.fields && o.fields["block"] == VBlock(b) && b.key in BLOCK_REGISTRY
    requires forall k :: k in RECIPE_CLASS.noArgInit && k !in {"input", "output", "block"} ==>
               RECIPE_CLASS.noArgInit[k] == o.fields[k]
    ensures EligibleNames(PublicFields(RECIPE_CLASS)) <= o.fields.Keys
    ensures Restored(PublicFields(RECIPE_CLASS), RECIPE_CLASS.noArgInit, o.fields) == o.fields
  {
    RecipeClassShape();
    RecipeEligible();
    InstanceSlotsRestored(PublicFields(RECIPE_CLASS), RECIPE_CLASS.noArgInit, o.fields, i, s, b);
  }

  lemma InstanceSlotsRestored(fs: seq<Field>, init: map<string, Value>, vals: map<string, Value>,
                              i: Ingredient, s: ItemStack, b: Block)
    requires EligibleNames(fs) == {"input", "output", "block"} && init.Keys == vals.Keys
    requires "input" in vals && vals["input"] == VIngredient(i)
    requires "output" in vals && vals["output"] == VItemStack(s)
    requires "block" in vals && vals["block"] == VBlock(b) && b.key in BLOCK_REGISTRY
    requires forall k :: k in init && k !in {"input", "output", "block"} ==> init[k] == vals[k]
    ensures EligibleNames(fs) <= vals.Keys
    ensures Restored(fs, init, vals) == vals
  {
    RestoredIsOriginal(fs, init, vals);
  }

  /** A complete recipe's three instance values read back as themselves, and
      its other slots are the blank instance's. */
  lemma RecipeFieldsFixed(r: Recipe)
    requires Complete(r) && r.block.value.key in BLOCK_REGISTRY
    ensures RECIPE_CLASS.noArgInit.Keys == AsObj(r).fields.Keys
    ensures forall k :: k in {"input", "output", "block"} ==> k in AsObj(r).fields && Normalize(AsObj(r).fields[k]) == AsObj(r).fields[k]
    ensures forall k :: k in RECIPE_CLASS.noArgInit && k !in {"input", "output", "block"} ==>
              RECIPE_CLASS.noArgInit[k] == AsObj(r).fields[k]
  {
    RecipeClassShape();
    SlotsFixed(RECIPE_CLASS.noArgInit, AsObj(r).fields, r.input.value, r.output.value, r.block.value);
  }

  lemma SlotsFixed(init: map<string, Value>, vals: map<string, Value>, i: Ingredient, s: ItemStack, b: Block)
    requires "input" in init && "output" in init && "block" in init
    requires vals == init["input" := VIngredient(i)]["output" := VItemStack(s)]["block" := VBlock(b)]
    requires b.key in BLOCK_REGISTRY
    ensures init.Keys == vals.Keys
    ensures forall k :: k in {"input", "output", "block"} ==> k in vals && Normalize(vals[k]) == vals[k]
    ensures forall k :: k in init && k !in {"input", "output", "block"} ==> init[k] == vals[k]
  {
  }
}
