/** `JSONSerializableDataHandler`: a table from field type to (writer,
    reader) over JSON values, the same eligibility rule as the binary
    handler without its exception, and the codecs it defines, several of
    them lossy stubs. */
module JsonCodec {
  import opened Wrappers
  import opened JavaInt
  import opened GameTypes
  import opened Reflect
  import opened Json
  import Registry
  import CompoundCodec

  /** Each (writer, reader) pair the table can hold. */
  datatype Codec =
    | ByteCodec | ShortCodec | IntCodec | LongCodec
    | FloatCodec | DoubleCodec | BooleanCodec | CharCodec | StringCodec
    | ItemStackCodec | ItemStackArrayCodec | ResourceLocationCodec | BlockCodec
    | FluidStackCodec | ResourceKeyCodec | ResourceKeyArrayCodec
    | IngredientArrayCodec | IngredientValueCodec | IngredientValueArrayCodec
    | CompoundTagCodec

  type CodecTable = map<JType, Codec>

  /** What the codecs call into and the model does not define: NBT printing
      and parsing (`toString`, `TagParser.parseTag`), and the library codec
      of `Ingredient.Value` (`None` is a failed `DataResult`). */
  datatype Env = Env(
    printTag: Tag -> string,
    parseTag: string -> Option<Tag>,
    encodeValue: IngredientValue -> Option<Json>,
    decodeValue: Json -> Option<IngredientValue>)

  /** `map(type, writer, reader)`: replaces any earlier pair for the type.
      Like the binary table's `map`, it is the shared `Registry.Register`. */
  function MapType(table: CodecTable, t: JType, c: Codec): (r: CodecTable)
    ensures t in r && r[t] == c
    ensures forall u :: u in table && u != t ==> u in r && r[u] == table[u]
    ensures r.Keys == table.Keys + {t}
  {
    Registry.Register(table, t, c)
  }

  /** The table after the static initializer. `Ingredient` itself has no
      entry: its registration is commented out. */
  const DEFAULT_TABLE: CodecTable := map[
    Primitive(PByte) := ByteCodec,
    Primitive(PShort) := ShortCodec,
    Primitive(PInt) := IntCodec,
    Primitive(PLong) := LongCodec,
    Primitive(PFloat) := FloatCodec,
    Primitive(PDouble) := DoubleCodec,
    Primitive(PBoolean) := BooleanCodec,
    Primitive(PChar) := CharCodec,
    Boxed(PByte) := ByteCodec,
    Boxed(PShort) := ShortCodec,
    Boxed(PInt) := IntCodec,
    Boxed(PLong) := LongCodec,
    Boxed(PFloat) := FloatCodec,
    Boxed(PDouble) := DoubleCodec,
    Boxed(PBoolean) := BooleanCodec,
    Boxed(PChar) := CharCodec,
    StringType := StringCodec,
    ItemStackType := ItemStackCodec,
    ItemStackArrayType := ItemStackArrayCodec,
    ResourceLocationType := ResourceLocationCodec,
    BlockType := BlockCodec,
    FluidStackType := FluidStackCodec,
    ResourceKeyType := ResourceKeyCodec,
    ResourceKeyArrayType := ResourceKeyArrayCodec,
    IngredientArrayType := IngredientArrayCodec,
    IngredientValueType := IngredientValueCodec,
    IngredientValueArrayType := IngredientValueArrayCodec,
    CompoundTagType := CompoundTagCodec
  ]

  /** `acceptField`: the modifier test, then a plain `containsKey`. */
  predicate AcceptField(table: CodecTable, f: Field) {
    !CompoundCodec.Excluded(f.mods) && f.ty in table
  }

  /** Where the binary handler throws for an eligible field with no handler,
      the JSON handler answers false; otherwise the two agree. */
  lemma AcceptFieldComparedWithBinary(jt: CodecTable, bt: CompoundCodec.CodecTable, f: Field)
    requires f.ty in jt <==> f.ty in bt
    ensures AcceptField(jt, f) <==> CompoundCodec.AcceptField(bt, f) == Ok(true)
    ensures !AcceptField(jt, f) && !CompoundCodec.Excluded(f.mods) ==> CompoundCodec.AcceptField(bt, f).Err?
  {
  }

  /** `Ingredient[]` is registered but `Ingredient` is not. */
  lemma IngredientHasNoEntry()
    ensures IngredientArrayType in DEFAULT_TABLE && IngredientType !in DEFAULT_TABLE
  {
  }

  // -----------------------------------------------------------------------
  // Writers. `None` is a writer's Java `null`.

  function StackJson(s: ItemStack): Json {
    if StackIsEmpty(s) then JNull else JObject(map[])
  }

  function StacksJson(ss: seq<ItemStack>): seq<Json> {
    seq(|ss|, i requires 0 <= i < |ss| => StackJson(ss[i]))
  }

  function LocationJson(l: ResLoc): Json { JString(ResLocString(l)) }

  function KeyJson(k: ResourceKey): Json {
    JObject(map["key" := LocationJson(k.registry), "value" := LocationJson(k.location)])
  }

  function KeyLocationsJson(ks: seq<ResourceKey>): seq<Json> {
    seq(|ks|, i requires 0 <= i < |ks| => LocationJson(ks[i].location))
  }

  /** `ResourceKey[]`: an empty object for no keys; otherwise the first key's
      registry as "type" and every key's location under "values". */
  function KeysJson(ks: seq<ResourceKey>): Json {
    if |ks| == 0 then JObject(map[])
    else JObject(map["type" := LocationJson(ks[0].registry), "values" := JArray(KeyLocationsJson(ks))])
  }

  function EncodeValues(env: Env, vs: seq<IngredientValue>): (r: Result<seq<Json>, JsonError>)
    ensures r.Ok? ==> |r.value| == |vs|
    ensures r.Ok? <==> forall i :: 0 <= i < |vs| ==> env.encodeValue(vs[i]).Some?
    ensures r.Ok? ==> forall i :: 0 <= i < |vs| ==> r.value[i] == env.encodeValue(vs[i]).value
  {
    if |vs| == 0 then Ok([])
    else
      match env.encodeValue(vs[0])
      case None => Err(CodecFailure)
      case Some(j) =>
        var more :- EncodeValues(env, vs[1..]);
        Ok([j] + more)
  }

  /** The kind of value each writer takes. */
  predicate Fits(c: Codec, v: Value) {
    match c
    case ByteCodec => v.VByte?
    case ShortCodec => v.VShort?
    case IntCodec => v.VInt?
    case LongCodec => v.VLong?
    case FloatCodec => v.VFloat?
    case DoubleCodec => v.VDouble?
    case BooleanCodec => v.VBool?
    case CharCodec => v.VChar?
    case StringCodec => v.VString?
    case ItemStackCodec => v.VItemStack?
    case ItemStackArrayCodec => v.VItemStacks?
    case ResourceLocationCodec => v.VResLoc?
    case BlockCodec => v.VBlock?
    case FluidStackCodec => v.VFluidStack?
    case ResourceKeyCodec => v.VResourceKey?
    case ResourceKeyArrayCodec => v.VResourceKeys?
    case IngredientArrayCodec => v.VIngredients?
    case IngredientValueCodec => v.VIngredientValue?
    case IngredientValueArrayCodec => v.VIngredientValues?
    case CompoundTagCodec => v.VTag? && v.tag.CompoundTag?
  }

  /** A writer applied to a field value. Null dereferences throw, except in
      the block writer, whose registry answers `getKey(null)` with air's name;
      the stack stubs return null for an empty stack and an empty object
      otherwise. */
  function Write(env: Env, c: Codec, v: Value): (r: Result<Option<Json>, JsonError>)
    ensures v == VNull && c != BlockCodec ==> r == Err(NullPointer)
    ensures v != VNull && !Fits(c, v) ==> r == Err(ClassCast)
    ensures r.Ok? && r.value.None? ==> c == ItemStackCodec || c == FluidStackCodec
    ensures c == BlockCodec && (v == VNull || v.VBlock?) ==>
              r == Ok(Some(LocationJson(BlockName(if v.VBlock? then Some(v.block) else None))))
  {
    if c == BlockCodec && v == VNull then Ok(Some(LocationJson(BlockName(None))))
    else if v == VNull then Err(NullPointer)
    else if !Fits(c, v) then Err(ClassCast)
    else match c
      case ByteCodec => Ok(Some(JNum(IntNum(v.b as int))))
      case ShortCodec => Ok(Some(JNum(IntNum(v.sh as int))))
      case IntCodec => Ok(Some(JNum(IntNum(v.i as int))))
      case LongCodec => Ok(Some(JNum(IntNum(v.l as int))))
      case FloatCodec => Ok(Some(JNum(FloatNum(v.f))))
      case DoubleCodec => Ok(Some(JNum(DoubleNum(v.d))))
      case BooleanCodec => Ok(Some(JBool(v.z)))
      case CharCodec => Ok(Some(JString([v.c])))
      case StringCodec => Ok(Some(JString(v.s)))
      case ItemStackCodec => Ok(if StackIsEmpty(v.stack) then None else Some(JObject(map[])))
      case ItemStackArrayCodec => Ok(Some(JArray(StacksJson(v.stacks))))
      case ResourceLocationCodec => Ok(Some(LocationJson(v.loc)))
      case BlockCodec => Ok(Some(LocationJson(BlockName(Some(v.block)))))
      case FluidStackCodec => Ok(if FluidIsEmpty(v.fluid) then None else Some(JObject(map[])))
      case ResourceKeyCodec => Ok(Some(KeyJson(v.key)))
      case ResourceKeyArrayCodec => Ok(Some(KeysJson(v.keys)))
      case IngredientArrayCodec =>
        if |v.ingredients| == 0 then Ok(Some(JArray([]))) else Err(NoJsonHandler)
      case IngredientValueCodec =>
        (match env.encodeValue(v.ingredientValue)
         case None => Err(CodecFailure)
         case Some(j) => Ok(Some(j)))
      case IngredientValueArrayCodec =>
        var js :- EncodeValues(env, v.ingredientValues);
        Ok(Some(JArray(js)))
      case CompoundTagCodec => Ok(Some(JString(env.printTag(v.tag))))
  }

  // -----------------------------------------------------------------------
  // Readers.

  /** `readItemStack(element.getAsJsonObject())` for each element: any
      object reads as EMPTY, anything else throws. */
  function ReadStacks(es: seq<Json>): (r: Result<seq<ItemStack>, JsonError>)
    ensures r.Ok? <==> forall i :: 0 <= i < |es| ==> es[i].JObject?
    ensures r.Ok? ==> |r.value| == |es| && forall i :: 0 <= i < |es| ==> r.value[i] == EMPTY_STACK
  {
    if |es| == 0 then Ok([])
    else
      var _ :- AsObject(es[0]);
      var more :- ReadStacks(es[1..]);
      Ok([EMPTY_STACK] + more)
  }

  /** The key loop of the `ResourceKey[]` reader: every element is built
      with the registry parsed from "type", re-read on each iteration. */
  function ReadKeys(typ: Json, es: seq<Json>): (r: Result<seq<ResourceKey>, JsonError>)
    ensures r.Ok? ==> |r.value| == |es|
  {
    if |es| == 0 then Ok([])
    else
      var reg :- AsLocation(typ);
      var loc :- AsLocation(es[0]);
      var more :- ReadKeys(typ, es[1..]);
      Ok([ResourceKey(reg, loc)] + more)
  }

  function DecodeValues(env: Env, es: seq<Json>): (r: Result<seq<IngredientValue>, JsonError>)
    ensures r.Ok? ==> |r.value| == |es|
    ensures r.Ok? <==> forall i :: 0 <= i < |es| ==> env.decodeValue(es[i]).Some?
    ensures r.Ok? ==> forall i :: 0 <= i < |es| ==> r.value[i] == env.decodeValue(es[i]).value
  {
    if |es| == 0 then Ok([])
    else
      match env.decodeValue(es[0])
      case None => Err(CodecFailure)
      case Some(v) =>
        var more :- DecodeValues(env, es[1..]);
        Ok([v] + more)
  }

  /** `readRegistryKey`: members "key" and "value", each a location. */
  function ReadKey(j: Json): Result<ResourceKey, JsonError> {
    var o :- AsObject(j);
    var kj :- Member(o, "key");
    var reg :- AsLocation(kj);
    var vj :- Member(o, "value");
    var loc :- AsLocation(vj);
    Ok(ResourceKey(reg, loc))
  }

  /** The `ResourceKey[]` reader: an object without "type" is no keys;
      otherwise "values" must be an array of locations. */
  function ReadKeyArray(j: Json): Result<seq<ResourceKey>, JsonError> {
    var o :- AsObject(j);
    if "type" !in o then Ok([])
    else
      var vj :- Member(o, "values");
      var es :- (if vj.JArray? then Ok(vj.elems) else Err(ClassCast));
      ReadKeys(o["type"], es)
  }

  /** A reader applied to a JSON element. */
  function Read(env: Env, c: Codec, j: Json): (r: Result<Value, JsonError>)
    ensures c == FluidStackCodec ==> r == Ok(VFluidStack(EMPTY_FLUID_STACK))
    ensures c == ItemStackCodec ==> (r.Ok? <==> j.JObject?)
    ensures c == ItemStackCodec && r.Ok? ==> r.value == VItemStack(EMPTY_STACK)
    ensures r.Ok? ==> Fits(c, r.value) || (c == CompoundTagCodec && r.value.VTag?)
  {
    match c
    case ByteCodec => var n :- AsIntegral(j, -0x80, 0x7F); Ok(VByte(Wrap8(n)))
    case ShortCodec => var n :- AsIntegral(j, -0x8000, 0x7FFF); Ok(VShort(Wrap16(n)))
    case IntCodec => var n :- AsIntegral(j, INT_MIN, INT_MAX); Ok(VInt(Wrap(n)))
    case LongCodec =>
      var n :- AsIntegral(j, -0x8000_0000_0000_0000, 0x7FFF_FFFF_FFFF_FFFF); Ok(VLong(Wrap64(n)))
    case FloatCodec => var f :- AsFloat(j); Ok(VFloat(f))
    case DoubleCodec => var d :- AsDouble(j); Ok(VDouble(d))
    case BooleanCodec => var b :- AsBool(j); Ok(VBool(b))
    case CharCodec => var ch :- AsChar(j); Ok(VChar(ch))
    case StringCodec => var s :- AsString(j); Ok(VString(s))
    case ItemStackCodec => var _ :- AsObject(j); Ok(VItemStack(EMPTY_STACK))
    case ItemStackArrayCodec =>
      var es :- AsArray(j);
      var ss :- ReadStacks(es);
      Ok(VItemStacks(ss))
    case ResourceLocationCodec => var l :- AsLocation(j); Ok(VResLoc(l))
    case BlockCodec =>
      var l :- AsLocation(j);
      Ok(VBlock(BlockById(l)))
    case FluidStackCodec => Ok(VFluidStack(EMPTY_FLUID_STACK))
    case ResourceKeyCodec => var k :- ReadKey(j); Ok(VResourceKey(k))
    case ResourceKeyArrayCodec => var ks :- ReadKeyArray(j); Ok(VResourceKeys(ks))
    case IngredientArrayCodec =>
      var es :- AsArray(j);
      if |es| == 0 then Ok(VIngredients([])) else Err(NoJsonHandler)
    case IngredientValueCodec =>
      (match env.decodeValue(j)
       case None => Err(CodecFailure)
       case Some(v) => Ok(VIngredientValue(v)))
    case IngredientValueArrayCodec =>
      var es :- AsArray(j);
      var vs :- DecodeValues(env, es);
      Ok(VIngredientValues(vs))
    case CompoundTagCodec =>
      var s :- AsString(j);
      Ok(VTag(match env.parseTag(s) case Some(t) => t case None => EMPTY_COMPOUND))
  }

  // -----------------------------------------------------------------------
  // Properties.

  /** Numbers, booleans, characters and strings read back as written. */
  lemma ScalarRoundTrip(env: Env, c: Codec, v: Value)
    requires c in {ByteCodec, ShortCodec, IntCodec, LongCodec, FloatCodec, DoubleCodec,
                   BooleanCodec, CharCodec, StringCodec}
    requires Fits(c, v)
    ensures Write(env, c, v).Ok? && Write(env, c, v).value.Some?
    ensures Read(env, c, Write(env, c, v).value.value) == Ok(v)
  {
  }

  /** A printable location, and a registered block, read back as written. */
  lemma LocationCodecRoundTrip(env: Env, l: ResLoc)
    requires Printable(l)
    ensures Write(env, ResourceLocationCodec, VResLoc(l)) == Ok(Some(LocationJson(l)))
    ensures Read(env, ResourceLocationCodec, LocationJson(l)) == Ok(VResLoc(l))
  {
    LocationRoundTrip(l);
    ReadParsedLocation(env, LocationJson(l), l);
  }

  lemma BlockRoundTrip(env: Env, b: Block)
    requires Printable(b.key) && b.key in BLOCK_REGISTRY
    ensures Write(env, BlockCodec, VBlock(b)) == Ok(Some(LocationJson(b.key)))
    ensures Read(env, BlockCodec, LocationJson(b.key)) == Ok(VBlock(b))
  {
    LocationRoundTrip(b.key);
    ReadParsedLocation(env, LocationJson(b.key), b.key);
  }

  /** Both location readers on an element that parses as `l`. */
  lemma ReadParsedLocation(env: Env, j: Json, l: ResLoc)
    requires AsLocation(j) == Ok(l)
    ensures Read(env, ResourceLocationCodec, j) == Ok(VResLoc(l))
    ensures Read(env, BlockCodec, j) == Ok(VBlock(BlockById(l)))
  {
  }

  /** An id the block registry does not know reads as air. */
  lemma UnknownBlockReadsAsAir(env: Env, l: ResLoc)
    requires Printable(l) && l !in BLOCK_REGISTRY
    ensures Read(env, BlockCodec, LocationJson(l)) == Ok(VBlock(AIR_BLOCK))
  {
    LocationRoundTrip(l);
  }

  /** A null block, and a block the registry does not hold, are written as
      air's name and so read back as air. */
  lemma NullBlockWritesAir(env: Env, v: Value)
    requires v == VNull || (v.VBlock? && v.block.key !in BLOCK_REGISTRY)
    ensures Write(env, BlockCodec, v) == Ok(Some(LocationJson(AIR_BLOCK.key)))
    ensures Read(env, BlockCodec, Write(env, BlockCodec, v).value.value) == Ok(VBlock(AIR_BLOCK))
  {
    var air := AIR_BLOCK.key;
    assert Write(env, BlockCodec, v) == Ok(Some(LocationJson(air)));
    assert Printable(air) by {
      assert forall i :: 0 <= i < |air.namespace| ==> NamespaceChar(air.namespace[i]);
      assert forall i :: 0 <= i < |air.path| ==> PathChar(air.path[i]);
    }
    LocationRoundTrip(air);
    ReadParsedLocation(env, LocationJson(air), air);
  }

  /** A key is written as {"key": registry, "value": location} and reads back. */
  lemma KeyRoundTrip(env: Env, k: ResourceKey)
    requires Printable(k.registry) && Printable(k.location)
    ensures Write(env, ResourceKeyCodec, VResourceKey(k)) == Ok(Some(KeyJson(k)))
    ensures KeyJson(k).members.Keys == {"key", "value"}
    ensures Read(env, ResourceKeyCodec, KeyJson(k)) == Ok(VResourceKey(k))
  {
    KeyWrite(env, k);
    KeyRead(env, k);
  }

  lemma KeyWrite(env: Env, k: ResourceKey)
    ensures Write(env, ResourceKeyCodec, VResourceKey(k)) == Ok(Some(KeyJson(k)))
  {
  }

  lemma KeyRead(env: Env, k: ResourceKey)
    requires Printable(k.registry) && Printable(k.location)
    ensures Read(env, ResourceKeyCodec, KeyJson(k)) == Ok(VResourceKey(k))
  {
    ReadKeyJson(k);
  }

  lemma ReadKeyJson(k: ResourceKey)
    requires Printable(k.registry) && Printable(k.location)
    ensures ReadKey(KeyJson(k)) == Ok(k)
  {
    var o := KeyJson(k).members;
    assert o["key"] == LocationJson(k.registry) && o["value"] == LocationJson(k.location);
    LocationRoundTrip(k.registry);
    LocationRoundTrip(k.location);
  }

  /** No keys: an object without "type"; and every object without "type"
      reads as no keys. */
  lemma EmptyKeyArray(env: Env, members: map<string, Json>)
    requires "type" !in members
    ensures Write(env, ResourceKeyArrayCodec, VResourceKeys([])) == Ok(Some(JObject(map[])))
    ensures "type" !in KeysJson([]).members
    ensures Read(env, ResourceKeyArrayCodec, JObject(members)) == Ok(VResourceKeys([]))
  {
  }

  /** Every location of `ks` as a key of the registry `reg`. */
  function KeysUnder(reg: ResLoc, ks: seq<ResourceKey>): seq<ResourceKey> {
    seq(|ks|, i requires 0 <= i < |ks| => ResourceKey(reg, ks[i].location))
  }

  /** The key loop pairs the registry read from "type" with each element's
      location, position by position. */
  lemma {:induction false} ReadKeysPointwise(typ: Json, es: seq<Json>, reg: ResLoc, locs: seq<ResLoc>)
    requires AsLocation(typ) == Ok(reg)
    requires |locs| == |es|
    requires forall i :: 0 <= i < |es| ==> AsLocation(es[i]) == Ok(locs[i])
    ensures ReadKeys(typ, es).Ok?
    ensures forall i :: 0 <= i < |es| ==> ReadKeys(typ, es).value[i] == ResourceKey(reg, locs[i])
  {
    if |es| > 0 {
      assert forall i :: 0 <= i < |es| - 1 ==> AsLocation(es[1..][i]) == Ok(locs[1..][i]);
      ReadKeysPointwise(typ, es[1..], reg, locs[1..]);
      var tl := ReadKeys(typ, es[1..]).value;
      var full := ReadKeys(typ, es).value;
      assert full == [ResourceKey(reg, locs[0])] + tl;
      forall i | 0 < i < |es|
        ensures full[i] == ResourceKey(reg, locs[i])
      {
        assert full[i] == tl[i - 1];
      }
    }
  }

  lemma ReadKeysOfLocations(reg: ResLoc, ks: seq<ResourceKey>)
    requires Printable(reg)
    requires forall i :: 0 <= i < |ks| ==> Printable(ks[i].location)
    ensures ReadKeys(LocationJson(reg), KeyLocationsJson(ks)) == Ok(KeysUnder(reg, ks))
  {
    var es := KeyLocationsJson(ks);
    var locs := seq(|ks|, i requires 0 <= i < |ks| => ks[i].location);
    LocationRoundTrip(reg);
    forall i | 0 <= i < |es|
      ensures AsLocation(es[i]) == Ok(locs[i])
    {
      LocationRoundTrip(ks[i].location);
    }
    ReadKeysPointwise(LocationJson(reg), es, reg, locs);
    var r := ReadKeys(LocationJson(reg), es).value;
    assert forall i :: 0 <= i < |ks| ==> r[i] == KeysUnder(reg, ks)[i];
    assert r == KeysUnder(reg, ks);
  }

  /** A non-empty key array reads back with every location in order, all
      under the first key's registry. */
  lemma KeyArrayCollapsesRegistry(env: Env, ks: seq<ResourceKey>)
    requires |ks| > 0
    requires forall i :: 0 <= i < |ks| ==> Printable(ks[i].registry) && Printable(ks[i].location)
    ensures Write(env, ResourceKeyArrayCodec, VResourceKeys(ks)) == Ok(Some(KeysJson(ks)))
    ensures Read(env, ResourceKeyArrayCodec, KeysJson(ks)) == Ok(VResourceKeys(KeysUnder(ks[0].registry, ks)))
  {
    KeyArrayWrite(env, ks);
    KeyArrayRead(env, ks);
  }

  lemma KeyArrayWrite(env: Env, ks: seq<ResourceKey>)
    ensures Write(env, ResourceKeyArrayCodec, VResourceKeys(ks)) == Ok(Some(KeysJson(ks)))
  {
  }

  lemma KeyArrayRead(env: Env, ks: seq<ResourceKey>)
    requires |ks| > 0
    requires forall i :: 0 <= i < |ks| ==> Printable(ks[i].registry) && Printable(ks[i].location)
    ensures Read(env, ResourceKeyArrayCodec, KeysJson(ks)) == Ok(VResourceKeys(KeysUnder(ks[0].registry, ks)))
  {
    var reg := ks[0].registry;
    var es := KeyLocationsJson(ks);
    ReadKeysOfLocations(reg, ks);
    assert KeysJson(ks) == JObject(map["type" := LocationJson(reg), "values" := JArray(es)]);
    ReadKeyArrayObject(LocationJson(reg), es);
  }

  /** The `ResourceKey[]` reader on an object holding both "type" and
      "values" is the key loop over the "values" array. */
  lemma ReadKeyArrayObject(typ: Json, es: seq<Json>)
    ensures ReadKeyArray(JObject(map["type" := typ, "values" := JArray(es)])) == ReadKeys(typ, es)
  {
    var o := map["type" := typ, "values" := JArray(es)];
    assert "type" in o && o["type"] == typ;
    assert Member(o, "values") == Ok(JArray(es));
  }

  /** Keys that share one registry therefore read back unchanged. */
  lemma KeyArrayRoundTrip(env: Env, ks: seq<ResourceKey>)
    requires forall i :: 0 <= i < |ks| ==> Printable(ks[i].registry) && Printable(ks[i].location)
    requires forall i :: 0 <= i < |ks| ==> ks[i].registry == ks[0].registry
    ensures Read(env, ResourceKeyArrayCodec, Write(env, ResourceKeyArrayCodec, VResourceKeys(ks)).value.value)
              == Ok(VResourceKeys(ks))
  {
    if |ks| > 0 {
      KeyArrayCollapsesRegistry(env, ks);
      assert KeysUnder(ks[0].registry, ks) == ks;
    }
  }

  /** An item stack writes null when empty and an empty object otherwise;
      whatever object is read, the result is EMPTY. */
  lemma ItemStackStub(env: Env, s: ItemStack, members: map<string, Json>)
    ensures Write(env, ItemStackCodec, VItemStack(s)) == Ok(if StackIsEmpty(s) then None else Some(JObject(map[])))
    ensures Read(env, ItemStackCodec, JObject(members)) == Ok(VItemStack(EMPTY_STACK))
  {
  }

  /** The same for fluid stacks, whose reader ignores its input entirely. */
  lemma FluidStackStub(env: Env, f: FluidStack, j: Json)
    ensures Write(env, FluidStackCodec, VFluidStack(f)) == Ok(if FluidIsEmpty(f) then None else Some(JObject(map[])))
    ensures Read(env, FluidStackCodec, j) == Ok(VFluidStack(EMPTY_FLUID_STACK))
  {
  }

  /** An array of stacks reads back as that many EMPTY stacks when none was
      empty; an empty stack is written as JSON null, which the reader
      rejects. */
  lemma ItemStackArrayStub(env: Env, ss: seq<ItemStack>)
    ensures Write(env, ItemStackArrayCodec, VItemStacks(ss)) == Ok(Some(JArray(StacksJson(ss))))
    ensures (forall i :: 0 <= i < |ss| ==> !StackIsEmpty(ss[i])) ==>
              Read(env, ItemStackArrayCodec, JArray(StacksJson(ss)))
                == Ok(VItemStacks(seq(|ss|, _ => EMPTY_STACK)))
    ensures (exists i :: 0 <= i < |ss| && StackIsEmpty(ss[i])) ==>
              Read(env, ItemStackArrayCodec, JArray(StacksJson(ss))).Err?
  {
    var es := StacksJson(ss);
    if forall i :: 0 <= i < |ss| ==> !StackIsEmpty(ss[i]) {
      assert ReadStacks(es).Ok?;
      assert ReadStacks(es).value == seq(|ss|, _ => EMPTY_STACK);
    }
    if exists i :: 0 <= i < |ss| && StackIsEmpty(ss[i]) {
      var i :| 0 <= i < |ss| && StackIsEmpty(ss[i]);
      assert !es[i].JObject?;
    }
  }

  /** Only the empty ingredient array can be written or read: any element
      needs the missing `Ingredient` entry. */
  lemma IngredientArrayNeedsMissingEntry(env: Env, ings: seq<Ingredient>, es: seq<Json>)
    ensures Write(env, IngredientArrayCodec, VIngredients(ings)).Ok? <==> |ings| == 0
    ensures |ings| == 0 ==> Write(env, IngredientArrayCodec, VIngredients(ings)) == Ok(Some(JArray([])))
    ensures Read(env, IngredientArrayCodec, JArray(es)).Ok? <==> |es| == 0
    ensures Read(env, IngredientArrayCodec, JArray([])) == Ok(VIngredients([]))
  {
  }

  /** A tag string the parser rejects reads as an empty compound, not as a
      failure; a tag whose printed form parses back reads back. */
  lemma CompoundTagFallback(env: Env, s: string, t: Tag)
    ensures env.parseTag(s).None? ==> Read(env, CompoundTagCodec, JString(s)) == Ok(VTag(EMPTY_COMPOUND))
    ensures t.CompoundTag? && env.parseTag(env.printTag(t)) == Some(t) ==>
              Read(env, CompoundTagCodec, Write(env, CompoundTagCodec, VTag(t)).value.value) == Ok(VTag(t))
  {
  }

  /** `Ingredient.Value` and its array go through the library codec, so they
      read back whenever that codec does. */
  lemma IngredientValuesRoundTrip(env: Env, vs: seq<IngredientValue>)
    requires forall v :: env.encodeValue(v).Some? && env.decodeValue(env.encodeValue(v).value) == Some(v)
    ensures Write(env, IngredientValueArrayCodec, VIngredientValues(vs)).Ok?
    ensures Read(env, IngredientValueArrayCodec, Write(env, IngredientValueArrayCodec, VIngredientValues(vs)).value.value)
              == Ok(VIngredientValues(vs))
  {
    var js := EncodeValues(env, vs).value;
    assert forall i :: 0 <= i < |js| ==> env.decodeValue(js[i]) == Some(vs[i]);
    assert DecodeValues(env, js).value == vs;
    IngredientValuesWrite(env, vs);
    IngredientValuesRead(env, js);
  }

  lemma IngredientValuesWrite(env: Env, vs: seq<IngredientValue>)
    ensures EncodeValues(env, vs).Ok? ==>
              Write(env, IngredientValueArrayCodec, VIngredientValues(vs)) == Ok(Some(JArray(EncodeValues(env, vs).value)))
  {
  }

  lemma IngredientValuesRead(env: Env, js: seq<Json>)
    ensures DecodeValues(env, js).Ok? ==>
              Read(env, IngredientValueArrayCodec, JArray(js)) == Ok(VIngredientValues(DecodeValues(env, js).value))
  {
  }

  /** Registering a type again keeps only the later codec. */
  lemma LaterMappingWins(table: CodecTable, t: JType, c1: Codec, c2: Codec)
    ensures MapType(MapType(table, t, c1), t, c2) == MapType(table, t, c2)
  {
    Registry.LastRegistrationWins(table, t, c1, c2);
  }
}
