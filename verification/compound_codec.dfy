/** `CompoundSerializableDataHandler`: the table from field type to
    (reader, writer) that the network message and recipe serializers share,
    the field-eligibility rule, and the composite codecs it defines itself
    (registry keys, the three array codecs, `CollectionItemList`). */
module CompoundCodec {
  import opened Wrappers
  import opened JavaInt
  import opened GameTypes
  import opened Reflect
  import opened Wire
  import Registry

  /** `readUtf(32767)`. */
  const MAX_STRING_LENGTH: nat := 32767

  /** Each reader/writer pair the table can hold. */
  datatype Codec =
    | ByteCodec | ShortCodec | VarIntCodec | VarLongCodec
    | FloatCodec | DoubleCodec | BooleanCodec | CharCodec
    | ByteArrayCodec | VarIntArrayCodec | LongArrayCodec
    | StringCodec | CompoundTagCodec | ItemStackCodec | FluidStackCodec
    | BlockPosCodec | ComponentCodec | DateCodec | UuidCodec
    | UpdatePacketCodec | LocatorCodec
    | CollectionItemListCodec | IngredientCodec | BlockCodec
    | IngredientValueArrayCodec | IngredientArrayCodec
    | ResourceKeyCodec | ResourceKeyArrayCodec | ResourceLocationCodec

  type CodecTable = map<JType, Codec>

  /** `map(type, reader, writer)` and `map(type, streamCodec)`: both put one
      pair under the type, replacing any earlier one. */
  function MapType(table: CodecTable, t: JType, c: Codec): (r: CodecTable)
    ensures t in r && r[t] == c
    ensures forall u :: u in table && u != t ==> u in r && r[u] == table[u]
    ensures r.Keys == table.Keys + {t}
  {
    Registry.Register(table, t, c)
  }

  /** The table after the class's static initializer: every type below is
      registered once, so the order of registration does not matter. */
  const DEFAULT_TABLE: CodecTable := map t | t in DEFAULT_TYPES :: DefaultCodec(t)

  const DEFAULT_TYPES: set<JType> := {
    Primitive(PByte), Primitive(PShort), Primitive(PInt), Primitive(PLong),
    Primitive(PFloat), Primitive(PDouble), Primitive(PBoolean), Primitive(PChar),
    Boxed(PByte), Boxed(PShort), Boxed(PInt), Boxed(PLong),
    Boxed(PFloat), Boxed(PDouble), Boxed(PBoolean), Boxed(PChar),
    ByteArrayType, IntArrayType, LongArrayType, StringType, CompoundTagType,
    ItemStackType, FluidStackType, BlockPosType, ComponentType, DateType, UuidType,
    UpdatePacketType, LocatorType, IngredientValueType, IngredientType, BlockType,
    IngredientValueArrayType, IngredientArrayType,
    ResourceKeyType, ResourceKeyArrayType, ResourceLocationType
  }

  /** The codec the static initializer registers for each type in
      `DEFAULT_TYPES`; a primitive and its box get the same one. */
  function DefaultCodec(t: JType): Codec {
    match t
    case Primitive(k) => PrimitiveCodec(k)
    case Boxed(k) => PrimitiveCodec(k)
    case ByteArrayType => ByteArrayCodec
    case IntArrayType => VarIntArrayCodec
    case LongArrayType => LongArrayCodec
    case StringType => StringCodec
    case CompoundTagType => CompoundTagCodec
    case ItemStackType => ItemStackCodec
    case FluidStackType => FluidStackCodec
    case BlockPosType => BlockPosCodec
    case ComponentType => ComponentCodec
    case DateType => DateCodec
    case UuidType => UuidCodec
    case UpdatePacketType => UpdatePacketCodec
    case LocatorType => LocatorCodec
    case IngredientValueType => CollectionItemListCodec
    case IngredientType => IngredientCodec
    case BlockType => BlockCodec
    case IngredientValueArrayType => IngredientValueArrayCodec
    case IngredientArrayType => IngredientArrayCodec
    case ResourceKeyType => ResourceKeyCodec
    case ResourceKeyArrayType => ResourceKeyArrayCodec
    case ResourceLocationType => ResourceLocationCodec
    case _ => ByteCodec  // types outside DEFAULT_TYPES, never looked up
  }

  function PrimitiveCodec(k: PrimKind): Codec {
    match k
    case PByte => ByteCodec
    case PShort => ShortCodec
    case PInt => VarIntCodec
    case PLong => VarLongCodec
    case PFloat => FloatCodec
    case PDouble => DoubleCodec
    case PBoolean => BooleanCodec
    case PChar => CharCodec
  }

  /** A primitive and its box are registered with the same codec. */
  lemma PrimitiveAndBoxShareCodec(k: PrimKind)
    ensures Primitive(k) in DEFAULT_TABLE && Boxed(k) in DEFAULT_TABLE
    ensures DEFAULT_TABLE[Primitive(k)] == DEFAULT_TABLE[Boxed(k)]
    ensures k == PInt ==> DEFAULT_TABLE[Boxed(k)] == VarIntCodec
    ensures k == PLong ==> DEFAULT_TABLE[Boxed(k)] == VarLongCodec
  {
  }

  /** Only the engine's named classes have codecs; an arbitrary class has none. */
  lemma ClassTypesUnregistered(name: string)
    ensures ClassType(name) !in DEFAULT_TABLE
  {
  }

  /** `getHandler`: the pair registered for the type, or an exception; never null. */
  function GetHandler(table: CodecTable, t: JType): (r: Result<Codec, Error>)
    ensures r.Ok? <==> t in table
    ensures r.Ok? ==> r.value == table[t]
    ensures r.Err? ==> r.error == NoHandler(t)
  {
    if t in table then Ok(table[t]) else Err(NoHandler(t))
  }

  /** Final, static and transient fields are never serialized. */
  predicate Excluded(m: Modifiers) {
    m.isFinal || m.isStatic || m.isTransient
  }

  /** `acceptField`: the modifier test short-circuits first; an included field
      is then looked up, and a missing handler throws instead of answering false. */
  function AcceptField(table: CodecTable, f: Field): (r: Result<bool, Error>)
    ensures Excluded(f.mods) ==> r == Ok(false)
    ensures !Excluded(f.mods) && f.ty in table ==> r == Ok(true)
    ensures !Excluded(f.mods) && f.ty !in table ==> r == Err(NoHandler(f.ty))
    ensures r == Ok(false) ==> Excluded(f.mods)
  {
    if Excluded(f.mods) then Ok(false)
    else
      var _ :- GetHandler(table, f.ty);
      Ok(true)
  }

  // -----------------------------------------------------------------------
  // Writers.

  /** The kind of value each codec's writer takes. */
  predicate Fits(c: Codec, v: Value) {
    match c
    case ByteCodec => v.VByte?
    case ShortCodec => v.VShort?
    case VarIntCodec => v.VInt?
    case VarLongCodec => v.VLong?
    case FloatCodec => v.VFloat?
    case DoubleCodec => v.VDouble?
    case BooleanCodec => v.VBool?
    case CharCodec => v.VChar?
    case ByteArrayCodec => v.VBytes?
    case VarIntArrayCodec => v.VInts?
    case LongArrayCodec => v.VLongs?
    case StringCodec => v.VString?
    case CompoundTagCodec => v.VTag?
    case ItemStackCodec => v.VItemStack?
    case FluidStackCodec => v.VFluidStack?
    case BlockPosCodec => v.VBlockPos?
    case ComponentCodec => v.VComponent?
    case DateCodec => v.VDate?
    case UuidCodec => v.VUuid?
    case UpdatePacketCodec => v.VUpdatePacket?
    case LocatorCodec => v.VLocator?
    case CollectionItemListCodec => v.VIngredientValue?
    case IngredientCodec => v.VIngredient?
    case BlockCodec => v.VBlock?
    case IngredientValueArrayCodec => v.VIngredientValues?
    case IngredientArrayCodec => v.VIngredients?
    case ResourceKeyCodec => v.VResourceKey?
    case ResourceKeyArrayCodec => v.VResourceKeys?
    case ResourceLocationCodec => v.VResLoc?
  }

  /** Codecs that are a single engine primitive. */
  predicate SingleToken(c: Codec) {
    !(c.CollectionItemListCodec? || c.IngredientValueArrayCodec? || c.IngredientArrayCodec?
      || c.ResourceKeyCodec? || c.ResourceKeyArrayCodec?)
  }

  /** The one token a single-token writer emits. `Block` goes out as the name
      `BuiltInRegistries.BLOCK.getKey` gives it, which is air's name for a
      null block. */
  function Encode1(c: Codec, v: Value): Option<Token>
    requires SingleToken(c)
  {
    match c
    case ByteCodec => if v.VByte? then Some(ByteTok(v.b)) else None
    case ShortCodec => if v.VShort? then Some(ShortTok(v.sh)) else None
    case VarIntCodec => if v.VInt? then Some(VarIntTok(v.i)) else None
    case VarLongCodec => if v.VLong? then Some(VarLongTok(v.l)) else None
    case FloatCodec => if v.VFloat? then Some(FloatTok(v.f)) else None
    case DoubleCodec => if v.VDouble? then Some(DoubleTok(v.d)) else None
    case BooleanCodec => if v.VBool? then Some(BoolTok(v.z)) else None
    case CharCodec => if v.VChar? then Some(CharTok(v.c)) else None
    case ByteArrayCodec => if v.VBytes? then Some(RawBytesTok(v.bytes)) else None
    case VarIntArrayCodec => if v.VInts? then Some(VarIntArrayTok(v.ints)) else None
    case LongArrayCodec => if v.VLongs? then Some(LongArrayTok(v.longs)) else None
    case StringCodec => if v.VString? then Some(UtfTok(v.s)) else None
    case CompoundTagCodec => if v.VTag? then Some(TagTok(v.tag)) else None
    case ItemStackCodec => if v.VItemStack? then Some(ItemStackTok(v.stack)) else None
    case FluidStackCodec => if v.VFluidStack? then Some(FluidStackTok(v.fluid)) else None
    case BlockPosCodec => if v.VBlockPos? then Some(BlockPosTok(v.pos)) else None
    case ComponentCodec => if v.VComponent? then Some(ComponentTok(v.component)) else None
    case DateCodec => if v.VDate? then Some(DateTok(v.millis)) else None
    case UuidCodec => if v.VUuid? then Some(UuidTok(v.uuid)) else None
    case UpdatePacketCodec => if v.VUpdatePacket? then Some(UpdatePacketTok(v.packet)) else None
    case LocatorCodec => if v.VLocator? then Some(LocatorTok(v.locator)) else None
    case IngredientCodec => if v.VIngredient? then Some(IngredientTok(v.ingredient)) else None
    case BlockCodec =>
      if v.VBlock? then Some(ResLocTok(BlockName(Some(v.block))))
      else if v.VNull? then Some(ResLocTok(BlockName(None)))
      else None
    case ResourceLocationCodec => if v.VResLoc? then Some(ResLocTok(v.loc)) else None
  }

  /** Writes every element in order. */
  function WriteAll<T>(enc: T -> seq<Token>, xs: seq<T>): seq<Token> {
    if |xs| == 0 then [] else enc(xs[0]) + WriteAll(enc, xs[1..])
  }

  /** `writeRegistryKey`: the registry's location, then the key's location. */
  function KeyTokens(k: ResourceKey): seq<Token> {
    [ResLocTok(k.registry), ResLocTok(k.location)]
  }

  function StackTokens(s: ItemStack): seq<Token> { [ItemStackTok(s)] }

  function IngredientTokens(i: Ingredient): seq<Token> { [IngredientTok(i)] }

  /** `CollectionItemList.serializeBuffer`: `writeInt(getItems().size())`, then
      each stack. */
  function ItemListTokens(v: IngredientValue): seq<Token> {
    [IntTok(Wrap(|Items(v)|))] + WriteAll(StackTokens, Items(v))
  }

  /** A string `writeUtf` refuses: longer than its 32767-character bound. */
  predicate TooLong(v: Value) {
    v.VString? && |v.s| > MAX_STRING_LENGTH
  }

  /** The writer half of a codec. A null field fails before any token is
      written, except in the block writer, which asks the registry for
      `getKey(null)` and writes air's name; a value of another type fails,
      and so does a string over `writeUtf`'s bound. */
  function Write(c: Codec, v: Value): (r: Result<seq<Token>, Error>)
    ensures r.Ok? <==> if v == VNull then c == BlockCodec else Fits(c, v) && !TooLong(v)
    ensures v == VNull && c != BlockCodec ==> r == Err(NullValue)
    ensures c == StringCodec && TooLong(v) ==> r == Err(StringTooLong(|v.s|))
    ensures r.Ok? ==> |r.value| > 0
  {
    if v == VNull && c != BlockCodec then Err(NullValue)
    else if v != VNull && !Fits(c, v) then Err(ClassCast)
    else if TooLong(v) then Err(StringTooLong(|v.s|))
    else match c
      case ResourceKeyCodec => Ok(KeyTokens(v.key))
      case ResourceKeyArrayCodec =>
        Ok([IntTok(Wrap(|v.keys|))] + WriteAll(KeyTokens, v.keys))
      case CollectionItemListCodec => Ok(ItemListTokens(v.ingredientValue))
      case IngredientValueArrayCodec =>
        Ok([IntTok(Wrap(|v.ingredientValues|))] + WriteAll(ItemListTokens, v.ingredientValues))
      case IngredientArrayCodec =>
        Ok([IntTok(Wrap(|v.ingredients|))] + WriteAll(IngredientTokens, v.ingredients))
      case _ => Ok([Encode1(c, v).value])
  }

  // -----------------------------------------------------------------------
  // Readers.

  type Reader<T> = seq<Token> -> Result<(T, seq<Token>), Error>

  /** Pops the first token. */
  function Next(buf: seq<Token>): Result<(Token, seq<Token>), Error> {
    if |buf| == 0 then Err(BufferUnderflow) else Ok((buf[0], buf[1..]))
  }

  /** The value a single-token reader makes of a token. `readByteArray`
      expects a length-prefixed array, not the raw bytes `writeBytes` emits. */
  function Decode1(c: Codec, t: Token): (r: Option<Value>)
    requires SingleToken(c)
    ensures r.Some? ==> Fits(c, r.value)
    ensures c == StringCodec && t.UtfTok? ==> r == Some(VString(t.s))
    ensures c == BlockCodec && r.Some? ==> r.value.block.key in BLOCK_REGISTRY || r.value.block == AIR_BLOCK
  {
    match c
    case ByteCodec => if t.ByteTok? then Some(VByte(t.b)) else None
    case ShortCodec => if t.ShortTok? then Some(VShort(t.sh)) else None
    case VarIntCodec => if t.VarIntTok? then Some(VInt(t.i)) else None
    case VarLongCodec => if t.VarLongTok? then Some(VLong(t.l)) else None
    case FloatCodec => if t.FloatTok? then Some(VFloat(t.f)) else None
    case DoubleCodec => if t.DoubleTok? then Some(VDouble(t.d)) else None
    case BooleanCodec => if t.BoolTok? then Some(VBool(t.z)) else None
    case CharCodec => if t.CharTok? then Some(VChar(t.c)) else None
    case ByteArrayCodec => if t.ByteArrayTok? then Some(VBytes(t.bytes)) else None
    case VarIntArrayCodec => if t.VarIntArrayTok? then Some(VInts(t.ints)) else None
    case LongArrayCodec => if t.LongArrayTok? then Some(VLongs(t.longs)) else None
    case StringCodec => if t.UtfTok? then Some(VString(t.s)) else None
    case CompoundTagCodec => if t.TagTok? then Some(VTag(t.tag)) else None
    case ItemStackCodec => if t.ItemStackTok? then Some(VItemStack(t.stack)) else None
    case FluidStackCodec => if t.FluidStackTok? then Some(VFluidStack(t.fluid)) else None
    case BlockPosCodec => if t.BlockPosTok? then Some(VBlockPos(t.pos)) else None
    case ComponentCodec => if t.ComponentTok? then Some(VComponent(t.component)) else None
    case DateCodec => if t.DateTok? then Some(VDate(t.millis)) else None
    case UuidCodec => if t.UuidTok? then Some(VUuid(t.uuid)) else None
    case UpdatePacketCodec => if t.UpdatePacketTok? then Some(VUpdatePacket(t.packet)) else None
    case LocatorCodec => if t.LocatorTok? then Some(VLocator(t.locator)) else None
    case IngredientCodec => if t.IngredientTok? then Some(VIngredient(t.ingredient)) else None
    case BlockCodec => if t.ResLocTok? then Some(VBlock(BlockById(t.loc))) else None
    case ResourceLocationCodec => if t.ResLocTok? then Some(VResLoc(t.loc)) else None
  }

  /** The errors a reader raises on a buffer of the wrong shape: it ran out,
      or the next token is not the kind the reader expects. */
  predicate ShapeError(e: Error) {
    e == BufferUnderflow || e == UnexpectedToken
  }

  /** `readInt()` used as an array length: a negative count fails at `new T[n]`. */
  function ReadCount(buf: seq<Token>): (r: Result<(nat, seq<Token>), Error>)
    ensures r.Ok? ==> |r.value.1| < |buf|
  {
    var p :- Next(buf);
    if !p.0.IntTok? then Err(UnexpectedToken)
    else if p.0.n < 0 then Err(NegativeArraySize(p.0.n as int))
    else Ok((p.0.n as nat, p.1))
  }

  /** Reads `n` elements in order with `read`. */
  function ReadN<T>(read: Reader<T>, buf: seq<Token>, n: nat): (r: Result<(seq<T>, seq<Token>), Error>)
    ensures r.Ok? ==> |r.value.0| == n
    decreases n
  {
    if n == 0 then Ok(([], buf))
    else
      var first :- read(buf);
      var others :- ReadN(read, first.1, n - 1);
      Ok(([first.0] + others.0, others.1))
  }

  /** Element readers that fail only on the buffer's shape make `ReadN` fail
      only on it too. */
  lemma {:induction false} ReadNShapeErrors<T>(read: Reader<T>, buf: seq<Token>, n: nat)
    requires forall b :: read(b).Err? ==> ShapeError(read(b).error)
    ensures ReadN(read, buf, n).Err? ==> ShapeError(ReadN(read, buf, n).error)
    decreases n
  {
    if n > 0 && read(buf).Ok? {
      ReadNShapeErrors(read, read(buf).value.1, n - 1);
    }
  }

  /** `readRegistryKey`. */
  function ReadKey(buf: seq<Token>): (r: Result<(ResourceKey, seq<Token>), Error>)
    ensures r.Err? ==> ShapeError(r.error)
  {
    var a :- Next(buf);
    var b :- Next(a.1);
    if a.0.ResLocTok? && b.0.ResLocTok? then Ok((ResourceKey(a.0.loc, b.0.loc), b.1))
    else Err(UnexpectedToken)
  }

  function ReadStack(buf: seq<Token>): (r: Result<(ItemStack, seq<Token>), Error>)
    ensures r.Err? ==> ShapeError(r.error)
  {
    var a :- Next(buf);
    if a.0.ItemStackTok? then Ok((a.0.stack, a.1)) else Err(UnexpectedToken)
  }

  function ReadIngredient(buf: seq<Token>): (r: Result<(Ingredient, seq<Token>), Error>)
    ensures r.Err? ==> ShapeError(r.error)
  {
    var a :- Next(buf);
    if a.0.IngredientTok? then Ok((a.0.ingredient, a.1)) else Err(UnexpectedToken)
  }

  /** `new CollectionItemList(buf)`: the count read here bounds a loop and
      sizes no array, so a negative count reads no stacks. Whatever kind of
      value was written, the reader rebuilds a `CollectionItemList` of its
      stacks. */
  function ReadItemList(buf: seq<Token>): (r: Result<(IngredientValue, seq<Token>), Error>)
    ensures r.Err? ==> ShapeError(r.error)
  {
    var p :- Next(buf);
    if !p.0.IntTok? then Err(UnexpectedToken)
    else
      var n: nat := if p.0.n < 0 then 0 else p.0.n as nat;
      ReadNShapeErrors(ReadStack, p.1, n);
      var stacks :- ReadN(ReadStack, p.1, n);
      Ok((CollectionItemList(stacks.0), stacks.1))
  }

  /** The codecs whose reader allocates `new T[buf.readInt()]`. */
  predicate SizedArray(c: Codec) {
    c.ResourceKeyArrayCodec? || c.IngredientArrayCodec? || c.IngredientValueArrayCodec?
  }

  /** The reader half of a codec. It fails only on the buffer's shape, on a
      negative length for the three sized arrays, and on an over-long
      string; a block name the registry does not hold reads as air. */
  function Read(c: Codec, buf: seq<Token>): (r: Result<(Value, seq<Token>), Error>)
    ensures r.Ok? ==> Fits(c, r.value.0)
    ensures r.Err? ==> ShapeError(r.error) || r.error.NegativeArraySize? || r.error.StringTooLong?
    ensures r.Err? && r.error.NegativeArraySize? ==> SizedArray(c)
    ensures SizedArray(c) && |buf| > 0 && buf[0].IntTok? && buf[0].n < 0 ==>
              r == Err(NegativeArraySize(buf[0].n as int))
    ensures r.Err? && r.error.StringTooLong? ==> c == StringCodec
    ensures c == StringCodec && |buf| > 0 && buf[0].UtfTok? && |buf[0].s| > MAX_STRING_LENGTH ==>
              r == Err(StringTooLong(|buf[0].s|))
    ensures c == BlockCodec && r.Ok? ==>
              r.value.0.VBlock? && (r.value.0.block.key in BLOCK_REGISTRY || r.value.0.block == AIR_BLOCK)
  {
    if SingleToken(c) then ReadSingle(c, buf)
    else if c.ResourceKeyCodec? then
      var k :- ReadKey(buf);
      Ok((VResourceKey(k.0), k.1))
    else if c.ResourceKeyArrayCodec? then
      var n :- ReadCount(buf);
      ReadNShapeErrors(ReadKey, n.1, n.0);
      var ks :- ReadN(ReadKey, n.1, n.0);
      Ok((VResourceKeys(ks.0), ks.1))
    else if c.CollectionItemListCodec? then
      var v :- ReadItemList(buf);
      Ok((VIngredientValue(v.0), v.1))
    else if c.IngredientValueArrayCodec? then
      var n :- ReadCount(buf);
      ReadNShapeErrors(ReadItemList, n.1, n.0);
      var vs :- ReadN(ReadItemList, n.1, n.0);
      Ok((VIngredientValues(vs.0), vs.1))
    else
      var n :- ReadCount(buf);
      ReadNShapeErrors(ReadIngredient, n.1, n.0);
      var ings :- ReadN(ReadIngredient, n.1, n.0);
      Ok((VIngredients(ings.0), ings.1))
  }

  /** A single-token reader: the token must be of its kind, and a string
      must be within `readUtf(32767)`'s bound. */
  function ReadSingle(c: Codec, buf: seq<Token>): (r: Result<(Value, seq<Token>), Error>)
    requires SingleToken(c)
    ensures r.Ok? ==> Fits(c, r.value.0)
    ensures r.Err? ==> ShapeError(r.error) || (c == StringCodec && r.error.StringTooLong?)
    ensures c == StringCodec && |buf| > 0 && buf[0].UtfTok? && |buf[0].s| > MAX_STRING_LENGTH ==>
              r == Err(StringTooLong(|buf[0].s|))
    ensures c == BlockCodec && r.Ok? ==> r.value.0.block.key in BLOCK_REGISTRY || r.value.0.block == AIR_BLOCK
  {
    var t :- Next(buf);
    var v := Decode1(c, t.0);
    if v.None? then Err(UnexpectedToken)
    else if v.value.VString? && |v.value.s| > MAX_STRING_LENGTH then Err(StringTooLong(|v.value.s|))
    else Ok((v.value, t.1))
  }

  // -----------------------------------------------------------------------
  // Round trips.

  /** What a written value reads back as: an `Ingredient.Value` comes back as
      a `CollectionItemList` of the same stacks; a block the registry does not
      hold comes back as air, and so does a null block, the one null a writer
      accepts; everything else unchanged. */
  function Normalize(v: Value): Value {
    match v
    case VNull => VBlock(AIR_BLOCK)
    case VBlock(b) => VBlock(BlockById(BlockName(Some(b))))
    case VIngredientValue(iv) => VIngredientValue(CollectionItemList(Items(iv)))
    case VIngredientValues(ivs) => VIngredientValues(MapSeq(NormalizeItemList, ivs))
    case _ => v
  }

  function NormalizeItemList(iv: IngredientValue): IngredientValue {
    CollectionItemList(Items(iv))
  }

  function MapSeq<T>(f: T -> T, xs: seq<T>): (r: seq<T>)
    ensures |r| == |xs| && forall i :: 0 <= i < |xs| ==> r[i] == f(xs[i])
  {
    seq(|xs|, i requires 0 <= i < |xs| => f(xs[i]))
  }

  function Id<T>(x: T): T { x }

  predicate ItemListWithinLimits(iv: IngredientValue) { |Items(iv)| <= INT_MAX }

  /** What Java itself guarantees of a value and the reader checks: array
      lengths fit an `int`, strings are at most 32767 characters. */
  predicate WithinLimits(v: Value) {
    match v
    case VString(s) => |s| <= MAX_STRING_LENGTH
    case VResourceKeys(ks) => |ks| <= INT_MAX
    case VIngredients(ings) => |ings| <= INT_MAX
    case VIngredientValue(iv) => ItemListWithinLimits(iv)
    case VIngredientValues(ivs) =>
      |ivs| <= INT_MAX && forall i :: 0 <= i < |ivs| ==> ItemListWithinLimits(ivs[i])
    case _ => true
  }

  /** Reading back `n` elements written by `WriteAll` returns them in order,
      each as the element reader rebuilds it. */
  lemma {:induction false} ReadWriteAll<T>(read: Reader<T>, enc: T -> seq<Token>, norm: T -> T,
                                            xs: seq<T>, rest: seq<Token>)
    requires forall i, r :: 0 <= i < |xs| ==> read(enc(xs[i]) + r) == Ok((norm(xs[i]), r))
    ensures ReadN(read, WriteAll(enc, xs) + rest, |xs|) == Ok((MapSeq(norm, xs), rest))
  {
    if |xs| > 0 {
      var tail := WriteAll(enc, xs[1..]) + rest;
      assert WriteAll(enc, xs) + rest == enc(xs[0]) + tail;
      assert read(enc(xs[0]) + tail) == Ok((norm(xs[0]), tail));
      forall i, r | 0 <= i < |xs[1..]|
        ensures read(enc(xs[1..][i]) + r) == Ok((norm(xs[1..][i]), r))
      {
        assert xs[1..][i] == xs[i + 1];
      }
      ReadWriteAll(read, enc, norm, xs[1..], rest);
      assert ReadN(read, tail, |xs| - 1) == Ok((MapSeq(norm, xs[1..]), rest));
      assert [norm(xs[0])] + MapSeq(norm, xs[1..]) == MapSeq(norm, xs);
    } else {
      assert WriteAll(enc, xs) + rest == rest;
      assert MapSeq(norm, xs) == [];
    }
  }

  lemma KeyRoundTrip(k: ResourceKey, rest: seq<Token>)
    ensures ReadKey(KeyTokens(k) + rest) == Ok((k, rest))
  {
    assert (KeyTokens(k) + rest)[2..] == rest;
  }

  lemma StackRoundTrip(s: ItemStack, rest: seq<Token>)
    ensures ReadStack(StackTokens(s) + rest) == Ok((s, rest))
  {
    assert (StackTokens(s) + rest)[1..] == rest;
  }

  lemma IngredientRoundTrip(i: Ingredient, rest: seq<Token>)
    ensures ReadIngredient(IngredientTokens(i) + rest) == Ok((i, rest))
  {
    assert (IngredientTokens(i) + rest)[1..] == rest;
  }

  /** A collection item list reads back as a `CollectionItemList` with the
      same count and the same stacks in order. */
  lemma ItemListRoundTrip(v: IngredientValue, rest: seq<Token>)
    requires ItemListWithinLimits(v)
    ensures ReadItemList(ItemListTokens(v) + rest) == Ok((NormalizeItemList(v), rest))
  {
    var stacks := Items(v);
    var body := WriteAll(StackTokens, stacks) + rest;
    assert ItemListTokens(v) + rest == [IntTok(|stacks| as i32)] + body;
    assert ReadCount(ItemListTokens(v) + rest) == Ok((|stacks|, body));
    forall i, r | 0 <= i < |stacks|
      ensures ReadStack(StackTokens(stacks[i]) + r) == Ok((Id(stacks[i]), r))
    {
      StackRoundTrip(stacks[i], r);
    }
    ReadWriteAll(ReadStack, StackTokens, Id, stacks, rest);
    assert MapSeq(Id, stacks) == stacks;
  }

  /** Every codec except `byte[]` reads back what its writer wrote, leaving
      the tokens after it untouched. */
  lemma RoundTrip(c: Codec, v: Value, rest: seq<Token>)
    requires c != ByteArrayCodec
    requires Write(c, v).Ok?
    requires WithinLimits(v)
    ensures Read(c, Write(c, v).value + rest) == Ok((Normalize(v), rest))
  {
    if c.ResourceKeyCodec? {
      KeyRoundTrip(v.key, rest);
    } else if c.ResourceKeyArrayCodec? {
      KeyArrayRoundTrip(v.keys, rest);
    } else if c.CollectionItemListCodec? {
      ItemListRoundTrip(v.ingredientValue, rest);
    } else if c.IngredientValueArrayCodec? {
      ItemListArrayRoundTrip(v.ingredientValues, rest);
    } else if c.IngredientArrayCodec? {
      IngredientArrayRoundTrip(v.ingredients, rest);
    } else {
      SingleTokenRoundTrip(c, v, rest);
    }
  }

  lemma SingleTokenRoundTrip(c: Codec, v: Value, rest: seq<Token>)
    requires c !in {ByteArrayCodec, ResourceKeyCodec, ResourceKeyArrayCodec, CollectionItemListCodec,
                    IngredientValueArrayCodec, IngredientArrayCodec}
    requires Write(c, v).Ok?
    requires WithinLimits(v)
    ensures Read(c, Write(c, v).value + rest) == Ok((Normalize(v), rest))
  {
    var w := Write(c, v).value;
    assert w == [Encode1(c, v).value];
    DecodeEncoded(c, v);
    assert (w + rest)[0] == Encode1(c, v).value;
    assert (w + rest)[1..] == rest;
  }

  /** Every single-token reader except `byte[]` decodes what its writer
      encodes, up to the block registry's default. */
  lemma DecodeEncoded(c: Codec, v: Value)
    requires SingleToken(c) && c != ByteArrayCodec
    requires Encode1(c, v).Some?
    ensures Decode1(c, Encode1(c, v).value) == Some(Normalize(v))
  {
    if c.BlockCodec? {
      BlockNameById(if v.VBlock? then Some(v.block) else None);
    }
  }

  lemma KeyArrayRoundTrip(ks: seq<ResourceKey>, rest: seq<Token>)
    requires Write(ResourceKeyArrayCodec, VResourceKeys(ks)).Ok?
    requires WithinLimits(VResourceKeys(ks))
    ensures Read(ResourceKeyArrayCodec, Write(ResourceKeyArrayCodec, VResourceKeys(ks)).value + rest)
              == Ok((VResourceKeys(ks), rest))
  {
    var w := Write(ResourceKeyArrayCodec, VResourceKeys(ks)).value;
    var body := WriteAll(KeyTokens, ks) + rest;
    assert w + rest == [IntTok(|ks| as i32)] + body;
    assert ReadCount(w + rest) == Ok((|ks|, body));
    forall i, r | 0 <= i < |ks|
      ensures ReadKey(KeyTokens(ks[i]) + r) == Ok((Id(ks[i]), r))
    {
      KeyRoundTrip(ks[i], r);
    }
    ReadWriteAll(ReadKey, KeyTokens, Id, ks, rest);
    assert MapSeq(Id, ks) == ks;
  }

  lemma ItemListArrayRoundTrip(ivs: seq<IngredientValue>, rest: seq<Token>)
    requires Write(IngredientValueArrayCodec, VIngredientValues(ivs)).Ok?
    requires WithinLimits(VIngredientValues(ivs))
    ensures Read(IngredientValueArrayCodec, Write(IngredientValueArrayCodec, VIngredientValues(ivs)).value + rest)
              == Ok((Normalize(VIngredientValues(ivs)), rest))
  {
    var w := Write(IngredientValueArrayCodec, VIngredientValues(ivs)).value;
    var body := WriteAll(ItemListTokens, ivs) + rest;
    assert w + rest == [IntTok(|ivs| as i32)] + body;
    assert ReadCount(w + rest) == Ok((|ivs|, body));
    forall i, r | 0 <= i < |ivs|
      ensures ReadItemList(ItemListTokens(ivs[i]) + r) == Ok((NormalizeItemList(ivs[i]), r))
    {
      ItemListRoundTrip(ivs[i], r);
    }
    ReadWriteAll(ReadItemList, ItemListTokens, NormalizeItemList, ivs, rest);
  }

  lemma IngredientArrayRoundTrip(ings: seq<Ingredient>, rest: seq<Token>)
    requires Write(IngredientArrayCodec, VIngredients(ings)).Ok?
    requires WithinLimits(VIngredients(ings))
    ensures Read(IngredientArrayCodec, Write(IngredientArrayCodec, VIngredients(ings)).value + rest)
              == Ok((VIngredients(ings), rest))
  {
    var w := Write(IngredientArrayCodec, VIngredients(ings)).value;
    var body := WriteAll(IngredientTokens, ings) + rest;
    assert w + rest == [IntTok(|ings| as i32)] + body;
    assert ReadCount(w + rest) == Ok((|ings|, body));
    forall i, r | 0 <= i < |ings|
      ensures ReadIngredient(IngredientTokens(ings[i]) + r) == Ok((Id(ings[i]), r))
    {
      IngredientRoundTrip(ings[i], r);
    }
    ReadWriteAll(ReadIngredient, IngredientTokens, Id, ings, rest);
    assert MapSeq(Id, ings) == ings;
  }

  /** `byte[]` is written with `writeBytes` (no length) but read with
      `readByteArray` (length first), so its own output does not read back. */
  lemma ByteArrayDoesNotRoundTrip(bytes: seq<i8>, rest: seq<Token>)
    ensures Write(ByteArrayCodec, VBytes(bytes)) == Ok([RawBytesTok(bytes)])
    ensures Read(ByteArrayCodec, [RawBytesTok(bytes)] + rest) == Err(UnexpectedToken)
  {
  }

  /** A string longer than 32767 characters is refused by the writer, and a
      token carrying one is refused by the reader. */
  lemma LongStringRejected(s: string, rest: seq<Token>)
    requires |s| > MAX_STRING_LENGTH
    ensures Write(StringCodec, VString(s)) == Err(StringTooLong(|s|))
    ensures Read(StringCodec, [UtfTok(s)] + rest) == Err(StringTooLong(|s|))
  {
  }

  /** A negative stack count in a `CollectionItemList` is not an error: it
      reads as the empty list, alone or as an element of an array. */
  lemma NegativeItemCountReadsEmpty(n: i32, rest: seq<Token>)
    requires n < 0
    ensures Read(CollectionItemListCodec, [IntTok(n)] + rest)
              == Ok((VIngredientValue(CollectionItemList([])), rest))
    ensures Read(IngredientValueArrayCodec, [IntTok(1), IntTok(n)] + rest)
              == Ok((VIngredientValues([CollectionItemList([])]), rest))
  {
    var one := [IntTok(n)] + rest;
    assert one[1..] == rest;
    assert ReadItemList(one) == Ok((CollectionItemList([]), rest));
    assert ([IntTok(1)] + one)[1..] == one;
    assert [IntTok(1), IntTok(n)] + rest == [IntTok(1)] + one;
    assert ReadN(ReadItemList, rest, 0) == Ok(([], rest));
    assert [CollectionItemList([])] + [] == [CollectionItemList([])];
    assert ReadN(ReadItemList, one, 1) == Ok(([CollectionItemList([])], rest));
  }

  /** A registered block is written as its name and reads back as itself. */
  lemma BlockRoundTrip(b: Block, rest: seq<Token>)
    requires b.key in BLOCK_REGISTRY
    ensures Write(BlockCodec, VBlock(b)) == Ok([ResLocTok(b.key)])
    ensures Read(BlockCodec, [ResLocTok(b.key)] + rest) == Ok((VBlock(b), rest))
  {
    assert ([ResLocTok(b.key)] + rest)[1..] == rest;
  }

  /** A name the block registry does not hold reads as air. */
  lemma UnknownBlockReadsAsAir(l: ResLoc, rest: seq<Token>)
    requires l !in BLOCK_REGISTRY
    ensures Read(BlockCodec, [ResLocTok(l)] + rest) == Ok((VBlock(AIR_BLOCK), rest))
  {
    assert ([ResLocTok(l)] + rest)[1..] == rest;
  }

  /** A null block, and a block the registry does not hold, are written as
      air's name. */
  lemma NullBlockWritesAir(v: Value)
    requires v == VNull || (v.VBlock? && v.block.key !in BLOCK_REGISTRY)
    ensures Write(BlockCodec, v) == Ok([ResLocTok(AIR_BLOCK.key)])
  {
  }

  /** A negative element count is an error, not an empty array. */
  lemma NegativeCountRejected(n: i32, rest: seq<Token>)
    requires n < 0
    ensures Read(ResourceKeyArrayCodec, [IntTok(n)] + rest) == Err(NegativeArraySize(n as int))
    ensures Read(IngredientArrayCodec, [IntTok(n)] + rest) == Err(NegativeArraySize(n as int))
    ensures Read(IngredientValueArrayCodec, [IntTok(n)] + rest) == Err(NegativeArraySize(n as int))
  {
  }
}
