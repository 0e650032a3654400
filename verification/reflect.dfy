/** What Java reflection shows the serializers: the declared type of a field,
    its modifiers, the runtime values it can hold, and a class as an ordered
    list of field descriptors. The JVM does not promise an order for
    `getDeclaredFields`/`getFields`; the model fixes one list per class and
    both directions of every codec walk the same list. */
module Reflect {
  import opened JavaInt
  import opened GameTypes

  datatype PrimKind = PByte | PShort | PInt | PLong | PFloat | PDouble | PBoolean | PChar

  /** The `Class` objects the codec tables are keyed by. `ClassType` stands
      for every other class (`Holder`, `List`, `MapCodec`, ...). */
  datatype JType =
    | Primitive(kind: PrimKind)
    | Boxed(boxed: PrimKind)
    | ByteArrayType | IntArrayType | LongArrayType
    | StringType | CompoundTagType
    | ItemStackType | ItemStackArrayType | FluidStackType
    | BlockPosType | ComponentType | DateType | UuidType
    | UpdatePacketType | LocatorType
    | IngredientValueType | IngredientType | BlockType
    | IngredientValueArrayType | IngredientArrayType
    | ResourceKeyType | ResourceKeyArrayType | ResourceLocationType
    | ClassType(name: string)

  /** A runtime field value. `VNull` is Java's `null`; `VObject` is any
      reference the codecs have no reader or writer for. */
  datatype Value =
    | VNull
    | VByte(b: i8) | VShort(sh: i16) | VInt(i: i32) | VLong(l: i64)
    | VFloat(f: FloatBits) | VDouble(d: DoubleBits)
    | VBool(z: bool) | VChar(c: char)
    | VBytes(bytes: seq<i8>) | VInts(ints: seq<i32>) | VLongs(longs: seq<i64>)
    | VString(s: string) | VTag(tag: Tag)
    | VItemStack(stack: ItemStack) | VItemStacks(stacks: seq<ItemStack>)
    | VFluidStack(fluid: FluidStack) | VBlockPos(pos: BlockPos)
    | VComponent(component: Component) | VDate(millis: i64) | VUuid(uuid: Uuid)
    | VUpdatePacket(packet: UpdatePacket) | VLocator(locator: Locator)
    | VIngredientValue(ingredientValue: IngredientValue) | VIngredient(ingredient: Ingredient)
    | VBlock(block: Block)
    | VIngredientValues(ingredientValues: seq<IngredientValue>) | VIngredients(ingredients: seq<Ingredient>)
    | VResourceKey(key: ResourceKey) | VResourceKeys(keys: seq<ResourceKey>)
    | VResLoc(loc: ResLoc)
    | VObject(className: string, id: nat)

  /** The value a field holds before any constructor code assigns it. */
  function DefaultValue(t: JType): (v: Value)
    ensures t.Primitive? <==> v != VNull
  {
    match t
    case Primitive(k) =>
      (match k
      case PByte => VByte(0)
      case PShort => VShort(0)
      case PInt => VInt(0)
      case PLong => VLong(0)
      case PFloat => VFloat(FloatBits(0))
      case PDouble => VDouble(DoubleBits(0))
      case PBoolean => VBool(false)
      case PChar => VChar(0 as char))
    case _ => VNull
  }

  datatype Modifiers = Modifiers(isPublic: bool, isStatic: bool, isFinal: bool, isTransient: bool)

  /** A field descriptor. `name` is the field's slot in its object. Within
      one class it is the source name, which javac keeps unique; a field that
      hides an inherited one of the same source name is a second slot, which
      Java tells apart by its declaring class, so the model gives the two
      different names (`Sub.x` and `Base.x`, say). */
  datatype Field = Field(name: string, mods: Modifiers, ty: JType)

  /** A class as reflection sees it: its own fields in declaration order, the
      public fields it inherits, whether `getConstructor()` finds a public
      no-argument constructor, and the field values that constructor leaves. */
  datatype ClassDesc = ClassDesc(
    name: string,
    declared: seq<Field>,
    inheritedPublic: seq<Field>,
    hasPublicNoArgCtor: bool,
    noArgInit: map<string, Value>)

  /** `getDeclaredFields()`: the class's own fields only. */
  function DeclaredFields(c: ClassDesc): seq<Field> { c.declared }

  function PublicOf(fs: seq<Field>): (r: seq<Field>)
    ensures forall f :: f in r <==> f in fs && f.mods.isPublic
    ensures |r| <= |fs|
  {
    if |fs| == 0 then []
    else (if fs[0].mods.isPublic then [fs[0]] else []) + PublicOf(fs[1..])
  }

  /** `getFields()`: public fields, the class's own first, then inherited ones. */
  function PublicFields(c: ClassDesc): (r: seq<Field>)
    ensures forall f :: f in r <==> (f in c.declared && f.mods.isPublic) || f in c.inheritedPublic
  {
    PublicOf(c.declared) + c.inheritedPublic
  }

  function Names(fs: seq<Field>): set<string> {
    set f | f in fs :: f.name
  }

  function AllFields(c: ClassDesc): seq<Field> { c.declared + c.inheritedPublic }

  /** Field slots are distinct across the hierarchy (a hiding field has its
      own) and the no-argument constructor leaves a value in every field. */
  predicate WellFormedClass(c: ClassDesc) {
    (forall i, j :: 0 <= i < j < |AllFields(c)| ==> AllFields(c)[i].name != AllFields(c)[j].name)
    && c.noArgInit.Keys == Names(AllFields(c))
  }

  /** An instance: its runtime class and the current value of every field. */
  datatype Obj = Obj(cls: ClassDesc, fields: map<string, Value>)

  predicate WellFormedObj(o: Obj) {
    WellFormedClass(o.cls) && o.fields.Keys == Names(AllFields(o.cls))
  }

  /** `clazz.getConstructor().newInstance()`. */
  function NewInstance(c: ClassDesc): (r: Wrappers.Option<Obj>)
    ensures r.Some? <==> c.hasPublicNoArgCtor
    ensures r.Some? ==> r.value.cls == c && r.value.fields == c.noArgInit
  {
    if c.hasPublicNoArgCtor then Wrappers.Some(Obj(c, c.noArgInit)) else Wrappers.None
  }
}
