/** The network buffer, abstracted to a sequence of tokens: one token per
    call of a `FriendlyByteBuf` read/write primitive or engine stream codec.
    Byte layouts (VarInt, UTF-8, NBT, ...) belong to the engine and are not
    re-derived; a reader that meets an empty buffer or a token of another
    kind fails, where the real byte reader would throw or misread. */
module Wire {
  import opened JavaInt
  import opened GameTypes
  import Reflect

  datatype Token =
    | ByteTok(b: i8)                    // writeByte
    | ShortTok(sh: i16)                 // writeShort
    | VarIntTok(i: i32)                 // writeVarInt
    | VarLongTok(l: i64)                // writeVarLong
    | FloatTok(f: FloatBits)            // writeFloat
    | DoubleTok(d: DoubleBits)          // writeDouble
    | BoolTok(z: bool)                  // writeBoolean
    | CharTok(c: char)                  // writeChar
    | RawBytesTok(raw: seq<i8>)         // writeBytes: the bytes alone
    | ByteArrayTok(bytes: seq<i8>)      // writeByteArray: length, then bytes
    | VarIntArrayTok(ints: seq<i32>)    // writeVarIntArray
    | LongArrayTok(longs: seq<i64>)     // writeLongArray
    | UtfTok(s: string)                 // writeUtf
    | IntTok(n: i32)                    // writeInt: fixed four bytes
    | ResLocTok(loc: ResLoc)            // writeResourceLocation
    | TagTok(tag: Tag)                  // compound tag stream codec
    | ItemStackTok(stack: ItemStack)    // ItemStack.STREAM_CODEC
    | FluidStackTok(fluid: FluidStack)  // FluidStack.STREAM_CODEC
    | BlockPosTok(pos: BlockPos)        // BlockPos.STREAM_CODEC
    | ComponentTok(component: Component)
    | DateTok(millis: i64)
    | UuidTok(uuid: Uuid)
    | UpdatePacketTok(packet: UpdatePacket)
    | LocatorTok(locator: Locator)
    | IngredientTok(ingredient: Ingredient)

  /** The exceptions the modelled code can raise or pass on. */
  datatype Error =
    | NoHandler(ty: Reflect.JType)      // "No R/W handler for ..."
    | NullValue                         // a writer dereferenced a null field
    | ClassCast                         // a codec was handed a value of another type
    | BufferUnderflow                   // read past the end of the buffer
    | UnexpectedToken                   // the next token is not what the reader expects
    | StringTooLong(length: nat)        // readUtf(32767) on a longer string
    | NegativeArraySize(count: int)     // `new T[buf.readInt()]` with a negative count
    | ReadingPacket(cause: Error)       // "Error at reading packet"
    | WritingPacket(cause: Error)       // "Error at writing packet"
    | Reflective(className: string)     // no public no-argument constructor
}
