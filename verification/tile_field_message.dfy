/** `TileFieldNetworkMessage`: a block position and a compound tag, sent so
    the receiving side can hand the tag to the tile entity at that position. */
module TileFieldMessage {
  import opened Wrappers
  import opened GameTypes
  import opened Reflect
  import opened Wire
  import opened CompoundCodec
  import opened FieldWalk
  import Message

  /** A plain private instance field: not final, static or transient. */
  const PRIVATE: Modifiers := Modifiers(false, false, false, false)

  const POS_FIELD: Field := Field("pos", PRIVATE, BlockPosType)
  const DATA_FIELD: Field := Field("data", PRIVATE, CompoundTagType)

  /** The class as reflection sees it: two declared fields, nothing inherited
      (`Message` declares no fields), and a public no-argument constructor
      that leaves both fields null. */
  const TILE_CLASS: ClassDesc :=
    ClassDesc("TileFieldNetworkMessage", [POS_FIELD, DATA_FIELD], [], true,
              map["pos" := VNull, "data" := VNull])

  /** `new TileFieldNetworkMessage(pos, data)`. */
  function NewTileMessage(pos: BlockPos, data: Tag): (m: Obj)
    ensures WellFormedObj(m) && m.cls == TILE_CLASS
    ensures m.fields["pos"] == VBlockPos(pos) && m.fields["data"] == VTag(data)
  {
    Obj(TILE_CLASS, map["pos" := VBlockPos(pos), "data" := VTag(data)])
  }

  /** Both fields pass the modifier test, and both of their types have a
      handler in the default table. */
  lemma BothFieldsTravel()
    ensures WellFormedClass(TILE_CLASS)
    ensures EligibleNames(TILE_CLASS.declared) == {"pos", "data"}
    ensures AcceptField(DEFAULT_TABLE, POS_FIELD) == Ok(true)
    ensures AcceptField(DEFAULT_TABLE, DATA_FIELD) == Ok(true)
  {
    assert forall f :: f in TILE_CLASS.declared <==> f == POS_FIELD || f == DATA_FIELD;
    TileHandlers();
  }

  lemma TileHandlers()
    ensures BlockPosType in DEFAULT_TABLE && DEFAULT_TABLE[BlockPosType] == BlockPosCodec
    ensures CompoundTagType in DEFAULT_TABLE && DEFAULT_TABLE[CompoundTagType] == CompoundTagCodec
  {
  }

  lemma TileWriters(pos: BlockPos, data: Tag)
    ensures Write(BlockPosCodec, VBlockPos(pos)) == Ok([BlockPosTok(pos)])
    ensures Write(CompoundTagCodec, VTag(data)) == Ok([TagTok(data)])
  {
  }

  lemma TileReaders(pos: BlockPos, data: Tag, rest: seq<Token>)
    ensures Read(BlockPosCodec, [BlockPosTok(pos), TagTok(data)] + rest) == Ok((VBlockPos(pos), [TagTok(data)] + rest))
    ensures Read(CompoundTagCodec, [TagTok(data)] + rest) == Ok((VTag(data), rest))
  {
    assert ([BlockPosTok(pos), TagTok(data)] + rest)[1..] == [TagTok(data)] + rest;
    assert ([TagTok(data)] + rest)[1..] == rest;
  }

  /** The payload is the position's token followed by the tag's token. */
  lemma TilePayload(pos: BlockPos, data: Tag)
    ensures Message.ToBytes(DEFAULT_TABLE, NewTileMessage(pos, data)) == Ok([BlockPosTok(pos), TagTok(data)])
  {
    var m := NewTileMessage(pos, data);
    assert Message.PayloadFields(m) == [POS_FIELD, DATA_FIELD];
    TileHandlers();
    TileWalkWrites(DEFAULT_TABLE, pos, data);
  }

  /** The walks below hold for any handler table that maps the two field
      types to the default handlers. */
  predicate TileTable(table: CodecTable) {
    && BlockPosType in table && table[BlockPosType] == BlockPosCodec
    && CompoundTagType in table && table[CompoundTagType] == CompoundTagCodec
  }

  lemma TileWalkWrites(table: CodecTable, pos: BlockPos, data: Tag)
    requires TileTable(table)
    ensures WriteFields(table, [POS_FIELD, DATA_FIELD], NewTileMessage(pos, data).fields)
              == Written([BlockPosTok(pos), TagTok(data)], None)
  {
    TileWriters(pos, data);
    WriteTwo(table, POS_FIELD, DATA_FIELD, NewTileMessage(pos, data).fields, [BlockPosTok(pos)], [TagTok(data)]);
  }

  /** Decoding that layout into the instance the no-argument constructor
      builds gives the message that was encoded; the tokens after it are left
      in the buffer. */
  lemma TileDecode(pos: BlockPos, data: Tag, rest: seq<Token>)
    ensures NewInstance(TILE_CLASS).Some?
    ensures Message.FromBytes(DEFAULT_TABLE, NewInstance(TILE_CLASS).value, [BlockPosTok(pos), TagTok(data)] + rest)
              == Ok((NewTileMessage(pos, data), rest))
  {
    var blank := NewInstance(TILE_CLASS).value;
    assert Message.PayloadFields(blank) == [POS_FIELD, DATA_FIELD];
    TileHandlers();
    TileWalkReads(DEFAULT_TABLE, TILE_CLASS.noArgInit, pos, data, rest);
    FilledTile(pos, data);
  }

  /** The position and the tag, read into any field map with slots for them. */
  lemma TileWalkReads(table: CodecTable, vals: map<string, Value>, pos: BlockPos, data: Tag, rest: seq<Token>)
    requires TileTable(table)
    requires "pos" in vals && "data" in vals
    ensures ReadFields(table, [POS_FIELD, DATA_FIELD], vals, [BlockPosTok(pos), TagTok(data)] + rest)
              == Ok((vals["pos" := VBlockPos(pos)]["data" := VTag(data)], rest))
  {
    TileReaders(pos, data, rest);
    ReadTwo(table, POS_FIELD, DATA_FIELD, vals, [BlockPosTok(pos), TagTok(data)] + rest,
            VBlockPos(pos), [TagTok(data)] + rest, VTag(data), rest);
  }

  /** Overwriting both slots of the blank instance gives the message the
      two-argument constructor builds. */
  lemma FilledTile(pos: BlockPos, data: Tag)
    ensures TILE_CLASS.noArgInit["pos" := VBlockPos(pos)]["data" := VTag(data)] == NewTileMessage(pos, data).fields
  {
  }

  /** Hence a message survives `toBytes` then `fromBytes` on a fresh instance. */
  lemma TileRoundTrip(pos: BlockPos, data: Tag, rest: seq<Token>)
    ensures Message.ToBytes(DEFAULT_TABLE, NewTileMessage(pos, data)).Ok?
    ensures NewInstance(TILE_CLASS).Some?
    ensures Message.FromBytes(DEFAULT_TABLE, NewInstance(TILE_CLASS).value,
                              Message.ToBytes(DEFAULT_TABLE, NewTileMessage(pos, data)).value + rest)
              == Ok((NewTileMessage(pos, data), rest))
  {
    TilePayload(pos, data);
    TileDecode(pos, data, rest);
  }
}
