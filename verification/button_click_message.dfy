/** `ButtonClickNetworkMessage`: a locator for the screen or tile that owns a
    button, the button id and extra data; on arrival the locator is resolved
    against the sending player and, if it names a button handler, the handler
    receives the id and the data. */
module ButtonClickMessage {
  import opened Wrappers
  import opened JavaInt
  import opened GameTypes
  import opened Reflect
  import opened Wire
  import opened CompoundCodec
  import opened FieldWalk
  import Message

  const PRIVATE: Modifiers := Modifiers(false, false, false, false)

  const LOCATOR_FIELD: Field := Field("locatorInstance", PRIVATE, LocatorType)
  const ID_FIELD: Field := Field("id", PRIVATE, Primitive(PInt))
  const DATA_FIELD: Field := Field("data", PRIVATE, CompoundTagType)

  /** Three declared fields, nothing inherited, and a public no-argument
      constructor that leaves the references null and `id` zero. */
  const BUTTON_CLASS: ClassDesc :=
    ClassDesc("ButtonClickNetworkMessage", [LOCATOR_FIELD, ID_FIELD, DATA_FIELD], [], true,
              map["locatorInstance" := VNull, "id" := VInt(0), "data" := VNull])

  /** `new ButtonClickNetworkMessage(locatorInstance, id, data)`. */
  function NewButtonMessage(l: Locator, id: i32, data: Tag): (m: Obj)
    ensures WellFormedObj(m) && m.cls == BUTTON_CLASS
    ensures m.fields["locatorInstance"] == VLocator(l)
    ensures m.fields["id"] == VInt(id) && m.fields["data"] == VTag(data)
  {
    ButtonClassShape();
    Obj(BUTTON_CLASS, map["locatorInstance" := VLocator(l), "id" := VInt(id), "data" := VTag(data)])
  }

  lemma ButtonClassShape()
    ensures WellFormedClass(BUTTON_CLASS)
    ensures Names(AllFields(BUTTON_CLASS)) == {"locatorInstance", "id", "data"}
  {
    assert AllFields(BUTTON_CLASS) == [LOCATOR_FIELD, ID_FIELD, DATA_FIELD];
  }

  // -----------------------------------------------------------------------
  // Payload.

  /** All three fields pass the modifier test and have a handler. */
  lemma AllFieldsTravel()
    ensures WellFormedClass(BUTTON_CLASS)
    ensures EligibleNames(BUTTON_CLASS.declared) == {"locatorInstance", "id", "data"}
    ensures AcceptField(DEFAULT_TABLE, LOCATOR_FIELD) == Ok(true)
    ensures AcceptField(DEFAULT_TABLE, ID_FIELD) == Ok(true)
    ensures AcceptField(DEFAULT_TABLE, DATA_FIELD) == Ok(true)
  {
    assert forall f :: f in BUTTON_CLASS.declared <==> f == LOCATOR_FIELD || f == ID_FIELD || f == DATA_FIELD;
    ButtonHandlers();
  }

  lemma ButtonHandlers()
    ensures LocatorType in DEFAULT_TABLE && DEFAULT_TABLE[LocatorType] == LocatorCodec
    ensures Primitive(PInt) in DEFAULT_TABLE && DEFAULT_TABLE[Primitive(PInt)] == VarIntCodec
    ensures CompoundTagType in DEFAULT_TABLE && DEFAULT_TABLE[CompoundTagType] == CompoundTagCodec
  {
  }

  lemma ButtonWriters(l: Locator, id: i32, data: Tag)
    ensures Write(LocatorCodec, VLocator(l)) == Ok([LocatorTok(l)])
    ensures Write(VarIntCodec, VInt(id)) == Ok([VarIntTok(id)])
    ensures Write(CompoundTagCodec, VTag(data)) == Ok([TagTok(data)])
  {
  }

  lemma ButtonReaders(l: Locator, id: i32, data: Tag, rest: seq<Token>)
    ensures Read(LocatorCodec, [LocatorTok(l), VarIntTok(id), TagTok(data)] + rest)
              == Ok((VLocator(l), [VarIntTok(id), TagTok(data)] + rest))
    ensures Read(VarIntCodec, [VarIntTok(id), TagTok(data)] + rest) == Ok((VInt(id), [TagTok(data)] + rest))
    ensures Read(CompoundTagCodec, [TagTok(data)] + rest) == Ok((VTag(data), rest))
  {
    assert ([LocatorTok(l), VarIntTok(id), TagTok(data)] + rest)[1..] == [VarIntTok(id), TagTok(data)] + rest;
    assert ([VarIntTok(id), TagTok(data)] + rest)[1..] == [TagTok(data)] + rest;
    assert ([TagTok(data)] + rest)[1..] == rest;
  }

  /** All three fields are eligible, so the payload is the locator, the id as
      a VarInt and the tag, in declaration order. */
  lemma ButtonPayload(l: Locator, id: i32, data: Tag)
    ensures Message.ToBytes(DEFAULT_TABLE, NewButtonMessage(l, id, data))
              == Ok([LocatorTok(l), VarIntTok(id), TagTok(data)])
  {
    var m := NewButtonMessage(l, id, data);
    assert Message.PayloadFields(m) == [LOCATOR_FIELD, ID_FIELD, DATA_FIELD];
    ButtonWalkWrites(m.fields, l, id, data);
  }

  /** The id and the data, written from any field map holding them. */
  lemma ButtonTailWrites(vals: map<string, Value>, id: i32, data: Tag)
    requires "id" in vals && vals["id"] == VInt(id) && "data" in vals && vals["data"] == VTag(data)
    ensures Names([ID_FIELD, DATA_FIELD]) <= vals.Keys
    ensures WriteFields(DEFAULT_TABLE, [ID_FIELD, DATA_FIELD], vals) == Written([VarIntTok(id), TagTok(data)], None)
  {
    ButtonHandlers();
    ButtonWriters(Locator(0), id, data);
    WriteTwo(DEFAULT_TABLE, ID_FIELD, DATA_FIELD, vals, [VarIntTok(id)], [TagTok(data)]);
  }

  lemma ButtonWalkWrites(vals: map<string, Value>, l: Locator, id: i32, data: Tag)
    requires "locatorInstance" in vals && vals["locatorInstance"] == VLocator(l)
    requires "id" in vals && vals["id"] == VInt(id) && "data" in vals && vals["data"] == VTag(data)
    ensures WriteFields(DEFAULT_TABLE, [LOCATOR_FIELD, ID_FIELD, DATA_FIELD], vals)
              == Written([LocatorTok(l), VarIntTok(id), TagTok(data)], None)
  {
    ButtonHandlers();
    ButtonWriters(l, id, data);
    ButtonTailWrites(vals, id, data);
    WriteCons(DEFAULT_TABLE, LOCATOR_FIELD, [ID_FIELD, DATA_FIELD], vals, [LocatorTok(l)]);
    assert [LOCATOR_FIELD] + [ID_FIELD, DATA_FIELD] == [LOCATOR_FIELD, ID_FIELD, DATA_FIELD];
  }

  /** Decoding that layout into a fresh instance restores all three values
      and leaves the rest of the buffer. */
  lemma ButtonDecode(l: Locator, id: i32, data: Tag, rest: seq<Token>)
    ensures NewInstance(BUTTON_CLASS).Some?
    ensures Message.FromBytes(DEFAULT_TABLE, NewInstance(BUTTON_CLASS).value,
                              [LocatorTok(l), VarIntTok(id), TagTok(data)] + rest)
              == Ok((NewButtonMessage(l, id, data), rest))
  {
    var blank := NewInstance(BUTTON_CLASS).value;
    assert Message.PayloadFields(blank) == [LOCATOR_FIELD, ID_FIELD, DATA_FIELD];
    ButtonWalkReads(BUTTON_CLASS.noArgInit, l, id, data, rest);
    FilledInstance(l, id, data);
  }

  /** The id and the data, read into any field map that has slots for them. */
  lemma ButtonTailReads(vals: map<string, Value>, id: i32, data: Tag, rest: seq<Token>)
    requires "id" in vals && "data" in vals
    ensures ReadFields(DEFAULT_TABLE, [ID_FIELD, DATA_FIELD], vals, [VarIntTok(id), TagTok(data)] + rest)
              == Ok((vals["id" := VInt(id)]["data" := VTag(data)], rest))
  {
    ButtonHandlers();
    ButtonReaders(Locator(0), id, data, rest);
    ReadTwo(DEFAULT_TABLE, ID_FIELD, DATA_FIELD, vals, [VarIntTok(id), TagTok(data)] + rest,
            VInt(id), [TagTok(data)] + rest, VTag(data), rest);
  }

  lemma ButtonWalkReads(vals: map<string, Value>, l: Locator, id: i32, data: Tag, rest: seq<Token>)
    requires "locatorInstance" in vals && "id" in vals && "data" in vals
    ensures ReadFields(DEFAULT_TABLE, [LOCATOR_FIELD, ID_FIELD, DATA_FIELD], vals,
                       [LocatorTok(l), VarIntTok(id), TagTok(data)] + rest)
              == Ok((vals["locatorInstance" := VLocator(l)]["id" := VInt(id)]["data" := VTag(data)], rest))
  {
    ButtonHandlers();
    ButtonReaders(l, id, data, rest);
    assert Names([ID_FIELD, DATA_FIELD]) == {"id", "data"};
    ReadCons(DEFAULT_TABLE, LOCATOR_FIELD, [ID_FIELD, DATA_FIELD], vals,
             [LocatorTok(l), VarIntTok(id), TagTok(data)] + rest, VLocator(l), [VarIntTok(id), TagTok(data)] + rest);
    assert [LOCATOR_FIELD] + [ID_FIELD, DATA_FIELD] == [LOCATOR_FIELD, ID_FIELD, DATA_FIELD];
    ButtonTailReads(vals["locatorInstance" := VLocator(l)], id, data, rest);
  }

  /** Overwriting all three slots of the blank instance gives the message
      the three-argument constructor builds. */
  lemma FilledInstance(l: Locator, id: i32, data: Tag)
    ensures BUTTON_CLASS.noArgInit["locatorInstance" := VLocator(l)]["id" := VInt(id)]["data" := VTag(data)]
              == NewButtonMessage(l, id, data).fields
  {
  }

  /** A click survives `toBytes` then `fromBytes` on a fresh instance. */
  lemma ButtonRoundTrip(l: Locator, id: i32, data: Tag, rest: seq<Token>)
    ensures Message.ToBytes(DEFAULT_TABLE, NewButtonMessage(l, id, data)).Ok?
    ensures NewInstance(BUTTON_CLASS).Some?
    ensures Message.FromBytes(DEFAULT_TABLE, NewInstance(BUTTON_CLASS).value,
                              Message.ToBytes(DEFAULT_TABLE, NewButtonMessage(l, id, data)).value + rest)
              == Ok((NewButtonMessage(l, id, data), rest))
  {
    ButtonPayload(l, id, data);
    ButtonDecode(l, id, data, rest);
  }

  // -----------------------------------------------------------------------
  // Handling.

  /** What `locatorInstance.locale(player)` finds: an object that is a button
      handler, or some other object. Which one depends on the world, so the
      lookup is a parameter. */
  datatype LocaleTarget = ButtonHandler(handler: nat) | OtherTarget(id: nat)

  /** A call `handler.handleButtonMessage(id, player, data)`. */
  datatype ButtonCall = ButtonCall(handler: nat, id: i32, data: Value)

  /** The field values a `ButtonClickNetworkMessage` can hold. */
  predicate ButtonShaped(m: Obj) {
    && WellFormedObj(m) && m.cls == BUTTON_CLASS
    && (m.fields["locatorInstance"].VLocator? || m.fields["locatorInstance"] == VNull)
    && m.fields["id"].VInt?
    && (m.fields["data"].VTag? || m.fields["data"] == VNull)
  }

  /** `handleMessage`: resolve the locator, keep the result only if it is a
      button handler, and call it with the message's id and data. A null
      locator fails when the method reference is taken. */
  function HandleButtonClick(m: Obj, locate: Locator -> Option<LocaleTarget>): (r: Result<Option<ButtonCall>, Error>)
    requires ButtonShaped(m)
    ensures r.Err? <==> m.fields["locatorInstance"] == VNull
    ensures r.Ok? ==>
              (r.value.Some? <==> locate(m.fields["locatorInstance"].locator).Some?
                                  && locate(m.fields["locatorInstance"].locator).value.ButtonHandler?)
    ensures r.Ok? && r.value.Some? ==>
              && r.value.value.handler == locate(m.fields["locatorInstance"].locator).value.handler
              && r.value.value.id == m.fields["id"].i
              && r.value.value.data == m.fields["data"]
  {
    match m.fields["locatorInstance"]
    case VLocator(l) =>
      (match locate(l)
       case Some(ButtonHandler(h)) => Ok(Some(ButtonCall(h, m.fields["id"].i, m.fields["data"])))
       case _ => Ok(None))
    case _ => Err(NullValue)
  }

  /** A click sent and received reaches the handler its locator names with
      the id and data the sender put in. */
  lemma ClickReachesHandler(l: Locator, id: i32, data: Tag, rest: seq<Token>,
                            locate: Locator -> Option<LocaleTarget>)
    requires locate(l).Some? && locate(l).value.ButtonHandler?
    ensures var received := NewButtonMessage(l, id, data);
            ButtonShaped(received)
            && HandleButtonClick(received, locate) == Ok(Some(ButtonCall(locate(l).value.handler, id, VTag(data))))
  {
    ButtonRoundTrip(l, id, data, rest);
  }
}
