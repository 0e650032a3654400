# Titanium network and recipe codecs, in Dafny

This project models the part of the Titanium Minecraft library that moves
objects field by field over the wire and through JSON, plus the small stateful
helpers around it:

- `CompoundSerializableDataHandler` is the table from Java type to binary
  reader/writer, and `Message` is the reflective field walk that
  `toBytes`/`fromBytes` run over a message's declared fields. It skips
  static, final and transient fields and throws on a field type with no
  handler. `NetworkHandler` registers message classes under per-mod ids and
  wraps and decodes payloads.
- `GenericSerializer` runs the same walk over a recipe's public fields.
  `JSONSerializableDataHandler` is its JSON counterpart.
- `TileFieldNetworkMessage`, `ButtonClickNetworkMessage` and
  `TestSerializableRecipe` are concrete users of the walk. The model proves
  that each of them round-trips.
- `EnergyStorageItemStack` / `StoredEnergyAttachment`,
  `FluidTankReferenceHolder`, `AugmentWrapper`, `SidedFluidTankComponent`,
  `TagUtil` and `InventoryUtil` are the stateful helpers.

Library byte layouts (`FriendlyByteBuf`, `StreamCodec`s) are abstracted to a
buffer of typed tokens: each writer pushes tokens, and each reader pops them.
A token of the wrong kind, or an empty buffer, is a read failure.

- A Java class is a `ClassDesc` holding:
  - its declared fields in declaration order;
  - the public fields it inherits;
  - whether it has a public no-argument constructor;
  - the field values that constructor leaves.
- An object is a class plus a map from field slot to `Value`. A slot is
  the field's name, and a field that hides an inherited one has a slot of
  its own.
- A null field value is `VNull`. The elements of an array value are never
  null (see "## Left out").
- Java `int` arithmetic is modelled with explicit 32-bit wrap-around (`JavaInt`).
- Exceptions are `Err` results. The walk's "log and stop" behaviour is a
  `failure` component next to the tokens written so far.

The modules follow the source's structure:

- `Wrappers`, `JavaInt`, `Text`: shared plumbing.
- `GameTypes`, `Wire`, `Reflect`: the game values, tokens and reflection.
- `Registry`: map registration shared by both codec tables.
- `CompoundCodec`, `FieldWalk`, `Message`, `NetworkHandler`,
  `GenericSerializer`: the binary codec table, the field walk and its users.
- `Json`, `JsonCodec`: JSON access and the JSON codec table.
- `TileFieldMessage`, `ButtonClickMessage`, `TestRecipe`: concrete messages and the test recipe.
- `EnergyStorage`, `FluidTankReference`, `Augment`, `FluidHandler`,
  `SidedFluidTank`, `TagUtil`, `InventoryUtil`: the stateful helpers.

All paths below are relative to the repository root. The prefix
`src/main/java/com/hrznstudio/titanium/` is written out in full.

## Model

| member | source | states |
|---|---|---|
| Registry.Register | src/main/java/com/hrznstudio/titanium/network/CompoundSerializableDataHandler.java:87-94 | After `map`, the type maps to the new handler, every other type keeps its handler, and the key set grows by exactly that type. |
| Registry.LastRegistrationWins | src/main/java/com/hrznstudio/titanium/network/CompoundSerializableDataHandler.java:87-94 | Mapping one type twice leaves the same table as mapping it only the second time. |
| Registry.IndependentRegistrationsCommute | src/main/java/com/hrznstudio/titanium/network/CompoundSerializableDataHandler.java:43-85 | Mappings of different types commute, so the order of the static initializer's lines does not matter. |
| CompoundCodec.MapType | src/main/java/com/hrznstudio/titanium/network/CompoundSerializableDataHandler.java:87-94 | Registering a codec for a type installs it and keeps every other entry. |
| CompoundCodec.PrimitiveAndBoxShareCodec | src/main/java/com/hrznstudio/titanium/network/CompoundSerializableDataHandler.java:44-59 | Each primitive and its box are both registered, to the same codec. `int` and `Integer` use the VarInt codec, and `long` and `Long` use the VarLong codec. |
| CompoundCodec.ClassTypesUnregistered | src/main/java/com/hrznstudio/titanium/network/CompoundSerializableDataHandler.java:43-85 | No user class has an entry in the default table. |
| CompoundCodec.GetHandler | src/main/java/com/hrznstudio/titanium/network/CompoundSerializableDataHandler.java:174-179 | The lookup succeeds exactly when the type is registered, and then returns the registered codec. Otherwise the error names the missing type. |
| CompoundCodec.AcceptField | src/main/java/com/hrznstudio/titanium/network/CompoundSerializableDataHandler.java:191-194 | A static, final or transient field is skipped. Any other field is accepted if its type has a handler; if not, it raises the no-handler error. Skipping happens only for excluded fields. |
| CompoundCodec.Write | src/main/java/com/hrznstudio/titanium/network/CompoundSerializableDataHandler.java:66-78 | A null value is rejected, except by the block writer, which writes the default block's name. A value of the wrong type is a cast error, and a string longer than 32767 characters is refused. Any other value is written as at least one token. |
| CompoundCodec.Read | src/main/java/com/hrznstudio/titanium/network/CompoundSerializableDataHandler.java:43-168 | A successful read has the codec's type. The only failures are a short or mistyped buffer, a negative count for the three length-prefixed arrays, and an over-long string. A block read gives a registered block or air. |
| CompoundCodec.ReadSingle | src/main/java/com/hrznstudio/titanium/network/CompoundSerializableDataHandler.java:44-83 | The one-token readers give a value of their type, reject an over-long string with the string's length, and look block names up in the registry. |
| CompoundCodec.ReadNShapeErrors | src/main/java/com/hrznstudio/titanium/network/CompoundSerializableDataHandler.java:125-168 | If an element reader fails only on a short or mistyped buffer, so does the loop that reads n elements. |
| CompoundCodec.RoundTrip | src/main/java/com/hrznstudio/titanium/network/CompoundSerializableDataHandler.java:43-168 | For every codec except `byte[]`, reading back what was written gives the value (normalised) and leaves the trailing buffer untouched. |
| CompoundCodec.KeyRoundTrip | src/main/java/com/hrznstudio/titanium/network/CompoundSerializableDataHandler.java:112-119 | A registry key is written as its registry then its location, and reads back as the same key. |
| CompoundCodec.KeyArrayRoundTrip | src/main/java/com/hrznstudio/titanium/network/CompoundSerializableDataHandler.java:140-153 | A count-prefixed array of registry keys reads back element for element. |
| CompoundCodec.ItemListRoundTrip | src/main/java/com/hrznstudio/titanium/network/CompoundSerializableDataHandler.java:204-219 | An ingredient value's stack list reads back as a `CollectionItemList` of the same stacks. |
| CompoundCodec.ItemListArrayRoundTrip | src/main/java/com/hrznstudio/titanium/network/CompoundSerializableDataHandler.java:125-138 | An array of ingredient values reads back element for element, each as its normalised item list. |
| CompoundCodec.IngredientArrayRoundTrip | src/main/java/com/hrznstudio/titanium/network/CompoundSerializableDataHandler.java:155-168 | An array of ingredients reads back element for element. |
| CompoundCodec.ReadWriteAll | src/main/java/com/hrznstudio/titanium/network/CompoundSerializableDataHandler.java:140-153 | Any element reader that inverts its element writer also inverts the loop that writes n elements, read n times. |
| CompoundCodec.ByteArrayDoesNotRoundTrip | src/main/java/com/hrznstudio/titanium/network/CompoundSerializableDataHandler.java:62 | `byte[]` is written as raw bytes but read as a length-prefixed array, so a written byte array cannot be read back. |
| CompoundCodec.LongStringRejected | src/main/java/com/hrznstudio/titanium/network/CompoundSerializableDataHandler.java:66-102 | A string longer than 32767 characters is refused by the writer, and a token carrying one is refused by the reader, both with the string's length. |
| CompoundCodec.NegativeCountRejected | src/main/java/com/hrznstudio/titanium/network/CompoundSerializableDataHandler.java:125-161 | A negative element count makes every array reader fail, as allocating a negative-size Java array does. |
| CompoundCodec.NegativeItemCountReadsEmpty | src/main/java/com/hrznstudio/titanium/network/CompoundSerializableDataHandler.java:204-214 | A `CollectionItemList` whose count is negative runs its loop zero times and reads as an empty list, also inside an ingredient-value array. |
| CompoundCodec.BlockRoundTrip | src/main/java/com/hrznstudio/titanium/network/CompoundSerializableDataHandler.java:78 | A registered block is written as its registry name and read back as the same block. |
| CompoundCodec.UnknownBlockReadsAsAir | src/main/java/com/hrznstudio/titanium/network/CompoundSerializableDataHandler.java:78 | A name the block registry does not hold reads as air. |
| CompoundCodec.NullBlockWritesAir | src/main/java/com/hrznstudio/titanium/network/CompoundSerializableDataHandler.java:78 | A null or unregistered block is written as air's name. |
| GameTypes.BlockById | src/main/java/com/hrznstudio/titanium/network/CompoundSerializableDataHandler.java:78 | The registry lookup gives the named block when it is registered, and air otherwise. |
| GameTypes.BlockName | src/main/java/com/hrznstudio/titanium/network/CompoundSerializableDataHandler.java:78 | The registry gives a registered block's own name, and air's name for any other block or null. |
| Reflect.NewInstance | src/main/java/com/hrznstudio/titanium/network/NetworkHandler.java:62-69 | Reflective instantiation succeeds exactly when the class has a public no-argument constructor, and yields the fields that constructor leaves. |
| Reflect.PublicFields | src/main/java/com/hrznstudio/titanium/recipe/serializer/GenericSerializer.java:38-51 | `getFields` contains exactly the public declared fields and the inherited public fields. |
| Reflect.PublicOf | src/main/java/com/hrznstudio/titanium/recipe/serializer/GenericSerializer.java:38-51 | Filtering for public fields keeps exactly the public ones and never lengthens the list. |
| FieldWalk.WriteFields | src/main/java/com/hrznstudio/titanium/network/Message.java:35-47 | A walk that completes found a handler for every non-excluded field. If every such field has a handler and a writer that accepts its value, the walk completes. |
| FieldWalk.ReadFields | src/main/java/com/hrznstudio/titanium/network/Message.java:21-33 | A successful read keeps the object's field set, leaves every skipped field's value alone, and implies that every non-excluded field had a handler. |
| FieldWalk.WalkRoundTrip | src/main/java/com/hrznstudio/titanium/network/Message.java:21-47 | For distinct field names and transmissible values, reading the written walk into a blank instance restores every sent field and leaves the unsent ones at the blank's values. |
| FieldWalk.WriteFieldsFrame | src/main/java/com/hrznstudio/titanium/network/Message.java:35-47 | What the walk writes depends only on the values of the walked fields. |
| FieldWalk.WriteFieldsStopsAtFailure | src/main/java/com/hrznstudio/titanium/network/Message.java:35-47 | A failed walk fails at some field index. That field is non-excluded and has no handler or a rejecting writer. Everything before it was written completely. |
| FieldWalk.SkipExcludedPrefix | src/main/java/com/hrznstudio/titanium/network/CompoundSerializableDataHandler.java:191-194 | Excluded fields placed in front change neither the written tokens nor the read result. |
| FieldWalk.RestoredIsOriginal | src/main/java/com/hrznstudio/titanium/network/Message.java:21-33 | When the blank instance already agrees with the sender on the unsent fields, a round trip returns the sender's exact field map. |
| Message.ToBytes | src/main/java/com/hrznstudio/titanium/network/Message.java:35-47 | Every error is wrapped as a writing-packet error. Success implies every payload field had a handler. Success is guaranteed when every field has a handler and a fitting value. |
| Message.FromBytes | src/main/java/com/hrznstudio/titanium/network/Message.java:21-33 | Every error is wrapped as a reading-packet error. A decoded object keeps its class and leaves its unsent fields unchanged. |
| Message.MessageRoundTrip | src/main/java/com/hrznstudio/titanium/network/Message.java:21-47 | `fromBytes` on a fresh instance, fed what `toBytes` wrote, restores every declared field and consumes exactly the payload. |
| Message.InheritedFieldsNotSent | src/main/java/com/hrznstudio/titanium/network/Message.java:35-47 | Two messages of one class that agree on their declared fields encode identically, whatever their inherited fields hold. |
| Message.DeclaredDistinct | src/main/java/com/hrznstudio/titanium/network/Message.java:21-33 | A class's declared fields have distinct names, so the walk writes each field once. |
| NetworkHandler.NewChannel | src/main/java/com/hrznstudio/titanium/network/NetworkHandler.java:36-45 | A handler is created exactly when the mod is loaded. It starts with counter 0 and no registrations. |
| NetworkHandler.MakeId | src/main/java/com/hrznstudio/titanium/network/NetworkHandler.java:57 | A payload id is built exactly when the namespace and path are valid resource-location text. |
| NetworkHandler.RegisterMessage | src/main/java/com/hrznstudio/titanium/network/NetworkHandler.java:55-72 | The counter is bumped first, with `int` wrap-around, even when the call then throws. The call throws exactly on an invalid namespace or path, and then leaves the id map and the queue unchanged. Otherwise it maps the class to its new id and appends exactly one queued registration. |
| NetworkHandler.OnRegisterPayloadHandlers | src/main/java/com/hrznstudio/titanium/network/NetworkHandler.java:40-43 | The registrar replays every queued registration in order, and its version string parses back to the registration count. |
| NetworkHandler.Wrap | src/main/java/com/hrznstudio/titanium/network/NetworkHandler.java:74-76 | The wrapper carries an id exactly when the message's class was registered, and then the id it was registered under. |
| NetworkHandler.DecodePayload | src/main/java/com/hrznstudio/titanium/network/NetworkHandler.java:62-69 | Decoding builds a fresh instance of the registered class and fails as `fromBytes` does. |
| NetworkHandler.RegisteredClassIsWrapped | src/main/java/com/hrznstudio/titanium/network/NetworkHandler.java:55-76 | After registering a class under a name, wrapping one of its messages tags it with that channel's id for the name. |
| NetworkHandler.PayloadRoundTrip | src/main/java/com/hrznstudio/titanium/network/NetworkHandler.java:59-69 | The registered stream codec decodes what it encoded, back to a message equal in every declared field. |
| NetworkHandler.RegisterAllCounts | src/main/java/com/hrznstudio/titanium/network/NetworkHandler.java:55-58 | Registering n valid names throws nowhere, raises the counter by n and queues n registrations, in call order. |
| NetworkHandler.VersionCountsRegistrations | src/main/java/com/hrznstudio/titanium/network/NetworkHandler.java:36-45 | A new handler given n registrations announces the version string of n. |
| NetworkHandler.DuplicateNameAccepted | src/main/java/com/hrznstudio/titanium/network/NetworkHandler.java:55-72 | Registering one name twice is not rejected: two registrations are queued under the same id, and the later class gets that id. |
| NetworkHandler.FailedRegistrationCounted | src/main/java/com/hrznstudio/titanium/network/NetworkHandler.java:36-58 | A registration that throws on a bad name still counts: after it and n valid ones, the announced version is n + 1 while only n payloads are queued. |
| GenericSerializer.FromNetwork | src/main/java/com/hrznstudio/titanium/recipe/serializer/GenericSerializer.java:38-51 | Without a public no-argument constructor nothing is decoded. A decoded recipe has the serializer's class, leaves its unsent fields unchanged, and implies that every public field had a handler. |
| GenericSerializer.NetworkRoundTrip | src/main/java/com/hrznstudio/titanium/recipe/serializer/GenericSerializer.java:38-65 | `fromNetwork` applied to what `toNetwork` wrote restores every public field and consumes exactly the payload. |
| GenericSerializer.StreamCodecRoundTrip | src/main/java/com/hrznstudio/titanium/recipe/serializer/GenericSerializer.java:67-70 | The serializer's stream codec decodes what it encodes. |
| GenericSerializer.ToNetworkKeepsPrefix | src/main/java/com/hrznstudio/titanium/recipe/serializer/GenericSerializer.java:55-65 | When `toNetwork` catches an exception, the fields before the failing one have already been written in full. |
| GenericSerializer.NonPublicFieldsNotSent | src/main/java/com/hrznstudio/titanium/recipe/serializer/GenericSerializer.java:55-65 | Two recipes that agree on their public fields encode identically. |
| GenericSerializer.PublicFieldsDistinct | src/main/java/com/hrznstudio/titanium/recipe/serializer/GenericSerializer.java:38-51 | A class's public field slots, declared and inherited, are distinct. A field that hides an inherited one is a slot of its own. |
| GenericSerializer.DistinctConcat | src/main/java/com/hrznstudio/titanium/recipe/serializer/GenericSerializer.java:38-51 | A concatenated field list has distinct names exactly when both parts do and they share no name. |
| GenericSerializer.HiddenFieldSentTwice | src/main/java/com/hrznstudio/titanium/recipe/serializer/GenericSerializer.java:38-65 | For a subclass whose public field hides a public superclass field of the same name, both slots are listed and both values are sent. |
| Json.Scalar | src/main/java/com/hrznstudio/titanium/recipe/serializer/JSONSerializableDataHandler.java:40-56 | Only booleans, numbers and strings are primitives. Null and objects raise the not-primitive error. |
| Json.AsString | src/main/java/com/hrznstudio/titanium/recipe/serializer/JSONSerializableDataHandler.java:40-56 | Strings read as themselves, and booleans and integers read as their printed form. |
| Json.ParseJavaInteger | src/main/java/com/hrznstudio/titanium/recipe/serializer/JSONSerializableDataHandler.java:40-56 | Parsing succeeds exactly on an optional sign followed by one or more decimal digits of any script whose value fits the target Java type. The result is that signed digit value. A failure names the text. |
| Json.OtherScriptDigitsParse | src/main/java/com/hrznstudio/titanium/recipe/serializer/JSONSerializableDataHandler.java:40-56 | Digits of other scripts parse as `Integer.parseInt` reads them, for example Arabic-Indic "٤٢" as 42, and a lone sign fails. |
| Json.ParseIntToString | src/main/java/com/hrznstudio/titanium/recipe/serializer/JSONSerializableDataHandler.java:40-56 | Parsing a number's decimal text gives the number back whenever it is in range. |
| Json.AsIntegral | src/main/java/com/hrznstudio/titanium/recipe/serializer/JSONSerializableDataHandler.java:40-56 | An integer member reads as itself, and a string member is parsed as Java does. |
| Json.AsBool | src/main/java/com/hrznstudio/titanium/recipe/serializer/JSONSerializableDataHandler.java:40-56 | A boolean reads as itself. A string is true exactly when it equals "true" ignoring case. A number is false. |
| Json.NumberNeverTrue | src/main/java/com/hrznstudio/titanium/recipe/serializer/JSONSerializableDataHandler.java:40-56 | No integer's text equals "true" ignoring case. |
| Json.AsChar | src/main/java/com/hrznstudio/titanium/recipe/serializer/JSONSerializableDataHandler.java:40-56 | A character is read as the first character of a string. An empty string is an error. |
| Json.AsObject | src/main/java/com/hrznstudio/titanium/recipe/serializer/JSONSerializableDataHandler.java:59-97 | Object access succeeds exactly on objects and yields their members. |
| Json.AsArray | src/main/java/com/hrznstudio/titanium/recipe/serializer/JSONSerializableDataHandler.java:59-73 | Array access succeeds exactly on arrays and yields their elements. |
| Json.Member | src/main/java/com/hrznstudio/titanium/recipe/serializer/JSONSerializableDataHandler.java:79-101 | Member lookup succeeds exactly for a present name and yields its value. |
| Json.LocationRoundTrip | src/main/java/com/hrznstudio/titanium/recipe/serializer/JSONSerializableDataHandler.java:74 | Parsing a valid resource location's printed form gives the location back. |
| JsonCodec.MapType | src/main/java/com/hrznstudio/titanium/recipe/serializer/JSONSerializableDataHandler.java:149-151 | Registering a JSON codec installs it and keeps every other entry. |
| JsonCodec.LaterMappingWins | src/main/java/com/hrznstudio/titanium/recipe/serializer/JSONSerializableDataHandler.java:149-151 | Mapping a type twice keeps only the later codec. |
| JsonCodec.AcceptFieldComparedWithBinary | src/main/java/com/hrznstudio/titanium/recipe/serializer/JSONSerializableDataHandler.java:153-156 | Over the same registered types, the JSON check accepts exactly the fields the binary check accepts. The JSON check answers false where the binary one throws. |
| JsonCodec.IngredientHasNoEntry | src/main/java/com/hrznstudio/titanium/recipe/serializer/JSONSerializableDataHandler.java:108-122 | `Ingredient[]` is registered but `Ingredient` itself is not. |
| JsonCodec.EncodeValues | src/main/java/com/hrznstudio/titanium/recipe/serializer/JSONSerializableDataHandler.java:123-138 | An ingredient-value array encodes exactly when every element does, element for element. |
| JsonCodec.DecodeValues | src/main/java/com/hrznstudio/titanium/recipe/serializer/JSONSerializableDataHandler.java:123-138 | An ingredient-value array decodes exactly when every element does, element for element. |
| JsonCodec.ReadStacks | src/main/java/com/hrznstudio/titanium/recipe/serializer/JSONSerializableDataHandler.java:59-73 | An item-stack array reads exactly when every element is an object, and every element reads as the empty stack. |
| JsonCodec.Write | src/main/java/com/hrznstudio/titanium/recipe/serializer/JSONSerializableDataHandler.java:75-172 | A null value throws, except for the block writer, which writes air's name. A value of the wrong type is a cast error. Only item and fluid stacks can write nothing. |
| JsonCodec.Read | src/main/java/com/hrznstudio/titanium/recipe/serializer/JSONSerializableDataHandler.java:158-160 | A fluid stack always reads as empty, and an item stack reads as empty exactly from an object. Anything read has its codec's type. |
| JsonCodec.ScalarRoundTrip | src/main/java/com/hrznstudio/titanium/recipe/serializer/JSONSerializableDataHandler.java:40-56 | Every primitive, boxed and string codec reads back what it wrote. |
| JsonCodec.LocationCodecRoundTrip | src/main/java/com/hrznstudio/titanium/recipe/serializer/JSONSerializableDataHandler.java:74 | A resource location is written as its text and read back. |
| JsonCodec.BlockRoundTrip | src/main/java/com/hrznstudio/titanium/recipe/serializer/JSONSerializableDataHandler.java:75 | A registered block is written as its key and read back as the same block. |
| JsonCodec.UnknownBlockReadsAsAir | src/main/java/com/hrznstudio/titanium/recipe/serializer/JSONSerializableDataHandler.java:75 | An unregistered block key reads as air. |
| JsonCodec.NullBlockWritesAir | src/main/java/com/hrznstudio/titanium/recipe/serializer/JSONSerializableDataHandler.java:75 | A null or unregistered block is written as air's name, which reads back as air. |
| JsonCodec.KeyRoundTrip | src/main/java/com/hrznstudio/titanium/recipe/serializer/JSONSerializableDataHandler.java:221-230 | A registry key is written as a key/value object and read back. |
| JsonCodec.EmptyKeyArray | src/main/java/com/hrznstudio/titanium/recipe/serializer/JSONSerializableDataHandler.java:79-101 | An empty key array is written as an empty object, and an object without "type" reads as the empty array. |
| JsonCodec.KeyArrayCollapsesRegistry | src/main/java/com/hrznstudio/titanium/recipe/serializer/JSONSerializableDataHandler.java:79-101 | A key array records only the first key's registry, so every key reads back under that registry. |
| JsonCodec.KeyArrayRoundTrip | src/main/java/com/hrznstudio/titanium/recipe/serializer/JSONSerializableDataHandler.java:79-101 | A key array whose keys share one registry reads back unchanged. |
| JsonCodec.ItemStackStub | src/main/java/com/hrznstudio/titanium/recipe/serializer/JSONSerializableDataHandler.java:174-219 | A non-empty stack is written as an empty object and an empty stack writes nothing. Any object reads as the empty stack. |
| JsonCodec.FluidStackStub | src/main/java/com/hrznstudio/titanium/recipe/serializer/JSONSerializableDataHandler.java:187-202 | A non-empty fluid is written as an empty object, and anything reads as the empty fluid. |
| JsonCodec.ItemStackArrayStub | src/main/java/com/hrznstudio/titanium/recipe/serializer/JSONSerializableDataHandler.java:59-73 | A stack array is written element for element, and it reads back only as empty stacks. |
| JsonCodec.IngredientArrayNeedsMissingEntry | src/main/java/com/hrznstudio/titanium/recipe/serializer/JSONSerializableDataHandler.java:108-122 | Because `Ingredient` has no entry, an ingredient array writes or reads only when it is empty. |
| JsonCodec.CompoundTagFallback | src/main/java/com/hrznstudio/titanium/recipe/serializer/JSONSerializableDataHandler.java:139-146 | Unparsable tag text reads as an empty compound, and a printed compound that parses back reads as itself. |
| JsonCodec.IngredientValuesRoundTrip | src/main/java/com/hrznstudio/titanium/recipe/serializer/JSONSerializableDataHandler.java:123-138 | When the library's ingredient-value codec round-trips, so does the array of values. |
| TileFieldMessage.NewTileMessage | src/main/java/com/hrznstudio/titanium/network/messages/TileFieldNetworkMessage.java:19-28 | The constructor builds a well-formed message holding the position and data. |
| TileFieldMessage.BothFieldsTravel | src/main/java/com/hrznstudio/titanium/network/messages/TileFieldNetworkMessage.java:19-20 | Both fields are sent, in the order `pos` then `data`. |
| TileFieldMessage.TilePayload | src/main/java/com/hrznstudio/titanium/network/messages/TileFieldNetworkMessage.java:19-25 | The payload is the block position followed by the tag. |
| TileFieldMessage.TileDecode | src/main/java/com/hrznstudio/titanium/network/messages/TileFieldNetworkMessage.java:27-28 | Decoding that payload into a no-argument instance gives the constructed message. |
| TileFieldMessage.TileRoundTrip | src/main/java/com/hrznstudio/titanium/network/messages/TileFieldNetworkMessage.java:19-28 | `fromBytes` inverts `toBytes` for every position and tag. |
| ButtonClickMessage.NewButtonMessage | src/main/java/com/hrznstudio/titanium/network/messages/ButtonClickNetworkMessage.java:21-33 | The constructor builds a well-formed message holding the locator, id and data. |
| ButtonClickMessage.AllFieldsTravel | src/main/java/com/hrznstudio/titanium/network/messages/ButtonClickNetworkMessage.java:21-23 | All three fields are sent, in declaration order. |
| ButtonClickMessage.ButtonPayload | src/main/java/com/hrznstudio/titanium/network/messages/ButtonClickNetworkMessage.java:21-29 | The payload is the locator, the var-int id and the tag. |
| ButtonClickMessage.ButtonDecode | src/main/java/com/hrznstudio/titanium/network/messages/ButtonClickNetworkMessage.java:31-33 | Decoding that payload into a no-argument instance gives the constructed message. |
| ButtonClickMessage.ButtonRoundTrip | src/main/java/com/hrznstudio/titanium/network/messages/ButtonClickNetworkMessage.java:21-33 | `fromBytes` inverts `toBytes` for every locator, id and tag. |
| ButtonClickMessage.HandleButtonClick | src/main/java/com/hrznstudio/titanium/network/messages/ButtonClickNetworkMessage.java:36-41 | A null locator throws. An unresolvable locator does nothing. A resolved locator calls its button handler with the message's id and data. |
| ButtonClickMessage.ClickReachesHandler | src/main/java/com/hrznstudio/titanium/network/messages/ButtonClickNetworkMessage.java:25-41 | A click sent over the wire reaches the located handler with the sender's id and data. |
| TestRecipe.NewRecipe | src/main/java/com/hrznstudio/titanium/_impl/test/recipe/TestSerializableRecipe.java:53-58 | The constructor sets all three slots and appends the recipe to the static list, keeping earlier entries. |
| TestRecipe.NewBlankRecipe | src/main/java/com/hrznstudio/titanium/_impl/test/recipe/TestSerializableRecipe.java:60-61 | The no-argument constructor leaves the static list alone and equals reflective instantiation. |
| TestRecipe.ClassInit | src/main/java/com/hrznstudio/titanium/_impl/test/recipe/TestSerializableRecipe.java:35-41 | Class initialisation registers exactly the three listed recipes, in order. |
| TestRecipe.Matches | src/main/java/com/hrznstudio/titanium/_impl/test/recipe/TestSerializableRecipe.java:63-66 | `matches` tests the input ingredient against slot 0. An empty inventory throws an index error first; otherwise a null input throws a null-pointer error. |
| TestRecipe.MatchesFirstSlotOnly | src/main/java/com/hrznstudio/titanium/_impl/test/recipe/TestSerializableRecipe.java:63-66 | Inventories that agree on slot 0 match alike. |
| TestRecipe.Assemble | src/main/java/com/hrznstudio/titanium/_impl/test/recipe/TestSerializableRecipe.java:68-71 | `assemble` yields the output exactly when one is set. |
| TestRecipe.AssembleGivesResultItem | src/main/java/com/hrznstudio/titanium/_impl/test/recipe/TestSerializableRecipe.java:68-81 | `assemble` and `getResultItem` agree. |
| TestRecipe.CanCraftInDimensions | src/main/java/com/hrznstudio/titanium/_impl/test/recipe/TestSerializableRecipe.java:73-76 | No grid size can craft the recipe. |
| TestRecipe.IsValid | src/main/java/com/hrznstudio/titanium/_impl/test/recipe/TestSerializableRecipe.java:98-100 | Validity holds exactly when the ingredient accepts the stack and the block is the recipe's by reference, so a null block matches a null block. A null input throws. |
| TestRecipe.ValidMatches | src/main/java/com/hrznstudio/titanium/_impl/test/recipe/TestSerializableRecipe.java:63-100 | A stack valid for a recipe also matches it when that stack is in slot 0. |
| TestRecipe.RegisteredRecipesValid | src/main/java/com/hrznstudio/titanium/_impl/test/recipe/TestSerializableRecipe.java:35-41 | For each registered recipe and its own block, validity reduces to whether its ingredient accepts the stack. |
| TestRecipe.StaticsSkipped | src/main/java/com/hrznstudio/titanium/_impl/test/recipe/TestSerializableRecipe.java:31-51 | The static fields are public but skipped, so only `input`, `output` and `block` are sent. |
| TestRecipe.NullInputWritesNothing | src/main/java/com/hrznstudio/titanium/recipe/serializer/GenericSerializer.java:55-65 | A recipe whose input is null fails at its first field and sends nothing. |
| TestRecipe.RecipePayload | src/main/java/com/hrznstudio/titanium/_impl/test/recipe/TestSerializableRecipe.java:49-51 | A complete recipe is sent as its ingredient, output stack and the block's registry name, in that order. |
| TestRecipe.RecipeRoundTrip | src/main/java/com/hrznstudio/titanium/_impl/test/recipe/TestSerializableRecipe.java:43-61 | `fromNetwork` on `toNetwork`'s output gives back the three slots of a complete recipe whose block is registered. |
| EnergyStorage.Initial | src/main/java/com/hrznstudio/titanium/attachment/StoredEnergyAttachment.java:18-20 | A new attachment stores nothing and copies the item's capacity and rates. |
| EnergyStorage.Get | src/main/java/com/hrznstudio/titanium/energy/EnergyStorageItemStack.java:86-88 | The stack's component is read, or the item's initial attachment is used when there is none. |
| EnergyStorage.Save | src/main/java/com/hrznstudio/titanium/energy/EnergyStorageItemStack.java:82-84 | Reading back after a save gives the saved attachment. |
| EnergyStorage.Receive | src/main/java/com/hrznstudio/titanium/energy/EnergyStorageItemStack.java:27-38 | The amount received is the free room, capped by the input rate and the request. A real call adds it to the stored energy, and a simulated call changes nothing. Capacity and rates are kept, and the stored energy stays in range. |
| EnergyStorage.Extract | src/main/java/com/hrznstudio/titanium/energy/EnergyStorageItemStack.java:41-52 | The amount extracted is the stored energy, capped by the output rate and the request. A real call subtracts it, and a simulated call changes nothing. |
| EnergyStorage.ReceiveThenExtract | src/main/java/com/hrznstudio/titanium/energy/EnergyStorageItemStack.java:27-52 | Receiving an amount within the rates and free room, then extracting it, restores the attachment. |
| EnergyStorage.PutInternal | src/main/java/com/hrznstudio/titanium/energy/EnergyStorageItemStack.java:22-24 | As written, the stored energy becomes the minimum of the sum and the capacity whenever the `int` sum does not overflow. |
| EnergyStorage.PutInternalOverflows | src/main/java/com/hrznstudio/titanium/energy/EnergyStorageItemStack.java:22-24 | A full stack given `Integer.MAX_VALUE` more ends with negative stored energy. |
| EnergyStorage.PutInternalClamped | src/main/java/com/hrznstudio/titanium/energy/EnergyStorageItemStack.java:22-24 | With saturating addition, adding energy keeps the stored energy in range and never decreases it. |
| EnergyStorage.ClampedAgreesWithoutOverflow | src/main/java/com/hrznstudio/titanium/energy/EnergyStorageItemStack.java:22-24 | The corrected form agrees with the code as written wherever the sum fits in an `int`. |
| FluidTankReference.NewHolder | src/main/java/com/hrznstudio/titanium/container/referenceholder/FluidTankReferenceHolder.java:18-24 | A new holder wraps the tank with both cached values unset. |
| FluidTankReference.Get | src/main/java/com/hrznstudio/titanium/container/referenceholder/FluidTankReferenceHolder.java:26-35 | An empty tank reports -1. Otherwise index 0 reports the fluid id and any other index reports the amount. |
| FluidTankReference.Rebuilt | src/main/java/com/hrznstudio/titanium/container/referenceholder/FluidTankReferenceHolder.java:38-50 | The tank is rebuilt from the id and amount once both are known, and is empty before that. |
| FluidTankReference.Set | src/main/java/com/hrznstudio/titanium/container/referenceholder/FluidTankReferenceHolder.java:38-50 | Setting an index updates only its cached value, and the tank then reflects both cached values. |
| FluidTankReference.SetIdThenAmount | src/main/java/com/hrznstudio/titanium/container/referenceholder/FluidTankReferenceHolder.java:38-50 | Receiving the id and then the amount rebuilds that exact fluid stack. |
| FluidTankReference.SyncMirrorsTank | src/main/java/com/hrznstudio/titanium/container/referenceholder/FluidTankReferenceHolder.java:26-55 | Syncing both slots gives the client tank the server tank's fluid and amount, or leaves it empty if the server's tank is empty. |
| FluidTankReference.SyncReadsBack | src/main/java/com/hrznstudio/titanium/container/referenceholder/FluidTankReferenceHolder.java:26-55 | After a sync the client reports the same values as the server at every index. |
| Augment.IsAugment | src/main/java/com/hrznstudio/titanium/item/AugmentWrapper.java:23-28 | A stack is an augment exactly when it is non-empty and carries the augment component. |
| Augment.GetAugment | src/main/java/com/hrznstudio/titanium/item/AugmentWrapper.java:30-35 | An augment's map is its component. A non-augment gives the empty map. |
| Augment.HasType | src/main/java/com/hrznstudio/titanium/item/AugmentWrapper.java:37-40 | A type is present exactly when the stack is an augment whose map contains it. |
| Augment.GetType | src/main/java/com/hrznstudio/titanium/item/AugmentWrapper.java:42-45 | The value is returned exactly when the type is present. Otherwise unboxing the missing value throws. |
| Augment.SetType | src/main/java/com/hrznstudio/titanium/item/AugmentWrapper.java:47-51 | Setting a type copies the existing map, adds or replaces that type, and keeps every other entry. |
| Augment.SetThenGet | src/main/java/com/hrznstudio/titanium/item/AugmentWrapper.java:42-51 | On a non-empty stack, the set value is read back. |
| Augment.SetKeepsOthers | src/main/java/com/hrznstudio/titanium/item/AugmentWrapper.java:37-51 | Setting one type changes no other type's presence or value. |
| Augment.SetOnEmptyUnseen | src/main/java/com/hrznstudio/titanium/item/AugmentWrapper.java:23-51 | A value set on an empty stack cannot be read back, because the stack is not an augment. |
| Augment.SetTwice | src/main/java/com/hrznstudio/titanium/item/AugmentWrapper.java:47-51 | Setting the same value twice is the same as setting it once. |
| SidedFluidTank.NewComponent | src/main/java/com/hrznstudio/titanium/component/fluid/SidedFluidTankComponent.java:51-61 | A new component has every side enabled, every mode valid, the facing addon on, an empty tank of the given capacity, and the default handler position. |
| SidedFluidTank.DisableFacingAddon | src/main/java/com/hrznstudio/titanium/component/fluid/SidedFluidTankComponent.java:63-66 | Only the facing-addon flag changes, and it becomes false. |
| SidedFluidTank.SetFacingHandlerPos | src/main/java/com/hrznstudio/titanium/component/fluid/SidedFluidTankComponent.java:126-130 | Only the handler position changes. |
| SidedFluidTank.SetValidFaceModes | src/main/java/com/hrznstudio/titanium/component/fluid/SidedFluidTankComponent.java:138-144 | The valid modes are stored, and every side is set to the first one. An empty list throws an index error after storing. |
| SidedFluidTank.NamesParse | src/main/java/com/hrznstudio/titanium/component/fluid/SidedFluidTankComponent.java:165-184 | `valueOf` inverts `name` for every side and every face mode. |
| SidedFluidTank.ModesTag | src/main/java/com/hrznstudio/titanium/component/fluid/SidedFluidTankComponent.java:176-184 | The modes tag has exactly one string entry per configured side, holding that side's mode name. |
| SidedFluidTank.WriteToNBT | src/main/java/com/hrznstudio/titanium/component/fluid/SidedFluidTankComponent.java:176-184 | The tank's tag gains the "FacingModes" entry and keeps every other entry. |
| SidedFluidTank.ReadFromNBT | src/main/java/com/hrznstudio/titanium/component/fluid/SidedFluidTankComponent.java:165-173 | Without "FacingModes" nothing changes. Otherwise each listed side takes its stored mode and unlisted sides keep theirs. An unknown side or mode name throws. |
| SidedFluidTank.NbtRoundTrip | src/main/java/com/hrznstudio/titanium/component/fluid/SidedFluidTankComponent.java:165-184 | Reading what `writeToNBT` wrote restores the face modes. |
| SidedFluidTank.Transfer | src/main/java/com/hrznstudio/titanium/component/fluid/SidedFluidTankComponent.java:146-153 | At most `workAmount * 100` moves, and only what the target accepts. The amount is conserved and both tanks stay in range. The transfer reports success exactly when the target gained fluid, and changes nothing otherwise. |
| SidedFluidTank.SideTransfer | src/main/java/com/hrznstudio/titanium/component/fluid/SidedFluidTankComponent.java:104-117 | Pushing or pulling through one side changes only that side's neighbour. |
| SidedFluidTank.WorkSides | src/main/java/com/hrznstudio/titanium/component/fluid/SidedFluidTankComponent.java:104-117 | The pass succeeds exactly when some side in order can work, and then only the first such side transfers. |
| SidedFluidTank.Work | src/main/java/com/hrznstudio/titanium/component/fluid/SidedFluidTankComponent.java:120-123 | Work changes only the tank and the neighbours, and changes nothing when no side could move fluid. |
| SidedFluidTank.SomeSideWorks | src/main/java/com/hrznstudio/titanium/component/fluid/SidedFluidTankComponent.java:104-117 | The pass finds a side exactly when some side in the given mode could move fluid. |
| SidedFluidTank.PushBeforePull | src/main/java/com/hrznstudio/titanium/component/fluid/SidedFluidTankComponent.java:120-123 | The component works exactly when some side can push or pull. When some side can push, the result is the push pass alone, so no pull is attempted. |
| SidedFluidTank.OtherSidesUntouched | src/main/java/com/hrznstudio/titanium/component/fluid/SidedFluidTankComponent.java:104-117 | A side other than the one that worked keeps its neighbour unchanged. |
| TagUtil.HasTag | src/main/java/com/hrznstudio/titanium/util/TagUtil.java:31-33 | A value has a tag exactly when the tag exists and lists it. |
| TagUtil.ConcatHolds | src/main/java/com/hrznstudio/titanium/util/TagUtil.java:35-45 | The collected entries contain exactly the values listed under some requested tag. |
| TagUtil.ConcatSize | src/main/java/com/hrznstudio/titanium/util/TagUtil.java:35-45 | Entries are collected with repeats: the count is the sum of the tags' sizes. |
| TagUtil.GetAllEntries | src/main/java/com/hrznstudio/titanium/util/TagUtil.java:35-49 | The loop collects each tag's entries in order. No tags give nothing, and one tag gives its own entries. |
| TagUtil.FirstFromMod | src/main/java/com/hrznstudio/titanium/util/TagUtil.java:72-87 | The index found is the first element from the mod, or the length when there is none. |
| TagUtil.FromModReference | src/main/java/com/hrznstudio/titanium/util/TagUtil.java:83 | For a valid registry namespace, `equalsIgnoreCase` with a mod id holds exactly when the lengths agree and each character is the namespace's letter in either case, or a dotted or dotless i, long s or Kelvin sign against i, s or k. |
| TagUtil.UnicodeModIdsMatch | src/main/java/com/hrznstudio/titanium/util/TagUtil.java:72-87 | Mod ids written with a dotless i or a Kelvin sign select the items of the mod they fold to. |
| Text.AsciiEqualsIgnoreCase | src/main/java/com/hrznstudio/titanium/util/TagUtil.java:83 | Java's per-character test (equal, equal upper cases, or equal lower cases of the upper cases) agrees with the reference character match whenever one side is ASCII. |
| TagUtil.FirstPref | src/main/java/com/hrznstudio/titanium/util/TagUtil.java:72-87 | The preference found is the first whose mod has an element, or the number of preferences when none does. |
| TagUtil.NoPreferredMod | src/main/java/com/hrznstudio/titanium/util/TagUtil.java:72-87 | No preference applies exactly when no element comes from any preferred mod. |
| TagUtil.PreferredElement | src/main/java/com/hrznstudio/titanium/util/TagUtil.java:72-87 | The nested loops return the first element from the first preferred mod that has one, and nothing otherwise. |
| TagUtil.ItemWithPreference | src/main/java/com/hrznstudio/titanium/util/TagUtil.java:72-87 | An adapter's choice wins. A missing tag gives the empty stack. Otherwise the preferred element is returned, or the tag's first entry when no preference applies. An empty tag with no preference throws an index error. |
| InventoryUtil.NonEmptyAppend | src/main/java/com/hrznstudio/titanium/util/InventoryUtil.java:18-28 | Filtering a split inventory gives the two filtered parts, concatenated. |
| InventoryUtil.NonEmptyContents | src/main/java/com/hrznstudio/titanium/util/InventoryUtil.java:18-28 | The filtered list contains exactly the non-empty stacks of the inventory and is no longer than it. |
| InventoryUtil.GetStacks | src/main/java/com/hrznstudio/titanium/util/InventoryUtil.java:18-28 | Without a handler the result is empty. Otherwise it lists the handler's non-empty stacks in slot order. |

## Left out

- `NetworkHandler.sendToServer`, `sendTo` and `sendToNearby`, and the
  payload-registrar event bus: these are I/O. The registrar is modelled as the
  list of registrations it is handed.
- `TileFieldNetworkMessage.handleMessage`: it looks up a block entity in a
  live world, which is not modelled.
- `ButtonClickNetworkMessage.handleMessage`: the world is abstracted to a
  locator-resolving function parameter.
- `TestSerializableRecipe`'s static initializer also damages the pickaxe
  output stack with `setDamageValue`. Damage is not part of the item-stack
  model.
- The `CODEC`, `getSerializer`, `getType` and `getToastSymbol` members of the
  test recipe, `StoredEnergyAttachment`'s `CODEC`, and the `GenericSerializer`
  codec holder. These are registry holders and library codecs, and only their
  round-trip shape is modelled.
- `Ingredient.of`, `Ingredient.test` and the item-stack/ingredient-value JSON
  codecs of the game library are function parameters.
- Reflection's field order is taken to be declaration order, with the
  declared fields before the inherited public ones. Java does not specify
  this order.
- The tank part of `SidedFluidTankComponent.readFromNBT` and `writeToNBT`,
  which is inherited from `FluidTankComponent`, is an opaque tag parameter.
- In `readFromNBT`, a bad side or mode name makes Java throw after earlier
  sides were already updated. The model returns an error instead of the
  partly updated component.
- `setColor`, `getColor`, `getRectangle` and `getScreenAddons`: GUI only.
- `FacingUtil.getFacingFromSide` and the neighbour capability lookup are
  replaced by a map from side to neighbour tank. Neighbours, and the
  component's own tank, are modelled as plain single-slot tanks
  (`FluidHandler`), not arbitrary `IFluidHandler`s or `FluidTankComponent`s.
- FluidHandler.Drain: the model's own abstraction of a neighbour tank. It has
  no Titanium source lines.
- FluidHandler.Fill: the model's own abstraction of a neighbour tank. It has
  no Titanium source lines.
- `FluidTankReferenceHolder` looks fluids up by registry id. The model treats
  the id as the fluid itself, so unregistered ids are not modelled.
- `EnergyStorageItemStack` on a null or empty stack: the game library
  supplies the component, and this is not modelled.
- Text.EqualsIgnoreCase: `Character.toUpperCase` and `toLowerCase` are
  modelled for the ASCII letters and for the four characters whose case
  mapping is an ASCII letter (dotted capital I, dotless small i, long s,
  Kelvin sign). Other characters, such as é and É, are treated as caseless.
  Both callers compare with ASCII text: `TagUtil.FromMod` compares a
  configured mod id with a registry namespace, which `ResourceLocation`
  restricts to `[a-z0-9_.-]`, and `Json.AsBool` compares with "true". Only
  these four characters fold onto ASCII, so those comparisons are as in Java.
- CompoundCodec.Write: the rule that a null value is rejected is assumed,
  not read from the source. The handler table passes null on to library
  writers, such as `ByteBufCodecs.TRUSTED_COMPOUND_TAG`, whose handling of
  null is not part of this model. The round-trip lemmas therefore require
  non-null fields (`Transmissible`), and a message with a null tag field is
  taken to fail in `toBytes`. Array elements are never null in the model.
  In Java an array can hold nulls (an unfilled `new ResourceKey[n]`), and the
  array writers then throw a `NullPointerException`: `writeRegistryKey`
  dereferences the key (CompoundSerializableDataHandler.java:116-117) and
  `CollectionItemList.serializeBuffer` the value (:132-136). An `Ingredient[]`
  hands a null element to the library codec. The model does not describe
  these failures.
- JsonCodec.Write: the null-pointer error for a null value is assumed in the
  same way for the library-backed writers. Array elements are never null in
  the model, while Java throws on a null element of an `ItemStack[]`
  (`writeItemStack` calls `isEmpty`, JSONSerializableDataHandler.java:174-175)
  or of a `ResourceKey[]` (`location()` at :83-85).
- JsonCodec.ItemStackArrayStub: the successful write holds for every array
  the model can express. An array with a null element, such as an unfilled
  `new ItemStack[n]`, cannot be expressed, and Java fails to write it.
- Float and double values, such as augment amounts and JSON floats, are
  opaque bit patterns. No floating-point arithmetic is modelled.
- Gson's lenient coercions are not modelled: numeric strings for floats and
  number widening.
- Library byte layouts (`FriendlyByteBuf`, `ByteBufCodecs`, item-stack and
  ingredient stream codecs) are single opaque tokens, not bytes.
- CompoundCodec.RoundTrip: excludes the `byte[]` codec, whose writer and
  reader disagree. ByteArrayDoesNotRoundTrip states the disagreement.
- Json.AsLocation: states only that a parsed location is valid, and its
  round trip through LocationRoundTrip. Each rejected string is not
  described separately.
- EnergyStorage.Extract: the updated stored amount is stated only for a
  non-negative request, where the `int` subtraction cannot overflow.
- NetworkHandler.RegisterAllCounts: the count is stated only while the
  counter stays within `int`. RegisterMessage itself wraps as Java does.
- EnergyStorage.SimulateAgrees: follows from the function definitions alone.
  It documents that a simulated call reports what the real call does.
- GenericSerializer.FromNetwork: a failed read returns nothing, while Java
  returns `null` with the buffer already advanced past the fields it read.
  The model does not say where the next read on that buffer starts.
- FluidTankReference.SyncMirrorsTank: only the fluid id and amount travel.
  The model's fluid stack has no data components, so it cannot state that the
  client's rebuilt stack (FluidTankReferenceHolder.java:45) loses them.
- The block registry's contents are game data. The model takes them as an
  arbitrary fixed set, with air as the default entry.
- Strings are sequences of Unicode scalar values. The 32767 limit on strings
  counts these, not Java's UTF-16 units.
- `GenericSerializer.toNetwork` logs exceptions. The log is not modelled, only
  which tokens were written before the failure.

## Findings

| source | as written | input that shows it | evidently intended | confidence | as-written member | corrected member |
|---|---|---|---|---|---|---|
| src/main/java/com/hrznstudio/titanium/energy/EnergyStorageItemStack.java:22-24 | `putInternal` computes `Math.min(getEnergyStored() + energy, getMaxEnergyStored())` in `int` | capacity 1000, stored 1000, `energy = Integer.MAX_VALUE`: the sum wraps negative and the stack stores a negative amount | the sum saturates, so the stored energy becomes the capacity | not executed | EnergyStorage.PutInternalOverflows | EnergyStorage.PutInternalClamped |
