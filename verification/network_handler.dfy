/** `NetworkHandler`: one channel per mod namespace. Each `registerMessage`
    call bumps a counter, remembers the message class's id and queues a
    registration that the payload-registration event later replays, under a
    channel version string made from the counter. */
module NetworkHandler {
  import opened Wrappers
  import opened JavaInt
  import opened Text
  import opened GameTypes
  import opened Reflect
  import opened Wire
  import opened CompoundCodec
  import opened FieldWalk
  import Message

  /** One queued `playBidirectional` registration: the payload id and the
      message class its decoder instantiates. */
  datatype Registration = Registration(id: ResLoc, cls: ClassDesc)

  /** The handler's state: its namespace, the id map keyed by message class
      (a class is identified by its name), the queued registrations in call
      order, and the counter `i`. */
  datatype Channel = Channel(namespace: string, ids: map<string, ResLoc>,
                             registrar: seq<Registration>, counter: i32)

  /** The channel after a `registerMessage` call, and whether the call threw
      on an invalid id. The counter is bumped before the id is built, so a
      call that throws still leaves it bumped. */
  datatype Outcome = Outcome(channel: Channel, threw: bool)

  /** The envelope: `ids.get(message.getClass())` is null for a class that
      was never registered. */
  datatype MessageWrapper = MessageWrapper(id: Option<ResLoc>, message: Obj)

  /** What the payload-registration event hands to the engine: the registrar
      namespace, its version string and the payload types in order. */
  datatype PayloadSetup = PayloadSetup(namespace: string, version: string, payloads: seq<Registration>)

  /** The constructor: fails (`orElseThrow`) unless the mod is loaded. */
  function NewChannel(modid: string, loadedMods: set<string>): (r: Option<Channel>)
    ensures r.Some? <==> modid in loadedMods
    ensures r.Some? ==> r.value.namespace == modid && r.value.counter == 0
                        && r.value.ids == map[] && r.value.registrar == []
  {
    if modid in loadedMods then Some(Channel(modid, map[], [], 0)) else None
  }

  /** `ResourceLocation.fromNamespaceAndPath`: throws on a character outside
      the allowed sets. */
  function MakeId(namespace: string, path: string): (r: Option<ResLoc>)
    ensures r.Some? <==> ValidNamespace(namespace) && ValidPath(path)
    ensures r.Some? ==> r.value == ResLoc(namespace, path)
  {
    if ValidNamespace(namespace) && ValidPath(path) then Some(ResLoc(namespace, path)) else None
  }

  /** `registerMessage(name, cls)`. `i++` runs first; building the id then
      throws on an invalid name, before the id map or the queue is touched.
      No check is made that `name` or `cls` was registered before: the id map
      is overwritten and a second registration is queued. */
  function RegisterMessage(ch: Channel, name: string, cls: ClassDesc): (r: Outcome)
    ensures r.threw <==> !(ValidNamespace(ch.namespace) && ValidPath(name))
    ensures r.channel.namespace == ch.namespace
    ensures r.channel.counter == Add(ch.counter, 1)
    ensures r.threw ==> r.channel.ids == ch.ids && r.channel.registrar == ch.registrar
    ensures !r.threw ==>
      && r.channel.ids == ch.ids[cls.name := ResLoc(ch.namespace, name)]
      && r.channel.registrar == ch.registrar + [Registration(ResLoc(ch.namespace, name), cls)]
  {
    var bumped := ch.(counter := Add(ch.counter, 1));
    match MakeId(ch.namespace, name)
    case None => Outcome(bumped, true)
    case Some(id) =>
      Outcome(bumped.(ids := Registry.Register(ch.ids, cls.name, id),
                      registrar := ch.registrar + [Registration(id, cls)]), false)
  }

  /** The listener added by the constructor: the registrar is versioned with
      `String.valueOf(i)` and every queued registration is replayed in order. */
  function OnRegisterPayloadHandlers(ch: Channel): (r: PayloadSetup)
    ensures r.namespace == ch.namespace && r.payloads == ch.registrar
    ensures ch.counter >= 0 ==> IsDigits(r.version) && ParseDigits(r.version) == ch.counter as int
    ensures ch.counter < 0 ==> |r.version| > 0 && r.version[0] == '-'
  {
    var setup := PayloadSetup(ch.namespace, IntToString(ch.counter as int), ch.registrar);
    if ch.counter >= 0 then ParseNatToString(ch.counter as nat); setup else setup
  }

  /** `wrap`: tags a message with the id its class was registered under. */
  function Wrap(ch: Channel, m: Obj): (r: MessageWrapper)
    ensures r.message == m
    ensures r.id.Some? <==> m.cls.name in ch.ids
    ensures r.id.Some? ==> r.id.value == ch.ids[m.cls.name]
  {
    MessageWrapper(if m.cls.name in ch.ids then Some(ch.ids[m.cls.name]) else None, m)
  }

  /** The stream codec's encoder: the wrapped message's `toBytes`. */
  function EncodePayload(table: CodecTable, w: MessageWrapper): Result<seq<Token>, Error>
    requires WellFormedObj(w.message)
  {
    Message.ToBytes(table, w.message)
  }

  /** The stream codec's decoder for one registration: a fresh instance from
      the public no-argument constructor, filled by `fromBytes`, wrapped with
      the registration's id. A class without that constructor is a reflective
      failure. */
  function DecodePayload(table: CodecTable, reg: Registration, buf: seq<Token>)
    : (r: Result<(MessageWrapper, seq<Token>), Error>)
    requires WellFormedClass(reg.cls)
    ensures !reg.cls.hasPublicNoArgCtor ==> r == Err(Reflective(reg.cls.name))
    ensures r.Ok? ==> r.value.0.id == Some(reg.id) && r.value.0.message.cls == reg.cls
    ensures r.Err? && reg.cls.hasPublicNoArgCtor ==> r.error.ReadingPacket?
  {
    match NewInstance(reg.cls)
    case None => Err(Reflective(reg.cls.name))
    case Some(o) =>
      var (m, rest) :- Message.FromBytes(table, o, buf);
      Ok((MessageWrapper(Some(reg.id), m), rest))
  }

  /** Registration followed by `wrap` tags messages of the registered class
      with the id built from the channel namespace and the message name. */
  lemma RegisteredClassIsWrapped(ch: Channel, name: string, cls: ClassDesc, m: Obj)
    requires ValidNamespace(ch.namespace) && ValidPath(name)
    requires m.cls.name == cls.name
    ensures !RegisterMessage(ch, name, cls).threw
    ensures Wrap(RegisterMessage(ch, name, cls).channel, m).id == Some(ResLoc(ch.namespace, name))
  {
  }

  /** A message wrapped by the channel and decoded by the registration of its
      class arrives as `fromBytes` rebuilds it on a fresh instance, under the
      same id. */
  lemma {:induction false} PayloadRoundTrip(table: CodecTable, reg: Registration, m: Obj, rest: seq<Token>)
    requires WellFormedObj(m) && m.cls == reg.cls && m.cls.hasPublicNoArgCtor
    requires Transmissible(table, Message.PayloadFields(m), m.fields)
    ensures EncodePayload(table, MessageWrapper(Some(reg.id), m)).Ok?
    ensures DecodePayload(table, reg, EncodePayload(table, MessageWrapper(Some(reg.id), m)).value + rest)
              == Ok((MessageWrapper(Some(reg.id),
                                    Obj(m.cls, Restored(Message.PayloadFields(m), m.cls.noArgInit, m.fields))),
                     rest))
  {
    Message.MessageRoundTrip(table, m, rest);
  }

  /** `registerMessage` called once per entry, in order; the first call that
      throws ends the sequence. */
  function RegisterAll(ch: Channel, msgs: seq<(string, ClassDesc)>): Outcome
    decreases |msgs|
  {
    if |msgs| == 0 then Outcome(ch, false)
    else
      var next := RegisterMessage(ch, msgs[0].0, msgs[0].1);
      if next.threw then next else RegisterAll(next.channel, msgs[1..])
  }

  /** Registering `n` valid names on a new channel leaves the counter at `n`
      (while `n` fits in an int) and queues the registrations in call order. */
  lemma {:induction false} RegisterAllCounts(ch: Channel, msgs: seq<(string, ClassDesc)>)
    requires ValidNamespace(ch.namespace)
    requires forall i :: 0 <= i < |msgs| ==> ValidPath(msgs[i].0)
    requires 0 <= ch.counter as int && ch.counter as int + |msgs| <= INT_MAX
    ensures !RegisterAll(ch, msgs).threw
    ensures RegisterAll(ch, msgs).channel.counter as int == ch.counter as int + |msgs|
    ensures RegisterAll(ch, msgs).channel.namespace == ch.namespace
    ensures |RegisterAll(ch, msgs).channel.registrar| == |ch.registrar| + |msgs|
    ensures RegisterAll(ch, msgs).channel.registrar[..|ch.registrar|] == ch.registrar
    ensures forall i :: 0 <= i < |msgs| ==>
              RegisterAll(ch, msgs).channel.registrar[|ch.registrar| + i]
                == Registration(ResLoc(ch.namespace, msgs[i].0), msgs[i].1)
    decreases |msgs|
  {
    if |msgs| > 0 {
      var next := RegisterMessage(ch, msgs[0].0, msgs[0].1).channel;
      RegisterAllCounts(next, msgs[1..]);
      var fin := RegisterAll(next, msgs[1..]).channel;
      assert fin == RegisterAll(ch, msgs).channel;
      forall i | 0 <= i < |msgs|
        ensures fin.registrar[|ch.registrar| + i] == Registration(ResLoc(ch.namespace, msgs[i].0), msgs[i].1)
      {
        if i > 0 {
          assert msgs[1..][i - 1] == msgs[i];
          assert fin.registrar[|next.registrar| + (i - 1)] == Registration(ResLoc(ch.namespace, msgs[i].0), msgs[i].1);
        } else {
          assert fin.registrar[..|next.registrar|] == next.registrar;
          assert fin.registrar[|ch.registrar|] == next.registrar[|ch.registrar|];
        }
      }
      assert fin.registrar[..|ch.registrar|] == fin.registrar[..|next.registrar|][..|ch.registrar|];
    }
  }

  /** The version the event announces after `n` registrations on a new
      channel reads back as `n`. */
  lemma VersionCountsRegistrations(modid: string, loaded: set<string>, msgs: seq<(string, ClassDesc)>)
    requires modid in loaded && ValidNamespace(modid)
    requires forall i :: 0 <= i < |msgs| ==> ValidPath(msgs[i].0)
    requires |msgs| <= INT_MAX
    ensures !RegisterAll(NewChannel(modid, loaded).value, msgs).threw
    ensures var setup := OnRegisterPayloadHandlers(RegisterAll(NewChannel(modid, loaded).value, msgs).channel);
            IsDigits(setup.version) && ParseDigits(setup.version) == |msgs|
            && |setup.payloads| == |msgs| && setup.namespace == modid
  {
    RegisterAllCounts(NewChannel(modid, loaded).value, msgs);
  }

  /** Registering one name twice is accepted: both registrations are queued
      under the same id, and the class map keeps the later class. */
  lemma DuplicateNameAccepted(ch: Channel, name: string, c1: ClassDesc, c2: ClassDesc)
    requires ValidNamespace(ch.namespace) && ValidPath(name)
    ensures !RegisterMessage(ch, name, c1).threw
    ensures var once := RegisterMessage(ch, name, c1).channel;
            var twice := RegisterMessage(once, name, c2);
            && !twice.threw
            && twice.channel.registrar[|ch.registrar|].id == twice.channel.registrar[|ch.registrar| + 1].id
            && twice.channel.ids[c2.name] == ResLoc(ch.namespace, name)
  {
  }

  /** A registration that throws on its name is still counted: a caller that
      catches the exception and registers `n` valid names afterwards on a new
      channel announces version `n + 1`, while only those `n` are queued. */
  lemma FailedRegistrationCounted(modid: string, loaded: set<string>, bad: string, cls: ClassDesc,
                                  msgs: seq<(string, ClassDesc)>)
    requires modid in loaded && ValidNamespace(modid) && !ValidPath(bad)
    requires forall i :: 0 <= i < |msgs| ==> ValidPath(msgs[i].0)
    requires |msgs| < INT_MAX
    ensures RegisterMessage(NewChannel(modid, loaded).value, bad, cls).threw
    ensures var after := RegisterMessage(NewChannel(modid, loaded).value, bad, cls).channel;
            var setup := OnRegisterPayloadHandlers(RegisterAll(after, msgs).channel);
            IsDigits(setup.version) && ParseDigits(setup.version) == |msgs| + 1
            && |setup.payloads| == |msgs|
  {
    var after := RegisterMessage(NewChannel(modid, loaded).value, bad, cls).channel;
    RegisterAllCounts(after, msgs);
  }
}
