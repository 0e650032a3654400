/** `Message`: a packet whose payload is its own declared fields, written and
    read in declaration order through the compound handler table. */
module Message {
  import opened Wrappers
  import opened Reflect
  import opened Wire
  import opened CompoundCodec
  import opened FieldWalk

  /** The fields that travel: the class's own declared fields. Inherited
      fields are never part of the payload. */
  function PayloadFields(o: Obj): seq<Field> { DeclaredFields(o.cls) }

  /** `toBytes`: any exception of a field writer surfaces as "Error at writing
      packet". */
  function ToBytes(table: CodecTable, o: Obj): (r: Result<seq<Token>, Error>)
    requires WellFormedObj(o)
    ensures r.Err? ==> r.error.WritingPacket?
    ensures r.Ok? ==> forall f :: f in PayloadFields(o) && !Excluded(f.mods) ==> f.ty in table
    ensures (forall f :: f in PayloadFields(o) && !Excluded(f.mods) ==>
               f.ty in table && Write(table[f.ty], o.fields[f.name]).Ok?) ==> r.Ok?
  {
    DeclaredNamesPresent(o);
    var w := WriteFields(table, PayloadFields(o), o.fields);
    if w.failure.Some? then Err(WritingPacket(w.failure.value)) else Ok(w.tokens)
  }

  /** `fromBytes`: reads into an existing instance; any exception of a field
      reader surfaces as "Error at reading packet". */
  function FromBytes(table: CodecTable, o: Obj, buf: seq<Token>): (r: Result<(Obj, seq<Token>), Error>)
    requires WellFormedObj(o)
    ensures r.Err? ==> r.error.ReadingPacket?
    ensures r.Ok? ==> r.value.0.cls == o.cls && WellFormedObj(r.value.0)
    ensures r.Ok? ==> forall k :: k in o.fields && k !in EligibleNames(PayloadFields(o)) ==>
                        r.value.0.fields[k] == o.fields[k]
  {
    DeclaredNamesPresent(o);
    match ReadFields(table, PayloadFields(o), o.fields, buf)
    case Err(e) => Err(ReadingPacket(e))
    case Ok((vals, rest)) => Ok((Obj(o.cls, vals), rest))
  }

  lemma DeclaredNamesPresent(o: Obj)
    requires WellFormedObj(o)
    ensures Names(PayloadFields(o)) <= o.fields.Keys
  {
    assert forall f :: f in o.cls.declared ==> f in AllFields(o.cls);
  }

  lemma DeclaredDistinct(c: ClassDesc)
    requires WellFormedClass(c)
    ensures DistinctNames(c.declared)
  {
    forall i, j | 0 <= i < j < |c.declared|
      ensures c.declared[i].name != c.declared[j].name
    {
      assert AllFields(c)[i] == c.declared[i] && AllFields(c)[j] == c.declared[j];
    }
  }

  /** A message sent with `toBytes` and decoded by `fromBytes` into a blank
      instance from the no-argument constructor arrives with every accepted
      field equal to the sent one (as its reader rebuilds it), and every other
      field as the constructor left it; what follows in the buffer is untouched. */
  lemma {:induction false} MessageRoundTrip(table: CodecTable, o: Obj, rest: seq<Token>)
    requires WellFormedObj(o) && o.cls.hasPublicNoArgCtor
    requires Transmissible(table, PayloadFields(o), o.fields)
    ensures ToBytes(table, o).Ok?
    ensures NewInstance(o.cls).Some?
    ensures var blank := NewInstance(o.cls).value;
            FromBytes(table, blank, ToBytes(table, o).value + rest)
              == Ok((Obj(o.cls, Restored(PayloadFields(o), o.cls.noArgInit, o.fields)), rest))
  {
    var blank := NewInstance(o.cls).value;
    DeclaredDistinct(o.cls);
    DeclaredNamesPresent(o);
    DeclaredNamesPresent(blank);
    WalkRoundTrip(table, PayloadFields(o), o.fields, o.cls.noArgInit, rest);
  }

  /** Two instances of one class that agree on their declared fields produce
      the same payload, whatever their inherited fields hold. */
  lemma InheritedFieldsNotSent(table: CodecTable, o1: Obj, o2: Obj)
    requires WellFormedObj(o1) && WellFormedObj(o2) && o1.cls == o2.cls
    requires forall k :: k in Names(PayloadFields(o1)) ==> o1.fields[k] == o2.fields[k]
    ensures ToBytes(table, o1) == ToBytes(table, o2)
  {
    DeclaredNamesPresent(o1);
    DeclaredNamesPresent(o2);
    WriteFieldsFrame(table, PayloadFields(o1), o1.fields, o2.fields);
  }
}
