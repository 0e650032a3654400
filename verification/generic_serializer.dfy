/** `GenericSerializer`: the network half of a recipe serializer. It walks the
    recipe class's public fields (own and inherited) with the compound handler
    table and swallows every exception: a failed write leaves whatever was
    already written, a failed read yields null. */
module GenericSerializer {
  import opened Wrappers
  import opened Reflect
  import opened Wire
  import opened CompoundCodec
  import opened JavaInt
  import opened FieldWalk

  /** A serializer instance: the recipe class it was built for. The recipe
      type supplier and the map codec are only stored and handed back. */
  datatype Serializer = Serializer(recipeClass: ClassDesc)

  /** The recipe's field values cover the serializer class's public fields. */
  predicate Covers(s: Serializer, recipe: Obj) {
    Names(PublicFields(s.recipeClass)) <= recipe.fields.Keys
  }

  /** `toNetwork`: the tokens appended to the buffer. An exception stops the
      walk and is only logged, so the tokens written before it stay. */
  function ToNetwork(table: CodecTable, s: Serializer, recipe: Obj): (r: seq<Token>)
    requires Covers(s, recipe)
  {
    WriteFields(table, PublicFields(s.recipeClass), recipe.fields).tokens
  }

  /** `fromNetwork`: a fresh instance from the public no-argument
      constructor, filled field by field. Any exception (no such
      constructor, a field with no handler, a reader failure) gives null. */
  function FromNetwork(table: CodecTable, s: Serializer, buf: seq<Token>): (r: Option<(Obj, seq<Token>)>)
    requires WellFormedClass(s.recipeClass)
    ensures !s.recipeClass.hasPublicNoArgCtor ==> r.None?
    ensures r.Some? ==> r.value.0.cls == s.recipeClass && WellFormedObj(r.value.0)
    ensures r.Some? ==> forall k :: k in s.recipeClass.noArgInit && k !in EligibleNames(PublicFields(s.recipeClass)) ==>
                          r.value.0.fields[k] == s.recipeClass.noArgInit[k]
    ensures r.Some? ==> forall f :: f in PublicFields(s.recipeClass) && !Excluded(f.mods) ==> f.ty in table
  {
    match NewInstance(s.recipeClass)
    case None => None
    case Some(o) =>
      PublicNamesPresent(s.recipeClass);
      match ReadFields(table, PublicFields(s.recipeClass), o.fields, buf)
      case Err(_) => None
      case Ok((vals, rest)) => Some((Obj(o.cls, vals), rest))
  }

  /** The stream codec is the pair (`toNetwork`, `fromNetwork`). */
  function StreamEncode(table: CodecTable, s: Serializer, recipe: Obj): seq<Token>
    requires Covers(s, recipe)
  {
    ToNetwork(table, s, recipe)
  }

  function StreamDecode(table: CodecTable, s: Serializer, buf: seq<Token>): Option<(Obj, seq<Token>)>
    requires WellFormedClass(s.recipeClass)
  {
    FromNetwork(table, s, buf)
  }

  /** The stream codec round-trips exactly as the two network methods do. */
  lemma StreamCodecRoundTrip(table: CodecTable, s: Serializer, recipe: Obj, rest: seq<Token>)
    requires WellFormedClass(s.recipeClass) && s.recipeClass.hasPublicNoArgCtor
    requires Covers(s, recipe)
    requires Transmissible(table, PublicFields(s.recipeClass), recipe.fields)
    ensures StreamDecode(table, s, StreamEncode(table, s, recipe) + rest)
              == Some((Obj(s.recipeClass, Restored(PublicFields(s.recipeClass), s.recipeClass.noArgInit, recipe.fields)),
                       rest))
  {
    NetworkRoundTrip(table, s, recipe, rest);
  }

  lemma PublicNamesPresent(c: ClassDesc)
    requires WellFormedClass(c)
    ensures Names(PublicFields(c)) <= c.noArgInit.Keys
  {
  }

  lemma {:induction false} DistinctConcat(a: seq<Field>, b: seq<Field>)
    ensures DistinctNames(a + b) <==> DistinctNames(a) && DistinctNames(b) && Names(a) !! Names(b)
  {
    var ab := a + b;
    if DistinctNames(ab) {
      forall i, j | 0 <= i < j < |b| ensures b[i].name != b[j].name {
        assert ab[|a| + i] == b[i] && ab[|a| + j] == b[j];
      }
      forall i, j | 0 <= i < j < |a| ensures a[i].name != a[j].name {
        assert ab[i] == a[i] && ab[j] == a[j];
      }
      forall n | n in Names(a) ensures n !in Names(b) {
        var i :| 0 <= i < |a| && a[i].name == n;
        assert ab[i] == a[i];
        forall j | 0 <= j < |b| ensures b[j].name != n {
          assert ab[|a| + j] == b[j];
        }
      }
    }
    if DistinctNames(a) && DistinctNames(b) && Names(a) !! Names(b) {
      forall i, j | 0 <= i < j < |ab| ensures ab[i].name != ab[j].name {
        if j < |a| {
          assert ab[i] == a[i] && ab[j] == a[j];
        } else if i >= |a| {
          assert ab[i] == b[i - |a|] && ab[j] == b[j - |a|];
        } else {
          assert ab[i] == a[i] && ab[j] == b[j - |a|];
          assert ab[i].name in Names(a) && ab[j].name in Names(b);
        }
      }
    }
  }

  lemma {:induction false} PublicOfDistinct(fs: seq<Field>)
    requires DistinctNames(fs)
    ensures DistinctNames(PublicOf(fs))
    ensures Names(PublicOf(fs)) <= Names(fs)
  {
    if |fs| > 0 {
      var head := if fs[0].mods.isPublic then [fs[0]] else [];
      assert fs == [fs[0]] + fs[1..];
      DistinctConcat([fs[0]], fs[1..]);
      PublicOfDistinct(fs[1..]);
      DistinctConcat(head, PublicOf(fs[1..]));
    }
  }

  /** Public field names are distinct when the class's field names are. */
  lemma PublicFieldsDistinct(c: ClassDesc)
    requires WellFormedClass(c)
    ensures DistinctNames(PublicFields(c))
  {
    assert DistinctNames(AllFields(c));
    DistinctConcat(c.declared, c.inheritedPublic);
    PublicOfDistinct(c.declared);
    DistinctConcat(PublicOf(c.declared), c.inheritedPublic);
  }

  /** A class whose public field `x` hides a public field `x` it inherits:
      the slots `Sub.x` and `Base.x`. */
  const HIDING_CLASS: ClassDesc :=
    var pub := Modifiers(true, false, false, false);
    ClassDesc("Sub", [Field("Sub.x", pub, Primitive(PInt))], [Field("Base.x", pub, Primitive(PInt))],
              true, map["Sub.x" := VInt(0), "Base.x" := VInt(0)])

  /** Hiding is accepted: `getFields()` lists the hiding field and then the
      hidden one, and `toNetwork` writes both values, own one first. */
  lemma HiddenFieldSentTwice(own: i32, hidden: i32)
    ensures WellFormedClass(HIDING_CLASS)
    ensures PublicFields(HIDING_CLASS) == HIDING_CLASS.declared + HIDING_CLASS.inheritedPublic
    ensures var o := Obj(HIDING_CLASS, map["Sub.x" := VInt(own), "Base.x" := VInt(hidden)]);
            Covers(Serializer(HIDING_CLASS), o)
            && ToNetwork(DEFAULT_TABLE, Serializer(HIDING_CLASS), o) == [VarIntTok(own), VarIntTok(hidden)]
  {
    var vals := map["Sub.x" := VInt(own), "Base.x" := VInt(hidden)];
    var sub := HIDING_CLASS.declared[0];
    var base := HIDING_CLASS.inheritedPublic[0];
    assert PublicFields(HIDING_CLASS) == [sub] + [base];
    PrimitiveAndBoxShareCodec(PInt);
    WriteLast(DEFAULT_TABLE, base, vals, [VarIntTok(hidden)]);
    WriteCons(DEFAULT_TABLE, sub, [base], vals, [VarIntTok(own)]);
  }

  /** A recipe written by `toNetwork` and read back by `fromNetwork` of the
      same serializer has every accepted public field as written (as its
      reader rebuilds it) and every other field as the no-argument
      constructor left it. */
  lemma {:induction false} NetworkRoundTrip(table: CodecTable, s: Serializer, recipe: Obj, rest: seq<Token>)
    requires WellFormedClass(s.recipeClass) && s.recipeClass.hasPublicNoArgCtor
    requires Covers(s, recipe)
    requires Transmissible(table, PublicFields(s.recipeClass), recipe.fields)
    ensures FromNetwork(table, s, ToNetwork(table, s, recipe) + rest)
              == Some((Obj(s.recipeClass, Restored(PublicFields(s.recipeClass), s.recipeClass.noArgInit, recipe.fields)),
                       rest))
  {
    PublicFieldsDistinct(s.recipeClass);
    PublicNamesPresent(s.recipeClass);
    WalkRoundTrip(table, PublicFields(s.recipeClass), recipe.fields, s.recipeClass.noArgInit, rest);
  }

  /** A `toNetwork` that throws part-way leaves in the buffer exactly what a
      complete walk over the fields before the failing one would have
      written; the failing field is eligible and has no handler or a
      rejected value. */
  lemma ToNetworkKeepsPrefix(table: CodecTable, s: Serializer, recipe: Obj)
    requires Covers(s, recipe)
    requires WriteFields(table, PublicFields(s.recipeClass), recipe.fields).failure.Some?
    ensures exists k :: 0 <= k < |PublicFields(s.recipeClass)| && FailsAt(table, PublicFields(s.recipeClass), recipe.fields, k)
  {
    WriteFieldsStopsAtFailure(table, PublicFields(s.recipeClass), recipe.fields);
  }

  /** Private and package fields never reach the buffer. */
  lemma NonPublicFieldsNotSent(table: CodecTable, s: Serializer, r1: Obj, r2: Obj)
    requires Covers(s, r1) && Covers(s, r2)
    requires forall k :: k in Names(PublicFields(s.recipeClass)) ==> r1.fields[k] == r2.fields[k]
    ensures ToNetwork(table, s, r1) == ToNetwork(table, s, r2)
  {
    WriteFieldsFrame(table, PublicFields(s.recipeClass), r1.fields, r2.fields);
  }
}
