/** The loop `Message` and `GenericSerializer` both run over a class's field
    list: for each field, `acceptField`, then `writeField` or `readField`
    through the handler registered for the field's declared type. */
module FieldWalk {
  import opened Wrappers
  import opened Reflect
  import opened Wire
  import opened CompoundCodec

  /** What a write walk leaves behind: the tokens appended so far and the
      exception that stopped it, if any. */
  datatype Written = Written(tokens: seq<Token>, failure: Option<Error>)

  predicate DistinctNames(fs: seq<Field>) {
    forall i, j :: 0 <= i < j < |fs| ==> fs[i].name != fs[j].name
  }

  /** Names of the fields the modifier test lets through. */
  function EligibleNames(fs: seq<Field>): set<string> {
    set f | f in fs && !Excluded(f.mods) :: f.name
  }

  /** Every eligible field has a handler whose writer accepts the field's
      value and whose reader gives it back. */
  predicate Transmissible(table: CodecTable, fs: seq<Field>, vals: map<string, Value>) {
    forall f :: f in fs && !Excluded(f.mods) ==>
      && f.ty in table
      && table[f.ty] != ByteArrayCodec
      && f.name in vals
      && Write(table[f.ty], vals[f.name]).Ok?
      && WithinLimits(vals[f.name])
  }

  /** `writeField` for each accepted field, in list order; the walk stops at
      the first exception. */
  function WriteFields(table: CodecTable, fs: seq<Field>, vals: map<string, Value>): (r: Written)
    requires Names(fs) <= vals.Keys
    ensures r.failure.None? ==> forall f :: f in fs && !Excluded(f.mods) ==> f.ty in table
    ensures (forall f :: f in fs && !Excluded(f.mods) ==>
               f.ty in table && Write(table[f.ty], vals[f.name]).Ok?) ==> r.failure.None?
  {
    if |fs| == 0 then Written([], None)
    else
      var f := fs[0];
      match AcceptField(table, f)
      case Err(e) => Written([], Some(e))
      case Ok(false) => WriteFields(table, fs[1..], vals)
      case Ok(true) =>
        match Write(table[f.ty], vals[f.name])
        case Err(e) => Written([], Some(e))
        case Ok(ts) =>
          var more := WriteFields(table, fs[1..], vals);
          Written(ts + more.tokens, more.failure)
  }

  /** `readField` for each accepted field, in list order, assigning into
      `vals`. Fields the filter skips are never assigned. */
  function ReadFields(table: CodecTable, fs: seq<Field>, vals: map<string, Value>, buf: seq<Token>)
    : (r: Result<(map<string, Value>, seq<Token>), Error>)
    requires Names(fs) <= vals.Keys
    ensures r.Ok? ==> r.value.0.Keys == vals.Keys
    ensures r.Ok? ==> forall k :: k in vals && k !in EligibleNames(fs) ==> r.value.0[k] == vals[k]
    ensures r.Ok? ==> forall f :: f in fs && !Excluded(f.mods) ==> f.ty in table
  {
    if |fs| == 0 then Ok((vals, buf))
    else
      var f := fs[0];
      var accept :- AcceptField(table, f);
      if !accept then ReadFields(table, fs[1..], vals, buf)
      else
        var v :- Read(table[f.ty], buf);
        ReadFields(table, fs[1..], vals[f.name := v.0], v.1)
  }

  /** The field values after a successful read of a walk's output: every
      eligible field holds what was written (as its reader rebuilds it), every
      other field keeps its constructed value. */
  function Restored(fs: seq<Field>, init: map<string, Value>, vals: map<string, Value>): map<string, Value>
    requires EligibleNames(fs) <= vals.Keys
  {
    map k | k in init :: if k in EligibleNames(fs) then Normalize(vals[k]) else init[k]
  }

  /** Writing the fields of `vals` and reading them into `init` restores every
      eligible field and touches nothing else; the tokens after the message
      are left for the next reader. */
  lemma {:induction false} WalkRoundTrip(table: CodecTable, fs: seq<Field>,
                                         vals: map<string, Value>, init: map<string, Value>,
                                         rest: seq<Token>)
    requires DistinctNames(fs)
    requires Names(fs) <= vals.Keys && Names(fs) <= init.Keys
    requires Transmissible(table, fs, vals)
    ensures WriteFields(table, fs, vals).failure.None?
    ensures ReadFields(table, fs, init, WriteFields(table, fs, vals).tokens + rest)
              == Ok((Restored(fs, init, vals), rest))
  {
    if |fs| == 0 {
      assert WriteFields(table, fs, vals).tokens + rest == rest;
      assert Restored(fs, init, vals) == init;
    } else {
      var f := fs[0];
      var tail := fs[1..];
      assert DistinctNames(tail);
      assert Names(tail) <= Names(fs);
      assert Transmissible(table, tail, vals);
      EligibleSplit(fs);
      var more := WriteFields(table, tail, vals);
      if Excluded(f.mods) {
        WalkRoundTrip(table, tail, vals, init, rest);
        SkipUnfold(table, fs, vals, init, more.tokens + rest);
        RestoredSkip(fs, init, vals);
      } else {
        var v := vals[f.name];
        assert f in fs;
        WalkRoundTrip(table, tail, vals, init[f.name := Normalize(v)], rest);
        AcceptedStep(table, fs, vals, init, rest);
      }
    }
  }

  /** The inductive step of `WalkRoundTrip` for an accepted field. */
  lemma AcceptedStep(table: CodecTable, fs: seq<Field>, vals: map<string, Value>,
                     init: map<string, Value>, rest: seq<Token>)
    requires |fs| > 0 && DistinctNames(fs) && !Excluded(fs[0].mods)
    requires Names(fs) <= vals.Keys && Names(fs) <= init.Keys
    requires fs[0].ty in table && table[fs[0].ty] != ByteArrayCodec
    requires Write(table[fs[0].ty], vals[fs[0].name]).Ok? && WithinLimits(vals[fs[0].name])
    requires EligibleNames(fs) <= vals.Keys
    requires EligibleNames(fs) == {fs[0].name} + EligibleNames(fs[1..])
    requires Names(fs[1..]) <= Names(fs)
    requires WriteFields(table, fs[1..], vals).failure.None?
    requires ReadFields(table, fs[1..], init[fs[0].name := Normalize(vals[fs[0].name])],
                        WriteFields(table, fs[1..], vals).tokens + rest)
               == Ok((Restored(fs[1..], init[fs[0].name := Normalize(vals[fs[0].name])], vals), rest))
    ensures WriteFields(table, fs, vals).failure.None?
    ensures ReadFields(table, fs, init, WriteFields(table, fs, vals).tokens + rest)
              == Ok((Restored(fs, init, vals), rest))
  {
    WriteStep(table, fs, vals);
    AcceptUnfold(table, fs, vals, init, rest);
    RestoredStep(fs, init, vals);
  }

  /** One step of both walks over a field the filter skips. */
  lemma SkipUnfold(table: CodecTable, fs: seq<Field>, vals: map<string, Value>,
                   init: map<string, Value>, buf: seq<Token>)
    requires |fs| > 0 && Excluded(fs[0].mods)
    requires Names(fs) <= vals.Keys && Names(fs) <= init.Keys
    ensures Names(fs[1..]) <= Names(fs)
    ensures WriteFields(table, fs, vals) == WriteFields(table, fs[1..], vals)
    ensures ReadFields(table, fs, init, buf) == ReadFields(table, fs[1..], init, buf)
  {
    assert AcceptField(table, fs[0]) == Ok(false);
  }

  /** One step of both walks over an accepted field whose value reads back. */
  lemma AcceptUnfold(table: CodecTable, fs: seq<Field>, vals: map<string, Value>,
                     init: map<string, Value>, rest: seq<Token>)
    requires |fs| > 0 && !Excluded(fs[0].mods) && fs[0].ty in table
    requires table[fs[0].ty] != ByteArrayCodec
    requires Names(fs) <= vals.Keys && Names(fs) <= init.Keys
    requires Write(table[fs[0].ty], vals[fs[0].name]).Ok? && WithinLimits(vals[fs[0].name])
    ensures Names(fs[1..]) <= Names(fs)
    ensures ReadFields(table, fs, init, WriteFields(table, fs, vals).tokens + rest)
              == ReadFields(table, fs[1..], init[fs[0].name := Normalize(vals[fs[0].name])],
                            WriteFields(table, fs[1..], vals).tokens + rest)
  {
    var f := fs[0];
    var c := table[f.ty];
    var v := vals[f.name];
    var ts := Write(c, v).value;
    var tail := WriteFields(table, fs[1..], vals).tokens + rest;
    assert WriteFields(table, fs, vals).tokens + rest == ts + tail by {
      WriteStep(table, fs, vals);
    }
    assert Read(c, ts + tail) == Ok((Normalize(v), tail)) by {
      RoundTrip(c, v, tail);
    }
    ReadStep(table, fs, init, ts + tail);
  }

  /** One step of the write walk over an accepted field whose writer succeeds. */
  lemma WriteStep(table: CodecTable, fs: seq<Field>, vals: map<string, Value>)
    requires |fs| > 0 && !Excluded(fs[0].mods) && fs[0].ty in table
    requires Names(fs) <= vals.Keys
    requires Write(table[fs[0].ty], vals[fs[0].name]).Ok?
    ensures Names(fs[1..]) <= vals.Keys
    ensures WriteFields(table, fs, vals)
              == Written(Write(table[fs[0].ty], vals[fs[0].name]).value + WriteFields(table, fs[1..], vals).tokens,
                         WriteFields(table, fs[1..], vals).failure)
  {
    assert Names(fs[1..]) <= Names(fs);
    assert AcceptField(table, fs[0]) == Ok(true);
  }

  /** One step of the read walk over an accepted field whose reader succeeds. */
  lemma ReadStep(table: CodecTable, fs: seq<Field>, vals: map<string, Value>, buf: seq<Token>)
    requires |fs| > 0 && !Excluded(fs[0].mods) && fs[0].ty in table
    requires Names(fs) <= vals.Keys
    requires Read(table[fs[0].ty], buf).Ok?
    ensures Names(fs[1..]) <= vals.Keys
    ensures ReadFields(table, fs, vals, buf)
              == ReadFields(table, fs[1..], vals[fs[0].name := Read(table[fs[0].ty], buf).value.0],
                            Read(table[fs[0].ty], buf).value.1)
  {
    assert Names(fs[1..]) <= Names(fs);
    assert AcceptField(table, fs[0]) == Ok(true);
  }

  /** The walks over a list that ends after one more accepted field. */
  lemma WriteLast(table: CodecTable, f: Field, vals: map<string, Value>, ts: seq<Token>)
    requires !Excluded(f.mods) && f.ty in table && f.name in vals
    requires Write(table[f.ty], vals[f.name]) == Ok(ts)
    ensures WriteFields(table, [f], vals) == Written(ts, None)
  {
    WriteStep(table, [f], vals);
    assert [f][1..] == [];
  }

  lemma ReadLast(table: CodecTable, f: Field, vals: map<string, Value>, buf: seq<Token>,
                 v: Value, rest: seq<Token>)
    requires !Excluded(f.mods) && f.ty in table && f.name in vals
    requires Read(table[f.ty], buf) == Ok((v, rest))
    ensures ReadFields(table, [f], vals, buf) == Ok((vals[f.name := v], rest))
  {
    ReadStep(table, [f], vals, buf);
    assert [f][1..] == [];
  }

  /** One more accepted field in front of a walk. */
  lemma WriteCons(table: CodecTable, f: Field, fs: seq<Field>, vals: map<string, Value>, ts: seq<Token>)
    requires !Excluded(f.mods) && f.ty in table && f.name in vals && Names(fs) <= vals.Keys
    requires Write(table[f.ty], vals[f.name]) == Ok(ts)
    ensures Names([f] + fs) <= vals.Keys
    ensures WriteFields(table, [f] + fs, vals)
              == Written(ts + WriteFields(table, fs, vals).tokens, WriteFields(table, fs, vals).failure)
  {
    assert Names([f] + fs) == {f.name} + Names(fs);
    WriteStep(table, [f] + fs, vals);
    assert ([f] + fs)[1..] == fs;
  }

  lemma ReadCons(table: CodecTable, f: Field, fs: seq<Field>, vals: map<string, Value>, buf: seq<Token>,
                 v: Value, mid: seq<Token>)
    requires !Excluded(f.mods) && f.ty in table && f.name in vals && Names(fs) <= vals.Keys
    requires Read(table[f.ty], buf) == Ok((v, mid))
    ensures Names([f] + fs) <= vals.Keys
    ensures ReadFields(table, [f] + fs, vals, buf) == ReadFields(table, fs, vals[f.name := v], mid)
  {
    assert Names([f] + fs) == {f.name} + Names(fs);
    ReadStep(table, [f] + fs, vals, buf);
    assert ([f] + fs)[1..] == fs;
  }

  /** Both walks over a list of two accepted fields. */
  lemma WriteTwo(table: CodecTable, f1: Field, f2: Field, vals: map<string, Value>, ts1: seq<Token>, ts2: seq<Token>)
    requires !Excluded(f1.mods) && f1.ty in table && f1.name in vals
    requires !Excluded(f2.mods) && f2.ty in table && f2.name in vals
    requires Write(table[f1.ty], vals[f1.name]) == Ok(ts1)
    requires Write(table[f2.ty], vals[f2.name]) == Ok(ts2)
    ensures Names([f1, f2]) <= vals.Keys
    ensures WriteFields(table, [f1, f2], vals) == Written(ts1 + ts2, None)
  {
    WriteLast(table, f2, vals, ts2);
    assert Names([f2]) == {f2.name};
    WriteCons(table, f1, [f2], vals, ts1);
    assert [f1] + [f2] == [f1, f2];
  }

  lemma ReadTwo(table: CodecTable, f1: Field, f2: Field, vals: map<string, Value>, buf: seq<Token>,
                v1: Value, mid: seq<Token>, v2: Value, rest: seq<Token>)
    requires !Excluded(f1.mods) && f1.ty in table && f1.name in vals
    requires !Excluded(f2.mods) && f2.ty in table && f2.name in vals
    requires Read(table[f1.ty], buf) == Ok((v1, mid))
    requires Read(table[f2.ty], mid) == Ok((v2, rest))
    ensures Names([f1, f2]) <= vals.Keys
    ensures ReadFields(table, [f1, f2], vals, buf) == Ok((vals[f1.name := v1][f2.name := v2], rest))
  {
    assert Names([f2]) == {f2.name};
    ReadCons(table, f1, [f2], vals, buf, v1, mid);
    assert [f1] + [f2] == [f1, f2];
    ReadLast(table, f2, vals[f1.name := v1], mid, v2, rest);
  }

  lemma EligibleSplit(fs: seq<Field>)
    requires |fs| > 0
    ensures EligibleNames(fs) == (if Excluded(fs[0].mods) then {} else {fs[0].name}) + EligibleNames(fs[1..])
  {
    assert forall f :: f in fs <==> f == fs[0] || f in fs[1..];
  }

  lemma RestoredSkip(fs: seq<Field>, init: map<string, Value>, vals: map<string, Value>)
    requires |fs| > 0 && Excluded(fs[0].mods)
    requires EligibleNames(fs) <= vals.Keys
    requires EligibleNames(fs) == EligibleNames(fs[1..])
    ensures Restored(fs[1..], init, vals) == Restored(fs, init, vals)
  {
  }

  lemma RestoredStep(fs: seq<Field>, init: map<string, Value>, vals: map<string, Value>)
    requires |fs| > 0 && !Excluded(fs[0].mods)
    requires DistinctNames(fs) && fs[0].name in init && EligibleNames(fs) <= vals.Keys
    requires EligibleNames(fs) == {fs[0].name} + EligibleNames(fs[1..])
    ensures Restored(fs[1..], init[fs[0].name := Normalize(vals[fs[0].name])], vals) == Restored(fs, init, vals)
  {
  }

  /** A write walk reads only the fields in its list. */
  lemma {:induction false} WriteFieldsFrame(table: CodecTable, fs: seq<Field>,
                                            v1: map<string, Value>, v2: map<string, Value>)
    requires Names(fs) <= v1.Keys && Names(fs) <= v2.Keys
    requires forall k :: k in Names(fs) ==> v1[k] == v2[k]
    ensures WriteFields(table, fs, v1) == WriteFields(table, fs, v2)
  {
    if |fs| > 0 {
      assert fs[0].name in Names(fs);
      assert Names(fs[1..]) <= Names(fs);
      WriteFieldsFrame(table, fs[1..], v1, v2);
    }
  }

  /** When a write walk throws, the tokens already appended are exactly a
      complete walk over the fields before the one that threw, and that field
      is eligible: either it has no handler or its writer rejected its value. */
  lemma {:induction false} WriteFieldsStopsAtFailure(table: CodecTable, fs: seq<Field>, vals: map<string, Value>)
    requires Names(fs) <= vals.Keys
    requires WriteFields(table, fs, vals).failure.Some?
    ensures exists k :: 0 <= k < |fs| && FailsAt(table, fs, vals, k)
  {
    assert |fs| > 0;
    var f := fs[0];
    if !Excluded(f.mods) && (f.ty !in table || Write(table[f.ty], vals[f.name]).Err?) {
      FailsAtHead(table, fs, vals);
    } else {
      TailFails(table, fs, vals);
      WriteFieldsStopsAtFailure(table, fs[1..], vals);
      var k :| 0 <= k < |fs[1..]| && FailsAt(table, fs[1..], vals, k);
      PrefixStep(table, fs, vals, k);
    }
  }

  /** A walk that throws after a field that did not throw throws in its tail. */
  lemma TailFails(table: CodecTable, fs: seq<Field>, vals: map<string, Value>)
    requires Names(fs) <= vals.Keys && |fs| > 0
    requires WriteFields(table, fs, vals).failure.Some?
    requires !(!Excluded(fs[0].mods) && (fs[0].ty !in table || Write(table[fs[0].ty], vals[fs[0].name]).Err?))
    ensures Names(fs[1..]) <= vals.Keys
    ensures WriteFields(table, fs[1..], vals).failure.Some?
  {
    assert Names(fs[1..]) <= Names(fs);
  }

  /** Field `k` is where the walk throws: the walk over the fields before it
      completes with the same tokens the whole walk leaves behind. */
  predicate FailsAt(table: CodecTable, fs: seq<Field>, vals: map<string, Value>, k: int)
    requires Names(fs) <= vals.Keys
    requires 0 <= k < |fs|
  {
    assert Names(fs[..k]) <= Names(fs);
    && !Excluded(fs[k].mods)
    && (fs[k].ty !in table || Write(table[fs[k].ty], vals[fs[k].name]).Err?)
    && WriteFields(table, fs[..k], vals).failure.None?
    && WriteFields(table, fs[..k], vals).tokens == WriteFields(table, fs, vals).tokens
    && WriteFields(table, fs, vals).failure.Some?
  }

  lemma FailsAtHead(table: CodecTable, fs: seq<Field>, vals: map<string, Value>)
    requires Names(fs) <= vals.Keys && |fs| > 0
    requires !Excluded(fs[0].mods) && (fs[0].ty !in table || Write(table[fs[0].ty], vals[fs[0].name]).Err?)
    ensures FailsAt(table, fs, vals, 0)
  {
    assert fs[..0] == [];
    if fs[0].ty !in table {
      assert AcceptField(table, fs[0]) == Err(NoHandler(fs[0].ty));
    } else {
      assert AcceptField(table, fs[0]) == Ok(true);
    }
  }

  lemma PrefixStep(table: CodecTable, fs: seq<Field>, vals: map<string, Value>, k: int)
    requires Names(fs) <= vals.Keys
    requires |fs| > 0 && 0 <= k < |fs| - 1
    requires !(!Excluded(fs[0].mods) && (fs[0].ty !in table || Write(table[fs[0].ty], vals[fs[0].name]).Err?))
    requires Names(fs[1..]) <= vals.Keys
    requires FailsAt(table, fs[1..], vals, k)
    ensures FailsAt(table, fs, vals, k + 1)
  {
    assert fs[..k + 1][1..] == fs[1..][..k];
    assert fs[..k + 1][0] == fs[0];
    assert Names(fs[..k + 1]) <= Names(fs);
  }

  /** Excluded fields in front of a walk change neither walk. */
  lemma {:induction false} SkipExcludedPrefix(table: CodecTable, pre: seq<Field>, fs: seq<Field>,
                                              vals: map<string, Value>, init: map<string, Value>, buf: seq<Token>)
    requires forall i :: 0 <= i < |pre| ==> Excluded(pre[i].mods)
    requires Names(pre + fs) <= vals.Keys && Names(pre + fs) <= init.Keys
    ensures Names(fs) <= vals.Keys && Names(fs) <= init.Keys
    ensures WriteFields(table, pre + fs, vals) == WriteFields(table, fs, vals)
    ensures ReadFields(table, pre + fs, init, buf) == ReadFields(table, fs, init, buf)
  {
    assert Names(fs) <= Names(pre + fs) by {
      assert forall f :: f in fs ==> f in pre + fs;
    }
    if |pre| == 0 {
      assert pre + fs == fs;
    } else {
      SkipUnfold(table, pre + fs, vals, init, buf);
      assert (pre + fs)[1..] == pre[1..] + fs;
      SkipExcludedPrefix(table, pre[1..], fs, vals, init, buf);
    }
  }

  /** When every eligible value reads back as itself and the other fields
      already hold their constructed values, the restored map is the
      original one. */
  lemma RestoredIsOriginal(fs: seq<Field>, init: map<string, Value>, vals: map<string, Value>)
    requires EligibleNames(fs) <= vals.Keys && init.Keys == vals.Keys
    requires forall k :: k in EligibleNames(fs) ==> Normalize(vals[k]) == vals[k]
    requires forall k :: k in init && k !in EligibleNames(fs) ==> init[k] == vals[k]
    ensures Restored(fs, init, vals) == vals
  {
  }
}
