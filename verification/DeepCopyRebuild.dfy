/**
 Rebuilding the relationships of the copies: links to objects that were copied are made to their
 copies, other links to the objects themselves, and empty foreign keys are filled in.
 */
module DeepCopyRebuild {
  import opened Helpers
  import opened DeepCopy
  import opened DeepCopyShape

  /** The copy of an object, or the object itself when it was not copied. */
  function Mapped(mapping: map<Id, Id>, x: Id): Id {
    if x in mapping then mapping[x] else x
  }

  /** Adding links one by one; a link already there is not added again. */
  function AddMapped(links: seq<Id>, related: seq<Id>, mapping: map<Id, Id>): seq<Id>
    decreases |related|
  {
    if related == [] then links
    else
      var y := Mapped(mapping, related[0]);
      AddMapped(if y in links then links else links + [y], related[1..], mapping)
  }

  function RebuildField(m: Model, fd: FieldDef, original: Obj, copy: Obj, mapping: map<Id, Id>): Obj {
    var f := fd.name;
    if f !in m.preserve then copy
    else if fd.kind.ManyToOne? then
      if Target(copy, f).Some? then copy
      else
        var t := Target(original, f);
        copy.(attrs := copy.attrs[f := Ref(if t.Some? then Some(Mapped(mapping, t.value)) else None)])
    else if fd.kind.ManyToMany? then
      copy.(attrs := copy.attrs[f := Links(AddMapped(LinksOf(copy, f), LinksOf(original, f), mapping))])
    else copy
  }

  function RebuildFields(m: Model, fields: seq<FieldDef>, original: Obj, copy: Obj, mapping: map<Id, Id>): Obj
    decreases |fields|
  {
    if fields == [] then copy
    else RebuildFields(m, fields[1..], original, RebuildField(m, fields[0], original, copy, mapping), mapping)
  }

  /** A copy after the relationships of its original have been rebuilt on it. */
  function Rebuilt(schema: Schema, original: Obj, copy: Obj, mapping: map<Id, Id>): Obj
    requires original.model in schema.models
  {
    var m := schema.models[original.model];
    RebuildFields(m, m.fields, original, copy, mapping)
  }

  /******* What rebuilding a field does *******/

  ghost predicate SameAt(o1: Obj, o2: Obj, f: string) {
    && (f in o1.attrs <==> f in o2.attrs) && (f in o1.attrs ==> o1.attrs[f] == o2.attrs[f])
    && o1.model == o2.model && o1.createdBy == o2.createdBy
  }

  lemma {:induction false} RebuildElsewhere(m: Model, fields: seq<FieldDef>, original: Obj, copy: Obj,
                                            mapping: map<Id, Id>, f: string)
    requires forall fd | fd in fields :: fd.name != f
    ensures SameAt(RebuildFields(m, fields, original, copy, mapping), copy, f)
    decreases |fields|
  {
    if fields != [] {
      assert fields[0] in fields;
      RebuildElsewhere(m, fields[1..], original, RebuildField(m, fields[0], original, copy, mapping), mapping, f);
    }
  }

  lemma RebuildLocal(m: Model, fd: FieldDef, original: Obj, copy: Obj, copy1: Obj, mapping: map<Id, Id>)
    requires SameAt(copy1, copy, fd.name)
    ensures SameAt(RebuildField(m, fd, original, copy1, mapping), RebuildField(m, fd, original, copy, mapping), fd.name)
  {
  }

  lemma {:induction false} RebuildAt(m: Model, fields: seq<FieldDef>, original: Obj, copy: Obj, mapping: map<Id, Id>,
                                     fd: FieldDef)
    requires DistinctNames(fields) && fd in fields
    ensures SameAt(RebuildFields(m, fields, original, copy, mapping), RebuildField(m, fd, original, copy, mapping),
            fd.name)
    decreases |fields|
  {
    var copy1 := RebuildField(m, fields[0], original, copy, mapping);
    if fields[0] == fd {
      forall g | g in fields[1..]
        ensures g.name != fd.name
      {
        var i :| 0 <= i < |fields[1..]| && fields[1..][i] == g;
        assert fields[0].name != fields[i + 1].name;
      }
      RebuildElsewhere(m, fields[1..], original, copy1, mapping, fd.name);
    } else {
      var i :| 0 <= i < |fields| && fields[i] == fd;
      assert fields[0].name != fields[i].name;
      assert SameAt(copy1, copy, fd.name);
      RebuildAt(m, fields[1..], original, copy1, mapping, fd);
      RebuildLocal(m, fd, original, copy, copy1, mapping);
    }
  }

  /** Some copies rebuilt and those of `todo` still as they were, nothing else changed. */
  ghost predicate PartlyRebuilt(schema: Schema, db0: Store, db: Store, mapping: map<Id, Id>, todo: set<Id>)
    requires CanRebuild(schema, db0, mapping)
  {
    && |db| == |db0|
    && (forall o | o in mapping :: db[mapping[o]] ==
          if o in todo then db0[mapping[o]] else Rebuilt(schema, db0[o], db0[mapping[o]], mapping))
    && (forall y: Id | y < |db| && IsUntouched(mapping, y) :: db[y] == db0[y])
  }

  ghost predicate IsUntouched(mapping: map<Id, Id>, y: Id) {
    forall o | o in mapping :: mapping[o] != y
  }

  ghost predicate CanRebuild(schema: Schema, db: Store, mapping: map<Id, Id>) {
    && (forall o | o in mapping ::
          o < |db| && mapping[o] < |db| && db[o].model in schema.models && IsUntouched(mapping, o))
    && (forall o, o1 | o in mapping && o1 in mapping && o != o1 :: mapping[o] != mapping[o1])
  }

  /** `done` is what the background task makes of `db`: everything below `root` is copied to below
      `newParent` and the copies' relationships are rebuilt. */
  ghost predicate IsDeepCopy(schema: Schema, db: Store, root: Id, newParent: Id, forest: Forest, creator: string,
                             done: Store) {
    && SchemaLinked(schema) && IsTree(schema, db, root, forest) && CanCopy(schema, db, forest)
    && var r := CopyForest(schema, db, root, newParent, forest, creator);
       CanRebuild(schema, r.db, r.mapping) && PartlyRebuilt(schema, r.db, done, r.mapping, {})
  }

  lemma RebuildStep(schema: Schema, db0: Store, db: Store, db1: Store, mapping: map<Id, Id>, todo: set<Id>, o: Id)
    requires CanRebuild(schema, db0, mapping) && PartlyRebuilt(schema, db0, db, mapping, todo) && o in todo
    requires o in mapping
    requires db1 == db[mapping[o] := Rebuilt(schema, db0[o], db0[mapping[o]], mapping)]
    ensures PartlyRebuilt(schema, db0, db1, mapping, todo - {o})
  {
  }

  /** Adding links leaves those there and adds the mapped ones, each at most once. */
  lemma {:induction false} AddMappedAre(links: seq<Id>, related: seq<Id>, mapping: map<Id, Id>, y: Id)
    requires NoRepeats(links)
    ensures var all := AddMapped(links, related, mapping);
            NoRepeats(all) && (y in all <==> y in links || exists t :: t in related && Mapped(mapping, t) == y)
    decreases |related|
  {
    if related != [] {
      var y0 := Mapped(mapping, related[0]);
      AddMappedAre(if y0 in links then links else links + [y0], related[1..], mapping, y);
      assert forall t :: t in related <==> t == related[0] || t in related[1..];
    }
  }
}
