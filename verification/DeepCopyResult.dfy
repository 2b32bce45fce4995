/**
 What a finished deep copy looks like: the links and references of the copies after the last pass,
 and the tree they form.
 */
module DeepCopyResult {
  import opened Helpers
  import opened DeepCopy
  import opened DeepCopyShape
  import opened DeepCopyRebuild

  function LinkField(name: string): FieldDef {
    FieldDef(name, ManyToMany)
  }

  lemma NewLinks(schema: Schema, o: Obj, oldParent: Id, newParent: Id, template: Option<Id>, creator: string, f: string)
    requires o.model in schema.models && SchemaOk(schema) && LinkField(f) in schema.models[o.model].fields
    ensures LinksOf(NewObj(schema, o, Some(oldParent), Some(newParent), "", map[], template, creator), f) == []
  {
    var m := schema.models[o.model];
    var none: map<string, Attr> := map[];
    assert none - m.discard == none;
    CollectAt(schema, m, o, Some(oldParent), Some(newParent), "", m.fields, map[], LinkField(f));
  }

  lemma RebuiltCopy(schema: Schema, db: Store, root: Id, newParent: Id, forest: Forest, creator: string, done: Store,
                    o: Id)
    requires IsDeepCopy(schema, db, root, newParent, forest, creator, done) && o in Ids(forest)
    ensures var r := CopyForest(schema, db, root, newParent, forest, creator);
            && o < |db| && db[o].model in schema.models && o in r.mapping && 0 < r.mapping[o] < |r.db| == |done|
               && r.db[o] == db[o]
            && done[r.mapping[o]] == Rebuilt(schema, db[o], r.db[r.mapping[o]], r.mapping)
            && HoldsCopy(schema, db, r.db, r.mapping, o, ParentOf(forest, root, o),
               Image(r.mapping, newParent, ParentOf(forest, root, o)), creator)
  {
    assert CanClone(schema, db, o);
    CopyHolds(schema, db, root, newParent, forest, creator, o);
  }

  /** Every preserved many-to-many link of an original is on its copy, exactly once: to the copy of
      the linked object if that was copied, to the object itself otherwise; and no others. */
  lemma LinksAreCopied(schema: Schema, db: Store, root: Id, newParent: Id, forest: Forest, creator: string, done: Store,
                       o: Id, f: string, y: Id)
    requires IsDeepCopy(schema, db, root, newParent, forest, creator, done) && o in Ids(forest)
    requires o < |db| && db[o].model in schema.models
    requires LinkField(f) in schema.models[db[o].model].fields && f in schema.models[db[o].model].preserve
    ensures var r := CopyForest(schema, db, root, newParent, forest, creator);
            && o in r.mapping && r.mapping[o] < |done| && NoRepeats(LinksOf(done[r.mapping[o]], f))
            && (y in LinksOf(done[r.mapping[o]], f) <==>
                  exists t :: t in LinksOf(db[o], f) && Mapped(r.mapping, t) == y)
  {
    var r := CopyForest(schema, db, root, newParent, forest, creator);
    RebuiltCopy(schema, db, root, newParent, forest, creator, done, o);
    var p := ParentOf(forest, root, o);
    NewLinks(schema, db[o], p, Image(r.mapping, newParent, p),
             if TemplateOf(db, o).Some? then Some(r.mapping[o] - 1) else None, creator, f);
    var m := schema.models[db[o].model];
    RebuildAt(m, m.fields, db[o], r.db[r.mapping[o]], r.mapping, LinkField(f));
    AddMappedAre([], LinksOf(db[o], f), r.mapping, y);
  }

  /** After the last pass a foreign key of a copy is as the copy was made with it, except that one
      the copy was made without, if preserved, refers to the counterpart of the original's. */
  lemma ReferencesAreCopied(schema: Schema, db: Store, root: Id, newParent: Id, forest: Forest, creator: string,
                            done: Store, o: Id, f: string)
    requires IsDeepCopy(schema, db, root, newParent, forest, creator, done) && o in Ids(forest)
    requires o < |db| && db[o].model in schema.models && Reference(f) in schema.models[db[o].model].fields
    ensures var r := CopyForest(schema, db, root, newParent, forest, creator);
            && o in r.mapping && 0 < r.mapping[o] < |done|
            && var made := CopiedTarget(schema, db, r.mapping, newParent, o, ParentOf(forest, root, o), f);
               var t := Target(db[o], f);
               Target(done[r.mapping[o]], f) ==
               if made.Some? then made
               else if f in schema.models[db[o].model].preserve && t.Some? then Some(Mapped(r.mapping, t.value))
               else None
  {
    var r := CopyForest(schema, db, root, newParent, forest, creator);
    RebuiltCopy(schema, db, root, newParent, forest, creator, done, o);
    assert CanClone(schema, db, o);
    CopyReferences(schema, db, root, newParent, forest, creator, o, f);
    var m := schema.models[db[o].model];
    RebuildAt(m, m.fields, db[o], r.db[r.mapping[o]], r.mapping, Reference(f));
  }

  /** A preserved reference to anything but the parent stays as it was in the finished copy, even to
      an object that was copied too. */
  lemma PreservedReferenceStays(schema: Schema, db: Store, root: Id, newParent: Id, forest: Forest, creator: string,
                                done: Store, o: Id, f: string, t: Id)
    requires IsDeepCopy(schema, db, root, newParent, forest, creator, done) && o in Ids(forest)
    requires o < |db| && db[o].model in schema.models && Reference(f) in schema.models[db[o].model].fields
    requires f in schema.models[db[o].model].preserve && !IsBlocked(schema.models[db[o].model], f)
    requires Target(db[o], f) == Some(t) && t != ParentOf(forest, root, o) && (f == UJT ==> TemplateOf(db, o).None?)
    ensures var mapping := CopyForest(schema, db, root, newParent, forest, creator).mapping;
            o in mapping && mapping[o] < |done| && Target(done[mapping[o]], f) == Some(t)
  {
    ReferencesAreCopied(schema, db, root, newParent, forest, creator, done, o, f);
    var mapping := CopyForest(schema, db, root, newParent, forest, creator).mapping;
    KeptTarget(schema, db, mapping, newParent, o, ParentOf(forest, root, o), f, t);
  }

  lemma KeptTarget(schema: Schema, db: Store, mapping: map<Id, Id>, newParent: Id, o: Id, p: Id, f: string, t: Id)
    requires o < |db| && db[o].model in schema.models && o in mapping && 0 < mapping[o]
    requires f in schema.models[db[o].model].preserve && !IsBlocked(schema.models[db[o].model], f)
    requires Target(db[o], f) == Some(t) && t != p && (f == UJT ==> TemplateOf(db, o).None?)
    ensures CopiedTarget(schema, db, mapping, newParent, o, p, f) == Some(t)
  {
  }

  /** What was stored before the copy is stored unchanged after it, links and all. */
  lemma OriginalsUnchanged(schema: Schema, db: Store, root: Id, newParent: Id, forest: Forest, creator: string,
                           done: Store)
    requires IsDeepCopy(schema, db, root, newParent, forest, creator, done)
    ensures db <= done
  {
    var r := CopyForest(schema, db, root, newParent, forest, creator);
    CopyIsFresh(schema, db, root, newParent, forest, creator);
    forall y: Id | y < |db|
      ensures y < |done| && done[y] == db[y]
    {
      assert IsUntouched(r.mapping, y);
    }
  }

  lemma ChildrenSurvive(schema: Schema, db: Store, root: Id, newParent: Id, forest: Forest, creator: string,
                        done: Store, x: Id, fd: FieldDef, y: Id, z: Id)
    requires IsDeepCopy(schema, db, root, newParent, forest, creator, done) && IsFollowedFrom(schema, db, x, fd)
    ensures var r := CopyForest(schema, db, root, newParent, forest, creator);
            |done| == |r.db| && (y < |done| ==> (IsChild(done[y], z, fd.kind) <==> IsChild(r.db[y], z, fd.kind)))
  {
    var r := CopyForest(schema, db, root, newParent, forest, creator);
    assert ViaOk(schema, fd.kind);
    if y < |done| {
      if o :| o in r.mapping && r.mapping[o] == y {
        CopyKeys(schema, db, root, newParent, forest, creator);
        CopyChildSurvives(schema, db, root, newParent, forest, creator, done, fd.kind, o, z);
      } else {
        assert IsUntouched(r.mapping, y);
      }
    }
  }

  lemma CopyChildSurvives(schema: Schema, db: Store, root: Id, newParent: Id, forest: Forest, creator: string,
                          done: Store, kind: Kind, o: Id, z: Id)
    requires IsDeepCopy(schema, db, root, newParent, forest, creator, done) && o in Ids(forest)
    requires kind.OneToMany? && ViaOk(schema, kind)
    ensures var r := CopyForest(schema, db, root, newParent, forest, creator);
            o in r.mapping && r.mapping[o] < |r.db| == |done|
            && (IsChild(done[r.mapping[o]], z, kind) <==> IsChild(r.db[r.mapping[o]], z, kind))
  {
    var r := CopyForest(schema, db, root, newParent, forest, creator);
    RebuiltCopy(schema, db, root, newParent, forest, creator, done, o);
    var m := schema.models[db[o].model];
    RebuiltModel(m, m.fields, db[o], r.db[r.mapping[o]], r.mapping);
    if db[o].model == kind.child {
      assert CanClone(schema, db, o);
      CopyReferences(schema, db, root, newParent, forest, creator, o, kind.via);
      ReferencesAreCopied(schema, db, root, newParent, forest, creator, done, o, kind.via);
    }
  }

  lemma {:induction false} RebuiltModel(m: Model, fields: seq<FieldDef>, original: Obj, copy: Obj, mapping: map<Id, Id>)
    ensures RebuildFields(m, fields, original, copy, mapping).model == copy.model
    decreases |fields|
  {
    if fields != [] {
      RebuiltModel(m, fields[1..], original, RebuildField(m, fields[0], original, copy, mapping), mapping);
    }
  }

  /** The finished copy is the same tree as the original: at the root and at every object below it,
      through every followed relation, the children of the counterpart are exactly the copies of
      the children. */
  lemma DeepCopyIsIsomorphic(schema: Schema, db: Store, root: Id, newParent: Id, forest: Forest, creator: string,
                             done: Store, x: Id, fd: FieldDef, y: Id)
    requires IsDeepCopy(schema, db, root, newParent, forest, creator, done)
    requires RefsOk(db) && newParent < |db| && Unreferenced(db, newParent)
    requires (x == root || x in Ids(forest)) && IsFollowedFrom(schema, db, x, fd)
    ensures var r := CopyForest(schema, db, root, newParent, forest, creator);
            y < |done| ==> (IsChild(done[y], Image(r.mapping, newParent, x), fd.kind)
                            <==> exists c ::
                              c in r.mapping && r.mapping[c] == y && c < |db| && IsChild(db[c], x, fd.kind))
  {
    var r := CopyForest(schema, db, root, newParent, forest, creator);
    ChildrenSurvive(schema, db, root, newParent, forest, creator, done, x, fd, y, Image(r.mapping, newParent, x));
    CopyIsIsomorphic(schema, db, root, newParent, forest, creator, x, fd, y);
  }
}
