/**
 What the copies hold, field by field: the copy of the object asked for, the clones of approval
 templates, and the copies below once the background task is done.
 */
module DeepCopyOutcomes {
  import opened Helpers
  import opened DeepCopy
  import opened DeepCopyShape
  import opened DeepCopyRebuild
  import opened DeepCopyResult

  /** A field a copy can take over: neither discarded by its model, nor one of those that make an object
      what it is, nor a role. */
  predicate IsCopyable(m: Model, f: string) {
    && f !in m.discard && f != "id" && f != "pk" && f != "polymorphic_ctype" && f != "unifiedjobtemplate_ptr"
    && f != "created_by" && f != "modified_by" && !(|f| >= 5 && f[|f| - 5..] == "_role")
  }

  lemma CopyableIs(m: Model, f: string)
    ensures IsCopyable(m, f) <==> !IsBlocked(m, f)
  {
  }

  /** The text a plain field holds, if it holds one. */
  function TextOf(o: Obj, f: string): Option<string> {
    if f in o.attrs && o.attrs[f].Data? then Some(o.attrs[f].text) else None
  }

  /******* Copies without a parent *******/

  lemma {:induction false} LinksCollected(m: Model, o: Obj, fields: seq<FieldDef>, attrs: map<string, Attr>, f: string)
    requires DistinctNames(fields) && LinkField(f) in fields && f in m.preserve && IsCopyable(m, f)
    ensures var attrs1 := CollectLinks(m, o, fields, attrs); f in attrs1 && attrs1[f] == Links(LinksOf(o, f))
    decreases |fields|
  {
    CopyableIs(m, f);
    var g := fields[0].name;
    var attrs1 := if fields[0].kind.ManyToMany? && g in m.preserve && !IsBlocked(m, g)
      then attrs[g := Links(LinksOf(o, g))] else attrs;
    if fields[0] == LinkField(f) {
      forall fd | fd in fields[1..]
        ensures fd.name != f
      {
        var i :| 0 <= i < |fields[1..]| && fields[1..][i] == fd;
        assert fields[0].name != fields[i + 1].name;
      }
      LinksKeep(m, o, fields[1..], attrs1, f);
    } else {
      var i :| 0 <= i < |fields| && fields[i] == LinkField(f);
      assert fields[0].name != fields[i].name;
      LinksCollected(m, o, fields[1..], attrs1, f);
    }
  }

  /** Every preserved many-to-many link of an object is on a copy made without a parent, and no other. */
  lemma TopLinks(schema: Schema, o: Obj, copyName: string, kwargs: map<string, Attr>, template: Option<Id>,
                 creator: string, f: string)
    requires o.model in schema.models && SchemaOk(schema) && LinkField(f) in schema.models[o.model].fields
    requires f in schema.models[o.model].preserve && IsCopyable(schema.models[o.model], f)
    ensures var copy := NewObj(schema, o, None, None, copyName, kwargs, template, creator);
            && LinksOf(copy, f) == LinksOf(o, f)
            && forall links | links != [] && f in o.attrs && o.attrs[f] == Links(links) ::
                 f in copy.attrs && copy.attrs[f] == Links(links)
  {
    var m := schema.models[o.model];
    var attrs := Collect(schema, m, o, None, None, copyName, m.fields, kwargs - m.discard);
    LinksCollected(m, o, m.fields, if template.Some? then attrs[UJT := Ref(template)] else attrs, f);
  }

  /** A preserved foreign key of an object is that of a copy made without a parent, but for an approval
      node's template; one that is not preserved is as the caller's keywords have it, if it is set. */
  lemma TopReferences(schema: Schema, o: Obj, copyName: string, kwargs: map<string, Attr>, template: Option<Id>,
                      creator: string, f: string)
    requires o.model in schema.models && SchemaOk(schema) && Reference(f) in schema.models[o.model].fields
    ensures var m := schema.models[o.model];
            Target(NewObj(schema, o, None, None, copyName, kwargs, template, creator), f) ==
            if f == "unified_job_template" && template.Some? then template
            else if !IsCopyable(m, f) || Target(o, f) == None then None
            else if f in m.preserve then Target(o, f)
            else if f in kwargs && kwargs[f].Ref? then kwargs[f].target
            else None
  {
    var m := schema.models[o.model];
    CopyableIs(m, f);
    CollectAt(schema, m, o, None, None, copyName, m.fields, kwargs - m.discard, Reference(f));
    var attrs := Collect(schema, m, o, None, None, copyName, m.fields, kwargs - m.discard);
    LinksElsewhere(m, o, m.fields, if template.Some? then attrs[UJT := Ref(template)] else attrs, Reference(f));
  }

  /** The text of a plain field of a copy made without a parent: the name asked for or the old one with a
      suffix; of a preserved field the old text as it decrypts; of any other what the caller gives. */
  lemma TopData(schema: Schema, o: Obj, copyName: string, kwargs: map<string, Attr>, template: Option<Id>,
                creator: string, f: string)
    requires o.model in schema.models && SchemaOk(schema) && FieldDef(f, Plain) in schema.models[o.model].fields
    requires f != "unified_job_template"
    ensures var m := schema.models[o.model];
            var copy := NewObj(schema, o, None, None, copyName, kwargs, template, creator);
            && copy.model == o.model && copy.createdBy == creator
            && TextOf(copy, f) ==
               if !IsCopyable(m, f) then None
               else if TextOf(o, f).Some? && f == "name" then
                 Some(if copyName != "" then copyName else TextOf(o, f).value + " copy")
               else if TextOf(o, f).Some? && f in m.preserve then Some(schema.decrypted(o, f, TextOf(o, f).value))
               else if f in kwargs && kwargs[f].Data? then Some(kwargs[f].text)
               else None
  {
    var m := schema.models[o.model];
    CopyableIs(m, f);
    CollectAt(schema, m, o, None, None, copyName, m.fields, kwargs - m.discard, FieldDef(f, Plain));
    var attrs := Collect(schema, m, o, None, None, copyName, m.fields, kwargs - m.discard);
    LinksElsewhere(m, o, m.fields, if template.Some? then attrs[UJT := Ref(template)] else attrs, FieldDef(f, Plain));
  }

  /** The approval template a workflow node runs, if it runs one. */
  ghost predicate RunsTemplate(db: Store, x: Id, t: Id)
    requires x < |db|
  {
    && db[x].model == "WorkflowJobTemplateNode" && Target(db[x], "unified_job_template") == Some(t)
    && t < |db| && db[t].model == "WorkflowApprovalTemplate"
  }

  /** A clone is one object more, after everything there was. */
  lemma CloneAddsOne(schema: Schema, db: Store, oldParent: Option<Id>, newParent: Option<Id>, x: Id, copyName: string,
                     kwargs: map<string, Attr>, creator: string)
    requires CanClone(schema, db, x) && forall t: Id :: !RunsTemplate(db, x, t)
    ensures Clone(schema, db, oldParent, newParent, x, copyName, kwargs, creator)
            == Cloned(db + [NewObj(schema, db[x], oldParent, newParent, copyName, kwargs, None, creator)], |db|)
  {
    assert TemplateOf(db, x).Some? ==> RunsTemplate(db, x, TemplateOf(db, x).value);
  }

  /** Of a node that runs an approval template it is two: the first is the template's own clone, which is
      made without a parent and bears the old name with a suffix, and which the node's clone runs. */
  lemma CloneAddsTwo(schema: Schema, db: Store, oldParent: Option<Id>, newParent: Option<Id>, x: Id, t: Id,
                     copyName: string, kwargs: map<string, Attr>, creator: string)
    requires CanClone(schema, db, x) && RunsTemplate(db, x, t)
    ensures db[t].model in schema.models
    ensures Clone(schema, db, oldParent, newParent, x, copyName, kwargs, creator)
            == Cloned(db + [NewObj(schema, db[t], None, None, "", map[], None, creator),
                            NewObj(schema, db[x], oldParent, newParent, copyName, kwargs, Some(|db|), creator)],
                      |db| + 1)
  {
  }

  lemma PostedIs(schema: Schema, db: Store, root: Id, forest: Forest, copyName: string, kwargs: map<string, Attr>,
                 creator: string, made: Cloned, done: Store)
    requires CanClone(schema, db, root) && forall t: Id :: !RunsTemplate(db, root, t)
    requires made == Clone(schema, db, None, None, root, copyName, kwargs, creator)
    requires IsDeepCopy(schema, made.db, root, made.id, forest, creator, done)
    ensures made.id == |db| < |done|
    ensures done[made.id] == NewObj(schema, db[root], None, None, copyName, kwargs, None, creator)
  {
    CloneAddsOne(schema, db, None, None, root, copyName, kwargs, creator);
    OriginalsUnchanged(schema, made.db, root, made.id, forest, creator, done);
    assert done[|db|] == done[..|made.db|][|db|];
  }

  /** The copy of the object asked for, as the endpoint leaves it once all is done: its preserved links
      are exactly the original's, its preserved foreign keys are too, and its plain fields are as they
      were, but for the name. */
  lemma PostedCopy(schema: Schema, db: Store, root: Id, forest: Forest, copyName: string, kwargs: map<string, Attr>,
                   creator: string, made: Cloned, done: Store, f: string)
    requires CanClone(schema, db, root) && SchemaOk(schema) && forall t: Id :: !RunsTemplate(db, root, t)
    requires made == Clone(schema, db, None, None, root, copyName, kwargs, creator)
    requires IsDeepCopy(schema, made.db, root, made.id, forest, creator, done)
    requires IsCopyable(schema.models[db[root].model], f)
    ensures var m, o := schema.models[db[root].model], db[root];
            && made.id == |db| < |done| && done[made.id].model == o.model && done[made.id].createdBy == creator
            && (LinkField(f) in m.fields && f in m.preserve ==> LinksOf(done[made.id], f) == LinksOf(o, f))
            && (Reference(f) in m.fields && f in m.preserve ==> Target(done[made.id], f) == Target(o, f))
            && (FieldDef(f, Plain) in m.fields && f in m.preserve && f != "name" && f != "unified_job_template"
                && TextOf(o, f).Some? ==>
                  TextOf(done[made.id], f) == Some(schema.decrypted(o, f, TextOf(o, f).value)))
            && (FieldDef(f, Plain) in m.fields && f == "name" && TextOf(o, f).Some? ==>
                  TextOf(done[made.id], f) == Some(if copyName != "" then copyName else TextOf(o, f).value + " copy"))
  {
    var m := schema.models[db[root].model];
    PostedIs(schema, db, root, forest, copyName, kwargs, creator, made, done);
    if LinkField(f) in m.fields && f in m.preserve {
      TopLinks(schema, db[root], copyName, kwargs, None, creator, f);
    }
    if Reference(f) in m.fields {
      TopReferences(schema, db[root], copyName, kwargs, None, creator, f);
    }
    if FieldDef(f, Plain) in m.fields && f != "unified_job_template" {
      TopData(schema, db[root], copyName, kwargs, None, creator, f);
    }
  }

  /******* Copies below *******/

  lemma SourceOf(schema: Schema, db: Store, root: Id, newParent: Id, forest: Forest, creator: string, done: Store,
                 o: Id)
    requires IsDeepCopy(schema, db, root, newParent, forest, creator, done) && o in Ids(forest)
    ensures o < |db| && db[o].model in schema.models && CanClone(schema, db, o)
    ensures var mapping := CopyForest(schema, db, root, newParent, forest, creator).mapping;
            o in mapping && 0 < mapping[o] < |done|
  {
    RebuiltCopy(schema, db, root, newParent, forest, creator, done, o);
    assert CanClone(schema, db, o);
  }

  lemma {:induction false} DataRebuilt(m: Model, fields: seq<FieldDef>, original: Obj, copy: Obj, mapping: map<Id, Id>,
                                       f: string)
    requires forall fd | fd in fields && fd.name == f :: fd.kind.Plain?
    ensures TextOf(RebuildFields(m, fields, original, copy, mapping), f) == TextOf(copy, f)
    ensures RebuildFields(m, fields, original, copy, mapping).createdBy == copy.createdBy
    decreases |fields|
  {
    if fields != [] {
      assert fields[0] in fields;
      DataRebuilt(m, fields[1..], original, RebuildField(m, fields[0], original, copy, mapping), mapping, f);
    }
  }

  lemma OnlyPlain(fields: seq<FieldDef>, f: string)
    requires DistinctNames(fields) && FieldDef(f, Plain) in fields
    ensures forall fd | fd in fields && fd.name == f :: fd.kind.Plain?
  {
    var i :| 0 <= i < |fields| && fields[i] == FieldDef(f, Plain);
    forall fd | fd in fields && fd.name == f
      ensures fd == fields[i]
    {
      var j :| 0 <= j < |fields| && fields[j] == fd;
      assert !(i < j) && !(j < i);
    }
  }

  /** A copy below belongs to whoever made it, and of its plain fields the preserved hold the old text as
      it decrypts, the name not excepted, and the others nothing. */
  lemma FinishedData(schema: Schema, db: Store, root: Id, newParent: Id, forest: Forest, creator: string, done: Store,
                     o: Id, f: string)
    requires IsDeepCopy(schema, db, root, newParent, forest, creator, done) && o in Ids(forest)
    requires o < |db| && db[o].model in schema.models && FieldDef(f, Plain) in schema.models[db[o].model].fields
    requires f != "unified_job_template"
    ensures var mapping := CopyForest(schema, db, root, newParent, forest, creator).mapping;
            var m := schema.models[db[o].model];
            && o in mapping && mapping[o] < |done| && done[mapping[o]].createdBy == creator
            && TextOf(done[mapping[o]], f) ==
               if IsCopyable(m, f) && f in m.preserve && TextOf(db[o], f).Some?
               then Some(schema.decrypted(db[o], f, TextOf(db[o], f).value)) else None
  {
    var m := schema.models[db[o].model];
    var r := CopyForest(schema, db, root, newParent, forest, creator);
    SourceOf(schema, db, root, newParent, forest, creator, done, o);
    RebuiltCopy(schema, db, root, newParent, forest, creator, done, o);
    CopyData(schema, db, root, newParent, forest, creator, o, f);
    CopyableIs(m, f);
    OnlyPlain(m.fields, f);
    DataRebuilt(m, m.fields, db[o], r.db[r.mapping[o]], r.mapping, f);
  }

  /** A foreign key of a copy below: an approval node's template is its own; where the original refers to
      the object it was reached from, the copy refers to that one's counterpart; a preserved one refers
      to what the original refers to; and any other to nothing. */
  lemma FinishedReference(schema: Schema, db: Store, root: Id, newParent: Id, forest: Forest, creator: string,
                          done: Store, o: Id, f: string)
    requires IsDeepCopy(schema, db, root, newParent, forest, creator, done) && o in Ids(forest)
    requires o < |db| && db[o].model in schema.models && Reference(f) in schema.models[db[o].model].fields
    requires IsCopyable(schema.models[db[o].model], f)
    ensures var mapping := CopyForest(schema, db, root, newParent, forest, creator).mapping;
            var p := ParentOf(forest, root, o);
            && o in mapping && 0 < mapping[o] < |done| && (p == root || p in mapping)
            && Target(done[mapping[o]], f) ==
               if f == "unified_job_template" && exists t: Id :: RunsTemplate(db, o, t) then Some(mapping[o] - 1)
               else if Target(db[o], f) == Some(p) then Some(if p == root then newParent else mapping[p])
               else if f in schema.models[db[o].model].preserve then Target(db[o], f)
               else None
  {
    var mapping := CopyForest(schema, db, root, newParent, forest, creator).mapping;
    SourceOf(schema, db, root, newParent, forest, creator, done, o);
    ParentIsCopied(schema, db, root, newParent, forest, creator, o);
    ReferencesAreCopied(schema, db, root, newParent, forest, creator, done, o, f);
    SpelledTarget(schema, db, mapping, newParent, root, o, ParentOf(forest, root, o), f);
  }

  lemma ParentIsCopied(schema: Schema, db: Store, root: Id, newParent: Id, forest: Forest, creator: string, o: Id)
    requires CanCopy(schema, db, forest) && o in Ids(forest) && root !in Ids(forest)
    ensures var mapping := CopyForest(schema, db, root, newParent, forest, creator).mapping;
            root !in mapping && (ParentOf(forest, root, o) == root || ParentOf(forest, root, o) in mapping)
  {
    CopyKeys(schema, db, root, newParent, forest, creator);
    ParentInForest(forest, root, o);
  }

  lemma SpelledTarget(schema: Schema, db: Store, mapping: map<Id, Id>, newParent: Id, root: Id, o: Id, p: Id, f: string)
    requires o < |db| && db[o].model in schema.models && o in mapping && 0 < mapping[o]
    requires IsCopyable(schema.models[db[o].model], f) && root !in mapping && (p == root || p in mapping)
    ensures CopiedTarget(schema, db, mapping, newParent, o, p, f) ==
            if f == "unified_job_template" && exists t: Id :: RunsTemplate(db, o, t) then Some(mapping[o] - 1)
            else if Target(db[o], f) == Some(p) then Some(if p == root then newParent else mapping[p])
            else if f in schema.models[db[o].model].preserve then Target(db[o], f)
            else None
  {
    CopyableIs(schema.models[db[o].model], f);
    assert TemplateOf(db, o).Some? ==> RunsTemplate(db, o, TemplateOf(db, o).value);
  }

  /** The many-to-many links of a copy below are those of its original, each once, to the copies of what was
      copied and to everything else itself; where they are not preserved there are none. */
  lemma FinishedLinks(schema: Schema, db: Store, root: Id, newParent: Id, forest: Forest, creator: string, done: Store,
                      o: Id, f: string, y: Id)
    requires IsDeepCopy(schema, db, root, newParent, forest, creator, done) && o in Ids(forest)
    requires o < |db| && db[o].model in schema.models && LinkField(f) in schema.models[db[o].model].fields
    requires f in schema.models[db[o].model].preserve
    ensures var mapping := CopyForest(schema, db, root, newParent, forest, creator).mapping;
            && o in mapping && mapping[o] < |done| && NoRepeats(LinksOf(done[mapping[o]], f))
            && (y in LinksOf(done[mapping[o]], f) <==>
                (exists t :: t in LinksOf(db[o], f) && t in mapping && mapping[t] == y)
                || (y in LinksOf(db[o], f) && y !in mapping))
  {
    LinksAreCopied(schema, db, root, newParent, forest, creator, done, o, f, y);
    SpelledImage(CopyForest(schema, db, root, newParent, forest, creator).mapping, LinksOf(db[o], f), y);
  }

  lemma SpelledImage(mapping: map<Id, Id>, links: seq<Id>, y: Id)
    ensures (exists t :: t in links && Mapped(mapping, t) == y) <==>
            (exists t :: t in links && t in mapping && mapping[t] == y) || (y in links && y !in mapping)
  {
    if y in links && y !in mapping {
      assert Mapped(mapping, y) == y;
    }
    if t :| t in links && t in mapping && mapping[t] == y {
      assert Mapped(mapping, t) == y;
    }
  }

  /** The relations followed are the preserved one-to-many ones that can be copied. */
  lemma FollowedExactly(m: Model, fd: FieldDef)
    ensures IsFollowed(m, fd) <==> fd.kind.OneToMany? && fd.name in m.preserve && IsCopyable(m, fd.name)
  {
    CopyableIs(m, fd.name);
  }

  /** And what is below an object through one are the objects of its kind that refer to it. */
  lemma BelowExactly(schema: Schema, db: Store, x: Id, c: Id)
    requires x < |db| && db[x].model in schema.models
    ensures c in ChildIds(schema, db, x) <==>
            && c < |db|
            && exists fd :: && fd in schema.models[db[x].model].fields && fd.kind.OneToMany?
                            && fd.name in schema.models[db[x].model].preserve
                            && IsCopyable(schema.models[db[x].model], fd.name)
                            && db[c].model == fd.kind.child && Target(db[c], fd.kind.via) == Some(x)
  {
    var m := schema.models[db[x].model];
    ChildrenViaAre(m, m.fields, db, x, c);
    forall fd
      ensures IsFollowed(m, fd) <==> fd.kind.OneToMany? && fd.name in m.preserve && IsCopyable(m, fd.name)
    {
      FollowedExactly(m, fd);
    }
  }
}
