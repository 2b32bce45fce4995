/**
 The copy endpoint as a whole: it copies the object asked for, and its background task everything
 below it. The copy it hands to the task is one that task can work with.
 */
module DeepCopyEndpoint {
  import opened Helpers
  import opened DeepCopy
  import opened DeepCopyShape
  import opened DeepCopyRebuild
  import opened DeepCopyTask
  import opened DeepCopyResult

  /******* The copy without a parent *******/

  /** Every foreign key held is the object's own, or that of its template. */
  ghost predicate OwnRefs(o: Obj, attrs: map<string, Attr>, template: Option<Id>) {
    forall f | f in attrs && attrs[f].Ref? && attrs[f].target.Some? ::
      attrs[f].target == Target(o, f) || (f == UJT && attrs[f].target == template)
  }

  lemma {:induction false} CollectOwn(schema: Schema, m: Model, o: Obj, copyName: string, fields: seq<FieldDef>,
                                      kwargs: map<string, Attr>)
    requires OwnRefs(o, kwargs, None)
    ensures OwnRefs(o, Collect(schema, m, o, None, None, copyName, fields, kwargs), None)
    decreases |fields|
  {
    if fields != [] {
      var e := FieldEffect(schema, m, o, None, None, copyName, fields[0]);
      CollectOwn(schema, m, o, copyName, fields[1..], Apply(kwargs, fields[0].name, e));
    }
  }

  lemma {:induction false} CollectLinksOwn(m: Model, o: Obj, fields: seq<FieldDef>, attrs: map<string, Attr>,
                                           template: Option<Id>)
    requires OwnRefs(o, attrs, template)
    ensures OwnRefs(o, CollectLinks(m, o, fields, attrs), template)
    decreases |fields|
  {
    if fields != [] {
      var f := fields[0].name;
      var attrs1 := if fields[0].kind.ManyToMany? && f in m.preserve && !IsBlocked(m, f)
        then attrs[f := Links(LinksOf(o, f))] else attrs;
      CollectLinksOwn(m, o, fields[1..], attrs1, template);
    }
  }

  /** A copy made without a parent, from keywords that are the object's own, refers only to what its
      original refers to, and an approval node's to its own template. */
  lemma TopRefsOwn(schema: Schema, o: Obj, copyName: string, kwargs: map<string, Attr>, template: Option<Id>,
                   creator: string)
    requires o.model in schema.models && OwnRefs(o, kwargs, None)
    ensures var n := NewObj(schema, o, None, None, copyName, kwargs, template, creator);
            n.model == o.model && OwnRefs(o, n.attrs, template)
  {
    var m := schema.models[o.model];
    CollectOwn(schema, m, o, copyName, m.fields, kwargs - m.discard);
    var attrs := Collect(schema, m, o, None, None, copyName, m.fields, kwargs - m.discard);
    CollectLinksOwn(m, o, m.fields, if template.Some? then attrs[UJT := Ref(template)] else attrs, template);
  }

  /** The row a copy without a parent adds at `y`: the object's clone, or that of its template. */
  lemma TopRow(schema: Schema, db: Store, x: Id, copyName: string, kwargs: map<string, Attr>, creator: string, y: Id)
    requires CanClone(schema, db, x) && OwnRefs(db[x], kwargs, None)
    requires |db| <= y < |Clone(schema, db, None, None, x, copyName, kwargs, creator).db|
    ensures var c := Clone(schema, db, None, None, x, copyName, kwargs, creator);
            if y == c.id then
              c.db[y].model == db[x].model
                && OwnRefs(db[x], c.db[y].attrs, if TemplateOf(db, x).Some? then Some(|db|) else None)
            else
              TemplateOf(db, x).Some? && y == |db| && c.db[y].model == TEMPLATE
                && OwnRefs(db[TemplateOf(db, x).value], c.db[y].attrs, None)
  {
    var template := TemplateOf(db, x);
    TopRefsOwn(schema, db[x], copyName, kwargs, if template.Some? then Some(|db|) else None, creator);
    if template.Some? {
      TopRefsOwn(schema, db[template.value], "", map[], None, creator);
    }
  }

  /** No row that was there, nor any row it adds, refers to the copy. */
  lemma TopIsUnreferenced(schema: Schema, db: Store, x: Id, copyName: string, kwargs: map<string, Attr>,
                          creator: string)
    requires CanClone(schema, db, x) && OwnRefs(db[x], kwargs, None) && RefsOk(db)
    ensures var c := Clone(schema, db, None, None, x, copyName, kwargs, creator);
            RefsOk(c.db) && Unreferenced(c.db, c.id)
  {
    var c := Clone(schema, db, None, None, x, copyName, kwargs, creator);
    forall y: Id, f | y < |c.db|
      ensures Target(c.db[y], f).Some? ==>
              Target(c.db[y], f).value < |db| || (Target(c.db[y], f).value == |db| && |db| < c.id)
    {
      if y < |db| {
        assert c.db[y] == db[y];
      } else {
        TopRow(schema, db, x, copyName, kwargs, creator, y);
      }
    }
  }

  /** And none it adds is a child of an object of the tree. */
  lemma TopIsQuiet(schema: Schema, origin: Origin, copyName: string, kwargs: map<string, Attr>, creator: string)
    requires OriginOk(schema, origin) && CanClone(schema, origin.base, origin.root)
    requires OwnRefs(origin.base[origin.root], kwargs, None)
    ensures Undisturbed(schema, origin,
            Clone(schema, origin.base, None, None, origin.root, copyName, kwargs, creator).db)
  {
    var c := Clone(schema, origin.base, None, None, origin.root, copyName, kwargs, creator);
    forall y: Id, s: Id, fd | |origin.base| <= y < |c.db| && InTree(origin, s)
      && IsFollowedFrom(schema, origin.base, s, fd)
      ensures !IsChild(c.db[y], s, fd.kind)
    {
      TopRow(schema, origin.base, origin.root, copyName, kwargs, creator, y);
      assert ViaOk(schema, fd.kind);
      if IsChild(c.db[y], s, fd.kind) {
        assert IsChild(origin.base[origin.root], s, fd.kind);
        ChildHasParent(schema, origin.base, origin.root, origin.forest, s, fd, origin.root);
      }
    }
    forall y: Id | |origin.base| <= y < |c.db|
      ensures IsQuiet(schema, origin, c.db[y])
    {
    }
  }

  /******* The tree afterwards *******/

  lemma {:induction false} ChildrenViaStay(schema: Schema, origin: Origin, db: Store, x: Id, fields: seq<FieldDef>)
    requires Undisturbed(schema, origin, db) && InTree(origin, x) && x < |origin.base|
    requires origin.base[x].model in schema.models
    requires forall fd | fd in fields :: fd in schema.models[origin.base[x].model].fields
    ensures var m := schema.models[origin.base[x].model];
            ChildrenVia(m, fields, db, x) == ChildrenVia(m, fields, origin.base, x)
    decreases |fields|
  {
    if fields != [] {
      ChildrenViaStay(schema, origin, db, x, fields[1..]);
      if IsFollowed(schema.models[origin.base[x].model], fields[0]) {
        assert IsFollowedFrom(schema, origin.base, x, fields[0]);
        forall y: Id | |origin.base| <= y < |db|
          ensures !IsChild(db[y], x, fields[0].kind)
        {
          assert IsQuiet(schema, origin, db[y]);
        }
        ChildrenStay(origin.base, db, x, fields[0].kind);
      }
    }
  }

  lemma ChildIdsStay(schema: Schema, origin: Origin, db: Store, x: Id)
    requires Undisturbed(schema, origin, db) && InTree(origin, x) && x < |origin.base|
    requires origin.base[x].model in schema.models
    ensures ChildIds(schema, db, x) == ChildIds(schema, origin.base, x)
  {
    ChildrenViaStay(schema, origin, db, x, schema.models[origin.base[x].model].fields);
  }

  lemma {:induction false} ShapeStays(schema: Schema, origin: Origin, db: Store, forest: Forest)
    requires Undisturbed(schema, origin, db) && Ids(forest) <= Ids(origin.forest) && Shaped(schema, origin.base, forest)
    ensures Shaped(schema, db, forest)
    decreases forest
  {
    match forest
    case End =>
    case Sub(x, below, next) =>
      ChildIdsStay(schema, origin, db, x);
      ShapeStays(schema, origin, db, below);
      ShapeStays(schema, origin, db, next);
  }

  /** After the copy without a parent the tree below the original is the same, and the copy is
      neither part of it nor referred to: all that the background task and the shape of what it
      makes need. */
  lemma TopIsReady(schema: Schema, db: Store, root: Id, forest: Forest, copyName: string, kwargs: map<string, Attr>,
                   creator: string)
    requires SchemaLinked(schema) && IsTree(schema, db, root, forest) && CanCopy(schema, db, forest) && RefsOk(db)
    requires CanClone(schema, db, root) && OwnRefs(db[root], kwargs, None)
    ensures var c := Clone(schema, db, None, None, root, copyName, kwargs, creator);
            && IsTree(schema, c.db, root, forest) && CanCopy(schema, c.db, forest)
            && c.id < |c.db| && c.id != root && c.id !in Ids(forest)
            && RefsOk(c.db) && Unreferenced(c.db, c.id)
  {
    var origin := Origin(db, root, forest);
    var c := Clone(schema, db, None, None, root, copyName, kwargs, creator);
    TopIsUnreferenced(schema, db, root, copyName, kwargs, creator);
    TopIsQuiet(schema, origin, copyName, kwargs, creator);
    ChildIdsStay(schema, origin, c.db, root);
    ShapeStays(schema, origin, c.db, forest);
    CanCopyLater(schema, db, c.db, forest);
    assert forall o | o in Ids(forest) :: CanClone(schema, db, o);
  }

  /******* The endpoint *******/

  /** Copies an object, and everything below it if there is anything below it. */
  method Post(db: Database, obj: Id, copyName: string, createKwargs: map<string, Attr>, creator: string,
              ghost forest: Forest)
    returns (newObj: Id, copyMapping: map<Id, Id>)
    requires SchemaLinked(db.schema) && IsTree(db.schema, db.rows, obj, forest) && CanCopy(db.schema, db.rows, forest)
    requires RefsOk(db.rows)
    requires CanClone(db.schema, db.rows, obj) && OwnRefs(db.rows[obj], createKwargs, None)
    modifies db`rows
    ensures var made := Clone(db.schema, old(db.rows), None, None, obj, copyName, createKwargs, creator);
            && newObj == made.id && IsDeepCopy(db.schema, made.db, obj, newObj, forest, creator, db.rows)
            && copyMapping == CopyForest(db.schema, made.db, obj, newObj, forest, creator).mapping
  {
    TopIsReady(db.schema, db.rows, obj, forest, copyName, createKwargs, creator);
    var subObjects;
    newObj, subObjects := db.CopyTop(obj, copyName, createKwargs, creator);
    copyMapping := map[];
    if subObjects != [] {
      copyMapping := db.DeepCopyModelObj(obj, newObj, creator, forest);
    }
  }

  /** `y` is the copy of a child of `x`. */
  ghost predicate CopiesChild(db: Store, mapping: map<Id, Id>, x: Id, kind: Kind, y: Id) {
    exists c :: c in mapping && mapping[c] == y && c < |db| && IsChild(db[c], x, kind)
  }

  lemma CopiesChildBefore(db: Store, db1: Store, mapping: map<Id, Id>, x: Id, kind: Kind, y: Id)
    requires db <= db1 && forall c | c in mapping :: c < |db|
    ensures CopiesChild(db1, mapping, x, kind, y) <==> CopiesChild(db, mapping, x, kind, y)
  {
    if c :| c in mapping && mapping[c] == y && c < |db1| && IsChild(db1[c], x, kind) {
      assert c < |db| && db1[c] == db[c];
    }
    if c :| c in mapping && mapping[c] == y && c < |db| && IsChild(db[c], x, kind) {
      assert db1[c] == db[c];
    }
  }

  /** What the background task makes of a copy it can work with. */
  lemma TaskCopyIsIsomorphic(schema: Schema, db: Store, made: Store, root: Id, newObj: Id, forest: Forest,
                             creator: string, done: Store, x: Id, fd: FieldDef, y: Id)
    requires CanCopy(schema, db, forest) && db <= made && IsDeepCopy(schema, made, root, newObj, forest, creator, done)
    requires RefsOk(made) && newObj < |made| && Unreferenced(made, newObj)
    requires (x == root || x in Ids(forest)) && IsFollowedFrom(schema, db, x, fd)
    ensures var mapping := CopyForest(schema, made, root, newObj, forest, creator).mapping;
            && db <= done
            && (y < |done| ==>
                  (IsChild(done[y], Image(mapping, newObj, x), fd.kind) <==> CopiesChild(db, mapping, x, fd.kind, y)))
  {
    OriginalsUnchanged(schema, made, root, newObj, forest, creator, done);
    DeepCopyIsIsomorphic(schema, made, root, newObj, forest, creator, done, x, fd, y);
    CopyKeys(schema, made, root, newObj, forest, creator);
    var mapping := CopyForest(schema, made, root, newObj, forest, creator).mapping;
    CopiesChildBefore(db, made, mapping, x, fd.kind, y);
  }

  /** What the endpoint leaves is the whole tree once more: everything stored before is as it was,
      and at the root and every object below it, through every followed relation, the children of
      the counterpart are exactly the copies of the children. */
  lemma EndpointCopyIsIsomorphic(schema: Schema, db: Store, root: Id, forest: Forest, copyName: string,
                                 kwargs: map<string, Attr>, creator: string, made: Cloned, done: Store, x: Id,
                                 fd: FieldDef, y: Id)
    requires SchemaLinked(schema) && IsTree(schema, db, root, forest) && CanCopy(schema, db, forest) && RefsOk(db)
    requires CanClone(schema, db, root) && OwnRefs(db[root], kwargs, None)
    requires made == Clone(schema, db, None, None, root, copyName, kwargs, creator)
    requires IsDeepCopy(schema, made.db, root, made.id, forest, creator, done)
    requires (x == root || x in Ids(forest)) && IsFollowedFrom(schema, db, x, fd)
    ensures var mapping := CopyForest(schema, made.db, root, made.id, forest, creator).mapping;
            && db <= done
            && (y < |done| ==>
                  (IsChild(done[y], Image(mapping, made.id, x), fd.kind) <==> CopiesChild(db, mapping, x, fd.kind, y)))
  {
    TopIsReady(schema, db, root, forest, copyName, kwargs, creator);
    TaskCopyIsIsomorphic(schema, db, made.db, root, made.id, forest, creator, done, x, fd, y);
  }
}
