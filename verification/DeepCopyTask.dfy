/**
 The copy as it runs: objects are created one at a time in the shared table while the relations
 being followed are read from the same table, and a last pass rebuilds links among the copies.
 */
module DeepCopyTask {
  import opened Helpers
  import opened DeepCopy
  import opened DeepCopyRebuild
  import opened DeepCopyShape

  /******* Copying does not disturb the tree being copied *******/

  /** The table a deep copy started from, and the tree of objects it copies. */
  datatype Origin = Origin(base: Store, root: Id, forest: Forest)

  ghost predicate InTree(origin: Origin, x: Id) {
    x == origin.root || x in Ids(origin.forest)
  }

  ghost predicate OriginOk(schema: Schema, origin: Origin) {
    SchemaLinked(schema) && IsTree(schema, origin.base, origin.root, origin.forest)
      && CanCopy(schema, origin.base, origin.forest)
  }

  /** An object that is no child of any object of the tree. */
  ghost predicate IsQuiet(schema: Schema, origin: Origin, o: Obj) {
    forall x: Id, fd | InTree(origin, x) && IsFollowedFrom(schema, origin.base, x, fd) :: !IsChild(o, x, fd.kind)
  }

  /** Everything since the start was added, and nothing added is a child of an object of the tree. */
  ghost predicate Undisturbed(schema: Schema, origin: Origin, db: Store) {
    origin.base <= db && forall y: Id | |origin.base| <= y < |db| :: IsQuiet(schema, origin, db[y])
  }

  lemma {:induction false} ChildrenStay(base: Store, db: Store, x: Id, kind: Kind)
    requires base <= db && forall y: Id | |base| <= y < |db| :: !IsChild(db[y], x, kind)
    ensures Children(db, x, kind) == Children(base, x, kind)
    decreases |db|
  {
    if |base| < |db| {
      var db0 := db[..|db| - 1];
      assert forall y: Id | |base| <= y < |db0| :: db0[y] == db[y];
      ChildrenStay(base, db0, x, kind);
    } else {
      assert base == db;
    }
  }

  lemma CloneIsQuiet(schema: Schema, origin: Origin, db: Store, oldParent: Id, newParent: Id, x: Id, creator: string)
    requires OriginOk(schema, origin) && Undisturbed(schema, origin, db) && x in Ids(origin.forest)
    requires CanClone(schema, db, x)
    requires InTree(origin, oldParent) && x < |origin.base| && ParentOf(origin.forest, origin.root, x) == oldParent
    requires !InTree(origin, newParent)
    ensures Undisturbed(schema, origin, Clone(schema, db, Some(oldParent), Some(newParent), x, "", map[], creator).db)
  {
    var db1 := Clone(schema, db, Some(oldParent), Some(newParent), x, "", map[], creator).db;
    forall y: Id | |origin.base| <= y < |db1|
      ensures IsQuiet(schema, origin, db1[y])
    {
      if y < |db| {
        assert db1[y] == db[y];
      } else {
        forall s: Id, fd | InTree(origin, s) && IsFollowedFrom(schema, origin.base, s, fd)
          ensures !IsChild(db1[y], s, fd.kind)
        {
          ClonedChild(schema, origin, db, oldParent, newParent, x, creator, s, fd, y);
        }
      }
    }
  }

  lemma ClonedChild(schema: Schema, origin: Origin, db: Store, oldParent: Id, newParent: Id, x: Id, creator: string,
                    s: Id, fd: FieldDef, y: Id)
    requires OriginOk(schema, origin) && origin.base <= db && x in Ids(origin.forest) && CanClone(schema, db, x)
    requires InTree(origin, oldParent) && x < |origin.base| && ParentOf(origin.forest, origin.root, x) == oldParent
    requires !InTree(origin, newParent)
    requires InTree(origin, s) && s < |origin.base| && IsFollowedFrom(schema, origin.base, s, fd)
    requires var db1 := Clone(schema, db, Some(oldParent), Some(newParent), x, "", map[], creator).db; |db| <= y < |db1|
    ensures !IsChild(Clone(schema, db, Some(oldParent), Some(newParent), x, "", map[], creator).db[y], s, fd.kind)
  {
    var db1 := Clone(schema, db, Some(oldParent), Some(newParent), x, "", map[], creator).db;
    assert ViaOk(schema, fd.kind);
    if IsChild(db1[y], s, fd.kind) {
      assert y == |db1| - 1 && db[x].model == fd.kind.child;
      NewReference(schema, db[x], Some(oldParent), Some(newParent),
                   if TemplateOf(db, x).Some? then Some(|db|) else None, creator, fd.kind.via);
      assert Target(db[x], fd.kind.via) == Some(s);
      ChildHasParent(schema, origin.base, origin.root, origin.forest, s, fd, x);
    }
  }

  /******* Walking the relations *******/

  /** `rest` is what is left of the tree below `x`: some children through the field at hand and
      then all through the later fields. */
  ghost predicate IsRest(schema: Schema, origin: Origin, x: Id, rest: Forest, kids: seq<Id>, later: seq<FieldDef>)
    requires x < |origin.base| && origin.base[x].model in schema.models
  {
    && Ids(rest) <= Ids(origin.forest) && Shaped(schema, origin.base, rest) && Distinct(rest)
    && (forall c | c in Ids(rest) :: ParentOf(rest, x, c) == ParentOf(origin.forest, origin.root, c))
    && TopIds(rest) == kids + ChildrenVia(schema.models[origin.base[x].model], later, origin.base, x)
  }

  /** Copying the rest, after what has been done, ends at the goal. */
  ghost predicate IsToDo(schema: Schema, x: Id, id: Id, creator: string, db: Store, done: map<Id, Id>, rest: Forest,
                         goal: Copied) {
    && CanCopy(schema, db, rest)
    && var r := CopyForest(schema, db, x, id, rest, creator);
       r.db == goal.db && done + r.mapping == goal.mapping
  }

  lemma CopyOne(schema: Schema, db: Store, oldParent: Id, newParent: Id, x: Id, below: Forest, creator: string)
    requires CanCopy(schema, db, Sub(x, below, End))
    ensures CanClone(schema, db, x)
    ensures var c := Clone(schema, db, Some(oldParent), Some(newParent), x, "", map[], creator);
            CanCopy(schema, c.db, below)
            && var b := CopyForest(schema, c.db, x, c.id, below, creator);
               CopyForest(schema, db, oldParent, newParent, Sub(x, below, End), creator)
                 == Copied(b.db, map[x := c.id] + b.mapping)
  {
    var c, b, n := Stages(schema, db, oldParent, newParent, x, below, End, creator);
    assert Joined(x, c.id, b.mapping, map[]) == map[x := c.id] + b.mapping;
  }

  lemma StartToDo(schema: Schema, x: Id, id: Id, creator: string, db: Store, done: map<Id, Id>,
                  below: Forest) returns (goal: Copied)
    requires CanCopy(schema, db, below)
    ensures var r := CopyForest(schema, db, x, id, below, creator);
            goal == Copied(r.db, done + r.mapping) && (done == map[] ==> goal == r)
    ensures IsToDo(schema, x, id, creator, db, done, below, goal)
  {
    var r := CopyForest(schema, db, x, id, below, creator);
    goal := Copied(r.db, done + r.mapping);
    assert done == map[] ==> goal.mapping == r.mapping;
  }

  lemma EndToDo(schema: Schema, origin: Origin, x: Id, id: Id, creator: string, db: Store, done: map<Id, Id>,
                rest: Forest, goal: Copied)
    requires x < |origin.base| && origin.base[x].model in schema.models && IsRest(schema, origin, x, rest, [], [])
    requires IsToDo(schema, x, id, creator, db, done, rest, goal)
    ensures Copied(db, done) == goal
  {
  }

  lemma NextToDo(schema: Schema, x: Id, id: Id, creator: string, db: Store, done: map<Id, Id>, y: Id, below: Forest,
                 rest: Forest, goal: Copied)
    requires IsToDo(schema, x, id, creator, db, done, Sub(y, below, rest), goal)
    ensures CanCopy(schema, db, Sub(y, below, End))
    ensures var r := CopyForest(schema, db, x, id, Sub(y, below, End), creator);
            IsToDo(schema, x, id, creator, r.db, done + r.mapping, rest, goal)
  {
    var c, b, n := Stages(schema, db, x, id, y, below, rest, creator);
    var c1, b1, n1 := Stages(schema, db, x, id, y, below, End, creator);
    JoinedLater(done, y, c.id, b.mapping, n.mapping);
  }

  lemma JoinedLater(done: map<Id, Id>, y: Id, id: Id, below: map<Id, Id>, next: map<Id, Id>)
    ensures done + Joined(y, id, below, next) == (done + Joined(y, id, below, map[])) + next
  {
  }

  lemma RestCanCopy(schema: Schema, origin: Origin, db: Store, x: Id, below: Forest)
    requires OriginOk(schema, origin) && origin.base <= db && Ids(below) <= Ids(origin.forest)
    ensures CanCopy(schema, db, below)
    ensures x in Ids(origin.forest) ==> CanCopy(schema, db, Sub(x, below, End)) && CanClone(schema, db, x)
  {
    CanCopyLater(schema, origin.base, db, origin.forest);
  }

  lemma WholeIsRest(schema: Schema, origin: Origin)
    requires OriginOk(schema, origin)
    ensures IsRest(schema, origin, origin.root, origin.forest, ChildIds(schema, origin.base, origin.root), [])
  {
  }

  lemma CopyCanRebuild(schema: Schema, origin: Origin, newObj: Id, creator: string)
    requires OriginOk(schema, origin) && CanCopy(schema, origin.base, origin.forest)
    ensures var r := CopyForest(schema, origin.base, origin.root, newObj, origin.forest, creator);
            CanRebuild(schema, r.db, r.mapping)
  {
    var r := CopyForest(schema, origin.base, origin.root, newObj, origin.forest, creator);
    var approvals := Approvals(origin.base, Ids(origin.forest));
    CopyIsFresh(schema, origin.base, origin.root, newObj, origin.forest, creator);
    forall o | o in r.mapping
      ensures o < |r.db| && r.mapping[o] < |r.db| && r.db[o].model in schema.models && IsUntouched(r.mapping, o)
    {
      assert CanClone(schema, origin.base, o);
    }
    forall o, o1 | o in r.mapping && o1 in r.mapping && o != o1
      ensures r.mapping[o] != r.mapping[o1]
    {
      assert Owns(r.mapping, approvals, o, r.mapping[o]);
      assert r.mapping[o] == r.mapping[o1] ==> Owns(r.mapping, approvals, o1, r.mapping[o]);
    }
  }

  /** The next child to copy, and what is left below it and after it. */
  lemma NextRest(schema: Schema, origin: Origin, x: Id, rest: Forest, kids: seq<Id>,
                 later: seq<FieldDef>) returns (below: Forest, next: Forest)
    requires x < |origin.base| && origin.base[x].model in schema.models && kids != []
    requires IsRest(schema, origin, x, rest, kids, later)
    ensures rest == Sub(kids[0], below, next)
    ensures IsRest(schema, origin, x, next, kids[1..], later)
    ensures kids[0] in Ids(origin.forest) && ParentOf(origin.forest, origin.root, kids[0]) == x
    ensures kids[0] < |origin.base| && origin.base[kids[0]].model in schema.models
    ensures IsRest(schema, origin, kids[0], below, [], schema.models[origin.base[kids[0]].model].fields)
  {
    var tops := kids + ChildrenVia(schema.models[origin.base[x].model], later, origin.base, x);
    assert TopIds(rest)[0] == kids[0]
      && tops[1..] == kids[1..] + ChildrenVia(schema.models[origin.base[x].model], later, origin.base, x);
    below, next := rest.below, rest.next;
    assert kids[0] in Ids(rest) && ParentOf(rest, x, kids[0]) == x;
    TopsAfter(rest);
    ParentsNext(origin, x, rest);
    ParentsBelow(origin, x, rest);
  }

  lemma TopsAfter(rest: Forest)
    requires rest.Sub?
    ensures TopIds(rest)[1..] == TopIds(rest.next)
  {
  }

  lemma ParentsNext(origin: Origin, x: Id, rest: Forest)
    requires rest.Sub? && Distinct(rest) && Ids(rest) <= Ids(origin.forest)
    requires forall c | c in Ids(rest) :: ParentOf(rest, x, c) == ParentOf(origin.forest, origin.root, c)
    ensures forall c | c in Ids(rest.next) ::
            c in Ids(origin.forest) && ParentOf(rest.next, x, c) == ParentOf(origin.forest, origin.root, c)
  {
  }

  lemma ParentsBelow(origin: Origin, x: Id, rest: Forest)
    requires rest.Sub? && Distinct(rest) && Ids(rest) <= Ids(origin.forest)
    requires forall c | c in Ids(rest) :: ParentOf(rest, x, c) == ParentOf(origin.forest, origin.root, c)
    ensures forall c | c in Ids(rest.below) ::
            c in Ids(origin.forest) && ParentOf(rest.below, rest.id, c) == ParentOf(origin.forest, origin.root, c)
  {
  }

  /** The fields whose links a copy without a parent takes over. */
  function LinkFields(m: Model, fields: seq<FieldDef>): seq<FieldDef> {
    if fields == [] then []
    else
      (if fields[0].kind.ManyToMany? && fields[0].name in m.preserve && !IsBlocked(m, fields[0].name) then [fields[0]]
        else [])
      + LinkFields(m, fields[1..])
  }

  function AddLinks(o: Obj, m2m: seq<FieldDef>, attrs: map<string, Attr>): map<string, Attr>
    decreases |m2m|
  {
    if m2m == [] then attrs else AddLinks(o, m2m[1..], attrs[m2m[0].name := Links(LinksOf(o, m2m[0].name))])
  }

  lemma {:induction false} AddLinksAll(m: Model, o: Obj, fields: seq<FieldDef>, attrs: map<string, Attr>)
    ensures AddLinks(o, LinkFields(m, fields), attrs) == CollectLinks(m, o, fields, attrs)
    decreases |fields|
  {
    if fields != [] {
      var f := fields[0].name;
      var attrs1 := if fields[0].kind.ManyToMany? && f in m.preserve && !IsBlocked(m, f)
        then attrs[f := Links(LinksOf(o, f))] else attrs;
      AddLinksAll(m, o, fields[1..], attrs1);
      assert ([fields[0]] + LinkFields(m, fields[1..]))[1..] == LinkFields(m, fields[1..]);
      assert [] + LinkFields(m, fields[1..]) == LinkFields(m, fields[1..]);
    }
  }

  lemma {:induction false} FollowedChildren(m: Model, fields: seq<FieldDef>, db: Store, x: Id)
    ensures ChildrenVia(m, FollowedFields(m, fields), db, x) == ChildrenVia(m, fields, db, x)
    ensures forall fd | fd in FollowedFields(m, fields) :: fd in fields && IsFollowed(m, fd)
    decreases |fields|
  {
    if fields != [] {
      FollowedChildren(m, fields[1..], db, x);
      assert ([fields[0]] + FollowedFields(m, fields[1..]))[1..] == FollowedFields(m, fields[1..]);
      assert [] + FollowedFields(m, fields[1..]) == FollowedFields(m, fields[1..]);
    }
  }

  /** Reading the children of a tree's object mid-copy finds the original ones. */
  lemma KidsAreChildren(schema: Schema, origin: Origin, db: Store, x: Id, o2m: seq<FieldDef>, i: nat, rest: Forest)
    requires OriginOk(schema, origin) && Undisturbed(schema, origin, db) && InTree(origin, x)
    requires x < |origin.base| && origin.base[x].model in schema.models && i < |o2m|
    requires IsFollowedFrom(schema, origin.base, x, o2m[i])
    requires IsRest(schema, origin, x, rest, [], o2m[i..])
    ensures IsRest(schema, origin, x, rest, Children(db, x, o2m[i].kind), o2m[i + 1..])
  {
    forall y: Id | |origin.base| <= y < |db|
      ensures !IsChild(db[y], x, o2m[i].kind)
    {
      assert IsQuiet(schema, origin, db[y]);
    }
    ChildrenStay(origin.base, db, x, o2m[i].kind);
    assert o2m[i..][1..] == o2m[i + 1..];
  }

  lemma LinkStep(m: Model, fields: seq<FieldDef>, i: nat, m2m: seq<FieldDef>)
    requires i < |fields|
    ensures var f := fields[i];
            m2m + LinkFields(m, fields[i..])
            == (if f.kind.ManyToMany? && f.name in m.preserve && !IsBlocked(m, f.name) then m2m + [f] else m2m)
              + LinkFields(m, fields[i + 1..])
  {
    assert fields[i..][1..] == fields[i + 1..];
  }

  lemma FollowStep(m: Model, fields: seq<FieldDef>, i: nat, o2m: seq<FieldDef>)
    requires i < |fields|
    ensures o2m + FollowedFields(m, fields[i..])
            == (if IsFollowed(m, fields[i]) then o2m + [fields[i]] else o2m) + FollowedFields(m, fields[i + 1..])
  {
    assert fields[i..][1..] == fields[i + 1..];
  }

  function FollowedFields(m: Model, fields: seq<FieldDef>): seq<FieldDef> {
    if fields == [] then []
    else (if IsFollowed(m, fields[0]) then [fields[0]] else []) + FollowedFields(m, fields[1..])
  }

  /******* The shared table *******/

  class Database {
    const schema: Schema
    var rows: Store

    constructor (schema: Schema)
      ensures this.schema == schema && rows == []
    {
      this.schema := schema;
      rows := [];
    }

    /** The keywords of the copy of `o`, and the fields whose links or children are copied after it. */
    method BuildKwargs(o: Obj, oldParent: Option<Id>, newParent: Option<Id>, copyName: string,
                       createKwargs: map<string, Attr>)
      returns (kwargs: map<string, Attr>, m2m: seq<FieldDef>, o2m: seq<FieldDef>)
      requires o.model in schema.models
      ensures var m := schema.models[o.model];
              kwargs == Collect(schema, m, o, oldParent, newParent, copyName, m.fields, createKwargs - m.discard)
              && m2m == (if oldParent.None? then LinkFields(m, m.fields) else []) && o2m == FollowedFields(m, m.fields)
    {
      var m := schema.models[o.model];
      kwargs, m2m, o2m := createKwargs - m.discard, [], [];
      var i := 0;
      while i < |m.fields|
        invariant i <= |m.fields|
        invariant Collect(schema, m, o, oldParent, newParent, copyName, m.fields[i..], kwargs)
                  == Collect(schema, m, o, oldParent, newParent, copyName, m.fields, createKwargs - m.discard)
        invariant oldParent.None? ==> m2m + LinkFields(m, m.fields[i..]) == LinkFields(m, m.fields)
        invariant oldParent.Some? ==> m2m == []
        invariant o2m + FollowedFields(m, m.fields[i..]) == FollowedFields(m, m.fields)
      {
        var fd := m.fields[i];
        var f := fd.name;
        assert m.fields[i..][1..] == m.fields[i + 1..];
        LinkStep(m, m.fields, i, m2m);
        FollowStep(m, m.fields, i, o2m);
        if IsBlocked(m, f) {
          kwargs := kwargs - {f};
        } else if fd.kind.OneToMany? {
          if f in m.preserve {
            o2m := o2m + [fd];
          }
        } else if fd.kind.ManyToMany? {
          if f in m.preserve && oldParent.None? {
            m2m := m2m + [fd];
          }
        } else if fd.kind.ManyToOne? {
          var target := Target(o, f);
          if target.None? {
            kwargs := kwargs - {f};
          } else if target == oldParent {
            kwargs := kwargs[f := Ref(newParent)];
          } else if f in m.preserve {
            kwargs := kwargs[f := Ref(target)];
          }
        } else if f in o.attrs && o.attrs[f].Data? {
          var text := o.attrs[f].text;
          if f == "name" && oldParent.None? {
            kwargs := kwargs[f := Data(if copyName != "" then copyName else text + " copy")];
          } else if f in m.preserve {
            kwargs := kwargs[f := Data(schema.decrypted(o, f, text))];
          }
        }
        i := i + 1;
      }
    }

    method AddPreservedLinks(id: Id, o: Obj, m2m: seq<FieldDef>)
      requires id < |rows|
      modifies this`rows
      ensures rows == old(rows)[id := old(rows)[id].(attrs := AddLinks(o, m2m, old(rows)[id].attrs))]
    {
      var i := 0;
      while i < |m2m|
        invariant i <= |m2m| && |rows| == |old(rows)|
        invariant rows == old(rows)[id := old(rows)[id].(attrs := rows[id].attrs)]
        invariant AddLinks(o, m2m[i..], rows[id].attrs) == AddLinks(o, m2m, old(rows)[id].attrs)
      {
        assert m2m[i..][1..] == m2m[i + 1..];
        rows := rows[id := rows[id].(attrs := rows[id].attrs[m2m[i].name := Links(LinksOf(o, m2m[i].name))])];
        i := i + 1;
      }
    }

    /** Creates the copy of one object: an approval node's template first, then the object itself,
        then the links a copy without a parent takes over. */
    method CreateCopy(x: Id, oldParent: Option<Id>, newParent: Option<Id>, copyName: string,
                      createKwargs: map<string, Attr>, creator: string)
      returns (id: Id, o2m: seq<FieldDef>)
      requires x < |rows| && rows[x].model in schema.models && (TemplateOf(rows, x).Some? ==> TEMPLATE in schema.models)
      modifies this`rows
      ensures Cloned(rows, id) == Clone(schema, old(rows), oldParent, newParent, x, copyName, createKwargs, creator)
      ensures o2m == FollowedFields(schema.models[rows[x].model], schema.models[rows[x].model].fields)
      decreases TemplateOf(rows, x).Some?
    {
      var o := rows[x];
      var m := schema.models[o.model];
      var kwargs, m2m;
      kwargs, m2m, o2m := BuildKwargs(o, oldParent, newParent, copyName, createKwargs);
      var template := TemplateOf(rows, x);
      if template.Some? {
        var clone, _ := CreateCopy(template.value, None, None, "", map[], creator);
        kwargs := kwargs[UJT := Ref(Some(clone))];
      }
      id := |rows|;
      rows := rows + [Obj(o.model, kwargs, creator)];
      AddPreservedLinks(id, o, m2m);
      AddLinksAll(m, o, m.fields, kwargs);
    }

    /** Copying without a parent: one object, and the list of the objects under the original. */
    method CopyTop(x: Id, copyName: string, createKwargs: map<string, Attr>,
                   creator: string) returns (id: Id, subObjects: seq<Id>)
      requires x < |rows| && rows[x].model in schema.models && (TemplateOf(rows, x).Some? ==> TEMPLATE in schema.models)
      modifies this`rows
      ensures Cloned(rows, id) == Clone(schema, old(rows), None, None, x, copyName, createKwargs, creator)
      ensures subObjects == ChildIds(schema, rows, x)
    {
      var o2m;
      id, o2m := CreateCopy(x, None, None, copyName, createKwargs, creator);
      FollowedChildren(schema.models[rows[x].model], schema.models[rows[x].model].fields, rows, x);
      subObjects := ListChildren(x, o2m);
    }

    method ListChildren(x: Id, o2m: seq<FieldDef>) returns (kids: seq<Id>)
      requires x < |rows| && rows[x].model in schema.models
      requires forall fd | fd in o2m :: IsFollowed(schema.models[rows[x].model], fd)
      ensures kids == ChildrenVia(schema.models[rows[x].model], o2m, rows, x)
    {
      kids := [];
      ghost var m := schema.models[rows[x].model];
      var i := 0;
      while i < |o2m|
        invariant i <= |o2m|
        invariant kids + ChildrenVia(m, o2m[i..], rows, x) == ChildrenVia(m, o2m, rows, x)
      {
        assert o2m[i..][1..] == o2m[i + 1..];
        kids := kids + Children(rows, x, o2m[i].kind);
        i := i + 1;
      }
    }

    /** Copies an object of the tree, and everything below it, to below `newParent`. */
    method CopyInto(oldParent: Id, newParent: Id, x: Id, creator: string, ghost origin: Origin,
                    ghost below: Forest) returns (ret: map<Id, Id>)
      requires OriginOk(schema, origin) && Undisturbed(schema, origin, rows)
      requires InTree(origin, oldParent) && !InTree(origin, newParent)
      requires x in Ids(origin.forest) && x < |origin.base| && origin.base[x].model in schema.models
      requires ParentOf(origin.forest, origin.root, x) == oldParent
      requires IsRest(schema, origin, x, below, [], schema.models[origin.base[x].model].fields)
      modifies this`rows
      ensures Undisturbed(schema, origin, rows)
      ensures CanCopy(schema, old(rows), Sub(x, below, End))
      ensures Copied(rows, ret) == CopyForest(schema, old(rows), oldParent, newParent, Sub(x, below, End), creator)
      decreases Size(below), 2
    {
      ghost var m := schema.models[origin.base[x].model];
      RestCanCopy(schema, origin, rows, x, below);
      CloneIsQuiet(schema, origin, rows, oldParent, newParent, x, creator);
      var id, o2m := CreateCopy(x, Some(oldParent), Some(newParent), "", map[], creator);
      FollowedChildren(m, m.fields, origin.base, x);
      ret := CopyBelow(x, id, o2m, creator, origin, below);
      CopyOne(schema, old(rows), oldParent, newParent, x, below, creator);
    }

    /** Copies the children of one field, each with everything below it. */
    method CopyKids(x: Id, id: Id, kids: seq<Id>, creator: string, done: map<Id, Id>,
                    ghost origin: Origin, ghost todo: Forest, ghost later: seq<FieldDef>, ghost goal: Copied)
      returns (ret: map<Id, Id>, ghost rest: Forest)
      requires OriginOk(schema, origin) && Undisturbed(schema, origin, rows)
      requires InTree(origin, x) && x < |origin.base| && origin.base[x].model in schema.models && !InTree(origin, id)
      requires IsRest(schema, origin, x, todo, kids, later) && IsToDo(schema, x, id, creator, rows, done, todo, goal)
      modifies this`rows
      ensures Undisturbed(schema, origin, rows) && Size(rest) <= Size(todo)
      ensures IsRest(schema, origin, x, rest, [], later) && IsToDo(schema, x, id, creator, rows, ret, rest, goal)
      decreases Size(todo), 0
    {
      ret, rest := done, todo;
      assert kids[0..] == kids;
      var j := 0;
      while j < |kids|
        invariant j <= |kids| && Size(rest) <= Size(todo)
        invariant Undisturbed(schema, origin, rows)
        invariant IsRest(schema, origin, x, rest, kids[j..], later)
        invariant IsToDo(schema, x, id, creator, rows, ret, rest, goal)
      {
        ghost var yBelow, next := NextRest(schema, origin, x, rest, kids[j..], later);
        NextToDo(schema, x, id, creator, rows, ret, kids[j], yBelow, next, goal);
        var sub := CopyInto(x, id, kids[j], creator, origin, yBelow);
        ret := ret + sub;
        rest := next;
        j := j + 1;
      }
    }

    /** Copies everything below an object whose copy has been made. */
    method CopyBelow(x: Id, id: Id, o2m: seq<FieldDef>, creator: string, ghost origin: Origin,
                     ghost below: Forest) returns (ret: map<Id, Id>)
      requires OriginOk(schema, origin) && Undisturbed(schema, origin, rows)
      requires InTree(origin, x) && x < |origin.base| && origin.base[x].model in schema.models && !InTree(origin, id)
      requires forall fd | fd in o2m :: IsFollowedFrom(schema, origin.base, x, fd)
      requires IsRest(schema, origin, x, below, [], o2m)
      modifies this`rows
      ensures Undisturbed(schema, origin, rows)
      ensures CanCopy(schema, old(rows), below)
      ensures var b := CopyForest(schema, old(rows), x, id, below, creator);
              rows == b.db && ret == map[x := id] + b.mapping
      decreases Size(below), 1
    {
      RestCanCopy(schema, origin, rows, x, below);
      ret := map[x := id];
      ghost var goal := StartToDo(schema, x, id, creator, rows, ret, below);
      ghost var rest := below;
      assert o2m == o2m[0..];
      var i := 0;
      while i < |o2m|
        invariant i <= |o2m| && Size(rest) <= Size(below)
        invariant Undisturbed(schema, origin, rows)
        invariant IsRest(schema, origin, x, rest, [], o2m[i..])
        invariant IsToDo(schema, x, id, creator, rows, ret, rest, goal)
      {
        var kids := Children(rows, x, o2m[i].kind);
        KidsAreChildren(schema, origin, rows, x, o2m, i, rest);
        ret, rest := CopyKids(x, id, kids, creator, ret, origin, rest, o2m[i + 1..], goal);
        i := i + 1;
      }
      EndToDo(schema, origin, x, id, creator, rows, ret, rest, goal);
    }

    /** Rebuilds the relationships of every copy from its original. */
    method ReconstructRelationships(mapping: map<Id, Id>)
      requires CanRebuild(schema, rows, mapping)
      modifies this`rows
      ensures PartlyRebuilt(schema, old(rows), rows, mapping, {})
    {
      var todo := mapping.Keys;
      while todo != {}
        invariant todo <= mapping.Keys && PartlyRebuilt(schema, old(rows), rows, mapping, todo)
        decreases |todo|
      {
        var o :| o in todo;
        ghost var db := rows;
        assert IsUntouched(mapping, o);
        RebuildOne(o, mapping);
        RebuildStep(schema, old(rows), db, rows, mapping, todo, o);
        todo := todo - {o};
      }
    }

    method RebuildOne(o: Id, mapping: map<Id, Id>)
      requires o in mapping && o < |rows| && mapping[o] < |rows| && mapping[o] != o && rows[o].model in schema.models
      modifies this`rows
      ensures rows == old(rows)[mapping[o] := Rebuilt(schema, old(rows[o]), old(rows[mapping[o]]), mapping)]
    {
      var m := schema.models[rows[o].model];
      var copy := mapping[o];
      var i := 0;
      while i < |m.fields|
        invariant i <= |m.fields| && |rows| == |old(rows)|
        invariant rows == old(rows)[copy := rows[copy]]
        invariant RebuildFields(m, m.fields[i..], old(rows[o]), rows[copy], mapping)
                  == RebuildFields(m, m.fields, old(rows[o]), old(rows[copy]), mapping)
      {
        var fd := m.fields[i];
        var f := fd.name;
        assert m.fields[i..][1..] == m.fields[i + 1..];
        if f in m.preserve {
          if fd.kind.ManyToOne? {
            if Target(rows[copy], f).None? {
              var related := Target(rows[o], f);
              SetAttr(copy, f, Ref(if related.Some? then Some(Mapped(mapping, related.value)) else None));
            }
          } else if fd.kind.ManyToMany? {
            var links := AddEach(LinksOf(rows[copy], f), LinksOf(rows[o], f), mapping);
            SetAttr(copy, f, Links(links));
          }
        }
        i := i + 1;
      }
    }

    method SetAttr(x: Id, f: string, a: Attr)
      requires x < |rows|
      modifies this`rows
      ensures rows == old(rows)[x := old(rows[x]).(attrs := old(rows[x].attrs)[f := a])]
    {
      rows := rows[x := rows[x].(attrs := rows[x].attrs[f := a])];
    }

    method AddEach(links: seq<Id>, related: seq<Id>, mapping: map<Id, Id>) returns (all: seq<Id>)
      ensures all == AddMapped(links, related, mapping)
    {
      all := links;
      var i := 0;
      while i < |related|
        invariant i <= |related|
        invariant AddMapped(all, related[i..], mapping) == AddMapped(links, related, mapping)
      {
        assert related[i..][1..] == related[i + 1..];
        var y := Mapped(mapping, related[i]);
        if y !in all {
          all := all + [y];
        }
        i := i + 1;
      }
    }

    /** The background task: copies everything under an object to under its copy, then rebuilds the
        relationships of what it created. */
    method DeepCopyModelObj(obj: Id, newObj: Id, creator: string,
                            ghost forest: Forest) returns (copyMapping: map<Id, Id>)
      requires SchemaLinked(schema) && IsTree(schema, rows, obj, forest) && CanCopy(schema, rows, forest)
      requires newObj < |rows| && newObj != obj && newObj !in Ids(forest)
      modifies this`rows
      ensures IsDeepCopy(schema, old(rows), obj, newObj, forest, creator, rows)
      ensures copyMapping == CopyForest(schema, old(rows), obj, newObj, forest, creator).mapping
    {
      ghost var origin := Origin(rows, obj, forest);
      copyMapping := CopySubObjects(obj, newObj, creator, origin);
      CopyCanRebuild(schema, origin, newObj, creator);
      ReconstructRelationships(copyMapping);
    }

    method CopySubObjects(obj: Id, newObj: Id, creator: string, ghost origin: Origin) returns (copyMapping: map<Id, Id>)
      requires OriginOk(schema, origin) && origin.base == rows && origin.root == obj && !InTree(origin, newObj)
      modifies this`rows
      ensures CanCopy(schema, old(rows), origin.forest)
      ensures Copied(rows, copyMapping) == CopyForest(schema, old(rows), obj, newObj, origin.forest, creator)
    {
      var m := schema.models[rows[obj].model];
      var o2m := PreservedFields(m);
      FollowedChildren(m, m.fields, rows, obj);
      var subObjects := ListChildren(obj, o2m);
      copyMapping := map[];
      ghost var goal := StartToDo(schema, obj, newObj, creator, rows, copyMapping, origin.forest);
      WholeIsRest(schema, origin);
      ghost var rest;
      copyMapping, rest := CopyKids(obj, newObj, subObjects, creator, copyMapping, origin, origin.forest, [], goal);
      EndToDo(schema, origin, obj, newObj, creator, rows, copyMapping, rest, goal);
    }

    method PreservedFields(m: Model) returns (o2m: seq<FieldDef>)
      requires forall fd | fd in m.fields && IsPreservedList(m, fd) :: IsFollowed(m, fd)
      ensures o2m == FollowedFields(m, m.fields)
    {
      o2m := [];
      var i := 0;
      while i < |m.fields|
        invariant i <= |m.fields|
        invariant o2m + FollowedFields(m, m.fields[i..]) == FollowedFields(m, m.fields)
      {
        FollowStep(m, m.fields, i, o2m);
        var fd := m.fields[i];
        if fd.name in m.preserve && fd.kind.OneToMany? {
          o2m := o2m + [fd];
        }
        i := i + 1;
      }
    }
  }
}