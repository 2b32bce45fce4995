/**
 What the copies of a tree of objects refer to, and that they are related to each other exactly
 as the originals are.
 */
module DeepCopyShape {
  import opened Helpers
  import opened DeepCopy

  /******* References of one copy *******/

  function Reference(name: string): FieldDef {
    FieldDef(name, ManyToOne)
  }

  /** Where the copy of `o`, made below `p`'s counterpart, refers to through a foreign key. */
  function CopiedTarget(schema: Schema, db: Store, mapping: map<Id, Id>, newParent: Id, o: Id, p: Id,
                        f: string): Option<Id>
    requires o < |db| && db[o].model in schema.models && o in mapping && 0 < mapping[o]
  {
    var m := schema.models[db[o].model];
    if f == UJT && TemplateOf(db, o).Some? then Some(mapping[o] - 1)
    else if IsBlocked(m, f) then None
    else if Target(db[o], f) == Some(p) then Some(Image(mapping, newParent, p))
    else if f in m.preserve then Target(db[o], f)
    else None
  }

  lemma NewReference(schema: Schema, o: Obj, oldParent: Option<Id>, newParent: Option<Id>, template: Option<Id>,
                     creator: string, f: string)
    requires o.model in schema.models && SchemaOk(schema) && Reference(f) in schema.models[o.model].fields
    requires oldParent.Some? ==> newParent.Some?
    ensures var m := schema.models[o.model];
            var n := NewObj(schema, o, oldParent, newParent, "", map[], template, creator);
            Target(n, f) == if f == UJT && template.Some? then template
                            else if IsBlocked(m, f) then None
                            else if oldParent.Some? && Target(o, f) == oldParent then newParent
                            else if f in m.preserve then Target(o, f)
                            else None
  {
    var m := schema.models[o.model];
    var none: map<string, Attr> := map[];
    assert none - m.discard == none;
    CollectAt(schema, m, o, oldParent, newParent, "", m.fields, map[], Reference(f));
    if oldParent.None? {
      var attrs := Collect(schema, m, o, oldParent, newParent, "", m.fields, map[]);
      LinksElsewhere(m, o, m.fields, if template.Some? then attrs[UJT := Ref(template)] else attrs, Reference(f));
    }
  }

  lemma {:induction false} LinksElsewhere(m: Model, o: Obj, fields: seq<FieldDef>, attrs: map<string, Attr>,
                                          fd: FieldDef)
    requires DistinctNames(fields) && fd in fields && !fd.kind.ManyToMany?
    ensures var attrs1 := CollectLinks(m, o, fields, attrs);
            (fd.name in attrs1 <==> fd.name in attrs) && (fd.name in attrs ==> attrs1[fd.name] == attrs[fd.name])
    decreases |fields|
  {
    LinksKeep(m, o, fields, attrs, fd.name);
  }

  lemma {:induction false} LinksKeep(m: Model, o: Obj, fields: seq<FieldDef>, attrs: map<string, Attr>, f: string)
    requires forall fd | fd in fields && fd.name == f :: !fd.kind.ManyToMany?
    ensures var attrs1 := CollectLinks(m, o, fields, attrs);
            (f in attrs1 <==> f in attrs) && (f in attrs ==> attrs1[f] == attrs[f])
    decreases |fields|
  {
    if fields != [] {
      assert fields[0] in fields;
      var g := fields[0].name;
      LinksKeep(m, o, fields[1..],
                if fields[0].kind.ManyToMany? && g in m.preserve && !IsBlocked(m, g)
                  then attrs[g := Links(LinksOf(o, g))] else attrs,
                f);
    }
  }

  /** A foreign key of a copy to the copied parent's original is redirected, a preserved one is
      kept, and every other one is dropped; an approval node refers to its own template. */
  lemma CopyReferences(schema: Schema, db: Store, oldParent: Id, newParent: Id, forest: Forest, creator: string, o: Id,
                       f: string)
    requires SchemaOk(schema) && CanCopy(schema, db, forest) && Distinct(forest) && oldParent !in Ids(forest)
    requires o in Ids(forest)
    requires CanClone(schema, db, o) && Reference(f) in schema.models[db[o].model].fields
    ensures var r := CopyForest(schema, db, oldParent, newParent, forest, creator);
            && o in r.mapping && 0 < r.mapping[o] < |r.db| && r.db[r.mapping[o]].model == db[o].model
            && Target(r.db[r.mapping[o]], f)
               == CopiedTarget(schema, db, r.mapping, newParent, o, ParentOf(forest, oldParent, o), f)
  {
    var r := CopyForest(schema, db, oldParent, newParent, forest, creator);
    var p := ParentOf(forest, oldParent, o);
    CopyHolds(schema, db, oldParent, newParent, forest, creator, o);
    NewReference(schema, db[o], Some(p), Some(Image(r.mapping, newParent, p)),
                 if TemplateOf(db, o).Some? then Some(r.mapping[o] - 1) else None, creator, f);
  }

  /** A copied object's plain fields: preserved ones are stored again as they decrypt, and every other
      one is left to its default, its name included; the copy belongs to whoever made it. */
  lemma CopyData(schema: Schema, db: Store, oldParent: Id, newParent: Id, forest: Forest, creator: string, o: Id,
                 f: string)
    requires SchemaOk(schema) && CanCopy(schema, db, forest) && Distinct(forest) && oldParent !in Ids(forest)
    requires o in Ids(forest)
    requires CanClone(schema, db, o) && FieldDef(f, Plain) in schema.models[db[o].model].fields && f != UJT
    ensures var r := CopyForest(schema, db, oldParent, newParent, forest, creator);
            var m := schema.models[db[o].model];
            && o in r.mapping && r.mapping[o] < |r.db|
            && var copy := r.db[r.mapping[o]];
               && copy.createdBy == creator
               && (f in copy.attrs <==> f in m.preserve && !IsBlocked(m, f) && f in db[o].attrs && db[o].attrs[f].Data?)
               && (f in copy.attrs ==> copy.attrs[f] == Data(schema.decrypted(db[o], f, db[o].attrs[f].text)))
  {
    var m := schema.models[db[o].model];
    var r := CopyForest(schema, db, oldParent, newParent, forest, creator);
    var p := ParentOf(forest, oldParent, o);
    CopyHolds(schema, db, oldParent, newParent, forest, creator, o);
    var none: map<string, Attr> := map[];
    assert none - m.discard == none;
    CollectAt(schema, m, db[o], Some(p), Some(Image(r.mapping, newParent, p)), "", m.fields, map[], FieldDef(f, Plain));
  }

  /** A copy made without a parent has the name asked for, or the original's with a suffix. */
  lemma TopCopyName(schema: Schema, o: Obj, copyName: string, kwargs: map<string, Attr>, template: Option<Id>,
                    creator: string)
    requires o.model in schema.models && SchemaOk(schema) && FieldDef("name", Plain) in schema.models[o.model].fields
    requires "name" in o.attrs && o.attrs["name"].Data? && !IsBlocked(schema.models[o.model], "name")
    ensures var n := NewObj(schema, o, None, None, copyName, kwargs, template, creator);
            "name" in n.attrs
              && n.attrs["name"] == Data(if copyName != "" then copyName else o.attrs["name"].text + " copy")
  {
    var m := schema.models[o.model];
    var kw := kwargs - m.discard;
    CollectAt(schema, m, o, None, None, copyName, m.fields, kw, FieldDef("name", Plain));
    var attrs := Collect(schema, m, o, None, None, copyName, m.fields, kw);
    assert "name"[0] != UJT[0];
    LinksElsewhere(m, o, m.fields, if template.Some? then attrs[UJT := Ref(template)] else attrs,
                   FieldDef("name", Plain));
  }

  /******* Parents and children *******/

  lemma {:induction false} ChildrenAre(db: Store, x: Id, kind: Kind, c: Id)
    ensures c in Children(db, x, kind) <==> c < |db| && IsChild(db[c], x, kind)
    decreases |db|
  {
    if db != [] {
      ChildrenAre(db[..|db| - 1], x, kind, c);
    }
  }

  ghost predicate IsChildVia(m: Model, fields: seq<FieldDef>, db: Store, x: Id, c: Id) {
    c < |db| && exists fd :: fd in fields && IsFollowed(m, fd) && IsChild(db[c], x, fd.kind)
  }

  lemma {:induction false} ChildrenViaAre(m: Model, fields: seq<FieldDef>, db: Store, x: Id, c: Id)
    ensures c in ChildrenVia(m, fields, db, x) <==> IsChildVia(m, fields, db, x, c)
    decreases |fields|
  {
    if fields != [] {
      ChildrenAre(db, x, fields[0].kind, c);
      ChildrenViaAre(m, fields[1..], db, x, c);
      assert forall fd :: fd in fields <==> fd == fields[0] || fd in fields[1..];
    }
  }

  lemma {:induction false} TopsAreTheirs(forest: Forest, oldParent: Id, c: Id)
    requires Distinct(forest) && c in TopIds(forest)
    ensures c in Ids(forest) && ParentOf(forest, oldParent, c) == oldParent
    decreases forest
  {
    var Sub(x, below, next) := forest;
    if c != x {
      TopsAreTheirs(next, oldParent, c);
    }
  }

  /** Any child of an object of the forest is in the forest, and was reached from that object. */
  lemma {:induction false} ChildIsBelow(schema: Schema, db: Store, forest: Forest, oldParent: Id, x: Id, c: Id)
    requires Shaped(schema, db, forest) && Distinct(forest) && x in Ids(forest)
    requires x < |db| && db[x].model in schema.models && c in ChildIds(schema, db, x)
    ensures c in Ids(forest) && ParentOf(forest, oldParent, c) == x
    decreases forest
  {
    var Sub(id, below, next) := forest;
    if x == id {
      TopsAreTheirs(below, id, c);
    } else if x in Ids(below) {
      ChildIsBelow(schema, db, below, id, x, c);
    } else {
      ChildIsBelow(schema, db, next, oldParent, x, c);
    }
  }

  /******* The copied relations *******/

  predicate IsPreservedList(m: Model, fd: FieldDef) {
    fd.kind.OneToMany? && fd.name in m.preserve
  }

  /** The foreign key behind a followed relation exists, is copied, and is not the one an approval
      node's template is put in. */
  ghost predicate ViaOk(schema: Schema, kind: Kind)
    requires kind.OneToMany?
  {
    && kind.child in schema.models && kind.child != TEMPLATE
    && Reference(kind.via) in schema.models[kind.child].fields && !IsBlocked(schema.models[kind.child], kind.via)
    && (kind.child == NODE ==> kind.via != UJT)
  }

  /** No preserved one-to-many field is blocked, and each is backed by a copied foreign key. */
  ghost predicate SchemaLinked(schema: Schema) {
    && SchemaOk(schema)
    && (forall name, fd | name in schema.models && fd in schema.models[name].fields
          && IsPreservedList(schema.models[name], fd) ::
          IsFollowed(schema.models[name], fd) && ViaOk(schema, fd.kind))
  }

  /** The followed relations make a finite tree of the objects under `root`. */
  ghost predicate IsTree(schema: Schema, db: Store, root: Id, forest: Forest) {
    && root < |db| && db[root].model in schema.models && root !in Ids(forest)
    && TopIds(forest) == ChildIds(schema, db, root)
    && Shaped(schema, db, forest) && Distinct(forest)
  }

  ghost predicate RefsOk(db: Store) {
    forall y: Id, f | y < |db| && Target(db[y], f).Some? :: Target(db[y], f).value < |db|
  }

  ghost predicate Unreferenced(db: Store, x: Id) {
    forall y: Id, f | y < |db| :: Target(db[y], f) != Some(x)
  }

  ghost predicate IsFollowedFrom(schema: Schema, db: Store, x: Id, fd: FieldDef) {
    x < |db| && db[x].model in schema.models && fd in schema.models[db[x].model].fields
      && IsFollowed(schema.models[db[x].model], fd)
  }

  lemma ChildHasParent(schema: Schema, db: Store, root: Id, forest: Forest, x: Id, fd: FieldDef, c: Id)
    requires IsTree(schema, db, root, forest) && (x == root || x in Ids(forest)) && IsFollowedFrom(schema, db, x, fd)
    requires c < |db| && IsChild(db[c], x, fd.kind)
    ensures c in Ids(forest) && ParentOf(forest, root, c) == x
  {
    var m := schema.models[db[x].model];
    assert IsChildVia(m, m.fields, db, x, c);
    ChildrenViaAre(m, m.fields, db, x, c);
    if x == root {
      TopsAreTheirs(forest, root, c);
    } else {
      ChildIsBelow(schema, db, forest, root, x, c);
    }
  }

  lemma ImageIsInjective(mapping: map<Id, Id>, approvals: set<Id>, lo: Id, hi: Id, root: Id, newParent: Id, p: Id,
                         x: Id)
    requires Fresh(mapping, approvals, lo, hi) && newParent < lo
    requires (p == root || p in mapping) && (x == root || x in mapping) && root !in mapping
    requires Image(mapping, newParent, p) == Image(mapping, newParent, x)
    ensures p == x
  {
    if p in mapping && x in mapping {
      assert Owns(mapping, approvals, p, mapping[p]) && Owns(mapping, approvals, x, mapping[p]);
    }
  }

  /** The copy of a child is a child of the copy of its parent. */
  lemma ChildIsCopied(schema: Schema, db: Store, root: Id, newParent: Id, forest: Forest, creator: string, x: Id,
                      fd: FieldDef, c: Id)
    requires SchemaLinked(schema) && IsTree(schema, db, root, forest) && CanCopy(schema, db, forest)
    requires (x == root || x in Ids(forest)) && IsFollowedFrom(schema, db, x, fd) && c < |db|
    requires IsChild(db[c], x, fd.kind)
    ensures var r := CopyForest(schema, db, root, newParent, forest, creator);
            c in r.mapping && r.mapping[c] < |r.db|
              && IsChild(r.db[r.mapping[c]], Image(r.mapping, newParent, x), fd.kind)
  {
    ChildHasParent(schema, db, root, forest, x, fd, c);
    assert ViaOk(schema, fd.kind);
    assert CanClone(schema, db, c);
    CopyReferences(schema, db, root, newParent, forest, creator, c, fd.kind.via);
  }

  /** A reference an old object holds is not to anything a copy made, nor to the new parent. */
  lemma OldReference(db: Store, newParent: Id, mapping: map<Id, Id>, approvals: set<Id>, hi: Id, y: Id, f: string,
                     x: Id)
    requires RefsOk(db) && Unreferenced(db, newParent) && Fresh(mapping, approvals, |db|, hi)
    ensures y < |db| ==> Target(db[y], f) != Some(Image(mapping, newParent, x))
  {
  }

  lemma RedirectedFrom(schema: Schema, db: Store, root: Id, newParent: Id, forest: Forest, creator: string, c: Id,
                       x: Id, kind: Kind)
    requires CanCopy(schema, db, forest) && Distinct(forest) && root !in Ids(forest) && c in Ids(forest)
    requires (x == root || x in Ids(forest))
    requires RefsOk(db) && newParent < |db| && Unreferenced(db, newParent)
    requires CanClone(schema, db, c) && kind.OneToMany? && ViaOk(schema, kind) && db[c].model == kind.child
    requires var r := CopyForest(schema, db, root, newParent, forest, creator);
             && c in r.mapping && 0 < r.mapping[c]
             && CopiedTarget(schema, db, r.mapping, newParent, c, ParentOf(forest, root, c), kind.via)
                == Some(Image(r.mapping, newParent, x))
    ensures Target(db[c], kind.via) == Some(x)
  {
    var r := CopyForest(schema, db, root, newParent, forest, creator);
    var approvals := Approvals(db, Ids(forest));
    CopyIsFresh(schema, db, root, newParent, forest, creator);
    OldReference(db, newParent, r.mapping, approvals, |r.db|, c, kind.via, x);
    ParentInForest(forest, root, c);
    var p := ParentOf(forest, root, c);
    if Image(r.mapping, newParent, p) == Image(r.mapping, newParent, x) {
      ImageIsInjective(r.mapping, approvals, |db|, |r.db|, root, newParent, p, x);
    }
  }

  lemma CopiedChildIsNew(schema: Schema, db: Store, root: Id, newParent: Id, forest: Forest, creator: string, x: Id,
                         kind: Kind, y: Id)
    requires CanCopy(schema, db, forest) && Distinct(forest)
    requires kind.OneToMany? && RefsOk(db) && newParent < |db| && Unreferenced(db, newParent)
    requires var r := CopyForest(schema, db, root, newParent, forest, creator);
             y < |r.db| && IsChild(r.db[y], Image(r.mapping, newParent, x), kind)
    ensures |db| <= y
  {
    var r := CopyForest(schema, db, root, newParent, forest, creator);
    CopyIsFresh(schema, db, root, newParent, forest, creator);
    OldReference(db, newParent, r.mapping, Approvals(db, Ids(forest)), |r.db|, y, kind.via, x);
  }

  lemma OwnerOf(schema: Schema, db: Store, root: Id, newParent: Id, forest: Forest, creator: string,
                y: Id) returns (c: Id)
    requires CanCopy(schema, db, forest) && Distinct(forest)
    requires |db| <= y < |CopyForest(schema, db, root, newParent, forest, creator).db|
    ensures var r := CopyForest(schema, db, root, newParent, forest, creator);
            c in Ids(forest) && c in r.mapping && (r.mapping[c] == y || (IsApproval(db, c) && r.mapping[c] == y + 1))
  {
    var r := CopyForest(schema, db, root, newParent, forest, creator);
    var approvals := Approvals(db, Ids(forest));
    CopyIsFresh(schema, db, root, newParent, forest, creator);
    assert IsOwned(r.mapping, approvals, y);
    c :| Owns(r.mapping, approvals, c, y);
  }

  /** Anything created that is not an approval template is the copy of some object of the forest. */
  lemma MadeFor(schema: Schema, db: Store, root: Id, newParent: Id, forest: Forest, creator: string,
                y: Id) returns (c: Id)
    requires CanCopy(schema, db, forest) && Distinct(forest) && root !in Ids(forest)
    requires var r := CopyForest(schema, db, root, newParent, forest, creator);
             |db| <= y < |r.db| && r.db[y].model != TEMPLATE
    ensures var r := CopyForest(schema, db, root, newParent, forest, creator);
            c in Ids(forest) && c in r.mapping && r.mapping[c] == y
    ensures c < |db| && db[c].model == CopyForest(schema, db, root, newParent, forest, creator).db[y].model
  {
    c := OwnerOf(schema, db, root, newParent, forest, creator, y);
    assert CanClone(schema, db, c);
    CopyHolds(schema, db, root, newParent, forest, creator, c);
  }

  /** Whatever refers to a copy, or to the new parent, through a followed relation is the copy of a
      child of the original. */
  lemma CopiedChildIsChild(schema: Schema, db: Store, root: Id, newParent: Id, forest: Forest, creator: string, x: Id,
                           fd: FieldDef, y: Id) returns (c: Id)
    requires SchemaLinked(schema) && IsTree(schema, db, root, forest) && CanCopy(schema, db, forest)
    requires RefsOk(db) && newParent < |db| && Unreferenced(db, newParent)
    requires (x == root || x in Ids(forest)) && IsFollowedFrom(schema, db, x, fd)
    requires var r := CopyForest(schema, db, root, newParent, forest, creator);
             y < |r.db| && IsChild(r.db[y], Image(r.mapping, newParent, x), fd.kind)
    ensures var r := CopyForest(schema, db, root, newParent, forest, creator);
            c in r.mapping && r.mapping[c] == y && c < |db| && IsChild(db[c], x, fd.kind)
  {
    assert ViaOk(schema, fd.kind);
    CopiedChildIsNew(schema, db, root, newParent, forest, creator, x, fd.kind, y);
    c := MadeFor(schema, db, root, newParent, forest, creator, y);
    assert CanClone(schema, db, c);
    CopyReferences(schema, db, root, newParent, forest, creator, c, fd.kind.via);
    RedirectedFrom(schema, db, root, newParent, forest, creator, c, x, fd.kind);
  }

  /** The copies are related as the originals are: through any followed relation, the children of a
      copy are exactly the copies of the children, at every object of the tree and at its root. */
  lemma CopyIsIsomorphic(schema: Schema, db: Store, root: Id, newParent: Id, forest: Forest, creator: string, x: Id,
                         fd: FieldDef, y: Id)
    requires SchemaLinked(schema) && IsTree(schema, db, root, forest) && CanCopy(schema, db, forest)
    requires RefsOk(db) && newParent < |db| && Unreferenced(db, newParent)
    requires (x == root || x in Ids(forest)) && IsFollowedFrom(schema, db, x, fd)
    ensures var r := CopyForest(schema, db, root, newParent, forest, creator);
            y < |r.db| ==> (IsChild(r.db[y], Image(r.mapping, newParent, x), fd.kind)
                            <==> exists c ::
                              c in r.mapping && r.mapping[c] == y && c < |db| && IsChild(db[c], x, fd.kind))
  {
    var r := CopyForest(schema, db, root, newParent, forest, creator);
    if y < |r.db| && IsChild(r.db[y], Image(r.mapping, newParent, x), fd.kind) {
      var c := CopiedChildIsChild(schema, db, root, newParent, forest, creator, x, fd, y);
    }
    if c :| c in r.mapping && r.mapping[c] == y && c < |db| && IsChild(db[c], x, fd.kind) {
      ChildIsCopied(schema, db, root, newParent, forest, creator, x, fd, c);
    }
  }
}
