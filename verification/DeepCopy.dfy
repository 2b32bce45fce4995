/**
 Deep copy of an object and everything below it through preserved one-to-many relations, as the
 copy endpoint and its background task do it: each object is cloned with its references to the
 parent redirected, approval nodes get a template of their own, and a second pass rebuilds the
 many-to-many links among the copies.
 */
module DeepCopy {
  import opened Helpers

  /******* Models and objects *******/

  type Id = nat

  datatype Kind = OneToMany(child: string, via: string) | ManyToMany | ManyToOne | Plain

  datatype FieldDef = FieldDef(name: string, kind: Kind)

  datatype Model = Model(fields: seq<FieldDef>, preserve: set<string>, discard: set<string>)

  /** A stored field: a foreign key, many-to-many targets, or data. Absent means null or empty. */
  datatype Attr = Ref(target: Option<Id>) | Links(targets: seq<Id>) | Data(text: string)

  datatype Obj = Obj(model: string, attrs: map<string, Attr>, createdBy: string)

  /** Objects in the order of their creation; an object's identity is its position. */
  type Store = seq<Obj>

  /** The models, and the decryption a preserved data field goes through. */
  datatype Schema = Schema(models: map<string, Model>, decrypted: (Obj, string, string) -> string)

  const NODE := "WorkflowJobTemplateNode"
  const TEMPLATE := "WorkflowApprovalTemplate"
  const UJT := "unified_job_template"

  function Target(o: Obj, f: string): Option<Id> {
    if f in o.attrs && o.attrs[f].Ref? then o.attrs[f].target else None
  }

  function LinksOf(o: Obj, f: string): seq<Id> {
    if f in o.attrs && o.attrs[f].Links? then o.attrs[f].targets else []
  }

  predicate EndsWith(s: string, suffix: string) {
    |suffix| <= |s| && s[|s| - |suffix|..] == suffix
  }

  predicate IsBlocked(m: Model, f: string) {
    || f in m.discard
    || f in {"id", "pk", "polymorphic_ctype", "unifiedjobtemplate_ptr", "created_by", "modified_by"}
    || EndsWith(f, "_role")
  }

  ghost predicate DistinctNames(fields: seq<FieldDef>) {
    forall i, j :: 0 <= i < j < |fields| ==> fields[i].name != fields[j].name
  }

  ghost predicate SchemaOk(schema: Schema) {
    forall name | name in schema.models :: DistinctNames(schema.models[name].fields)
  }

  /******* Children *******/

  predicate IsChild(o: Obj, x: Id, kind: Kind) {
    kind.OneToMany? && o.model == kind.child && Target(o, kind.via) == Some(x)
  }

  /** The objects whose foreign key makes them children of `x`, in creation order. */
  function Children(db: Store, x: Id, kind: Kind): seq<Id> {
    if db == [] then []
    else
      var n := |db| - 1;
      Children(db[..n], x, kind) + if IsChild(db[n], x, kind) then [n] else []
  }

  predicate IsFollowed(m: Model, fd: FieldDef) {
    fd.kind.OneToMany? && fd.name in m.preserve && !IsBlocked(m, fd.name)
  }

  /** Children through each preserved one-to-many field in turn. */
  function ChildrenVia(m: Model, fields: seq<FieldDef>, db: Store, x: Id): seq<Id> {
    if fields == [] then []
    else (if IsFollowed(m, fields[0]) then Children(db, x, fields[0].kind) else []) + ChildrenVia(m, fields[1..], db, x)
  }

  function ChildIds(schema: Schema, db: Store, x: Id): seq<Id>
    requires x < |db| && db[x].model in schema.models
  {
    var m := schema.models[db[x].model];
    ChildrenVia(m, m.fields, db, x)
  }

  /** The objects under an object: first child and its descendants, then the other children. */
  datatype Forest = End | Sub(id: Id, below: Forest, next: Forest)

  function TopIds(forest: Forest): seq<Id> {
    match forest
    case End => []
    case Sub(id, _, next) => [id] + TopIds(next)
  }

  function Ids(forest: Forest): set<Id> {
    match forest
    case End => {}
    case Sub(id, below, next) => {id} + Ids(below) + Ids(next)
  }

  function Size(forest: Forest): nat {
    match forest
    case End => 0
    case Sub(_, below, next) => 1 + Size(below) + Size(next)
  }

  ghost predicate Distinct(forest: Forest) {
    match forest
    case End => true
    case Sub(id, below, next) => 
      && id !in Ids(below) && id !in Ids(next)
      && (forall o | o in Ids(below) :: o !in Ids(next))
      && Distinct(below) && Distinct(next)
  }

  /** Every node's branches are exactly its preserved children: the relations form this tree. */
  ghost predicate Shaped(schema: Schema, db: Store, forest: Forest) {
    match forest
    case End => true
    case Sub(id, below, next) =>
      && id < |db| && db[id].model in schema.models
      && TopIds(below) == ChildIds(schema, db, id)
      && Shaped(schema, db, below) && Shaped(schema, db, next)
  }

  /******* Cloning one object *******/

  /** What copying does to a keyword of the new object: set it, drop it, or leave it. */
  datatype Effect = Put(attr: Attr) | Drop | Keep

  function FieldEffect(schema: Schema, m: Model, o: Obj, oldParent: Option<Id>, newParent: Option<Id>, copyName: string,
                       fd: FieldDef): Effect {
    if IsBlocked(m, fd.name) then Drop
    else
      match fd.kind
      case OneToMany(_, _) => Keep
      case ManyToMany => Keep
      case ManyToOne =>
        var t := Target(o, fd.name);
        if t.None? then Drop
        else if t == oldParent then Put(Ref(newParent))
        else if fd.name in m.preserve then Put(Ref(t))
        else Keep
      case Plain =>
        if fd.name !in o.attrs || !o.attrs[fd.name].Data? then Keep
        else if fd.name == "name" && oldParent.None?
          then Put(Data(if copyName != "" then copyName else o.attrs[fd.name].text + " copy"))
        else if fd.name in m.preserve then Put(Data(schema.decrypted(o, fd.name, o.attrs[fd.name].text)))
        else Keep
  }

  function Apply(kwargs: map<string, Attr>, f: string, e: Effect): map<string, Attr> {
    match e
    case Put(a) => kwargs[f := a]
    case Drop => kwargs - {f}
    case Keep => kwargs
  }

  /** The keywords of the new object, field by field. */
  function Collect(schema: Schema, m: Model, o: Obj, oldParent: Option<Id>, newParent: Option<Id>, copyName: string,
                   fields: seq<FieldDef>, kwargs: map<string, Attr>): map<string, Attr>
    decreases |fields|
  {
    if fields == [] then kwargs
    else Collect(schema, m, o, oldParent, newParent, copyName, fields[1..],
                 Apply(kwargs, fields[0].name, FieldEffect(schema, m, o, oldParent, newParent, copyName, fields[0])))
  }

  /** A copy of the object's preserved many-to-many links, as a copy without a parent gets. */
  function CollectLinks(m: Model, o: Obj, fields: seq<FieldDef>, attrs: map<string, Attr>): map<string, Attr>
    decreases |fields|
  {
    if fields == [] then attrs
    else
      var f := fields[0].name;
      CollectLinks(m, o, fields[1..],
                   if fields[0].kind.ManyToMany? && f in m.preserve && !IsBlocked(m, f)
                     then attrs[f := Links(LinksOf(o, f))] else attrs)
  }

  /** The approval template a workflow node points at, if that is what it points at. */
  function TemplateOf(db: Store, x: Id): Option<Id>
    requires x < |db|
  {
    var t := Target(db[x], UJT);
    if db[x].model == NODE && t.Some? && t.value < |db| && db[t.value].model == TEMPLATE then t else None
  }

  /** The object created for `o`; `template` is the clone made for an approval node. */
  function NewObj(schema: Schema, o: Obj, oldParent: Option<Id>, newParent: Option<Id>, copyName: string,
                  kwargs: map<string, Attr>, template: Option<Id>, creator: string): Obj
    requires o.model in schema.models
  {
    var m := schema.models[o.model];
    var attrs := Collect(schema, m, o, oldParent, newParent, copyName, m.fields, kwargs - m.discard);
    var attrs1 := if template.Some? then attrs[UJT := Ref(template)] else attrs;
    Obj(o.model, if oldParent.None? then CollectLinks(m, o, m.fields, attrs1) else attrs1, creator)
  }

  datatype Cloned = Cloned(db: Store, id: Id)

  /** The object is of a known model, and its foreign keys do not dangle. */
  ghost predicate CanClone(schema: Schema, db: Store, x: Id) {
    && x < |db| && db[x].model in schema.models
    && (forall f :: Target(db[x], f).Some? ==> Target(db[x], f).value < |db|)
    && (TemplateOf(db, x).Some? ==>
          && TEMPLATE in schema.models
          && forall f :: Target(db[TemplateOf(db, x).value], f).Some? ==>
             Target(db[TemplateOf(db, x).value], f).value < |db|)
  }

  function Clone(schema: Schema, db: Store, oldParent: Option<Id>, newParent: Option<Id>, x: Id, copyName: string,
                 kwargs: map<string, Attr>, creator: string): (r: Cloned)
    requires x < |db| && db[x].model in schema.models && (TemplateOf(db, x).Some? ==> TEMPLATE in schema.models)
    ensures db <= r.db && r.id == |r.db| - 1 && |r.db| == |db| + (if TemplateOf(db, x).Some? then 2 else 1)
  {
    match TemplateOf(db, x)
    case None =>
      Cloned(db + [NewObj(schema, db[x], oldParent, newParent, copyName, kwargs, None, creator)], |db|)
    case Some(t) =>
      Cloned(db + [NewObj(schema, db[t], None, None, "", map[], None, creator)]
                + [NewObj(schema, db[x], oldParent, newParent, copyName, kwargs, Some(|db|), creator)], |db| + 1)
  }

  /******* Copying a forest *******/

  datatype Copied = Copied(db: Store, mapping: map<Id, Id>)

  ghost predicate CanCopy(schema: Schema, db: Store, forest: Forest) {
    forall x | x in Ids(forest) :: CanClone(schema, db, x)
  }

  /** Clones every object of the forest below `oldParent` to a place below `newParent`. */
  ghost function CopyForest(schema: Schema, db: Store, oldParent: Id, newParent: Id, forest: Forest,
                            creator: string): (r: Copied)
    requires CanCopy(schema, db, forest)
    ensures db <= r.db
    decreases forest
  {
    match forest
    case End => Copied(db, map[])
    case Sub(x, below, next) =>
      assert x in Ids(forest);
      var c := Clone(schema, db, Some(oldParent), Some(newParent), x, "", map[], creator);
      CanCopyLater(schema, db, c.db, below);
      var b := CopyForest(schema, c.db, x, c.id, below, creator);
      CanCopyLater(schema, db, b.db, next);
      var n := CopyForest(schema, b.db, oldParent, newParent, next, creator);
      Copied(n.db, Joined(x, c.id, b.mapping, n.mapping))
  }

  function Joined(x: Id, id: Id, below: map<Id, Id>, next: map<Id, Id>): map<Id, Id> {
    map[x := id] + below + next
  }

  lemma CanCopyLater(schema: Schema, db: Store, db1: Store, forest: Forest)
    requires (forall x | x in Ids(forest) :: CanClone(schema, db, x)) && db <= db1
    ensures CanCopy(schema, db1, forest)
  {
  }

  /******* Freshness and counting *******/

  predicate IsApproval(db: Store, x: Id) {
    x < |db| && TemplateOf(db, x).Some?
  }

  /** The approval nodes among some objects. */
  function Approvals(db: Store, ids: set<Id>): set<Id> {
    set x | x in ids && IsApproval(db, x)
  }

  /** The number after an object's copy, whose template takes a number first if it is an approval. */
  function After(x: Id, approvals: set<Id>, lo: Id): Id {
    if x in approvals then lo + 2 else lo + 1
  }

  /** The number after a forest's copies, when the first object created gets `lo`. */
  function Past(forest: Forest, approvals: set<Id>, lo: Id): Id {
    match forest
    case End => lo
    case Sub(x, below, next) => Past(next, approvals, Past(below, approvals, After(x, approvals, lo)))
  }

  /** The number the copy of `o` gets. */
  function Place(forest: Forest, approvals: set<Id>, lo: Id, o: Id): Id
    requires o in Ids(forest)
  {
    match forest
    case Sub(x, below, next) =>
      if o == x then After(x, approvals, lo) - 1
      else if o in Ids(below) then Place(below, approvals, After(x, approvals, lo), o)
      else Place(next, approvals, Past(below, approvals, After(x, approvals, lo)), o)
  }

  /** Number `i` went to the copy of `o`, or to the clone of its template made just before. */
  ghost predicate Owns(mapping: map<Id, Id>, approvals: set<Id>, o: Id, i: Id) {
    o in mapping && (mapping[o] == i || (o in approvals && mapping[o] == i + 1))
  }

  ghost predicate IsOwned(mapping: map<Id, Id>, approvals: set<Id>, i: Id) {
    exists o :: Owns(mapping, approvals, o, i)
  }

  /** The objects numbered from `lo` to `hi` are, each exactly once, the values of the mapping and
      one template for each approval node. */
  ghost predicate Fresh(mapping: map<Id, Id>, approvals: set<Id>, lo: Id, hi: Id) {
    && (forall o | o in mapping :: lo <= mapping[o] < hi && (o in approvals ==> lo < mapping[o]))
    && (forall i | lo <= i < hi :: IsOwned(mapping, approvals, i))
    && (forall i, o, o1 | Owns(mapping, approvals, o, i) && Owns(mapping, approvals, o1, i) :: o == o1)
  }

  /** Number `i` goes to the copy of `o`, or to the template made just before it. */
  predicate Claims(forest: Forest, approvals: set<Id>, lo: Id, o: Id, i: int)
    requires o in Ids(forest)
  {
    var place := Place(forest, approvals, lo, o);
    i == place || (o in approvals && i + 1 == place)
  }

  lemma {:induction false} PastIsLater(forest: Forest, approvals: set<Id>, lo: Id)
    ensures lo <= Past(forest, approvals, lo)
    decreases forest
  {
    match forest
    case End =>
    case Sub(x, below, next) =>
      PastIsLater(below, approvals, After(x, approvals, lo));
      PastIsLater(next, approvals, Past(below, approvals, After(x, approvals, lo)));
  }

  lemma {:induction false} ClaimInRange(forest: Forest, approvals: set<Id>, lo: Id, o: Id, i: int)
    requires o in Ids(forest) && Claims(forest, approvals, lo, o, i)
    ensures lo <= i < Past(forest, approvals, lo)
    decreases forest
  {
    var Sub(x, below, next) := forest;
    var mid := After(x, approvals, lo);
    PastIsLater(below, approvals, mid);
    PastIsLater(next, approvals, Past(below, approvals, mid));
    if o == x {
    } else if o in Ids(below) {
      ClaimInRange(below, approvals, mid, o, i);
    } else {
      ClaimInRange(next, approvals, Past(below, approvals, mid), o, i);
    }
  }

  lemma {:induction false} ClaimExists(forest: Forest, approvals: set<Id>, lo: Id, i: Id) returns (o: Id)
    requires Distinct(forest) && lo <= i < Past(forest, approvals, lo)
    ensures o in Ids(forest) && Claims(forest, approvals, lo, o, i)
    decreases forest
  {
    var Sub(x, below, next) := forest;
    var mid := After(x, approvals, lo);
    if i < mid {
      o := x;
    } else if i < Past(below, approvals, mid) {
      o := ClaimExists(below, approvals, mid, i);
    } else {
      o := ClaimExists(next, approvals, Past(below, approvals, mid), i);
    }
  }

  /** A number is claimed within the part of the forest its object is in. */
  lemma ClaimInPart(x: Id, below: Forest, next: Forest, approvals: set<Id>, lo: Id, o: Id, i: Id)
    requires o in Ids(Sub(x, below, next)) && Claims(Sub(x, below, next), approvals, lo, o, i)
    ensures var mid := After(x, approvals, lo);
            if o == x then i < mid
            else if o in Ids(below) then Claims(below, approvals, mid, o, i) && mid <= i < Past(below, approvals, mid)
            else Claims(next, approvals, Past(below, approvals, mid), o, i) && mid <= Past(below, approvals, mid) <= i
  {
    var mid := After(x, approvals, lo);
    PastIsLater(below, approvals, mid);
    if o == x {
    } else if o in Ids(below) {
      ClaimInRange(below, approvals, mid, o, i);
    } else {
      ClaimInRange(next, approvals, Past(below, approvals, mid), o, i);
    }
  }

  lemma {:induction false} ClaimIsUnique(forest: Forest, approvals: set<Id>, lo: Id, i: Id, o: Id, o1: Id)
    requires o in Ids(forest) && o1 in Ids(forest)
    requires Claims(forest, approvals, lo, o, i) && Claims(forest, approvals, lo, o1, i)
    ensures o == o1
    decreases forest
  {
    var Sub(x, below, next) := forest;
    var mid := After(x, approvals, lo);
    ClaimInPart(x, below, next, approvals, lo, o, i);
    ClaimInPart(x, below, next, approvals, lo, o1, i);
    if mid <= i {
      if o in Ids(below) {
        ClaimIsUnique(below, approvals, mid, i, o, o1);
      } else {
        ClaimIsUnique(next, approvals, Past(below, approvals, mid), i, o, o1);
      }
    }
  }

  /** The three stages of copying a nonempty forest. */
  lemma Stages(schema: Schema, db: Store, oldParent: Id, newParent: Id, x: Id, below: Forest, next: Forest,
               creator: string)
    returns (c: Cloned, b: Copied, n: Copied)
    requires CanCopy(schema, db, Sub(x, below, next))
    ensures CanClone(schema, db, x) && c == Clone(schema, db, Some(oldParent), Some(newParent), x, "", map[], creator)
    ensures CanCopy(schema, c.db, below) && b == CopyForest(schema, c.db, x, c.id, below, creator)
    ensures CanCopy(schema, b.db, next) && n == CopyForest(schema, b.db, oldParent, newParent, next, creator)
    ensures db <= c.db <= b.db <= n.db
    ensures CopyForest(schema, db, oldParent, newParent, Sub(x, below, next), creator)
            == Copied(n.db, Joined(x, c.id, b.mapping, n.mapping))
    ensures CanCopy(schema, db, below) && CanCopy(schema, db, next)
  {
    assert x in Ids(Sub(x, below, next));
    c := Clone(schema, db, Some(oldParent), Some(newParent), x, "", map[], creator);
    CanCopyLater(schema, db, c.db, below);
    b := CopyForest(schema, c.db, x, c.id, below, creator);
    CanCopyLater(schema, db, b.db, next);
    n := CopyForest(schema, b.db, oldParent, newParent, next, creator);
  }

  ghost predicate ApprovalsAre(db: Store, forest: Forest, approvals: set<Id>) {
    forall x | x in Ids(forest) :: x in approvals <==> IsApproval(db, x)
  }

  lemma {:induction false} CopyKeys(schema: Schema, db: Store, oldParent: Id, newParent: Id, forest: Forest,
                                    creator: string)
    requires CanCopy(schema, db, forest)
    ensures forall o :: o in CopyForest(schema, db, oldParent, newParent, forest, creator).mapping <==> o in Ids(forest)
    decreases forest
  {
    match forest
    case End =>
    case Sub(x, below, next) =>
      var c, b, n := Stages(schema, db, oldParent, newParent, x, below, next, creator);
      CopyKeys(schema, c.db, x, c.id, below, creator);
      CopyKeys(schema, b.db, oldParent, newParent, next, creator);
  }

  /** The objects of a forest are stored, and do not dangle at the template they may point at. */
  ghost predicate Stored(db: Store, forest: Forest) {
    forall x | x in Ids(forest) :: x < |db| && (Target(db[x], UJT).Some? ==> Target(db[x], UJT).value < |db|)
  }

  /** Approval nodes stay what they are in the tables of the later stages. */
  lemma ApprovalsFound(db: Store, c: Store, b: Store, x: Id, below: Forest, next: Forest, approvals: set<Id>)
    requires Stored(db, Sub(x, below, next)) && ApprovalsAre(db, Sub(x, below, next), approvals) && db <= c <= b
    ensures ApprovalsAre(c, below, approvals) && ApprovalsAre(b, next, approvals)
    ensures x in approvals <==> IsApproval(db, x)
  {
  }

  lemma {:induction false} CopyCounts(schema: Schema, db: Store, oldParent: Id, newParent: Id, forest: Forest,
                                      creator: string, approvals: set<Id>)
    requires CanCopy(schema, db, forest) && ApprovalsAre(db, forest, approvals)
    ensures |CopyForest(schema, db, oldParent, newParent, forest, creator).db| == Past(forest, approvals, |db|)
    decreases forest
  {
    match forest
    case End =>
    case Sub(x, below, next) =>
      var c, b, n := Stages(schema, db, oldParent, newParent, x, below, next, creator);
      ApprovalsFound(db, c.db, b.db, x, below, next, approvals);
      var mid := After(x, approvals, |db|);
      assert |c.db| == mid;
      assert Past(forest, approvals, |db|) == Past(next, approvals, Past(below, approvals, mid));
      CopyCounts(schema, c.db, x, c.id, below, creator, approvals);
      CopyCounts(schema, b.db, oldParent, newParent, next, creator, approvals);
  }

  lemma PlaceInJoined(x: Id, below: Forest, next: Forest, approvals: set<Id>, lo: Id, mid: Id, end: Id, b: map<Id, Id>,
                      n: map<Id, Id>, o: Id)
    requires mid == After(x, approvals, lo) && end == Past(below, approvals, mid)
    requires Distinct(Sub(x, below, next)) && o in Ids(Sub(x, below, next))
    requires o in b <==> o in Ids(below)
    requires o in n <==> o in Ids(next)
    requires o in Ids(below) ==> b[o] == Place(below, approvals, mid, o)
    requires o in Ids(next) ==> n[o] == Place(next, approvals, end, o)
    ensures Joined(x, mid - 1, b, n)[o] == Place(Sub(x, below, next), approvals, lo, o)
  {
  }

  lemma {:induction false} CopyPlaces(schema: Schema, db: Store, oldParent: Id, newParent: Id, forest: Forest,
                                      creator: string, approvals: set<Id>, o: Id)
    requires CanCopy(schema, db, forest) && ApprovalsAre(db, forest, approvals) && Distinct(forest) && o in Ids(forest)
    ensures var r := CopyForest(schema, db, oldParent, newParent, forest, creator);
            o in r.mapping && r.mapping[o] == Place(forest, approvals, |db|, o)
    decreases forest, 1
  {
    if o in Ids(forest.below) {
      CopyPlacesBelow(schema, db, oldParent, newParent, forest, creator, approvals, o);
    } else {
      CopyPlacesElse(schema, db, oldParent, newParent, forest, creator, approvals, o);
    }
  }

  lemma CopyPlacesBelow(schema: Schema, db: Store, oldParent: Id, newParent: Id, forest: Forest, creator: string,
                        approvals: set<Id>, o: Id)
    requires CanCopy(schema, db, forest) && ApprovalsAre(db, forest, approvals) && Distinct(forest)
    requires forest.Sub? && o in Ids(forest.below)
    ensures var r := CopyForest(schema, db, oldParent, newParent, forest, creator);
            o in r.mapping && r.mapping[o] == Place(forest, approvals, |db|, o)
    decreases forest, 0
  {
    var Sub(x, below, next) := forest;
    var c, b, n := Stages(schema, db, oldParent, newParent, x, below, next, creator);
    ApprovalsFound(db, c.db, b.db, x, below, next, approvals);
    CopyKeys(schema, c.db, x, c.id, below, creator);
    CopyKeys(schema, b.db, oldParent, newParent, next, creator);
    CopyCounts(schema, c.db, x, c.id, below, creator, approvals);
    CopyPlaces(schema, c.db, x, c.id, below, creator, approvals, o);
    PlaceInJoined(x, below, next, approvals, |db|, |c.db|, |b.db|, b.mapping, n.mapping, o);
  }

  lemma CopyPlacesElse(schema: Schema, db: Store, oldParent: Id, newParent: Id, forest: Forest, creator: string,
                       approvals: set<Id>, o: Id)
    requires CanCopy(schema, db, forest) && ApprovalsAre(db, forest, approvals) && Distinct(forest)
    requires forest.Sub? && (o == forest.id || o in Ids(forest.next))
    ensures var r := CopyForest(schema, db, oldParent, newParent, forest, creator);
            o in r.mapping && r.mapping[o] == Place(forest, approvals, |db|, o)
    decreases forest, 0
  {
    var Sub(x, below, next) := forest;
    var c, b, n := Stages(schema, db, oldParent, newParent, x, below, next, creator);
    ApprovalsFound(db, c.db, b.db, x, below, next, approvals);
    CopyKeys(schema, c.db, x, c.id, below, creator);
    CopyKeys(schema, b.db, oldParent, newParent, next, creator);
    CopyCounts(schema, c.db, x, c.id, below, creator, approvals);
    if o != x {
      CopyPlaces(schema, b.db, oldParent, newParent, next, creator, approvals, o);
      PlaceInJoined(x, below, next, approvals, |db|, |c.db|, |b.db|, b.mapping, n.mapping, o);
    }
  }

  lemma CopyCreates(schema: Schema, db: Store, oldParent: Id, newParent: Id, forest: Forest, creator: string,
                    approvals: set<Id>)
    requires CanCopy(schema, db, forest) && Distinct(forest) && approvals == Approvals(db, Ids(forest))
    ensures ApprovalsAre(db, forest, approvals)
    ensures |CopyForest(schema, db, oldParent, newParent, forest, creator).db| == |db| + Size(forest) + |approvals|
  {
    CopyCounts(schema, db, oldParent, newParent, forest, creator, approvals);
    PastCounts(forest, approvals, |db|);
    assert approvals * Ids(forest) == approvals;
  }

  lemma CopyMappingIsFresh(schema: Schema, db: Store, oldParent: Id, newParent: Id, forest: Forest, creator: string,
                           approvals: set<Id>)
    requires CanCopy(schema, db, forest) && Distinct(forest) && ApprovalsAre(db, forest, approvals)
    ensures var r := CopyForest(schema, db, oldParent, newParent, forest, creator);
            Fresh(r.mapping, approvals, |db|, |r.db|)
  {
    var r := CopyForest(schema, db, oldParent, newParent, forest, creator);
    CopyKeys(schema, db, oldParent, newParent, forest, creator);
    CopyCounts(schema, db, oldParent, newParent, forest, creator, approvals);
    forall o | o in Ids(forest)
      ensures r.mapping[o] == Place(forest, approvals, |db|, o)
    {
      CopyPlaces(schema, db, oldParent, newParent, forest, creator, approvals, o);
    }
    PlacesAreFresh(forest, approvals, |db|, |r.db|, r.mapping);
  }

  /** The mapping of a copy has exactly the forest's objects as keys and pairwise distinct new
      objects as values; what is created is these and one template for each approval node. */
  lemma CopyIsFresh(schema: Schema, db: Store, oldParent: Id, newParent: Id, forest: Forest, creator: string)
    requires CanCopy(schema, db, forest) && Distinct(forest)
    ensures var r := CopyForest(schema, db, oldParent, newParent, forest, creator);
            var approvals := Approvals(db, Ids(forest));
            && (forall o :: o in r.mapping <==> o in Ids(forest))
            && Fresh(r.mapping, approvals, |db|, |r.db|)
            && |r.db| == |db| + Size(forest) + |approvals|
  {
    var approvals := Approvals(db, Ids(forest));
    CopyKeys(schema, db, oldParent, newParent, forest, creator);
    CopyCreates(schema, db, oldParent, newParent, forest, creator, approvals);
    CopyMappingIsFresh(schema, db, oldParent, newParent, forest, creator, approvals);
  }

  lemma PlacesAreFresh(forest: Forest, approvals: set<Id>, lo: Id, hi: Id, mapping: map<Id, Id>)
    requires hi == Past(forest, approvals, lo) && Distinct(forest) && (forall o :: o in mapping <==> o in Ids(forest))
    requires forall o | o in Ids(forest) :: mapping[o] == Place(forest, approvals, lo, o)
    ensures Fresh(mapping, approvals, lo, hi)
  {
    forall o | o in mapping
      ensures lo <= mapping[o] < hi && (o in approvals ==> lo < mapping[o])
    {
      var i: int := mapping[o];
      ClaimInRange(forest, approvals, lo, o, i);
      if o in approvals {
        ClaimInRange(forest, approvals, lo, o, i - 1);
      }
    }
    forall i | lo <= i < hi
      ensures IsOwned(mapping, approvals, i)
    {
      var o := ClaimExists(forest, approvals, lo, i);
      assert Owns(mapping, approvals, o, i);
    }
    forall i, o, o1 | Owns(mapping, approvals, o, i) && Owns(mapping, approvals, o1, i)
      ensures o == o1
    {
      ClaimIsUnique(forest, approvals, lo, i, o, o1);
    }
  }

  lemma SizeJoin(x: Id, approvals: set<Id>, below: set<Id>, next: set<Id>)
    requires x !in below && x !in next && (forall o | o in below :: o !in next)
    ensures |approvals * ({x} + below + next)|
            == (if x in approvals then 1 else 0) + |approvals * below| + |approvals * next|
  {
    assert approvals * ({x} + below + next) == (approvals * {x}) + (approvals * below) + (approvals * next);
    assert approvals * {x} == if x in approvals then {x} else {};
  }

  lemma {:induction false} PastCounts(forest: Forest, approvals: set<Id>, lo: Id)
    requires Distinct(forest)
    ensures Past(forest, approvals, lo) == lo + Size(forest) + |approvals * Ids(forest)|
    decreases forest
  {
    match forest
    case End =>
      assert approvals * Ids(End) == {};
    case Sub(x, below, next) =>
      PastCounts(below, approvals, After(x, approvals, lo));
      PastCounts(next, approvals, Past(below, approvals, After(x, approvals, lo)));
      SizeJoin(x, approvals, Ids(below), Ids(next));
  }

  /******* What the copies hold *******/

  /** The object each object of the forest was reached from. */
  ghost function ParentOf(forest: Forest, oldParent: Id, o: Id): Id
    requires o in Ids(forest)
  {
    match forest
    case Sub(x, below, next) =>
      if o == x then oldParent
      else if o in Ids(below) then ParentOf(below, x, o)
      else ParentOf(next, oldParent, o)
  }

  /** The copy's counterpart of an object: its copy, or the new parent for the old one. */
  function Image(mapping: map<Id, Id>, newParent: Id, o: Id): Id {
    if o in mapping then mapping[o] else newParent
  }

  ghost function CopyOf(schema: Schema, o: Obj, oldParent: Id, newParent: Id, isApproval: bool, id: Id,
                        creator: string): Obj
    requires o.model in schema.models && 0 < id
  {
    NewObj(schema, o, Some(oldParent), Some(newParent), "", map[], if isApproval then Some(id - 1) else None, creator)
  }

  /** `db1` holds, at its place in the mapping, the copy of `o` below the copy of its parent, and
      just before it the clone of its approval template if it has one. */
  ghost predicate HoldsCopy(schema: Schema, db: Store, db1: Store, mapping: map<Id, Id>, o: Id, oldParent: Id,
                            newParent: Id, creator: string)
    requires CanClone(schema, db, o)
  {
    && o in mapping && 0 < mapping[o] < |db1|
    && db1[mapping[o]] == CopyOf(schema, db[o], oldParent, newParent, TemplateOf(db, o).Some?, mapping[o], creator)
    && (TemplateOf(db, o).Some? ==>
          db1[mapping[o] - 1] == NewObj(schema, db[TemplateOf(db, o).value], None, None, "", map[], None, creator))
  }

  lemma HoldsCopyLater(schema: Schema, db: Store, mid: Store, db1: Store, db2: Store, mapping: map<Id, Id>,
                       m2: map<Id, Id>, o: Id, oldParent: Id, newParent: Id, creator: string)
    requires CanClone(schema, db, o) && db <= mid && CanClone(schema, mid, o) && db1 <= db2
    requires HoldsCopy(schema, mid, db1, mapping, o, oldParent, newParent, creator)
    requires o in m2 && m2[o] == mapping[o]
    ensures HoldsCopy(schema, db, db2, m2, o, oldParent, newParent, creator)
  {
  }

  lemma CloneHolds(schema: Schema, db: Store, oldParent: Id, newParent: Id, x: Id, creator: string)
    requires CanClone(schema, db, x)
    ensures var c := Clone(schema, db, Some(oldParent), Some(newParent), x, "", map[], creator);
            0 < c.id && HoldsCopy(schema, db, c.db, map[x := c.id], x, oldParent, newParent, creator)
  {
  }

  /** Every object's copy is the clone of it below the copy of the object it was reached from. */
  lemma {:induction false} CopyHolds(schema: Schema, db: Store, oldParent: Id, newParent: Id, forest: Forest,
                                     creator: string, o: Id)
    requires CanCopy(schema, db, forest) && Distinct(forest) && oldParent !in Ids(forest) && o in Ids(forest)
    ensures var r := CopyForest(schema, db, oldParent, newParent, forest, creator);
            var p := ParentOf(forest, oldParent, o);
            HoldsCopy(schema, db, r.db, r.mapping, o, p, Image(r.mapping, newParent, p), creator)
    decreases forest, 1
  {
    if o == forest.id {
      TopHolds(schema, db, oldParent, newParent, forest, creator);
    } else if o in Ids(forest.below) {
      CopyHoldsBelow(schema, db, oldParent, newParent, forest, creator, o);
    } else {
      CopyHoldsNext(schema, db, oldParent, newParent, forest, creator, o);
    }
  }

  lemma CopyHoldsBelow(schema: Schema, db: Store, oldParent: Id, newParent: Id, forest: Forest, creator: string, o: Id)
    requires CanCopy(schema, db, forest) && Distinct(forest) && oldParent !in Ids(forest) && forest.Sub?
    requires o in Ids(forest.below)
    ensures var r := CopyForest(schema, db, oldParent, newParent, forest, creator);
            var p := ParentOf(forest, oldParent, o);
            HoldsCopy(schema, db, r.db, r.mapping, o, p, Image(r.mapping, newParent, p), creator)
    decreases forest, 0
  {
    var Sub(x, below, next) := forest;
    var c, b, n := Stages(schema, db, oldParent, newParent, x, below, next, creator);
    CopyKeys(schema, c.db, x, c.id, below, creator);
    CopyKeys(schema, b.db, oldParent, newParent, next, creator);
    CopyHolds(schema, c.db, x, c.id, below, creator, o);
    BelowHolds(schema, db, oldParent, newParent, forest, creator, o, c, b, n);
  }

  lemma CopyHoldsNext(schema: Schema, db: Store, oldParent: Id, newParent: Id, forest: Forest, creator: string, o: Id)
    requires CanCopy(schema, db, forest) && Distinct(forest) && oldParent !in Ids(forest) && forest.Sub?
    requires o in Ids(forest.next)
    ensures var r := CopyForest(schema, db, oldParent, newParent, forest, creator);
            var p := ParentOf(forest, oldParent, o);
            HoldsCopy(schema, db, r.db, r.mapping, o, p, Image(r.mapping, newParent, p), creator)
    decreases forest, 0
  {
    var Sub(x, below, next) := forest;
    var c, b, n := Stages(schema, db, oldParent, newParent, x, below, next, creator);
    CopyKeys(schema, c.db, x, c.id, below, creator);
    CopyKeys(schema, b.db, oldParent, newParent, next, creator);
    CopyHolds(schema, b.db, oldParent, newParent, next, creator, o);
    NextHolds(schema, db, oldParent, newParent, forest, creator, o, c, b, n);
  }

  lemma TopHolds(schema: Schema, db: Store, oldParent: Id, newParent: Id, forest: Forest, creator: string)
    requires forest.Sub? && CanCopy(schema, db, forest) && Distinct(forest) && oldParent !in Ids(forest)
    ensures var r := CopyForest(schema, db, oldParent, newParent, forest, creator);
            CanClone(schema, db, forest.id) && oldParent !in r.mapping
            && HoldsCopy(schema, db, r.db, r.mapping, forest.id, oldParent, newParent, creator)
  {
    var Sub(x, below, next) := forest;
    var c, b, n := Stages(schema, db, oldParent, newParent, x, below, next, creator);
    CopyKeys(schema, db, oldParent, newParent, forest, creator);
    CopyKeys(schema, c.db, x, c.id, below, creator);
    CopyKeys(schema, b.db, oldParent, newParent, next, creator);
    CloneHolds(schema, db, oldParent, newParent, x, creator);
    HoldsCopyLater(schema, db, db, c.db, n.db, map[x := c.id], Joined(x, c.id, b.mapping, n.mapping), x, oldParent,
                   newParent, creator);
  }

  lemma BelowHolds(schema: Schema, db: Store, oldParent: Id, newParent: Id, forest: Forest, creator: string, o: Id,
                   c: Cloned, b: Copied, n: Copied)
    requires forest.Sub? && Distinct(forest) && CanClone(schema, db, o) && CanClone(schema, c.db, o)
    requires o in Ids(forest.below) && oldParent !in Ids(forest) && db <= c.db <= b.db <= n.db
    requires forall i :: i in b.mapping <==> i in Ids(forest.below)
    requires forall i :: i in n.mapping <==> i in Ids(forest.next)
    requires var p := ParentOf(forest.below, forest.id, o);
             HoldsCopy(schema, c.db, b.db, b.mapping, o, p, Image(b.mapping, c.id, p), creator)
    ensures var m := Joined(forest.id, c.id, b.mapping, n.mapping);
            var p := ParentOf(forest, oldParent, o);
            HoldsCopy(schema, db, n.db, m, o, p, Image(m, newParent, p), creator)
  {
    var m := Joined(forest.id, c.id, b.mapping, n.mapping);
    var p := ParentOf(forest, oldParent, o);
    ParentInForest(forest.below, forest.id, o);
    assert Image(b.mapping, c.id, p) == Image(m, newParent, p);
    HoldsCopyLater(schema, db, c.db, b.db, n.db, b.mapping, m, o, p, Image(m, newParent, p), creator);
  }

  lemma NextHolds(schema: Schema, db: Store, oldParent: Id, newParent: Id, forest: Forest, creator: string, o: Id,
                  c: Cloned, b: Copied, n: Copied)
    requires forest.Sub? && Distinct(forest) && CanClone(schema, db, o) && CanClone(schema, b.db, o)
    requires o in Ids(forest.next) && oldParent !in Ids(forest) && db <= b.db <= n.db
    requires forall i :: i in b.mapping <==> i in Ids(forest.below)
    requires forall i :: i in n.mapping <==> i in Ids(forest.next)
    requires var p := ParentOf(forest.next, oldParent, o);
             HoldsCopy(schema, b.db, n.db, n.mapping, o, p, Image(n.mapping, newParent, p), creator)
    ensures var m := Joined(forest.id, c.id, b.mapping, n.mapping);
            var p := ParentOf(forest, oldParent, o);
            HoldsCopy(schema, db, n.db, m, o, p, Image(m, newParent, p), creator)
  {
    var m := Joined(forest.id, c.id, b.mapping, n.mapping);
    var p := ParentOf(forest, oldParent, o);
    ParentInForest(forest.next, oldParent, o);
    assert Image(n.mapping, newParent, p) == Image(m, newParent, p);
    HoldsCopyLater(schema, db, b.db, n.db, n.db, n.mapping, m, o, p, Image(m, newParent, p), creator);
  }

  lemma {:induction false} ParentInForest(forest: Forest, oldParent: Id, o: Id)
    requires o in Ids(forest)
    ensures ParentOf(forest, oldParent, o) == oldParent || ParentOf(forest, oldParent, o) in Ids(forest)
    decreases forest
  {
    var Sub(x, below, next) := forest;
    if o != x {
      if o in Ids(below) {
        ParentInForest(below, x, o);
      } else {
        ParentInForest(next, oldParent, o);
      }
    }
  }

  /******* Keywords, field by field *******/

  lemma {:induction false} CollectElsewhere(schema: Schema, m: Model, o: Obj, oldParent: Option<Id>,
                                            newParent: Option<Id>, copyName: string, fields: seq<FieldDef>,
                                            kwargs: map<string, Attr>, f: string)
    requires forall fd | fd in fields :: fd.name != f
    ensures var attrs := Collect(schema, m, o, oldParent, newParent, copyName, fields, kwargs);
            (f in attrs <==> f in kwargs) && (f in kwargs ==> attrs[f] == kwargs[f])
    decreases |fields|
  {
    if fields != [] {
      assert fields[0] in fields;
      var kw := Apply(kwargs, fields[0].name, FieldEffect(schema, m, o, oldParent, newParent, copyName, fields[0]));
      CollectElsewhere(schema, m, o, oldParent, newParent, copyName, fields[1..], kw, f);
    }
  }

  /** Each field's keyword ends as its own effect says, whatever the other fields do. */
  lemma {:induction false} CollectAt(schema: Schema, m: Model, o: Obj, oldParent: Option<Id>, newParent: Option<Id>,
                                     copyName: string, fields: seq<FieldDef>, kwargs: map<string, Attr>, fd: FieldDef)
    requires DistinctNames(fields) && fd in fields
    ensures var attrs := Collect(schema, m, o, oldParent, newParent, copyName, fields, kwargs);
            match FieldEffect(schema, m, o, oldParent, newParent, copyName, fd)
            case Put(a) => fd.name in attrs && attrs[fd.name] == a
            case Drop => fd.name !in attrs
            case Keep =>
              (fd.name in attrs <==> fd.name in kwargs) && (fd.name in kwargs ==> attrs[fd.name] == kwargs[fd.name])
    decreases |fields|
  {
    var e := FieldEffect(schema, m, o, oldParent, newParent, copyName, fields[0]);
    var kw := Apply(kwargs, fields[0].name, e);
    if fields[0] == fd {
      forall x | x in fields[1..]
        ensures x.name != fd.name
      {
        var i :| 0 <= i < |fields[1..]| && fields[1..][i] == x;
        assert fields[0].name != fields[i + 1].name;
      }
      CollectElsewhere(schema, m, o, oldParent, newParent, copyName, fields[1..], kw, fd.name);
    } else {
      var i :| 0 <= i < |fields| && fields[i] == fd;
      assert fields[0].name != fields[i].name;
      CollectAt(schema, m, o, oldParent, newParent, copyName, fields[1..], kw, fd);
    }
  }
}
