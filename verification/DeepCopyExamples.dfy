/**
 A small tree that is copied: the conditions on what can be copied are met by it, by the copy the
 endpoint makes of it, and by what the background task then leaves; and a reference from one of its
 objects to another stays behind.
 */
module DeepCopyExamples {
  import opened Helpers
  import opened DeepCopy
  import opened DeepCopyShape
  import opened DeepCopyRebuild
  import opened DeepCopyTask
  import opened DeepCopyResult
  import opened DeepCopyEndpoint

  /******* Every copy can be finished *******/

  lemma {:induction false} RebuildFinishes(schema: Schema, db0: Store, db: Store, mapping: map<Id, Id>, todo: set<Id>)
    returns (done: Store)
    requires CanRebuild(schema, db0, mapping) && PartlyRebuilt(schema, db0, db, mapping, todo) && todo <= mapping.Keys
    ensures PartlyRebuilt(schema, db0, done, mapping, {})
    decreases |todo|
  {
    if todo == {} {
      done := db;
    } else {
      var o :| o in todo;
      var db1 := db[mapping[o] := Rebuilt(schema, db0[o], db0[mapping[o]], mapping)];
      RebuildStep(schema, db0, db, db1, mapping, todo, o);
      done := RebuildFinishes(schema, db0, db1, mapping, todo - {o});
    }
  }

  /** For whatever can be copied there is a finished copy. */
  lemma CopyFinishes(schema: Schema, db: Store, root: Id, newParent: Id, forest: Forest, creator: string)
    returns (done: Store)
    requires SchemaLinked(schema) && IsTree(schema, db, root, forest) && CanCopy(schema, db, forest)
    ensures IsDeepCopy(schema, db, root, newParent, forest, creator, done)
  {
    var r := CopyForest(schema, db, root, newParent, forest, creator);
    CopyCanRebuild(schema, Origin(db, root, forest), newParent, creator);
    done := RebuildFinishes(schema, r.db, r.db, r.mapping, r.mapping.Keys);
  }

  /******* Two siblings *******/

  const P := "P"
  const C := "C"

  function Verbatim(o: Obj, f: string, text: string): string {
    text
  }

  /** Parents keep their children; a child refers to its parent, and to a sibling it keeps. */
  function Family(): Schema {
    Schema(map[P := Model([FieldDef("kids", OneToMany(C, "p"))], {"kids"}, {}),
               C := Model([FieldDef("p", ManyToOne), FieldDef("sib", ManyToOne)], {"sib"}, {})],
           Verbatim)
  }

  /** A parent with two children, the second of which refers to the first, and another parent. */
  function Siblings(): Store {
    [Obj(P, map[], ""),
     Obj(C, map["p" := Ref(Some(0))], ""),
     Obj(C, map["p" := Ref(Some(0)), "sib" := Ref(Some(1))], ""),
     Obj(P, map[], "")]
  }

  const Kids := Sub(1, End, Sub(2, End, End))

  lemma FamilyIsLinked()
    ensures SchemaLinked(Family())
  {
    assert P != C && C != TEMPLATE && C != NODE;
  }

  lemma ChildrenOfTheFirst()
    ensures ChildIds(Family(), Siblings(), 0) == [1, 2]
  {
    var db, kind := Siblings(), OneToMany(C, "p");
    assert db[..4] == db && db[..4][..3] == db[..3] && db[..3][..2] == db[..2] && db[..2][..1] == db[..1]
      && db[..1][..0] == [];
    assert Children(db[..1], 0, kind) == [] by { assert C != P; }
    assert Children(db[..2], 0, kind) == [1];
    assert Children(db[..3], 0, kind) == [1, 2];
    assert Children(db, 0, kind) == [1, 2];
    var m := Family().models[P];
    assert ChildrenVia(m, m.fields[1..], db, 0) == [];
  }

  /** What the objects refer to: their parent, and the second child its sibling. */
  lemma SiblingsReferTo(y: Id, f: string)
    requires y < |Siblings()|
    ensures Target(Siblings()[y], f) ==
            if (y == 1 || y == 2) && f == "p" then Some(0) else if y == 2 && f == "sib" then Some(1) else None
  {
    assert "sib" != "p";
  }

  lemma SiblingsRefer()
    ensures forall y: Id, f | y < |Siblings()| && Target(Siblings()[y], f).Some? :: Target(Siblings()[y], f).value < 2
  {
    forall y: Id, f | y < |Siblings()| && Target(Siblings()[y], f).Some?
      ensures Target(Siblings()[y], f).value < 2
    {
      SiblingsReferTo(y, f);
    }
  }

  lemma CanCloneSibling(y: Id)
    requires y < |Siblings()|
    ensures CanClone(Family(), Siblings(), y)
  {
    SiblingsRefer();
    SiblingsReferTo(y, UJT);
    assert UJT != "p" && UJT != "sib";
  }

  lemma SiblingsAreATree()
    ensures IsTree(Family(), Siblings(), 0, Kids) && CanCopy(Family(), Siblings(), Kids)
    ensures CanClone(Family(), Siblings(), 0)
    ensures RefsOk(Siblings()) && Unreferenced(Siblings(), 3)
  {
    ChildrenOfTheFirst();
    SiblingsRefer();
    assert TopIds(Kids) == [1, 2];
    assert ChildIds(Family(), Siblings(), 1) == [] && ChildIds(Family(), Siblings(), 2) == [];
    forall y: Id | y < |Siblings()|
      ensures CanClone(Family(), Siblings(), y)
    {
      CanCloneSibling(y);
    }
  }

  /** The copies of the two children are new. */
  lemma CopiesAreNew(creator: string)
    requires CanCopy(Family(), Siblings(), Kids)
    ensures var mapping := CopyForest(Family(), Siblings(), 0, 3, Kids, creator).mapping;
            1 in mapping && 2 in mapping && mapping[1] >= 4 && mapping[2] >= 4 && 0 !in mapping
  {
    CopyIsFresh(Family(), Siblings(), 0, 3, Kids, creator);
  }

  lemma SecondChild()
    ensures 2 in Ids(Kids) && ParentOf(Kids, 0, 2) == 0
    ensures var o, m := Siblings()[2], Family().models[C];
            && o.model == C && C in Family().models && Reference("sib") in m.fields && "sib" in m.preserve
            && !IsBlocked(m, "sib") && Target(o, "sib") == Some(1) && "sib" != UJT
  {
  }

  /** The second child's copy refers, once all is done, to the first child itself and not to that
      child's copy. */
  lemma SiblingStaysBehind(creator: string) returns (done: Store)
    ensures IsDeepCopy(Family(), Siblings(), 0, 3, Kids, creator, done)
    ensures var mapping := CopyForest(Family(), Siblings(), 0, 3, Kids, creator).mapping;
            && 1 in mapping && 2 in mapping && mapping[1] != 1
            && mapping[2] < |done| && Target(done[mapping[2]], "sib") == Some(1)
  {
    FamilyIsLinked();
    SiblingsAreATree();
    done := CopyFinishes(Family(), Siblings(), 0, 3, Kids, creator);
    CopiesAreNew(creator);
    SecondChild();
    PreservedReferenceStays(Family(), Siblings(), 0, 3, Kids, creator, done, 2, "sib", 1);
  }

  /** The endpoint's copy of the parent, finished by the background task. */
  lemma EndpointFinishes(creator: string) returns (made: Cloned, done: Store)
    ensures OwnRefs(Siblings()[0], map[], None)
    ensures made == Clone(Family(), Siblings(), None, None, 0, "", map[], creator)
    ensures IsDeepCopy(Family(), made.db, 0, made.id, Kids, creator, done)
    ensures IsFollowedFrom(Family(), Siblings(), 0, FieldDef("kids", OneToMany(C, "p")))
  {
    FamilyIsLinked();
    SiblingsAreATree();
    made := Clone(Family(), Siblings(), None, None, 0, "", map[], creator);
    TopIsReady(Family(), Siblings(), 0, Kids, "", map[], creator);
    done := CopyFinishes(Family(), made.db, 0, made.id, Kids, creator);
  }
}
