/**
 Ordered many-to-many fields: rows of the joining table in order of their ids, and the position
 each of an owner's rows is given again after every addition or removal.
 */
module OrderedMany {
  import opened Helpers

  /** A row joining an owner to a member; rows are listed in order of id, newest last. */
  datatype Row = Row(owner: nat, member: nat, position: Option<int>)

  datatype Op = Add(owner: nat, member: nat) | Remove(owner: nat, member: nat)

  /******* The table *******/

  predicate Has(rows: seq<Row>, owner: nat, member: nat) {
    exists r :: r in rows && r.owner == owner && r.member == member
  }

  function Own(rows: seq<Row>, owner: nat): seq<Row> {
    if rows == [] then []
    else
      var n := |rows| - 1;
      Own(rows[..n], owner) + if rows[n].owner == owner then [rows[n]] else []
  }

  function Deleted(rows: seq<Row>, owner: nat, member: nat): seq<Row> {
    if rows == [] then []
    else
      var n := |rows| - 1;
      Deleted(rows[..n], owner, member) + if rows[n].owner == owner && rows[n].member == member then [] else [rows[n]]
  }

  /** The owner's rows numbered from zero in order of id, other rows left as they are. */
  function Renumbered(rows: seq<Row>, owner: nat): seq<Row> {
    if rows == [] then []
    else
      var n := |rows| - 1;
      Renumbered(rows[..n], owner)
        + [if rows[n].owner == owner then rows[n].(position := Some(|Own(rows[..n], owner)|)) else rows[n]]
  }

  function Step(rows: seq<Row>, op: Op): seq<Row> {
    match op
    case Add(owner, member) =>
      Renumbered(if Has(rows, owner, member) then rows else rows + [Row(owner, member, None)], owner)
    case Remove(owner, member) => Renumbered(Deleted(rows, owner, member), owner)
  }

  function Run(ops: seq<Op>): seq<Row> {
    if ops == [] then [] else Step(Run(ops[..|ops| - 1]), ops[|ops| - 1])
  }

  /******* Reading by position *******/

  /** By position; rows whose position has not been set yet come last, as the database has it. */
  predicate UpTo(r: Row, s: Row) {
    s.position.None? || (r.position.Some? && r.position.value <= s.position.value)
  }

  function Inserted(sorted: seq<Row>, r: Row): seq<Row> {
    if sorted == [] || UpTo(sorted[|sorted| - 1], r) then sorted + [r]
    else Inserted(sorted[..|sorted| - 1], r) + [sorted[|sorted| - 1]]
  }

  function Sorted(rows: seq<Row>): seq<Row> {
    if rows == [] then [] else Inserted(Sorted(rows[..|rows| - 1]), rows[|rows| - 1])
  }

  function Members(rows: seq<Row>): seq<nat> {
    seq(|rows|, i requires 0 <= i < |rows| => rows[i].member)
  }

  /** An owner's members as the related manager lists them. */
  function Listed(rows: seq<Row>, owner: nat): seq<nat> {
    Members(Sorted(Own(rows, owner)))
  }

  /******* A plain list *******/

  function Dropped(list: seq<nat>, member: nat): seq<nat> {
    if list == [] then []
    else
      var n := |list| - 1;
      Dropped(list[..n], member) + if list[n] == member then [] else [list[n]]
  }

  function ListStep(list: seq<nat>, op: Op): seq<nat> {
    match op
    case Add(_, m) => if m in list then list else list + [m]
    case Remove(_, m) => Dropped(list, m)
  }

  /** The members of one owner as a list that additions append to. */
  function AsList(ops: seq<Op>, owner: nat): seq<nat> {
    if ops == [] then []
    else
      var list, op := AsList(ops[..|ops| - 1], owner), ops[|ops| - 1];
      if op.owner == owner then ListStep(list, op) else list
  }

  /******* What each step does *******/

  lemma OwnLast(rows: seq<Row>, r: Row, owner: nat)
    ensures Own(rows + [r], owner) == Own(rows, owner) + if r.owner == owner then [r] else []
  {
  }

  lemma {:induction false} OwnAre(rows: seq<Row>, owner: nat, r: Row)
    ensures r in Own(rows, owner) <==> r in rows && r.owner == owner
    decreases |rows|
  {
    if rows != [] {
      var n := |rows| - 1;
      OwnAre(rows[..n], owner, r);
      assert rows == rows[..n] + [rows[n]];
    }
  }

  lemma OwnHas(rows: seq<Row>, owner: nat, member: nat)
    ensures member in Members(Own(rows, owner)) <==> Has(rows, owner, member)
  {
    var own := Own(rows, owner);
    if member in Members(own) {
      var i :| 0 <= i < |own| && own[i].member == member;
      OwnAre(rows, owner, own[i]);
    }
    if r :| r in rows && r.owner == owner && r.member == member {
      OwnAre(rows, owner, r);
      var i :| 0 <= i < |own| && own[i] == r;
      assert Members(own)[i] == member;
    }
  }

  lemma {:induction false} OwnDeleted(rows: seq<Row>, owner: nat, member: nat)
    ensures Members(Own(Deleted(rows, owner, member), owner)) == Dropped(Members(Own(rows, owner)), member)
    decreases |rows|
  {
    if rows != [] {
      var n := |rows| - 1;
      var own, kept := Own(rows[..n], owner), Deleted(rows[..n], owner, member);
      OwnDeleted(rows[..n], owner, member);
      if rows[n].owner == owner {
        MembersLast(own, rows[n]);
        DroppedLast(Members(own), rows[n].member, member);
        if rows[n].member != member {
          OwnLast(kept, rows[n], owner);
          MembersLast(Own(kept, owner), rows[n]);
        } else {
          assert kept + [] == kept && Dropped(Members(own), member) + [] == Dropped(Members(own), member);
        }
      } else {
        OwnLast(kept, rows[n], owner);
        MembersLast(own, rows[n]);
        MembersLast(Own(kept, owner), rows[n]);
      }
    }
  }

  lemma {:induction false} OthersDeleted(rows: seq<Row>, owner: nat, member: nat, other: nat)
    requires other != owner
    ensures Own(Deleted(rows, owner, member), other) == Own(rows, other)
    decreases |rows|
  {
    if rows != [] {
      var n := |rows| - 1;
      var kept := Deleted(rows[..n], owner, member);
      OthersDeleted(rows[..n], owner, member, other);
      if rows[n].owner == owner && rows[n].member == member {
        assert kept + [] == kept && Own(rows[..n], other) + [] == Own(rows[..n], other);
      } else {
        OwnLast(kept, rows[n], other);
      }
    }
  }

  lemma MembersLast(rows: seq<Row>, r: Row)
    ensures Members(rows + [r]) == Members(rows) + [r.member] && Members(rows + []) == Members(rows)
  {
  }

  lemma DroppedLast(list: seq<nat>, last: nat, member: nat)
    ensures Dropped(list + [last], member) == Dropped(list, member) + if last == member then [] else [last]
  {
  }

  /** Renumbering keeps the owner's members in order and numbers them from zero; another owner's
      rows do not change at all. */
  lemma {:induction false} OwnRenumbered(rows: seq<Row>, owner: nat, other: nat)
    ensures other != owner ==> Own(Renumbered(rows, owner), other) == Own(rows, other)
    ensures Members(Own(Renumbered(rows, owner), owner)) == Members(Own(rows, owner))
    ensures IsNumbered(Own(Renumbered(rows, owner), owner))
    decreases |rows|
  {
    if rows != [] {
      var n := |rows| - 1;
      OwnRenumbered(rows[..n], owner, other);
      var last := if rows[n].owner == owner then rows[n].(position := Some(|Own(rows[..n], owner)|)) else rows[n];
      OwnLast(Renumbered(rows[..n], owner), last, other);
      OwnLast(Renumbered(rows[..n], owner), last, owner);
      MembersLast(Own(rows[..n], owner), rows[n]);
      MembersLast(Own(Renumbered(rows[..n], owner), owner), last);
      assert |Members(Own(rows[..n], owner))| == |Own(rows[..n], owner)|;
    }
  }

  ghost predicate IsNumbered(rows: seq<Row>) {
    forall i | 0 <= i < |rows| :: rows[i].position == Some(i)
  }

  lemma {:induction false} NumberedIsSorted(rows: seq<Row>)
    requires IsNumbered(rows)
    ensures Sorted(rows) == rows
    decreases |rows|
  {
    if rows != [] {
      var n := |rows| - 1;
      NumberedIsSorted(rows[..n]);
      InsertedLast(rows[..n], rows[n]);
      assert rows == rows[..n] + [rows[n]];
    }
  }

  /** By position, those without one last. */
  ghost predicate IsOrdered(rows: seq<Row>) {
    forall i, j :: 0 <= i < j < |rows| && rows[j].position.Some? ==>
      rows[i].position.Some? && rows[i].position.value <= rows[j].position.value
  }

  lemma {:induction false} InsertedHolds(sorted: seq<Row>, r: Row)
    ensures multiset(Inserted(sorted, r)) == multiset(sorted) + multiset{r}
    decreases |sorted|
  {
    if sorted != [] && !UpTo(sorted[|sorted| - 1], r) {
      var n := |sorted| - 1;
      assert sorted == sorted[..n] + [sorted[n]];
      InsertedHolds(sorted[..n], r);
    }
  }

  lemma {:induction false} InsertedOrdered(sorted: seq<Row>, r: Row)
    requires IsOrdered(sorted)
    ensures IsOrdered(Inserted(sorted, r))
    ensures forall x | x in Inserted(sorted, r) :: x == r || x in sorted
    decreases |sorted|
  {
    if sorted != [] && !UpTo(sorted[|sorted| - 1], r) {
      var n := |sorted| - 1;
      var rest := Inserted(sorted[..n], r);
      InsertedOrdered(sorted[..n], r);
      forall i | 0 <= i < |rest|
        ensures UpTo(rest[i], sorted[n])
      {
        assert rest[i] in rest;
        assert rest[i] == r || rest[i] in sorted[..n];
      }
    }
  }

  /** Whatever the positions are, reading lists an owner's rows in their order, those without one
      last. */
  lemma {:induction false} SortedIsOrdered(rows: seq<Row>)
    ensures IsOrdered(Sorted(rows)) && multiset(Sorted(rows)) == multiset(rows)
    decreases |rows|
  {
    if rows != [] {
      var n := |rows| - 1;
      assert rows == rows[..n] + [rows[n]];
      SortedIsOrdered(rows[..n]);
      InsertedOrdered(Sorted(rows[..n]), rows[n]);
      InsertedHolds(Sorted(rows[..n]), rows[n]);
    }
  }

  lemma InsertedLast(sorted: seq<Row>, r: Row)
    requires sorted != [] ==> UpTo(sorted[|sorted| - 1], r)
    ensures Inserted(sorted, r) == sorted + [r]
  {
  }

  /** One step: the owner's list is extended or cut, in insertion order, and numbered; another
      owner's rows stay exactly as they were. */
  lemma StepOwn(rows: seq<Row>, op: Op, owner: nat)
    ensures var own, own1 := Own(rows, owner), Own(Step(rows, op), owner);
            && (op.owner != owner ==> own1 == own)
            && (op.owner == owner ==> IsNumbered(own1) && Members(own1) == ListStep(Members(own), op))
  {
    match op
    case Add(o, m) =>
      var r := Row(o, m, None);
      OwnHas(rows, o, m);
      OwnLast(rows, r, owner);
      MembersLast(Own(rows, owner), r);
      OwnRenumbered(if Has(rows, o, m) then rows else rows + [r], o, owner);
    case Remove(o, m) =>
      if o == owner {
        OwnDeleted(rows, o, m);
      } else {
        OthersDeleted(rows, o, m, owner);
      }
      OwnRenumbered(Deleted(rows, o, m), o, owner);
  }

  /** After any additions and removals, one at a time and over any owners, listing an owner's
      members by position gives those not removed since, in the order they were added, and the
      positions are 0, 1, 2 and so on. */
  lemma {:induction false} RunIsAList(ops: seq<Op>, owner: nat)
    ensures Listed(Run(ops), owner) == AsList(ops, owner) && IsNumbered(Own(Run(ops), owner))
    decreases |ops|
  {
    if ops != [] {
      var n := |ops| - 1;
      RunIsAList(ops[..n], owner);
      NumberedIsSorted(Own(Run(ops[..n]), owner));
      StepOwn(Run(ops[..n]), ops[n], owner);
      NumberedIsSorted(Own(Run(ops), owner));
    } else {
      assert Own([], owner) == [];
    }
  }

  /******* The signal handler *******/

  class ThroughTable {
    var rows: seq<Row>

    constructor ()
      ensures rows == []
    {
      rows := [];
    }

    method AddOne(owner: nat, member: nat)
      modifies this
      ensures rows == Step(old(rows), Add(owner, member))
    {
      if !Has(rows, owner, member) {
        rows := rows + [Row(owner, member, None)];
      }
      UpdatePositions(owner);
    }

    method RemoveOne(owner: nat, member: nat)
      modifies this
      ensures rows == Step(old(rows), Remove(owner, member))
    {
      rows := Deleted(rows, owner, member);
      UpdatePositions(owner);
    }

    /** Writes the owner's rows whose position is not their place in order of id. */
    method UpdatePositions(owner: nat)
      modifies this
      ensures rows == Renumbered(old(rows), owner)
    {
      ghost var before := rows;
      ghost var done: seq<Row> := [];
      var i, place := 0, 0;
      while i < |rows|
        invariant i <= |rows| == |before| && |done| == i && place == |Own(before[..i], owner)|
        invariant done == Renumbered(before[..i], owner)
        invariant forall k | 0 <= k < |rows| :: rows[k] == if k < i then done[k] else before[k]
      {
        assert before[..i + 1][..i] == before[..i];
        if rows[i].owner == owner {
          if rows[i].position != Some(place) {
            rows := rows[i := rows[i].(position := Some(place))];
          }
          place := place + 1;
        }
        done := done + [rows[i]];
        i := i + 1;
      }
      assert before[..i] == before && rows == done;
    }
  }
}
