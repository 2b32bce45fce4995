/**
 How a serializer class gets its list of field names from its own Meta and those of its bases.
 */
module MetaFields {
  import opened Helpers

  /** A class's own Meta: none, one without the list, or one with it. */
  datatype Own = NoMeta | Lacks | Has(entries: seq<string>)

  datatype Class = Class(bases: seq<Class>, own: Own)

  const STAR := "*"

  predicate IsMinus(v: string) {
    |v| > 0 && v[0] == '-'
  }

  /******* Merging lists *******/

  /** Each value where it first occurs, without the excepted ones. */
  function Firsts(vals: seq<string>, except: set<string>): seq<string> {
    if vals == [] then []
    else
      var n := |vals| - 1;
      var kept := Firsts(vals[..n], except);
      if vals[n] in except || vals[n] in kept then kept else kept + [vals[n]]
  }

  function OrEmpty(list: Option<seq<string>>): seq<string> {
    if list.Some? then list.value else []
  }

  /** The list after one more base class is merged in. */
  function MergeBase(meta: Option<seq<string>>, base: Option<seq<string>>): Option<seq<string>> {
    if base.None? then meta else Some(Firsts(OrEmpty(meta) + base.value, {}))
  }

  /** The entries with each star replaced by the inherited list and the exclusions left out. */
  function Expanded(entries: seq<string>, inherited: seq<string>): seq<string> {
    if entries == [] then []
    else
      var n := |entries| - 1;
      Expanded(entries[..n], inherited)
      + if entries[n] == STAR then inherited else if IsMinus(entries[n]) then [] else [entries[n]]
  }

  function Excluded(entries: seq<string>): set<string> {
    set v | v in entries && IsMinus(v) :: v[1..]
  }

  function MergeOwn(meta: Option<seq<string>>, entries: seq<string>): seq<string> {
    Firsts(Expanded(entries, OrEmpty(meta)), Excluded(entries))
  }

  /** The list the bases give together, the last base first. */
  function Inherited(bases: seq<Class>): Option<seq<string>> {
    if bases == [] then None else MergeBase(Inherited(bases[1..]), Built(bases[0]))
  }

  /** The list a class ends up with. A class without a Meta has the merged one as its own. */
  function Built(c: Class): Option<seq<string>> {
    var meta := Inherited(c.bases);
    match c.own
    case Lacks => meta
    case NoMeta => if meta.None? then None else Some(MergeOwn(meta, meta.value))
    case Has(entries) => Some(MergeOwn(meta, entries))
  }

  /******* First occurrences *******/

  lemma {:induction false} FirstsAre(vals: seq<string>, except: set<string>, x: string)
    ensures x in Firsts(vals, except) <==> x in vals && x !in except
    ensures NoRepeats(Firsts(vals, except))
    decreases |vals|
  {
    if vals != [] {
      var n := |vals| - 1;
      FirstsAre(vals[..n], except, x);
      assert vals == vals[..n] + [vals[n]];
    }
  }

  lemma {:induction false} FirstsOfUnique(list: seq<string>)
    requires NoRepeats(list)
    ensures Firsts(list, {}) == list
    decreases |list|
  {
    if list != [] {
      var n := |list| - 1;
      FirstsOfUnique(list[..n]);
      assert list == list[..n] + [list[n]];
    }
  }

  /** Taking first occurrences early changes nothing: of a list, of one before it, or both. */
  lemma {:induction false} FirstsAbsorb(a: seq<string>, b: seq<string>, except: set<string>)
    ensures Firsts(Firsts(a, {}) + b, except) == Firsts(a + b, except)
    decreases |b|
  {
    if b == [] {
      assert Firsts(a, {}) + [] == Firsts(a, {}) && a + [] == a;
      FirstsTwice(a, except);
    } else {
      var n := |b| - 1;
      FirstsAbsorb(a, b[..n], except);
      assert (a + b)[..|a + b| - 1] == a + b[..n];
      var f := Firsts(a, {});
      assert (f + b)[..|f + b| - 1] == f + b[..n];
    }
  }

  lemma {:induction false} FirstsTwice(a: seq<string>, except: set<string>)
    ensures Firsts(Firsts(a, {}), except) == Firsts(a, except)
    decreases |a|
  {
    if a != [] {
      var n := |a| - 1;
      var f := Firsts(a[..n], {});
      FirstsTwice(a[..n], except);
      FirstsAre(a[..n], {}, a[n]);
      FirstsAre(a[..n], except, a[n]);
      assert (f + [a[n]])[..|f|] == f;
    }
  }

  lemma {:induction false} FirstsAbsorbMiddle(a: seq<string>, b: seq<string>, c: seq<string>, except: set<string>)
    ensures Firsts(a + Firsts(b, {}) + c, except) == Firsts(a + b + c, except)
    decreases |c|
  {
    if c == [] {
      assert a + Firsts(b, {}) + [] == a + Firsts(b, {}) && a + b + [] == a + b;
      FirstsAbsorbEnd(a, b, except);
    } else {
      var n := |c| - 1;
      FirstsAbsorbMiddle(a, b, c[..n], except);
      assert (a + b + c)[..|a + b + c| - 1] == a + b + c[..n];
      var f := Firsts(b, {});
      assert (a + f + c)[..|a + f + c| - 1] == a + f + c[..n];
    }
  }

  lemma {:induction false} FirstsAbsorbEnd(a: seq<string>, b: seq<string>, except: set<string>)
    ensures Firsts(a + Firsts(b, {}), except) == Firsts(a + b, except)
    decreases |b|
  {
    if b == [] {
      assert a + [] == a;
    } else {
      var n := |b| - 1;
      var f := Firsts(b[..n], {});
      FirstsAbsorbEnd(a, b[..n], except);
      FirstsAre(b[..n], {}, b[n]);
      FirstsAre(a + b[..n], except, b[n]);
      assert (a + b)[..|a + b| - 1] == a + b[..n];
      assert (a + (f + [b[n]]))[..|a + f|] == a + f;
    }
  }

  /******* Clean lists *******/

  /** A list of plain names: no star, no exclusion, no name twice. */
  ghost predicate IsClean(list: seq<string>) {
    NoRepeats(list) && STAR !in list && forall v | v in list :: !IsMinus(v)
  }

  lemma {:induction false} ExpandedAre(entries: seq<string>, inherited: seq<string>, x: string)
    ensures x in Expanded(entries, inherited) <==>
            (x in entries && x != STAR && !IsMinus(x)) || (STAR in entries && x in inherited)
    decreases |entries|
  {
    if entries != [] {
      var n := |entries| - 1;
      ExpandedAre(entries[..n], inherited, x);
      assert entries == entries[..n] + [entries[n]];
    }
  }

  lemma MergeOwnClean(meta: Option<seq<string>>, entries: seq<string>)
    requires meta.Some? ==> IsClean(meta.value)
    ensures IsClean(MergeOwn(meta, entries))
  {
    var list := MergeOwn(meta, entries);
    FirstsAre(Expanded(entries, OrEmpty(meta)), Excluded(entries), STAR);
    ExpandedAre(entries, OrEmpty(meta), STAR);
    forall v | v in list
      ensures !IsMinus(v)
    {
      FirstsAre(Expanded(entries, OrEmpty(meta)), Excluded(entries), v);
      ExpandedAre(entries, OrEmpty(meta), v);
    }
  }

  /** Over any hierarchy, every built list is clean. */
  lemma {:induction false} BuiltIsClean(c: Class)
    ensures Built(c).Some? ==> IsClean(Built(c).value)
    decreases c
  {
    InheritedIsClean(c.bases);
    var meta := Inherited(c.bases);
    match c.own
    case Lacks =>
    case NoMeta =>
      if meta.Some? {
        MergeOwnClean(meta, meta.value);
      }
    case Has(entries) => MergeOwnClean(meta, entries);
  }

  lemma {:induction false} InheritedIsClean(bases: seq<Class>)
    ensures Inherited(bases).Some? ==> IsClean(Inherited(bases).value)
    decreases bases
  {
    if bases != [] {
      InheritedIsClean(bases[1..]);
      BuiltIsClean(bases[0]);
      var meta, base := Inherited(bases[1..]), Built(bases[0]);
      if base.Some? {
        FirstsAre(OrEmpty(meta) + base.value, {}, STAR);
        forall v | v in Inherited(bases).value
          ensures !IsMinus(v)
        {
          FirstsAre(OrEmpty(meta) + base.value, {}, v);
        }
      }
    }
  }

  /******* The algebra *******/

  lemma {:induction false} ExpandedPlain(entries: seq<string>, inherited: seq<string>)
    requires STAR !in entries && forall v | v in entries :: !IsMinus(v)
    ensures Expanded(entries, inherited) == entries
    decreases |entries|
  {
    if entries != [] {
      var n := |entries| - 1;
      assert entries[n] in entries;
      ExpandedPlain(entries[..n], inherited);
      assert entries == entries[..n] + [entries[n]];
    }
  }

  /** A class without a Meta of its own, like one whose Meta leaves the list out, has the
      inherited list unchanged. */
  lemma NoMetaInherits(bases: seq<Class>)
    ensures Built(Class(bases, NoMeta)) == Inherited(bases) == Built(Class(bases, Lacks))
  {
    InheritedIsClean(bases);
    var meta := Inherited(bases);
    if meta.Some? {
      ExpandedPlain(meta.value, meta.value);
      assert Excluded(meta.value) == {};
      FirstsOfUnique(meta.value);
    }
  }

  /** The bases' built lists one after the other, the last base first, nothing dropped. */
  function BaseLists(bases: seq<Class>): seq<string> {
    if bases == [] then [] else BaseLists(bases[1..]) + OrEmpty(Built(bases[0]))
  }

  lemma {:induction false} InheritedIsFirsts(bases: seq<Class>)
    ensures OrEmpty(Inherited(bases)) == Firsts(BaseLists(bases), {})
    decreases |bases|
  {
    if bases != [] {
      InheritedIsFirsts(bases[1..]);
      var base := Built(bases[0]);
      if base.Some? {
        FirstsAbsorb(BaseLists(bases[1..]), base.value, {});
      } else {
        assert BaseLists(bases) == BaseLists(bases[1..]);
      }
    }
  }

  function Replaced(v: string, list: seq<string>): seq<string> {
    if v == STAR then list else if IsMinus(v) then [] else [v]
  }

  lemma {:induction false} ExpandedFirsts(entries: seq<string>, list: seq<string>, rest: seq<string>,
                                          except: set<string>)
    ensures Firsts(Expanded(entries, Firsts(list, {})) + rest, except) == Firsts(Expanded(entries, list) + rest, except)
    decreases |entries|
  {
    if entries != [] {
      var n := |entries| - 1;
      var head, last := entries[..n], entries[n];
      var unique := Firsts(list, {});
      var before, after := Expanded(head, unique), Expanded(head, list);
      assert Expanded(entries, unique) == before + Replaced(last, unique)
        && Expanded(entries, list) == after + Replaced(last, list);
      if last == STAR {
        FirstsAbsorbMiddle(before, list, rest, except);
      }
      Associative(before, Replaced(last, list), rest);
      Associative(after, Replaced(last, list), rest);
      ExpandedFirsts(head, list, Replaced(last, list) + rest, except);
    }
  }

  lemma Associative(a: seq<string>, b: seq<string>, c: seq<string>)
    ensures a + b + c == a + (b + c)
  {
  }

  /** A class's own list, merged base by base, is simply each name where it first occurs once every
      star stands for all the bases' lists in full, without the names it excludes. */
  lemma BuiltIsFirsts(bases: seq<Class>, entries: seq<string>)
    ensures Built(Class(bases, Has(entries))) == Some(Firsts(Expanded(entries, BaseLists(bases)), Excluded(entries)))
  {
    InheritedIsFirsts(bases);
    ExpandedFirsts(entries, BaseLists(bases), [], Excluded(entries));
    assert Expanded(entries, BaseLists(bases)) + [] == Expanded(entries, BaseLists(bases));
    assert Expanded(entries, Firsts(BaseLists(bases), {})) + [] == Expanded(entries, Firsts(BaseLists(bases), {}));
  }

  lemma {:induction false} BaseListsAre(bases: seq<Class>, f: string)
    ensures f in BaseLists(bases) <==> exists i :: 0 <= i < |bases| && f in OrEmpty(Built(bases[i]))
    decreases |bases|
  {
    if bases != [] {
      BaseListsAre(bases[1..], f);
      if i :| 0 <= i < |bases[1..]| && f in OrEmpty(Built(bases[1..][i])) {
        assert bases[i + 1] == bases[1..][i];
      }
      if i :| 0 <= i < |bases| && f in OrEmpty(Built(bases[i])) {
        if i > 0 {
          assert bases[1..][i - 1] == bases[i];
        }
      }
    }
  }

  /** A field that one base excludes is in the list of a class that inherits everything exactly
      when some base supplies it, unless the class excludes it itself. */
  lemma ExclusionIsUndone(bases: seq<Class>, entries: seq<string>, f: string)
    requires STAR in entries && f !in entries && f != STAR
    ensures f in Built(Class(bases, Has(entries))).value
            <==> (exists i :: 0 <= i < |bases| && f in OrEmpty(Built(bases[i]))) && "-" + f !in entries
  {
    BuiltIsFirsts(bases, entries);
    var list := Expanded(entries, BaseLists(bases));
    FirstsAre(list, Excluded(entries), f);
    ExpandedAre(entries, BaseLists(bases), f);
    BaseListsAre(bases, f);
    assert ("-" + f)[1..] == f;
    if f in Excluded(entries) {
      var v :| v in entries && IsMinus(v) && v[1..] == f;
      assert v == "-" + f;
    }
  }

  /******* The loops *******/

  /** One update of the merged list, from a base class or from the class's own Meta. */
  method UpdateMeta(fromBase: bool, metaVal: Option<seq<string>>, val: seq<string>) returns (merged: seq<string>)
    ensures fromBase ==> Some(merged) == MergeBase(metaVal, Some(val))
    ensures !fromBase ==> merged == MergeOwn(metaVal, val)
  {
    var inherited := OrEmpty(metaVal);
    var newVals, exceptVals := if fromBase then inherited else [], {};
    var i := 0;
    while i < |val|
      invariant i <= |val|
      invariant fromBase ==> newVals == inherited + val[..i] && exceptVals == {}
      invariant !fromBase ==> newVals == Expanded(val[..i], inherited) && exceptVals == Excluded(val[..i])
    {
      var v := val[i];
      assert val[..i + 1][..i] == val[..i] && val[..i + 1] == val[..i] + [v];
      ExcludedStep(val[..i], v);
      if !fromBase && v == STAR {
        newVals := newVals + inherited;
      } else if !fromBase && IsMinus(v) {
        exceptVals := exceptVals + {v[1..]};
      } else {
        newVals := newVals + [v];
      }
      i := i + 1;
    }
    assert val[..i] == val;
    merged := KeepFirsts(newVals, exceptVals);
  }

  lemma ExcludedStep(entries: seq<string>, v: string)
    ensures Excluded(entries + [v]) == Excluded(entries) + if IsMinus(v) then {v[1..]} else {}
  {
  }

  method KeepFirsts(newVals: seq<string>, exceptVals: set<string>) returns (kept: seq<string>)
    ensures kept == Firsts(newVals, exceptVals)
  {
    kept := [];
    var i := 0;
    while i < |newVals|
      invariant i <= |newVals| && kept == Firsts(newVals[..i], exceptVals)
    {
      assert newVals[..i + 1][..i] == newVals[..i];
      if newVals[i] !in exceptVals && newVals[i] !in kept {
        kept := kept + [newVals[i]];
      }
      i := i + 1;
    }
    assert newVals[..i] == newVals;
  }

  /** Building a class: its bases in reverse, then its own Meta. */
  method BuildMeta(bases: seq<Class>, own: Own) returns (meta: Option<seq<string>>)
    ensures meta == Built(Class(bases, own))
  {
    meta := None;
    var i := |bases|;
    while i > 0
      invariant 0 <= i <= |bases| && meta == Inherited(bases[i..])
    {
      i := i - 1;
      assert bases[i..][0] == bases[i] && bases[i..][1..] == bases[i + 1..];
      var base := Built(bases[i]);
      if base.Some? {
        var merged := UpdateMeta(true, meta, base.value);
        meta := Some(merged);
      }
    }
    assert bases[0..] == bases;
    match own {
      case Has(entries) =>
        var merged := UpdateMeta(false, meta, entries);
        meta := Some(merged);
      case NoMeta =>
        if meta.Some? {
          var merged := UpdateMeta(false, meta, meta.value);
          meta := Some(merged);
        }
      case Lacks =>
    }
  }
}
