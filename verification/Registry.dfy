/**
 The registry of settings: registration in order, the index of dependent settings kept beside it,
 and the listings by category.
 */
module Registry {
  import opened Helpers

  datatype Entry = Entry(category: Option<string>, readOnly: bool, encrypted: bool, hasFieldClass: bool,
                         dependsOn: set<string>)

  /** Registered settings in order, and for each setting the settings that depend on it. */
  datatype State = State(order: seq<string>, entries: map<string, Entry>, dependents: map<string, set<string>>)

  const ALL := "all"
  const CHANGED := "changed"
  const USER := "user"
  const USER_DEFAULTS := "user-defaults"
  const INSTALL_UUID := "INSTALL_UUID"

  predicate IsReserved(category: Option<string>) {
    category == Some(ALL) || category == Some(CHANGED) || category == Some(USER_DEFAULTS)
  }

  function Known(dependents: map<string, set<string>>, d: string): set<string> {
    if d in dependents then dependents[d] else {}
  }

  function DependentsOf(s: State, d: string): set<string> {
    Known(s.dependents, d)
  }

  /** The index with a setting entered under each of some others. */
  function Indexed(dependents: map<string, set<string>>, name: string, under: set<string>): map<string, set<string>> {
    map d | d in dependents.Keys + under :: Known(dependents, d) + if d in under then {name} else {}
  }

  lemma IndexedMore(dependents: map<string, set<string>>, name: string, under: set<string>, d: string)
    requires d !in under
    ensures var index := Indexed(dependents, name, under);
            index[d := Known(index, d) + {name}] == Indexed(dependents, name, under + {d})
  {
    var index := Indexed(dependents, name, under);
    var next := Indexed(dependents, name, under + {d});
    assert Known(index, d) == Known(dependents, d);
    forall x | x in next
      ensures index[d := Known(index, d) + {name}][x] == next[x]
    {
    }
  }

  lemma IndexedStep(dependents: map<string, set<string>>, name: string, all: set<string>, todo: set<string>, d: string)
    requires todo <= all && d in todo
    ensures var index := Indexed(dependents, name, all - todo);
            index[d := Known(index, d) + {name}] == Indexed(dependents, name, all - (todo - {d}))
  {
    IndexedMore(dependents, name, all - todo, d);
    assert (all - todo) + {d} == all - (todo - {d});
  }

  lemma IndexedStart(dependents: map<string, set<string>>, name: string, all: set<string>)
    ensures Indexed(dependents, name, all - all) == dependents
  {
    assert all - all == {};
    forall x | x in dependents
      ensures Indexed(dependents, name, {})[x] == dependents[x]
    {
      assert dependents[x] + {} == dependents[x];
    }
  }

  predicate CanRegister(s: State, name: string, e: Entry) {
    name !in s.entries && !IsReserved(e.category) && e.hasFieldClass
  }

  function Register(s: State, name: string, e: Entry): State {
    if !CanRegister(s, name, e) then s
    else State(s.order + [name], s.entries[name := e], Indexed(s.dependents, name, e.dependsOn))
  }

  function Without(order: seq<string>, name: string): seq<string> {
    if order == [] then []
    else
      var n := |order| - 1;
      Without(order[..n], name) + if order[n] == name then [] else [order[n]]
  }

  function Unregister(s: State, name: string): State {
    State(Without(s.order, name), s.entries - {name}, map d | d in s.dependents :: s.dependents[d] - {name})
  }

  /******* Listings *******/

  predicate InCategory(s: State, name: string, category: Option<string>) {
    && name in s.entries
    && (category.None? || category == Some(ALL) || category == s.entries[name].category)
  }

  predicate IsListed(s: State, name: string, category: Option<string>, readOnly: Option<bool>, ignored: set<string>) {
    && InCategory(s, name, category)
    && !(s.entries[name].category.Some? && s.entries[name].category.value in ignored)
    && (readOnly.Some? && s.entries[name].readOnly != readOnly.value ==> name == INSTALL_UUID)
  }

  function Selected(s: State, order: seq<string>, category: Option<string>, readOnly: Option<bool>,
                    ignored: set<string>): seq<string> {
    if order == [] then []
    else
      var n := |order| - 1;
      Selected(s, order[..n], category, readOnly, ignored) + if IsListed(s, order[n], category, readOnly, ignored)
        then [order[n]] else []
  }

  /** The category a request for one of the derived categories is answered from. */
  function Underlying(category: Option<string>): Option<string> {
    if category == Some(USER_DEFAULTS) then Some(USER)
    else if category == Some(CHANGED) then Some(ALL)
    else category
  }

  function Listing(s: State, category: Option<string>, readOnly: Option<bool>, ignored: set<string>): seq<string> {
    Selected(s, s.order, Underlying(category), readOnly, ignored)
  }

  /******* What every run keeps *******/

  datatype Op = Add(name: string, entry: Entry) | Remove(name: string)

  function Step(s: State, op: Op): State {
    match op
    case Add(name, e) => Register(s, name, e)
    case Remove(name) => Unregister(s, name)
  }

  function Run(s: State, ops: seq<Op>): State {
    if ops == [] then s else Step(Run(s, ops[..|ops| - 1]), ops[|ops| - 1])
  }

  const Empty := State([], map[], map[])

  /** The order lists each registered setting once, no category is a reserved one, and the index is
      the inverse of what the settings say they depend on. */
  ghost predicate Ok(s: State) {
    && NoRepeats(s.order)
    && (forall name :: name in s.order <==> name in s.entries)
    && (forall name | name in s.entries :: !IsReserved(s.entries[name].category))
    && (forall d, name :: name in DependentsOf(s, d) <==> DependsOn(s, name, d))
  }

  predicate DependsOn(s: State, name: string, d: string) {
    name in s.entries && d in s.entries[name].dependsOn
  }

  lemma {:induction false} WithoutIs(order: seq<string>, name: string, x: string)
    ensures x in Without(order, name) <==> x in order && x != name
    decreases |order|
  {
    if order != [] {
      var n := |order| - 1;
      WithoutIs(order[..n], name, x);
      assert order == order[..n] + [order[n]];
    }
  }

  lemma {:induction false} WithoutNoRepeats(order: seq<string>, name: string)
    requires NoRepeats(order)
    ensures NoRepeats(Without(order, name))
    decreases |order|
  {
    if order != [] {
      var n := |order| - 1;
      WithoutNoRepeats(order[..n], name);
      WithoutIs(order[..n], name, order[n]);
    }
  }

  lemma RegisterKeeps(s: State, name: string, e: Entry)
    requires Ok(s)
    ensures Ok(Register(s, name, e))
  {
    var s1 := Register(s, name, e);
    if CanRegister(s, name, e) {
      forall d, x
        ensures x in DependentsOf(s1, d) <==> DependsOn(s1, x, d)
      {
        assert x in DependentsOf(s, d) <==> DependsOn(s, x, d);
      }
    }
  }

  lemma UnregisterKeeps(s: State, name: string)
    requires Ok(s)
    ensures Ok(Unregister(s, name))
  {
    var s1 := Unregister(s, name);
    WithoutNoRepeats(s.order, name);
    forall x
      ensures x in s1.order <==> x in s1.entries
    {
      WithoutIs(s.order, name, x);
    }
    forall d, x
      ensures x in DependentsOf(s1, d) <==> DependsOn(s1, x, d)
    {
      assert x in DependentsOf(s, d) <==> DependsOn(s, x, d);
    }
  }

  /** After any run of registrations, refused ones and removals, a setting is among the dependents
      of another exactly if it is registered and says it depends on it. */
  lemma {:induction false} IndexIsInverse(ops: seq<Op>)
    ensures Ok(Run(Empty, ops))
    decreases |ops|
  {
    if ops != [] {
      var n := |ops| - 1;
      IndexIsInverse(ops[..n]);
      match ops[n]
      case Add(name, e) => RegisterKeeps(Run(Empty, ops[..n]), name, e);
      case Remove(name) => UnregisterKeeps(Run(Empty, ops[..n]), name);
    }
  }

  lemma {:induction false} SelectedAre(s: State, order: seq<string>, category: Option<string>, readOnly: Option<bool>,
                                       ignored: set<string>, x: string)
    ensures x in Selected(s, order, category, readOnly, ignored) <==>
            x in order && IsListed(s, x, category, readOnly, ignored)
    decreases |order|
  {
    if order != [] {
      var n := |order| - 1;
      SelectedAre(s, order[..n], category, readOnly, ignored, x);
      assert order == order[..n] + [order[n]];
    }
  }

  /** `a` comes before `b` in a list without repeats. */
  ghost predicate Before(order: seq<string>, a: string, b: string) {
    exists i, j :: 0 <= i < j < |order| && order[i] == a && order[j] == b
  }

  lemma {:induction false} SelectedInOrder(s: State, order: seq<string>, category: Option<string>,
                                           readOnly: Option<bool>, ignored: set<string>, a: string, b: string)
    requires NoRepeats(order)
    ensures var listed := Selected(s, order, category, readOnly, ignored);
            && NoRepeats(listed)
            && (Before(listed, a, b) <==> a in listed && b in listed && Before(order, a, b))
    decreases |order|
  {
    if order != [] {
      var n := |order| - 1;
      var rest := Selected(s, order[..n], category, readOnly, ignored);
      SelectedInOrder(s, order[..n], category, readOnly, ignored, a, b);
      SelectedAre(s, order[..n], category, readOnly, ignored, a);
      SelectedAre(s, order[..n], category, readOnly, ignored, b);
      SelectedAre(s, order[..n], category, readOnly, ignored, order[n]);
      BeforeLast(order[..n], order[n], a, b);
      BeforeLast(rest, order[n], a, b);
      assert order == order[..n] + [order[n]];
    }
  }

  lemma BeforeLast(order: seq<string>, last: string, a: string, b: string)
    requires last !in order
    ensures Before(order + [last], a, b) <==> Before(order, a, b) || (b == last && a in order)
  {
    var whole := order + [last];
    if i, j :| 0 <= i < j < |whole| && whole[i] == a && whole[j] == b {
      if j < |order| {
        assert order[i] == a && order[j] == b;
      }
    }
    if i, j :| 0 <= i < j < |order| && order[i] == a && order[j] == b {
      assert whole[i] == a && whole[j] == b;
    }
    if b == last && a in order {
      var i :| 0 <= i < |order| && order[i] == a;
      assert whole[i] == a && whole[|order|] == b;
    }
  }

  /** The category listings divide the listing of everything: a registered setting is listed under
      its own category, if it has one, and under no other, and each listing keeps the order of
      registration. */
  lemma CategoriesPartition(ops: seq<Op>, category: string, a: string, b: string)
    requires category !in {ALL, CHANGED, USER_DEFAULTS}
    ensures var s := Run(Empty, ops);
            var listed := Listing(s, Some(category), None, {});
            && (a in listed <==> a in s.entries && s.entries[a].category == Some(category))
            && NoRepeats(listed)
            && (Before(listed, a, b) <==> a in listed && b in listed && Before(s.order, a, b))
  {
    var s := Run(Empty, ops);
    IndexIsInverse(ops);
    SelectedAre(s, s.order, Some(category), None, {}, a);
    SelectedInOrder(s, s.order, Some(category), None, {}, a, b);
  }

  /** Everything is listed, in order of registration, when no category is asked for, or all are. */
  lemma AllAreListed(ops: seq<Op>)
    ensures var s := Run(Empty, ops);
            Listing(s, Some(ALL), None, {}) == s.order && Listing(s, None, None, {}) == s.order
  {
    var s := Run(Empty, ops);
    IndexIsInverse(ops);
    UnderlyingAll();
    SelectedAll(s, s.order, Some(ALL));
    SelectedAll(s, s.order, None);
  }

  lemma UnderlyingAll()
    ensures Underlying(Some(ALL)) == Some(ALL) && Underlying(None) == None
  {
    assert |ALL| != |USER_DEFAULTS| && |ALL| != |CHANGED|;
  }

  lemma AnyIsListed(s: State, x: string, category: Option<string>)
    requires (category.None? || category == Some(ALL)) && x in s.entries
    ensures IsListed(s, x, category, None, {})
  {
  }

  lemma {:induction false} SelectedAll(s: State, order: seq<string>, category: Option<string>)
    requires (category.None? || category == Some(ALL)) && forall x | x in order :: x in s.entries
    ensures Selected(s, order, category, None, {}) == order
    decreases |order|
  {
    if order != [] {
      var n := |order| - 1;
      var none: Option<bool> := None;
      AnyIsListed(s, order[n], category);
      SelectedAll(s, order[..n], category);
      assert Selected(s, order, category, none, {}) == Selected(s, order[..n], category, none, {}) + [order[n]];
    }
  }

  /** Of the writable and the read-only listing a setting is in one, save the installation's
      identifier, which is in both. */
  lemma ReadOnlySplit(ops: seq<Op>, category: Option<string>, x: string)
    ensures var s := Run(Empty, ops);
            var writable, fixed := Listing(s, category, Some(false), {}), Listing(s, category, Some(true), {});
            && (x in writable || x in fixed <==> x in Listing(s, category, None, {}))
            && (x in writable && x in fixed <==> x in Listing(s, category, None, {}) && x == INSTALL_UUID)
  {
    var s := Run(Empty, ops);
    SelectedAre(s, s.order, Underlying(category), Some(false), {}, x);
    SelectedAre(s, s.order, Underlying(category), Some(true), {}, x);
    SelectedAre(s, s.order, Underlying(category), None, {}, x);
  }

  /******* Exactly what is registered and listed *******/

  /** A setting is registered exactly if its name is free, it has a field class, and its category, if it
      has one, is not one of those the listings derive. */
  lemma RegisteredExactly(s: State, name: string, e: Entry)
    ensures CanRegister(s, name, e) <==>
            name !in s.entries && e.hasFieldClass
            && e.category !in {Some("all"), Some("changed"), Some("user-defaults")}
    ensures !CanRegister(s, name, e) ==> Register(s, name, e) == s
    ensures CanRegister(s, name, e) ==>
            Register(s, name, e).order == s.order + [name] && Register(s, name, e).entries == s.entries[name := e]
  {
  }

  /** A setting is listed exactly if it is of the category asked for, when that is a category of its own,
      or of any, when that is none, all or the changed ones, or of the user's, when that is their
      defaults; is of no ignored category; and is read-only or not as asked, the installation's
      identifier always. */
  lemma ListedExactly(ops: seq<Op>, category: Option<string>, readOnly: Option<bool>, ignored: set<string>, x: string)
    ensures var s := Run(Empty, ops);
            x in Listing(s, category, readOnly, ignored) <==>
            && x in s.entries
            && (if category == Some("user-defaults") then s.entries[x].category == Some("user")
                else category in {None, Some("all"), Some("changed")} || s.entries[x].category == category)
            && (forall c | s.entries[x].category == Some(c) :: c !in ignored)
            && (readOnly == None || x == "INSTALL_UUID" || readOnly == Some(s.entries[x].readOnly))
  {
    var s := Run(Empty, ops);
    IndexIsInverse(ops);
    UnderlyingAll();
    SelectedAre(s, s.order, Underlying(category), readOnly, ignored, x);
  }

  /******* The registry *******/

  class SettingsRegistry {
    var order: seq<string>
    var entries: map<string, Entry>
    var dependents: map<string, set<string>>

    constructor ()
      ensures Contents() == Empty
    {
      order, entries, dependents := [], map[], map[];
    }

    function Contents(): State
      reads this
    {
      State(order, entries, dependents)
    }

    /** Registers a setting and enters it with everything it depends on; a refused registration
        leaves everything as it was. */
    method RegisterSetting(name: string, e: Entry) returns (ok: bool)
      modifies this
      ensures Contents() == Register(old(Contents()), name, e) && ok == CanRegister(old(Contents()), name, e)
      ensures !ok ==> Contents() == old(Contents())
      ensures Ok(old(Contents())) ==> Ok(Contents())
    {
      if name in entries {
        return false;
      }
      if IsReserved(e.category) {
        return false;
      }
      if !e.hasFieldClass {
        return false;
      }
      ghost var before := Contents();
      AddDependent(name, e.dependsOn);
      order, entries := order + [name], entries[name := e];
      if Ok(before) {
        RegisterKeeps(before, name, e);
      }
      ok := true;
    }

    method AddDependent(name: string, dependsOn: set<string>)
      modifies this`dependents
      ensures dependents == Indexed(old(dependents), name, dependsOn)
    {
      ghost var before := dependents;
      var todo := dependsOn;
      IndexedStart(before, name, dependsOn);
      while todo != {}
        invariant todo <= dependsOn && dependents == Indexed(before, name, dependsOn - todo)
        decreases |todo|
      {
        var d :| d in todo;
        IndexedStep(before, name, dependsOn, todo, d);
        dependents := dependents[d := Known(dependents, d) + {name}];
        todo := todo - {d};
      }
      assert dependsOn - todo == dependsOn;
    }

    method UnregisterSetting(name: string)
      modifies this
      ensures Contents() == Unregister(old(Contents()), name)
      ensures Ok(old(Contents())) ==> Ok(Contents())
    {
      ghost var before := Contents();
      var kept := [];
      var i := 0;
      while i < |order|
        invariant i <= |order| && kept == Without(order[..i], name) && Contents() == before
      {
        assert order[..i + 1][..i] == order[..i];
        if order[i] != name {
          kept := kept + [order[i]];
        }
        i := i + 1;
      }
      assert order[..i] == order;
      order, entries := kept, entries - {name};
      dependents := map d | d in dependents :: dependents[d] - {name};
      if Ok(before) {
        UnregisterKeeps(before, name);
      }
    }

    method GetRegisteredSettings(category: Option<string>, readOnly: Option<bool>,
                                 ignored: set<string>) returns (names: seq<string>)
      ensures names == Listing(Contents(), category, readOnly, ignored)
    {
      var slug := category;
      if slug == Some(USER_DEFAULTS) {
        slug := Some(USER);
      }
      if slug == Some(CHANGED) {
        slug := Some(ALL);
      }
      names := [];
      var i := 0;
      while i < |order|
        invariant i <= |order| && names == Selected(Contents(), order[..i], slug, readOnly, ignored)
      {
        assert order[..i + 1][..i] == order[..i];
        if IsListed(Contents(), order[i], slug, readOnly, ignored) {
          names := names + [order[i]];
        }
        i := i + 1;
      }
      assert order[..i] == order;
    }
  }
}
