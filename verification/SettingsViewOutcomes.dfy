/**
 What the settings endpoint shows and what it writes of a submitted document, spelled out over the rows.
 */
module SettingsViewOutcomes {
  import opened Helpers
  import opened SettingsModel
  import opened SettingsWrites
  import opened SettingsOutcomes
  import opened SettingsView

  /******* What is shown *******/

  /** Row `i` is the last of the rows of `k` that belong to no user. */
  ghost predicate IsLast(rows: seq<Row>, i: nat, k: string) {
    && i < |rows| && rows[i].key == k && rows[i].user == None
    && forall j :: i < j < |rows| ==> !(rows[j].key == k && rows[j].user == None)
  }

  lemma {:induction false} LastIsLast(rows: seq<Row>, i: nat, k: string)
    requires IsLast(rows, i, k)
    ensures LastRow(rows, k) == Some(rows[i])
    decreases |rows|
  {
    var n := |rows| - 1;
    if i < n {
      LastIsLast(rows[..n], i, k);
    }
  }

  /** An encrypted text is shown as a mask, unless it is empty; any other value as it is. */
  function ShownAs(site: Site, k: string, v: Value): Value
    requires k in site.fields
  {
    if site.fields[k].encrypted && v.Str? && v.s != "" then Str("$encrypted$") else v
  }

  /** A category shows its settings; one the table backs shows its last row. */
  lemma ShowsLastRow(site: Site, marked: set<string>, rows: seq<Row>, keys: seq<string>, k: string,
                     current: string -> Value, i: nat)
    requires k in keys && k in site.fields && IsLast(rows, i, k)
    requires (!site.fields[k].readOnly && k !in marked) || k == "INSTALL_UUID"
    ensures var document := Document(site, marked, rows, keys, current);
            var attrs := Attributes(site, marked, rows, keys, current);
            && k in attrs && attrs[k] == rows[i].value
            && k in document && document[k] == ShownAs(site, k, rows[i].value)
  {
    LastIsLast(rows, i, k);
  }

  /** One without a row, or that the table does not back, shows its default: what the settings files hold
      where that is the default, what is registered, or what that computes now, or null. */
  lemma ShowsDefault(site: Site, marked: set<string>, rows: seq<Row>, keys: seq<string>, k: string,
                     current: string -> Value)
    requires k in keys && k in site.fields
    requires ((site.fields[k].readOnly || k in marked) && k != "INSTALL_UUID") || HasNone(rows, k)
    ensures var document := Document(site, marked, rows, keys, current);
            var attrs := Attributes(site, marked, rows, keys, current);
            var v := match FieldDefault(site, k in marked, k)
                     case Fixed(v) => v
                     case Computed(source, compute) => compute(current(source))
                     case NoDefault => Null;
            k in attrs && attrs[k] == v && k in document && document[k] == ShownAs(site, k, v)
  {
    LastIsGlobal(rows, k);
  }

  /** A field's default is the value in the settings files as the field represents it, for a writable
      setting, for one without a default of its own, and for one found defined there; otherwise, or
      where it cannot be represented, what is registered. */
  lemma DefaultIs(site: Site, marked: bool, k: string)
    requires k in site.fields
    ensures FieldDefault(site, marked, k) ==
            if (!site.fields[k].readOnly || marked || site.fields[k].default == NoDefault)
               && k in site.files && site.represent(k, site.files[k]).Some?
            then Fixed(site.represent(k, site.files[k]).value)
            else site.fields[k].default
  {
  }

  /******* What is written *******/

  /** A submitted value is taken: the setting is not the license, is neither declared nor marked
      read-only, and the value is no mask. */
  ghost predicate Taken(site: Site, marked: set<string>, k: string, v: Value)
    requires k in site.fields
  {
    && k != "LICENSE" && !site.fields[k].readOnly && k !in marked
    && !(site.fields[k].encrypted && v.Str? && "$encrypted$" <= v.s)
  }

  /** It passes validation and is to be stored as `stored`: null as it is, anything else as the field
      represents what validation made of it. */
  ghost predicate PassesAs(site: Site, k: string, v: Value, stored: Value) {
    site.validate(k, v).Some?
    && if v == Null then stored == Null else site.represent(k, site.validate(k, v).value) == Some(stored)
  }

  lemma PassesIs(site: Site, k: string, v: Value, stored: Value)
    ensures AcceptValue(site, k, v) == Some(stored) <==> PassesAs(site, k, v, stored)
  {
  }

  /** What is not taken, or does not pass, or would be stored as a mask, changes nothing. */
  lemma SubmitSkips(site: Site, marked: set<string>, rows: seq<Row>, k: string, v: Value)
    requires k in site.fields
    requires !Taken(site, marked, k, v)
             || forall stored :: PassesAs(site, k, v, stored) ==> !Taken(site, marked, k, stored)
    ensures Submit(site, marked, rows, k, v) == rows
  {
    if AcceptValue(site, k, v).Some? {
      PassesIs(site, k, v, AcceptValue(site, k, v).value);
    }
  }

  /** Of a setting that has a row the first is written, and no other, unless it holds the value already. */
  lemma SubmitToRow(site: Site, marked: set<string>, rows: seq<Row>, k: string, v: Value, stored: Value, i: nat)
    requires Lawful(site.cipher) && DistinctPks(rows) && k in site.fields && IsFirst(rows, i, k)
    requires Taken(site, marked, k, v) && PassesAs(site, k, v, stored) && Taken(site, marked, k, stored)
    ensures var rows1 := Submit(site, marked, rows, k, v);
            if rows[i].value == stored then rows1 == rows else OnlyWritten(site, rows, rows1, i, stored)
  {
    FirstIsFirst(rows, i, k);
    PassesIs(site, k, v, stored);
    PutsFirst(site, rows, i, stored);
  }

  /** Of one that has none one is added, under a key above all others. */
  lemma SubmitToNone(site: Site, marked: set<string>, rows: seq<Row>, k: string, v: Value, stored: Value)
    requires Lawful(site.cipher) && k in site.fields && HasNone(rows, k)
    requires Taken(site, marked, k, v) && PassesAs(site, k, v, stored) && Taken(site, marked, k, stored)
    ensures var rows1 := Submit(site, marked, rows, k, v);
            && |rows1| > 0 && OneMore(site, rows, rows1, rows1[|rows1| - 1].pk, k, stored)
            && forall r | r in rows :: r.pk < rows1[|rows1| - 1].pk
  {
    NoneIsFirst(rows, k);
    PassesIs(site, k, v, stored);
    SealedIsWritten(site, k, NextPk(rows), stored);
  }

  /** No row that is the setting's first holds the value. */
  ghost predicate IsNew(rows: seq<Row>, k: string, stored: Value) {
    forall i: nat | IsFirst(rows, i, k) :: rows[i].value != stored
  }

  ghost predicate IsChange(site: Site, marked: set<string>, rows: seq<Row>, k: string, v: Value)
    requires k in site.fields
  {
    Taken(site, marked, k, v)
    && exists stored :: PassesAs(site, k, v, stored) && Taken(site, marked, k, stored) && IsNew(rows, k, stored)
  }

  lemma NewIs(rows: seq<Row>, k: string, stored: Value)
    ensures IsNew(rows, k, stored) <==> FirstRow(rows, k).None? || FirstRow(rows, k).value.value != stored
  {
    NoneIsFirst(rows, k);
    forall i: nat | IsFirst(rows, i, k)
      ensures FirstRow(rows, k) == Some(rows[i])
    {
      FirstIsFirst(rows, i, k);
    }
  }

  lemma WrittenIs(site: Site, marked: set<string>, rows: seq<Row>, k: string, v: Value)
    requires k in site.fields
    ensures IsWritten(site, marked, rows, k, v) <==> IsChange(site, marked, rows, k, v)
  {
    var x := AcceptValue(site, k, v);
    if x.Some? {
      PassesIs(site, k, v, x.value);
      NewIs(rows, k, x.value);
    }
    if Taken(site, marked, k, v) {
      if stored :| PassesAs(site, k, v, stored) && Taken(site, marked, k, stored) && IsNew(rows, k, stored) {
        PassesIs(site, k, v, stored);
      }
    }
  }

  /** A document reports a setting as written exactly if it names it, its value is taken and passes, what is
      to be stored is no mask, and the first row held something else or there was none. */
  lemma {:induction false} ReportsExactly(site: Site, marked: set<string>, rows: seq<Row>, keys: seq<string>,
                                          document: map<string, Value>, k: string)
    requires DistinctPks(rows) && NoRepeats(keys)
    ensures k in WrittenKeys(site, marked, rows, keys, document) <==>
            k in keys && k in site.fields && k in document && IsChange(site, marked, rows, k, document[k])
    decreases |keys|
  {
    if keys != [] {
      var n := |keys| - 1;
      ReportsExactly(site, marked, rows, keys[..n], document, k);
      assert keys == keys[..n] + [keys[n]];
      if keys[n] == k && k in site.fields && k in document {
        var rows1 := SubmitAll(site, marked, rows, keys[..n], document);
        SubmitAllLeaves(site, marked, rows, keys[..n], document, k);
        WrittenIs(site, marked, rows, k, document[k]);
        WrittenIs(site, marked, rows1, k, document[k]);
      }
    }
  }

  /** Written of a submitted value: the form it passes as. */
  ghost predicate Holds(site: Site, k: string, pk: Pk, v: Value, written: Value) {
    forall stored | PassesAs(site, k, v, stored) :: IsWrittenAs(site, k, pk, stored, written)
  }

  /** The document changes the setting. */
  ghost predicate Changes(site: Site, marked: set<string>, rows: seq<Row>, keys: seq<string>,
                          document: map<string, Value>, k: string) {
    k in keys && k in site.fields && k in document && IsChange(site, marked, rows, k, document[k])
  }

  /** What becomes of row `j`: if it is the first of a setting the document changes, it holds the value
      submitted, and otherwise it is as it was. */
  ghost predicate BecomesOf(site: Site, marked: set<string>, rows: seq<Row>, keys: seq<string>,
                            document: map<string, Value>, j: nat, r: Row)
    requires j < |rows|
  {
    var k := rows[j].key;
    if Changes(site, marked, rows, keys, document, k) && IsFirst(rows, j, k)
    then r == rows[j].(value := r.value) && Holds(site, k, r.pk, document[k], r.value)
    else r == rows[j]
  }

  /** A row the document adds: of a setting it changes that had none. */
  ghost predicate IsAdded(site: Site, marked: set<string>, rows: seq<Row>, keys: seq<string>,
                          document: map<string, Value>, r: Row) {
    && Changes(site, marked, rows, keys, document, r.key) && HasNone(rows, r.key) && r.user == None
    && Holds(site, r.key, r.pk, document[r.key], r.value)
  }

  /** A table with a document taken in: each row is as it becomes, and after these there is one more for
      each setting that had none and is changed. */
  ghost predicate TakesIn(site: Site, marked: set<string>, rows: seq<Row>, keys: seq<string>,
                          document: map<string, Value>, rows1: seq<Row>) {
    && |rows| <= |rows1|
    && (forall j: nat :: j < |rows| ==> BecomesOf(site, marked, rows, keys, document, j, rows1[j]))
    && (forall j: nat :: |rows| <= j < |rows1| ==> IsAdded(site, marked, rows, keys, document, rows1[j]))
    && (forall i: nat, j: nat :: |rows| <= i < j < |rows1| ==> rows1[i].key != rows1[j].key)
    && (forall k | HasNone(rows, k) && Changes(site, marked, rows, keys, document, k) :: !HasNone(rows1, k))
  }

  lemma StaysFirst(site: Site, marked: set<string>, rows: seq<Row>, keys: seq<string>, document: map<string, Value>,
                   rows1: seq<Row>, k: string)
    requires TakesIn(site, marked, rows, keys, document, rows1) && k !in keys
    ensures forall i: nat :: IsFirst(rows1, i, k) <==> IsFirst(rows, i, k)
    ensures forall i: nat :: IsFirst(rows, i, k) ==> rows1[i] == rows[i]
    ensures HasNone(rows1, k) <==> HasNone(rows, k)
  {
    forall i: nat | i < |rows1|
      ensures i < |rows| ==> rows1[i].key == rows[i].key && rows1[i].user == rows[i].user
      ensures i < |rows| && rows[i].key == k ==> rows1[i] == rows[i]
      ensures i >= |rows| ==> rows1[i].key != k
    {
      if i < |rows| {
        assert BecomesOf(site, marked, rows, keys, document, i, rows1[i]);
      } else {
        assert IsAdded(site, marked, rows, keys, document, rows1[i]);
      }
    }
    assert forall i: nat :: i < |rows| ==> rows[i] in rows && rows1[i] in rows1;
  }

  lemma ChangeIs(site: Site, marked: set<string>, rows: seq<Row>, rows1: seq<Row>, k: string, v: Value)
    requires k in site.fields
    requires forall i: nat :: IsFirst(rows1, i, k) <==> IsFirst(rows, i, k)
    requires forall i: nat :: IsFirst(rows, i, k) && IsFirst(rows1, i, k) ==> rows1[i] == rows[i]
    ensures IsChange(site, marked, rows1, k, v) <==> IsChange(site, marked, rows, k, v)
  {
    assert forall stored :: IsNew(rows1, k, stored) <==> IsNew(rows, k, stored);
  }

  /** One value more, that does not change its setting. */
  lemma TakesNoMore(site: Site, marked: set<string>, rows: seq<Row>, keys: seq<string>, document: map<string, Value>,
                    rows1: seq<Row>, k: string)
    requires TakesIn(site, marked, rows, keys, document, rows1) && k !in keys
    requires !Changes(site, marked, rows, keys + [k], document, k)
    ensures TakesIn(site, marked, rows, keys + [k], document, rows1)
  {
    MoreKeys(site, marked, rows, keys, document, k);
    forall j: nat | j < |rows|
      ensures BecomesOf(site, marked, rows, keys + [k], document, j, rows1[j])
    {
      assert BecomesOf(site, marked, rows, keys, document, j, rows1[j]);
    }
    forall j: nat | |rows| <= j < |rows1|
      ensures IsAdded(site, marked, rows, keys + [k], document, rows1[j])
    {
      assert IsAdded(site, marked, rows, keys, document, rows1[j]);
    }
  }

  lemma MoreKeys(site: Site, marked: set<string>, rows: seq<Row>, keys: seq<string>, document: map<string, Value>,
                 k: string)
    ensures forall other | other != k ::
              Changes(site, marked, rows, keys + [k], document, other) <==>
              Changes(site, marked, rows, keys, document, other)
  {
  }

  /** One more, to a row. */
  lemma TakesToRow(site: Site, marked: set<string>, rows: seq<Row>, keys: seq<string>, document: map<string, Value>,
                   rows1: seq<Row>, k: string, i: nat, stored: Value, rows2: seq<Row>)
    requires TakesIn(site, marked, rows, keys, document, rows1) && k !in keys
    requires Changes(site, marked, rows, keys + [k], document, k) && PassesAs(site, k, document[k], stored)
    requires IsFirst(rows, i, k) && i < |rows1| && OnlyWritten(site, rows1, rows2, i, stored)
    ensures TakesIn(site, marked, rows, keys + [k], document, rows2)
  {
    MoreKeys(site, marked, rows, keys, document, k);
    StaysFirst(site, marked, rows, keys, document, rows1, k);
    forall j: nat | j < |rows|
      ensures BecomesOf(site, marked, rows, keys + [k], document, j, rows2[j])
    {
      assert BecomesOf(site, marked, rows, keys, document, j, rows1[j]);
      if j == i {
        PassesOnce(site, k, document[k], stored);
      }
    }
    forall j: nat | |rows| <= j < |rows2|
      ensures IsAdded(site, marked, rows, keys + [k], document, rows2[j])
    {
      assert IsAdded(site, marked, rows, keys, document, rows1[j]);
    }
    forall other | HasNone(rows, other) && Changes(site, marked, rows, keys + [k], document, other)
      ensures !HasNone(rows2, other)
    {
      assert rows[i] in rows;
      var j :| 0 <= j < |rows1| && rows1[j].key == other && rows1[j].user == None;
      assert rows2[j] in rows2 && rows2[j].key == other && rows2[j].user == None;
    }
  }

  lemma PassesOnce(site: Site, k: string, v: Value, stored: Value)
    requires PassesAs(site, k, v, stored)
    ensures forall other | PassesAs(site, k, v, other) :: other == stored
  {
  }

  /** One more, to a setting that has no row. */
  lemma TakesToNone(site: Site, marked: set<string>, rows: seq<Row>, keys: seq<string>, document: map<string, Value>,
                    rows1: seq<Row>, k: string, pk: Pk, stored: Value, rows2: seq<Row>)
    requires TakesIn(site, marked, rows, keys, document, rows1) && k !in keys
    requires Changes(site, marked, rows, keys + [k], document, k) && PassesAs(site, k, document[k], stored)
    requires HasNone(rows, k) && OneMore(site, rows1, rows2, pk, k, stored)
    ensures TakesIn(site, marked, rows, keys + [k], document, rows2)
  {
    MoreKeys(site, marked, rows, keys, document, k);
    PassesOnce(site, k, document[k], stored);
    assert forall j :: 0 <= j < |rows1| ==> rows2[j] == rows1[j];
    forall j: nat | j < |rows|
      ensures BecomesOf(site, marked, rows, keys + [k], document, j, rows2[j])
    {
      assert BecomesOf(site, marked, rows, keys, document, j, rows1[j]) && rows[j] in rows;
    }
    forall j: nat | |rows| <= j < |rows2|
      ensures IsAdded(site, marked, rows, keys + [k], document, rows2[j])
      ensures j < |rows1| ==> rows2[j].key != k
    {
      if j < |rows1| {
        assert IsAdded(site, marked, rows, keys, document, rows1[j]);
      }
    }
    forall other | HasNone(rows, other) && Changes(site, marked, rows, keys + [k], document, other)
      ensures !HasNone(rows2, other)
    {
      if other == k {
        assert rows2[|rows1|] in rows2;
      } else {
        var j :| 0 <= j < |rows1| && rows1[j].key == other && rows1[j].user == None;
        assert rows2[j] in rows2;
      }
    }
  }

  lemma TakesOneMore(site: Site, marked: set<string>, rows: seq<Row>, keys: seq<string>, document: map<string, Value>,
                     rows1: seq<Row>, k: string)
    requires Lawful(site.cipher) && TakesIn(site, marked, rows, keys, document, rows1) && DistinctPks(rows1)
    requires k !in keys && k in site.fields && k in document
    ensures TakesIn(site, marked, rows, keys + [k], document, Submit(site, marked, rows1, k, document[k]))
  {
    StaysFirst(site, marked, rows, keys, document, rows1, k);
    ChangeIs(site, marked, rows, rows1, k, document[k]);
    WrittenIs(site, marked, rows1, k, document[k]);
    var rows2 := Submit(site, marked, rows1, k, document[k]);
    if !IsChange(site, marked, rows, k, document[k]) {
      TakesNoMore(site, marked, rows, keys, document, rows1, k);
    } else {
      var stored :| PassesAs(site, k, document[k], stored) && Taken(site, marked, k, stored)
                    && IsNew(rows, k, stored);
      NoneIsFirst(rows, k);
      if HasNone(rows, k) {
        SubmitToNone(site, marked, rows1, k, document[k], stored);
        TakesToNone(site, marked, rows, keys, document, rows1, k, rows2[|rows2| - 1].pk, stored, rows2);
      } else {
        var i: nat :| IsFirst(rows, i, k);
        SubmitToRow(site, marked, rows1, k, document[k], stored, i);
        TakesToRow(site, marked, rows, keys, document, rows1, k, i, stored, rows2);
      }
    }
  }

  /** The whole table after a document is taken in. */
  lemma {:induction false} TakesInAll(site: Site, marked: set<string>, rows: seq<Row>, keys: seq<string>,
                                      document: map<string, Value>)
    requires Lawful(site.cipher) && DistinctPks(rows) && NoRepeats(keys)
    ensures TakesIn(site, marked, rows, keys, document, SubmitAll(site, marked, rows, keys, document))
    decreases |keys|
  {
    if keys != [] {
      var n := |keys| - 1;
      var k, rows1 := keys[n], SubmitAll(site, marked, rows, keys[..n], document);
      TakesInAll(site, marked, rows, keys[..n], document);
      SubmitAllLeaves(site, marked, rows, keys[..n], document, k);
      assert keys == keys[..n] + [k];
      if k in site.fields && k in document {
        TakesOneMore(site, marked, rows, keys[..n], document, rows1, k);
      } else {
        TakesNoMore(site, marked, rows, keys[..n], document, rows1, k);
      }
    }
  }

  /** A document that is accepted is taken in whole; one that is refused changes nothing. */
  lemma PutExactly(site: Site, marked: set<string>, rows: seq<Row>, keys: seq<string>, document: map<string, Value>,
                   current: string -> Value, check: Check)
    requires Lawful(site.cipher) && DistinctPks(rows) && NoRepeats(keys)
    ensures var rows1 := Put(site, marked, rows, keys, document, current, check);
            if IsAcceptable(site, marked, rows, keys, document, current, check)
            then TakesIn(site, marked, rows, keys, document, rows1)
            else rows1 == rows
  {
    TakesInAll(site, marked, rows, keys, document);
  }

  /** A document with a value that is taken and does not pass is refused. */
  lemma RefusedDocument(site: Site, marked: set<string>, rows: seq<Row>, keys: seq<string>,
                        document: map<string, Value>, current: string -> Value, check: Check, k: string)
    requires k in keys && k in site.fields && k in document && Taken(site, marked, k, document[k])
    requires forall stored :: !PassesAs(site, k, document[k], stored)
    ensures !IsAcceptable(site, marked, rows, keys, document, current, check)
  {
    if AcceptValue(site, k, document[k]).Some? {
      PassesIs(site, k, document[k], AcceptValue(site, k, document[k]).value);
    }
  }

  /** One whose values taken all pass is accepted exactly if the category's check lets through what the
      rows and defaults hold now together with what is to be stored. */
  lemma AcceptedDocument(site: Site, marked: set<string>, rows: seq<Row>, keys: seq<string>,
                         document: map<string, Value>, current: string -> Value, check: Check,
                         attrs: map<string, Value>, written: map<string, Value>)
    requires forall k | k in keys :: k in site.fields
    requires forall k :: k in attrs <==> k in keys
    requires forall k | k in keys :: attrs[k] == Attribute(site, k in marked, rows, k, current)
    requires forall k :: k in written <==> k in keys && k in document && Taken(site, marked, k, document[k])
    requires forall k | k in written :: PassesAs(site, k, document[k], written[k])
    ensures IsAcceptable(site, marked, rows, keys, document, current, check) <==> check(attrs, written)
  {
    forall k | k in written
      ensures AcceptValue(site, k, document[k]) == Some(written[k])
    {
      PassesIs(site, k, document[k], written[k]);
    }
    assert attrs == Attributes(site, marked, rows, keys, current);
    assert IsValid(site, marked, keys, document);
    assert written == Validated(site, marked, keys, document);
  }
}
