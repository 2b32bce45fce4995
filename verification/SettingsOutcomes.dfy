/**
 What an assignment or a deletion answers and what it does to the table, spelled out over the rows:
 which row changes, to what, and that every other row is as it was.
 */
module SettingsOutcomes {
  import opened Helpers
  import opened SettingsModel
  import opened SettingsCache
  import opened SettingsWrites

  /******* The first row *******/

  /** Row `i` is the first of the rows of `k` that belong to no user. */
  ghost predicate IsFirst(rows: seq<Row>, i: nat, k: string) {
    && i < |rows| && rows[i].key == k && rows[i].user == None
    && forall j :: 0 <= j < i ==> !(rows[j].key == k && rows[j].user == None)
  }

  ghost predicate HasNone(rows: seq<Row>, k: string) {
    forall r | r in rows :: !(r.key == k && r.user == None)
  }

  lemma {:induction false} FirstIsFirst(rows: seq<Row>, i: nat, k: string)
    requires IsFirst(rows, i, k)
    ensures FirstRow(rows, k) == Some(rows[i])
  {
    if i > 0 {
      FirstIsFirst(rows[1..], i - 1, k);
    }
  }

  lemma {:induction false} NoneIsFirst(rows: seq<Row>, k: string)
    ensures HasNone(rows, k) <==> FirstRow(rows, k) == None
    ensures HasNone(rows, k) || exists i :: IsFirst(rows, i, k)
  {
    if rows != [] {
      NoneIsFirst(rows[1..], k);
      if rows[0].key == k && rows[0].user == None {
        assert IsFirst(rows, 0, k);
      } else if !HasNone(rows[1..], k) {
        var i: nat :| IsFirst(rows[1..], i, k);
        assert IsFirst(rows, i + 1, k);
      }
    }
  }

  /** What is written of a value: of an encrypted setting its text, sealed under the row's own key unless it
      is empty or looks sealed already; null, and the value of any other setting, as it is. */
  ghost predicate IsWrittenAs(site: Site, k: string, pk: Pk, v: Value, written: Value) {
    if !(k in site.fields && site.fields[k].encrypted) || v == Null then written == v
    else
      var text := site.cipher.text(v);
      written == Str(if text == "" || "$encrypted$" <= text then text else site.cipher.seal(Some(pk), text))
  }

  lemma SealedIsWritten(site: Site, k: string, pk: Pk, v: Value)
    requires Lawful(site.cipher)
    ensures IsWrittenAs(site, k, pk, v, Sealed(site, k, Some(pk), v))
  {
  }

  /******* The signal *******/

  /** One process's view after it has read a setting; a name that is no setting is passed over. */
  function AfterRead(site: Site, now: real, lost: set<CacheOp>, s: Session, k: string): Session {
    if k !in site.fields then s
    else
      var a := GetMemoized(site, s.rows, now, lost, s.proc, s.cache, k);
      s.(proc := a.proc, cache := a.cache)
  }

  ghost predicate ReadRaises(site: Site, now: real, lost: set<CacheOp>, s: Session, k: string) {
    k in site.fields && GetMemoized(site, s.rows, now, lost, s.proc, s.cache, k).outcome == Raised
  }

  /** `at` lists what reading the settings in turn leaves. */
  ghost predicate ReadInTurn(site: Site, now: real, lost: set<CacheOp>, keys: seq<string>, at: seq<Session>) {
    |at| == |keys| + 1 && forall i :: 0 <= i < |keys| ==> at[i + 1] == AfterRead(site, now, lost, at[i], keys[i])
  }

  lemma {:induction false} ReadAllExactly(site: Site, now: real, lost: set<CacheOp>, keys: seq<string>,
                                          at: seq<Session>, n: nat)
    requires ReadInTurn(site, now, lost, keys, at) && n <= |keys|
    requires forall i :: 0 <= i < n ==> !ReadRaises(site, now, lost, at[i], keys[i])
    requires n < |keys| ==> ReadRaises(site, now, lost, at[n], keys[n])
    ensures var a := ReadAll(site, at[0].rows, now, lost, at[0].proc, at[0].cache, keys);
            && (a.outcome == Raised <==> n < |keys|)
            && at[0].(proc := a.proc, cache := a.cache) == at[if n < |keys| then n + 1 else n]
    decreases |keys|
  {
    if n > 0 {
      forall i | 0 <= i < n - 1
        ensures !ReadRaises(site, now, lost, at[1..][i], keys[1..][i])
      {
        assert !ReadRaises(site, now, lost, at[i + 1], keys[i + 1]);
      }
      ReadAllExactly(site, now, lost, keys[1..], at[1..], n - 1);
    }
  }

  /** A signal drops the setting and those that depend on it, clears the memo and reads each again; an
      exception at any of these reads cuts the write short there, and where there is none it ends well. */
  lemma NotifiesExactly(site: Site, now: real, lost: set<CacheOp>, s: Session, k: string, dependents: seq<string>,
                        at: seq<Session>, n: nat)
    requires ReadInTurn(site, now, lost, [k] + dependents, at) && n <= |dependents| + 1
    requires at[0] == s.(proc := s.proc.(memo := map[]),
                         cache := Evict(s.cache, {k} + (set d | d in site.fields && k in site.fields[d].dependsOn),
                                        lost))
    requires forall i :: 0 <= i < n ==> !ReadRaises(site, now, lost, at[i], ([k] + dependents)[i])
    requires n <= |dependents| ==> ReadRaises(site, now, lost, at[n], ([k] + dependents)[n])
    ensures Notify(site, now, lost, s, k, dependents) ==
            if n <= |dependents| then CutShort(at[n + 1]) else Saved(at[n])
  {
    assert Dependents(site, k) == set d | d in site.fields && k in site.fields[d].dependsOn;
    ReadAllExactly(site, now, lost, [k] + dependents, at, n);
  }

  /******* Who may write *******/

  /** A write is refused for being read-only exactly of settings declared so or marked so. */
  lemma RefusedAsReadOnly(site: Site, now: real, lost: nat -> set<CacheOp>, s: Session, pk: Pk, k: string, value: Value,
                          dependents: seq<string>)
    requires k in site.fields
    ensures SetLocal(site, now, lost, s, pk, k, value, dependents) == ReadOnlySetting <==>
            site.fields[k].readOnly || k in s.proc.marked
    ensures DelLocal(site, now, lost, s, k, dependents) == ReadOnlySetting <==>
            site.fields[k].readOnly || k in s.proc.marked
  {
    DeleteRowsLeave(site, now, lost, 0, s, k, dependents);
  }

  /** A value is refused exactly where representing it, validating that, or representing the outcome
      fails. */
  lemma RefusedAsInvalid(site: Site, now: real, lost: nat -> set<CacheOp>, s: Session, pk: Pk, k: string, value: Value,
                         dependents: seq<string>)
    requires k in site.fields && !site.fields[k].readOnly && k !in s.proc.marked
    ensures SetLocal(site, now, lost, s, pk, k, value, dependents) == Invalid <==>
            !exists data, x, v ::
               site.represent(k, value) == Some(data) && site.validate(k, data) == Some(x)
               && site.represent(k, x) == Some(v)
  {
    if data, x, v :| site.represent(k, value) == Some(data) && site.validate(k, data) == Some(x)
                     && site.represent(k, x) == Some(v) {
      assert DbValue(site, k, value) == Some(v);
    }
  }

  /******* Assignment *******/

  /** The table differs from `rows` in the value of row `i` alone, which is now `v` as written. */
  ghost predicate OnlyWritten(site: Site, rows: seq<Row>, rows1: seq<Row>, i: nat, v: Value)
    requires i < |rows|
  {
    && |rows1| == |rows| && (forall j :: 0 <= j < |rows| && j != i ==> rows1[j] == rows[j])
    && rows1[i] == rows[i].(value := rows1[i].value) && IsWrittenAs(site, rows[i].key, rows[i].pk, v, rows1[i].value)
  }

  /** The table is `rows` and one row more, which holds `v` as written. */
  ghost predicate OneMore(site: Site, rows: seq<Row>, rows1: seq<Row>, pk: Pk, k: string, v: Value) {
    && |rows1| == |rows| + 1 && rows1[..|rows|] == rows
    && rows1[|rows|] == Row(pk, k, None, rows1[|rows|].value) && IsWrittenAs(site, k, pk, v, rows1[|rows|].value)
  }

  /** Assigning to a setting that has a row changes nothing exactly if the first row holds the stored
      form already; otherwise it writes that form to that row and to no other. */
  lemma AssignToRow(site: Site, now: real, lost: nat -> set<CacheOp>, s: Session, pk: Pk, k: string, value: Value,
                    dependents: seq<string>, data: Value, x: Value, v: Value, i: nat)
    requires Lawful(site.cipher) && DistinctPks(s.rows) && k in site.fields && !site.fields[k].readOnly
    requires k !in s.proc.marked
    requires site.represent(k, value) == Some(data) && site.validate(k, data) == Some(x)
    requires site.represent(k, x) == Some(v)
    requires IsFirst(s.rows, i, k)
    ensures var w := SetLocal(site, now, lost, s, pk, k, value, dependents);
            && (w == Unchanged <==> s.rows[i].value == v)
            && (w != Unchanged ==> (w.Saved? || w.CutShort?) && OnlyWritten(site, s.rows, w.session.rows, i, v))
  {
    FirstIsFirst(s.rows, i, k);
    PutsFirst(site, s.rows, i, v);
  }

  /** Writing to a row by its key writes to it alone. */
  lemma PutsFirst(site: Site, rows: seq<Row>, i: nat, v: Value)
    requires Lawful(site.cipher) && DistinctPks(rows) && i < |rows|
    ensures OnlyWritten(site, rows, PutValue(rows, rows[i].pk, Sealed(site, rows[i].key, Some(rows[i].pk), v)), i, v)
  {
    var r := rows[i];
    SealedIsWritten(site, r.key, r.pk, v);
    PutMembers(rows, r.pk, Sealed(site, r.key, Some(r.pk), v));
    forall j | 0 <= j < |rows| && j != i
      ensures rows[j].pk != r.pk
    {
      assert if i < j then rows[i].pk != rows[j].pk else rows[j].pk != rows[i].pk;
    }
  }

  lemma NotifyKeepsRows(site: Site, now: real, lost: set<CacheOp>, s: Session, k: string, dependents: seq<string>)
    ensures var w := Notify(site, now, lost, s, k, dependents);
            (w.Saved? || w.CutShort?) && w.session.rows == s.rows
  {
  }

  /** A new row holds what it is saved with, or, where an exception cuts the two saves of an encrypted
      one short, the empty text. */
  lemma SavesNew(site: Site, now: real, lost: nat -> set<CacheOp>, s: Session, pk: Pk, k: string, v: Value,
                 dependents: seq<string>)
    requires Lawful(site.cipher) && k in site.fields && forall r | r in s.rows :: r.pk != pk
    ensures var w := SaveNew(site, now, lost, s, pk, k, v, dependents);
            && (w.Saved? || w.CutShort?)
            && (OneMore(site, s.rows, w.session.rows, pk, k, v)
                || (w.CutShort? && site.fields[k].encrypted && OneMore(site, s.rows, w.session.rows, pk, k, Str(""))))
  {
    if site.fields[k].encrypted {
      var empty, sealed := Row(pk, k, None, Str("")), Sealed(site, k, Some(pk), v);
      OneRowMore(site, s.rows, pk, k, Str(""), Str(""));
      NotifyKeepsRows(site, now, lost(0), s.(rows := s.rows + [empty]), k, dependents);
      var w := Notify(site, now, lost(0), s.(rows := s.rows + [empty]), k, dependents);
      if w.Saved? {
        PutLast(s.rows, empty, sealed);
        OneRowMore(site, s.rows, pk, k, v, sealed);
        NotifyKeepsRows(site, now, lost(1), w.session.(rows := s.rows + [empty.(value := sealed)]), k, dependents);
      }
    } else {
      OneRowMore(site, s.rows, pk, k, v, v);
      NotifyKeepsRows(site, now, lost(0), s.(rows := s.rows + [Row(pk, k, None, v)]), k, dependents);
    }
  }

  lemma OneRowMore(site: Site, rows: seq<Row>, pk: Pk, k: string, v: Value, written: Value)
    requires Lawful(site.cipher)
    requires written == Sealed(site, k, Some(pk), v)
             || (v == written && (v == Str("") || (k in site.fields && !site.fields[k].encrypted)))
    ensures OneMore(site, rows, rows + [Row(pk, k, None, written)], pk, k, v)
  {
    SealedIsWritten(site, k, pk, v);
    assert site.cipher.text(Str("")) == "";
    assert (rows + [Row(pk, k, None, written)])[..|rows|] == rows;
  }

  /** Assigning to a setting that has none adds one row: one that holds the stored form, or, where an
      exception cuts the two saves of an encrypted row short, an empty one. */
  lemma AssignToNone(site: Site, now: real, lost: nat -> set<CacheOp>, s: Session, pk: Pk, k: string, value: Value,
                     dependents: seq<string>, data: Value, x: Value, v: Value)
    requires Lawful(site.cipher) && DistinctPks(s.rows) && k in site.fields && !site.fields[k].readOnly
    requires k !in s.proc.marked && forall r | r in s.rows :: r.pk != pk
    requires site.represent(k, value) == Some(data) && site.validate(k, data) == Some(x)
    requires site.represent(k, x) == Some(v)
    requires HasNone(s.rows, k)
    ensures var w := SetLocal(site, now, lost, s, pk, k, value, dependents);
            && (w.Saved? || w.CutShort?)
            && (OneMore(site, s.rows, w.session.rows, pk, k, v)
                || (w.CutShort? && site.fields[k].encrypted && OneMore(site, s.rows, w.session.rows, pk, k, Str(""))))
  {
    NoneIsFirst(s.rows, k);
    SavesNew(site, now, lost, s, pk, k, v, dependents);
  }

  /** The signals an assignment sends: to a row, one, on the table with that row written; to none, one on the
      table with the new row, or, if encrypted, one while that row is still empty and, unless an
      exception cuts this one short, one once it is written. */
  lemma AssignmentSignals(site: Site, now: real, lost: nat -> set<CacheOp>, s: Session, pk: Pk, k: string, value: Value,
                          dependents: seq<string>, data: Value, x: Value, v: Value)
    requires Lawful(site.cipher) && DistinctPks(s.rows) && k in site.fields && !site.fields[k].readOnly
    requires k !in s.proc.marked && forall r | r in s.rows :: r.pk != pk
    requires site.represent(k, value) == Some(data) && site.validate(k, data) == Some(x)
    requires site.represent(k, x) == Some(v)
    ensures var w := SetLocal(site, now, lost, s, pk, k, value, dependents);
            && (forall i: nat, rows1 | IsFirst(s.rows, i, k) && s.rows[i].value != v
                                         && OnlyWritten(site, s.rows, rows1, i, v) ::
                  w == Notify(site, now, lost(0), s.(rows := rows1), k, dependents))
            && (forall rows0, rows1 | HasNone(s.rows, k) && OneMore(site, s.rows, rows0, pk, k, Str(""))
                                      && OneMore(site, s.rows, rows1, pk, k, v) ::
                  if !site.fields[k].encrypted then w == Notify(site, now, lost(0), s.(rows := rows1), k, dependents)
                  else
                    var first := Notify(site, now, lost(0), s.(rows := rows0), k, dependents);
                    w == if first.CutShort? then first
                         else Notify(site, now, lost(1), first.session.(rows := rows1), k, dependents))
  {
    var w := SetLocal(site, now, lost, s, pk, k, value, dependents);
    forall i: nat, rows1 | IsFirst(s.rows, i, k) && s.rows[i].value != v && OnlyWritten(site, s.rows, rows1, i, v)
      ensures w == Notify(site, now, lost(0), s.(rows := rows1), k, dependents)
    {
      FirstIsFirst(s.rows, i, k);
      PutsFirst(site, s.rows, i, v);
      WrittenOnce(site, s.rows, rows1, PutValue(s.rows, s.rows[i].pk, Sealed(site, k, Some(s.rows[i].pk), v)), i, v);
    }
    if HasNone(s.rows, k) {
      NoneIsFirst(s.rows, k);
      var empty, sealed := Row(pk, k, None, Str("")), Sealed(site, k, Some(pk), v);
      OneRowMore(site, s.rows, pk, k, Str(""), Str(""));
      OneRowMore(site, s.rows, pk, k, v, sealed);
      PutLast(s.rows, empty, sealed);
      forall rows0, rows1 | OneMore(site, s.rows, rows0, pk, k, Str("")) && OneMore(site, s.rows, rows1, pk, k, v)
        ensures rows0 == s.rows + [empty] && rows1 == s.rows + [empty.(value := sealed)]
      {
        AddedOnce(site, s.rows, rows0, s.rows + [empty], pk, k, Str(""));
        AddedOnce(site, s.rows, rows1, s.rows + [empty.(value := sealed)], pk, k, v);
      }
      NotifyKeepsRows(site, now, lost(0), s.(rows := s.rows + [empty]), k, dependents);
    }
  }

  lemma WrittenOnce(site: Site, rows: seq<Row>, rows1: seq<Row>, rows2: seq<Row>, i: nat, v: Value)
    requires i < |rows| && OnlyWritten(site, rows, rows1, i, v) && OnlyWritten(site, rows, rows2, i, v)
    ensures rows1 == rows2
  {
    assert forall j :: 0 <= j < |rows| ==> rows1[j] == rows2[j];
  }

  lemma AddedOnce(site: Site, rows: seq<Row>, rows1: seq<Row>, rows2: seq<Row>, pk: Pk, k: string, v: Value)
    requires OneMore(site, rows, rows1, pk, k, v) && OneMore(site, rows, rows2, pk, k, v)
    ensures rows1 == rows2
  {
    assert rows1 == rows1[..|rows|] + [rows1[|rows|]] && rows2 == rows2[..|rows|] + [rows2[|rows|]];
  }

  lemma PutLast(rows: seq<Row>, r: Row, v: Value)
    requires forall x | x in rows :: x.pk != r.pk
    ensures PutValue(rows + [r], r.pk, v) == rows + [r.(value := v)]
  {
    PutMembers(rows + [r], r.pk, v);
    forall i | 0 <= i < |rows|
      ensures rows[i].pk != r.pk
    {
      assert rows[i] in rows;
    }
  }

  /******* Deletion *******/

  /** The rows that are not global rows of `k`, in order. */
  function Elsewhere(rows: seq<Row>, k: string): seq<Row> {
    if rows == [] then []
    else
      var r := rows[|rows| - 1];
      Elsewhere(rows[..|rows| - 1], k) + if r.key == k && r.user == None then [] else [r]
  }

  lemma {:induction false} ElsewhereJoins(rows: seq<Row>, rows1: seq<Row>, k: string)
    ensures Elsewhere(rows + rows1, k) == Elsewhere(rows, k) + Elsewhere(rows1, k)
    decreases |rows1|
  {
    if rows1 == [] {
      assert rows + rows1 == rows;
    } else {
      var n := |rows1| - 1;
      ElsewhereJoins(rows, rows1[..n], k);
      assert (rows + rows1)[..|rows| + n] == rows + rows1[..n];
    }
  }

  lemma {:induction false} RemoveFirstElsewhere(rows: seq<Row>, k: string)
    ensures Elsewhere(RemoveFirst(rows, k), k) == Elsewhere(rows, k)
  {
    if rows != [] {
      assert rows == [rows[0]] + rows[1..];
      ElsewhereJoins([rows[0]], rows[1..], k);
      assert [rows[0]][..0] == [];
      if !IsGlobal(rows[0], k) {
        RemoveFirstElsewhere(rows[1..], k);
        ElsewhereJoins([rows[0]], RemoveFirst(rows[1..], k), k);
      }
    }
  }

  lemma {:induction false} ElsewhereAll(rows: seq<Row>, k: string)
    requires HasNone(rows, k)
    ensures Elsewhere(rows, k) == rows
    decreases |rows|
  {
    if rows != [] {
      var n := |rows| - 1;
      assert rows[n] in rows;
      ElsewhereAll(rows[..n], k);
      assert rows == rows[..n] + [rows[n]];
    }
  }

  lemma {:induction false} DeleteRowsLeave(site: Site, now: real, lost: nat -> set<CacheOp>, n: nat, s: Session,
                                           k: string, dependents: seq<string>)
    ensures var w := DeleteRows(site, now, lost, n, s, k, dependents);
            && (w.Saved? || w.CutShort? || w == Unchanged)
            && (w == Unchanged <==> n == 0 && HasNone(s.rows, k))
            && (w.Saved? ==> w.session.rows == Elsewhere(s.rows, k))
            && (w.CutShort? ==> Elsewhere(w.session.rows, k) == Elsewhere(s.rows, k) && |w.session.rows| < |s.rows|)
    decreases |s.rows|
  {
    NoneIsFirst(s.rows, k);
    if FirstRow(s.rows, k).None? {
      ElsewhereAll(s.rows, k);
    } else {
      RemoveFirstElsewhere(s.rows, k);
      var w := Notify(site, now, lost(n), s.(rows := RemoveFirst(s.rows, k)), k, dependents);
      NotifyKeepsRows(site, now, lost(n), s.(rows := RemoveFirst(s.rows, k)), k, dependents);
      if w.Saved? {
        DeleteRowsLeave(site, now, lost, n + 1, w.session, k, dependents);
      }
    }
  }

  /** Deleting a setting changes nothing exactly if it has no row. Otherwise, where it runs to its end,
      all its global rows are gone; where it is cut short some are, and at least one; and no other row
      is touched. */
  lemma Deletes(site: Site, now: real, lost: nat -> set<CacheOp>, s: Session, k: string, dependents: seq<string>)
    requires k in site.fields && !site.fields[k].readOnly && k !in s.proc.marked
    ensures var w := DelLocal(site, now, lost, s, k, dependents);
            && (w.Saved? || w.CutShort? || w == Unchanged)
            && (w == Unchanged <==> HasNone(s.rows, k))
            && (w.Saved? ==> w.session.rows == Elsewhere(s.rows, k))
            && (w.CutShort? ==> Elsewhere(w.session.rows, k) == Elsewhere(s.rows, k) && |w.session.rows| < |s.rows|)
  {
    DeleteRowsLeave(site, now, lost, 0, s, k, dependents);
  }

  /** Taking the setting's first row away and sending the signal ends as `w`. */
  ghost predicate TakesFirst(site: Site, now: real, lost: set<CacheOp>, s: Session, k: string, dependents: seq<string>,
                             w: Written) {
    exists i: nat :: IsFirst(s.rows, i, k)
      && w == Notify(site, now, lost, s.(rows := s.rows[..i] + s.rows[i + 1..]), k, dependents)
  }

  /** Deletions in turn: `at[i + 1]` is what taking the first row of `at[i]` away leaves; the last may be cut
      short, and if it is not, no row is left. */
  ghost predicate DeletedInTurn(site: Site, now: real, lost: nat -> set<CacheOp>, k: string, dependents: seq<string>,
                                at: seq<Session>, cut: bool) {
    && |at| > 1 && (!cut ==> HasNone(at[|at| - 1].rows, k))
    && forall i :: 0 <= i < |at| - 1 ==>
         TakesFirst(site, now, lost(i), at[i], k, dependents,
                    if cut && i == |at| - 2 then CutShort(at[i + 1]) else Saved(at[i + 1]))
  }

  lemma {:induction false} RemoveFirstIs(rows: seq<Row>, i: nat, k: string)
    requires IsFirst(rows, i, k)
    ensures RemoveFirst(rows, k) == rows[..i] + rows[i + 1..]
  {
    if i > 0 {
      var rest := rows[1..];
      assert !IsGlobal(rows[0], k) && IsFirst(rest, i - 1, k);
      RemoveFirstIs(rest, i - 1, k);
      assert rows[..i] == [rows[0]] + rest[..i - 1];
      assert rows[i + 1..] == rest[i..];
    }
  }

  lemma TakesFirstIs(site: Site, now: real, lost: set<CacheOp>, s: Session, k: string, dependents: seq<string>,
                     w: Written)
    requires TakesFirst(site, now, lost, s, k, dependents, w)
    ensures FirstRow(s.rows, k).Some?
    ensures Notify(site, now, lost, s.(rows := RemoveFirst(s.rows, k)), k, dependents) == w
  {
    var i: nat :| IsFirst(s.rows, i, k)
                  && w == Notify(site, now, lost, s.(rows := s.rows[..i] + s.rows[i + 1..]), k, dependents);
    FirstIsFirst(s.rows, i, k);
    RemoveFirstIs(s.rows, i, k);
  }

  lemma {:induction false} DeletesFrom(site: Site, now: real, lost: nat -> set<CacheOp>, n: nat, k: string,
                                       dependents: seq<string>, at: seq<Session>, cut: bool)
    requires DeletedInTurn(site, now, lost, k, dependents, at, cut) && n < |at| - (if cut then 1 else 0)
    ensures DeleteRows(site, now, lost, n, at[n], k, dependents) ==
            if cut then CutShort(at[|at| - 1]) else Saved(at[|at| - 1])
    decreases |at| - n
  {
    if n == |at| - 1 {
      NoneIsFirst(at[n].rows, k);
    } else {
      TakesFirstIs(site, now, lost(n), at[n], k, dependents,
                   if cut && n == |at| - 2 then CutShort(at[n + 1]) else Saved(at[n + 1]));
      if !(cut && n == |at| - 2) {
        DeletesFrom(site, now, lost, n + 1, k, dependents, at, cut);
      }
    }
  }

  /** A deletion takes the setting's rows away from the first on, sending the signal after each, until none is
      left, or until an exception cuts one of the signals short. */
  lemma DeletionSignals(site: Site, now: real, lost: nat -> set<CacheOp>, k: string, dependents: seq<string>,
                        at: seq<Session>, cut: bool)
    requires DeletedInTurn(site, now, lost, k, dependents, at, cut)
    requires k in site.fields && !site.fields[k].readOnly && k !in at[0].proc.marked
    ensures DelLocal(site, now, lost, at[0], k, dependents) ==
            if cut then CutShort(at[|at| - 1]) else Saved(at[|at| - 1])
  {
    DeletesFrom(site, now, lost, 0, k, dependents, at, cut);
  }
}
