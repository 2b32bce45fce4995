/**
 What an assignment does beyond its own key: a dependent with a callable default is recomputed
 from the new value, and every other setting resolves as before.
 */
module SettingsDependents {
  import opened Helpers
  import opened SettingsModel
  import opened SettingsCache
  import opened SettingsFreshness
  import opened SettingsComputed
  import opened SettingsWrites

  /******* Dependents with callable defaults *******/

  /** `d` is nowhere cached, or this process holds a live memo of the right answer. */
  ghost predicate NotStale(site: Site, now: real, p: Proc, c: Cache, d: string, o: Outcome) {
    || (d !in p.memo && d !in c.values)
    || (d in p.memo && now < p.memo[d].expires && p.memo[d].value == o)
  }

  /** A computed setting cannot be had: the preload its read makes fails, or its source has no live
      memo then and cannot be read. */
  ghost predicate CannotCompute(site: Site, rows: seq<Row>, now: real, lost: set<CacheOp>, p: Proc, c: Cache, k: string)
    requires k in site.fields
  {
    var pre := Preload(site, rows, now, lost, p, c);
    !pre.ok || (!HasMemo(pre.proc, k, now) && CannotRead(site, rows, now, lost, pre.proc, pre.cache, k))
  }

  /** The tracked source resolves to `v` now, and what is held of it says nothing else. */
  ghost predicate Settled(site: Site, rows: seq<Row>, now: real, p: Proc, c: Cache, k: string, v: Value,
                          sheltered: bool)
    requires k in site.fields
  {
    var hist := [Sighting(now, DirectRead(site, rows, k))];
    Present(site, hist, rows, now, k) && Good(site, hist, now, p, c, k, sheltered)
      && DirectRead(site, rows, k) == Resolved(v)
  }

  /** Recomputing `d` reads its source, and computes from it unless that read fails. */
  lemma RecomputeDependent(site: Site, now: real, lost: set<CacheOp>, rows: seq<Row>, p: Proc, c: Cache, k: string,
                           d: string, v: Value, sheltered: bool)
    requires ComputedFrom(site, d, k) && d !in p.marked
    requires (sheltered ==> Sheltered(site, lost, k)) && Settled(site, rows, now, p, c, k, v, sheltered)
    ensures var a := Recompute(site, rows, now, lost, p, c, d, Absent);
            var fails := !HasMemo(p, k, now) && CannotRead(site, rows, now, lost, p, c, k);
            && a.outcome == (if fails then Raised else ComputedOutcome(site, d, v))
               && (fails && sheltered ==> !IsClear(site, rows, lost, k))
            && (d !in p.memo ==> d !in a.proc.memo) && (fails && d !in c.values ==> d !in a.cache.values)
  {
    ReadKeeps(site, [Sighting(now, DirectRead(site, rows, k))], rows, now, lost, p, c, k, sheltered, k);
    ReadLeaves(site, rows, now, lost, p, c, d, k);
  }

  /** Reading a computed setting that is not stale computes it anew, or fails exactly where it has
      no live memo and its source cannot be had. */
  lemma ReadDependent(site: Site, now: real, lost: set<CacheOp>, rows: seq<Row>, p: Proc, c: Cache, k: string,
                      d: string, v: Value, sheltered: bool)
    requires ComputedFrom(site, d, k) && NotStale(site, now, p, c, d, ComputedOutcome(site, d, v))
    requires (sheltered ==> Sheltered(site, lost, k)) && Settled(site, rows, now, p, c, k, v, sheltered)
    ensures var a := GetMemoized(site, rows, now, lost, p, c, d);
            var fails := !HasMemo(p, d, now) && CannotCompute(site, rows, now, lost, p, c, k);
            && a.outcome == (if fails then Raised else ComputedOutcome(site, d, v))
               && (fails && sheltered ==> !IsClear(site, rows, lost, k))
            && NotStale(site, now, a.proc, a.cache, d, ComputedOutcome(site, d, v))
  {
    if !HasMemo(p, d, now) {
      var hist := [Sighting(now, DirectRead(site, rows, k))];
      PreloadKeeps(site, hist, rows, now, lost, p, c, k, sheltered);
      PreloadLeaves(site, rows, now, lost, p, c, d);
      var pre := Preload(site, rows, now, lost, p, c);
      if pre.ok {
        assert d !in pre.proc.marked;
        RecomputeDependent(site, now, lost, rows, pre.proc, pre.cache, k, d, v, sheltered);
      }
    }
  }

  lemma {:induction false} ReadAllDependent(site: Site, now: real, lost: set<CacheOp>, rows: seq<Row>, p: Proc,
                                            c: Cache, k: string, d: string, v: Value, sheltered: bool,
                                            keys: seq<string>)
    requires ComputedFrom(site, d, k) && NotStale(site, now, p, c, d, ComputedOutcome(site, d, v))
    requires (sheltered ==> Sheltered(site, lost, k)) && Settled(site, rows, now, p, c, k, v, sheltered)
    ensures var a := ReadAll(site, rows, now, lost, p, c, keys);
            NotStale(site, now, a.proc, a.cache, d, ComputedOutcome(site, d, v))
    decreases |keys|
  {
    if keys != [] {
      if keys[0] !in site.fields {
        ReadAllDependent(site, now, lost, rows, p, c, k, d, v, sheltered, keys[1..]);
      } else {
        var a := GetMemoized(site, rows, now, lost, p, c, keys[0]);
        ReadKeeps(site, [Sighting(now, DirectRead(site, rows, k))], rows, now, lost, p, c, k, sheltered, keys[0]);
        if keys[0] == d {
          ReadDependent(site, now, lost, rows, p, c, k, d, v, sheltered);
        } else {
          ReadLeaves(site, rows, now, lost, p, c, d, keys[0]);
        }
        ReadAllDependent(site, now, lost, rows, a.proc, a.cache, k, d, v, sheltered, keys[1..]);
      }
    }
  }

  /** After the signal for `k`, whatever is lost but its delete, the writer reads each dependent
      computed from it as computed from the value the table now holds, or fails exactly where it has
      no live memo of it and cannot have its source; in shelter it can. */
  lemma DependentRecomputed(site: Site, now: real, lost: set<CacheOp>, s: Session, k: string, d: string, v: Value,
                            sheltered: bool, dependents: seq<string>, later: set<CacheOp>)
    requires ComputedFrom(site, d, k) && k in site.fields[d].dependsOn
    requires Trackable(site, k) && TableOk(site, s.rows, k) && ProcOk(site, s.proc) && DeleteMany !in lost
    requires sheltered ==> Sheltered(site, lost, k) && Sheltered(site, later, k)
    requires DirectRead(site, s.rows, k) == Resolved(v)
    ensures var w := Notify(site, now, lost, s, k, dependents);
            && (w.Saved? || w.CutShort?) && w.session.rows == s.rows
            && var s1 := w.session;
               var fails := !HasMemo(s1.proc, d, now) && CannotCompute(site, s1.rows, now, later, s1.proc, s1.cache, k);
               && Reads(site, now, later, s1, d)
                  == (if fails then Failed else Resolve(site, d, ComputedOutcome(site, d, v)))
               && (fails && sheltered ==> !IsClear(site, s1.rows, later, k))
  {
    var hist := [Sighting(now, DirectRead(site, s.rows, k))];
    NotifyFreshens(site, hist, now, lost, s, k, sheltered, k, dependents);
    var p := s.proc.(memo := map[]);
    var c := Evict(s.cache, {k} + Dependents(site, k), lost);
    ReadAllDependent(site, now, lost, s.rows, p, c, k, d, v, sheltered, [k] + dependents);
    var s1 := Notify(site, now, lost, s, k, dependents).session;
    ReadDependent(site, now, later, s1.rows, s1.proc, s1.cache, k, d, v, sheltered);
  }

  /******* Other settings *******/

  /** Of `k` the second table holds the same first row, and no new row. */
  ghost predicate SameRows(rows: seq<Row>, rows1: seq<Row>, k: string) {
    FirstRow(rows1, k) == FirstRow(rows, k) && forall r | r in rows1 && IsGlobal(r, k) :: r in rows
  }

  lemma PutLeavesOthers(rows: seq<Row>, r: Row, v: Value, k: string, other: string)
    requires DistinctPks(rows) && FirstRow(rows, k) == Some(r) && other != k
    ensures SameRows(rows, PutValue(rows, r.pk, v), other)
  {
    FirstRowIsGlobal(rows, k);
    FirstRowIsGlobal(rows, other);
    FirstRowAfterPut(rows, r, v, other);
    forall x | x in PutValue(rows, r.pk, v) && IsGlobal(x, other)
      ensures x in rows
    {
      PutKeepsOtherRows(rows, r, v, x);
    }
  }

  lemma PutKeepsOtherRows(rows: seq<Row>, r: Row, v: Value, x: Row)
    requires DistinctPks(rows) && r in rows && x in PutValue(rows, r.pk, v) && x != r.(value := v)
    ensures x in rows
  {
    PutMembers(rows, r.pk, v);
    var j :| 0 <= j < |PutValue(rows, r.pk, v)| && PutValue(rows, r.pk, v)[j] == x;
    var i :| 0 <= i < |rows| && rows[i] == r;
    assert rows[j] in rows;
  }

  lemma {:induction false} RemoveLeavesOthers(rows: seq<Row>, k: string, other: string)
    requires other != k
    ensures FirstRow(RemoveFirst(rows, k), other) == FirstRow(rows, other)
    ensures forall r | r in RemoveFirst(rows, k) :: r in rows
    decreases |rows|
  {
    if rows != [] && !IsGlobal(rows[0], k) {
      RemoveLeavesOthers(rows[1..], k, other);
      assert rows[0] in rows;
      assert ([rows[0]] + RemoveFirst(rows[1..], k))[1..] == RemoveFirst(rows[1..], k);
    }
  }

  /** Another key's answer, table and freshness are in `s1` what they were in `s`. */
  ghost predicate OtherKept(site: Site, hist: seq<Sighting>, now: real, s: Session, s1: Session, other: string,
                            sheltered: bool)
    requires other in site.fields
  {
    && DirectRead(site, s1.rows, other) == DirectRead(site, s.rows, other)
    && Present(site, hist, s1.rows, now, other) && Good(site, hist, now, s1.proc, s1.cache, other, sheltered)
  }

  /** The signal for one key keeps another key's freshness, table and answer. */
  lemma NotifyLeaves(site: Site, hist: seq<Sighting>, now: real, lost: set<CacheOp>, s: Session, rows1: seq<Row>,
                     k: string, other: string, sheltered: bool, dependents: seq<string>)
    requires Present(site, hist, s.rows, now, other) && Good(site, hist, now, s.proc, s.cache, other, sheltered)
    requires SameRows(s.rows, rows1, other) && (sheltered ==> Sheltered(site, lost, other))
    ensures var w := Notify(site, now, lost, s.(rows := rows1), k, dependents);
            (w.Saved? || w.CutShort?) && w.session.rows == rows1
              && OtherKept(site, hist, now, s, w.session, other, sheltered)
  {
    NotifyFreshens(site, hist, now, lost, s.(rows := rows1), other, sheltered, k, dependents);
  }

  /** Assigning one setting, whatever is lost, leaves every other as it was: the table gives the
      same answer, and whatever freshness its cached and memoized entries had, they keep. */
  lemma SetLeavesOthers(site: Site, hist: seq<Sighting>, now: real, lost: nat -> set<CacheOp>, s: Session, pk: Pk,
                        k: string, value: Value, other: string, sheltered: bool, dependents: seq<string>)
    requires k in site.fields && other != k && DistinctPks(s.rows) && forall r | r in s.rows :: r.pk != pk
    requires Present(site, hist, s.rows, now, other) && Good(site, hist, now, s.proc, s.cache, other, sheltered)
    requires sheltered ==> HasLastingId(site, other) && forall n: nat :: Spared(site, lost(n), other)
    ensures var w := SetLocal(site, now, lost, s, pk, k, value, dependents);
            w.Saved? || w.CutShort? ==> OtherKept(site, hist, now, s, w.session, other, sheltered)
  {
    if !IsReadOnly(site, k in s.proc.marked, k) && DbValue(site, k, value).Some? {
      var v := DbValue(site, k, value).value;
      match FirstRow(s.rows, k)
      case Some(r) =>
        UpdateLeavesOthers(site, hist, now, lost(0), s, r, k, v, other, sheltered, dependents);
      case None =>
        SaveNewLeavesOthers(site, hist, now, lost, s, pk, k, v, other, sheltered, dependents);
    }
  }

  lemma UpdateLeavesOthers(site: Site, hist: seq<Sighting>, now: real, lost: set<CacheOp>, s: Session, r: Row,
                           k: string, v: Value, other: string, sheltered: bool, dependents: seq<string>)
    requires DistinctPks(s.rows) && other != k && FirstRow(s.rows, k) == Some(r)
    requires Present(site, hist, s.rows, now, other) && Good(site, hist, now, s.proc, s.cache, other, sheltered)
    requires sheltered ==> Sheltered(site, lost, other)
    ensures var w := SaveChanged(site, now, lost, s, r.pk, k, v, dependents);
            (w.Saved? || w.CutShort?) && OtherKept(site, hist, now, s, w.session, other, sheltered)
  {
    var sealed := Sealed(site, k, Some(r.pk), v);
    PutLeavesOthers(s.rows, r, sealed, k, other);
    NotifyLeaves(site, hist, now, lost, s, PutValue(s.rows, r.pk, sealed), k, other, sheltered, dependents);
  }

  lemma AppendLeavesOthers(rows: seq<Row>, r: Row, k: string, other: string)
    requires DistinctPks(rows) && IsGlobal(r, k) && other != k && FirstRow(rows, k).None?
    requires forall x | x in rows :: x.pk != r.pk
    ensures SameRows(rows, rows + [r], other) && DistinctPks(rows + [r]) && FirstRow(rows + [r], k) == Some(r)
  {
    FirstRowAfterAppend(rows, r, other);
    FirstRowAfterAppend(rows, r, k);
  }

  /** A new row, inserted empty and saved again where the key is encrypted. */
  lemma SaveNewLeavesOthers(site: Site, hist: seq<Sighting>, now: real, lost: nat -> set<CacheOp>, s: Session, pk: Pk,
                            k: string, v: Value, other: string, sheltered: bool, dependents: seq<string>)
    requires DistinctPks(s.rows) && other != k && FirstRow(s.rows, k).None? && forall r | r in s.rows :: r.pk != pk
    requires Present(site, hist, s.rows, now, other) && Good(site, hist, now, s.proc, s.cache, other, sheltered)
    requires sheltered ==> HasLastingId(site, other) && forall n: nat :: Spared(site, lost(n), other)
    ensures var w := SaveNew(site, now, lost, s, pk, k, v, dependents);
            (w.Saved? || w.CutShort?) && OtherKept(site, hist, now, s, w.session, other, sheltered)
  {
    var r := Row(pk, k, None, if IsEncrypted(site, k) then Str("") else v);
    var rows1 := s.rows + [r];
    AppendLeavesOthers(s.rows, r, k, other);
    NotifyLeaves(site, hist, now, lost(0), s, rows1, k, other, sheltered, dependents);
    var w := Notify(site, now, lost(0), s.(rows := rows1), k, dependents);
    if IsEncrypted(site, k) && w.Saved? {
      UpdateLeavesOthers(site, hist, now, lost(1), w.session, r, k, v, other, sheltered, dependents);
    }
  }

  /** So does deleting one, each of its rows with a signal of its own. */
  lemma DelLeavesOthers(site: Site, hist: seq<Sighting>, now: real, lost: nat -> set<CacheOp>, s: Session, k: string,
                        other: string, sheltered: bool, dependents: seq<string>)
    requires k in site.fields && other != k
    requires Present(site, hist, s.rows, now, other) && Good(site, hist, now, s.proc, s.cache, other, sheltered)
    requires sheltered ==> HasLastingId(site, other) && forall n: nat :: Spared(site, lost(n), other)
    ensures var w := DelLocal(site, now, lost, s, k, dependents);
            w.Saved? || w.CutShort? ==> OtherKept(site, hist, now, s, w.session, other, sheltered)
  {
    DeleteRowsLeaves(site, hist, now, lost, 0, s, k, other, sheltered, dependents);
  }

  lemma {:induction false} DeleteRowsLeaves(site: Site, hist: seq<Sighting>, now: real, lost: nat -> set<CacheOp>,
                                            n: nat, s: Session, k: string, other: string, sheltered: bool,
                                            dependents: seq<string>)
    requires other != k
    requires Present(site, hist, s.rows, now, other) && Good(site, hist, now, s.proc, s.cache, other, sheltered)
    requires sheltered ==> HasLastingId(site, other) && forall n: nat :: Spared(site, lost(n), other)
    ensures var w := DeleteRows(site, now, lost, n, s, k, dependents);
            w.Saved? || w.CutShort? ==> OtherKept(site, hist, now, s, w.session, other, sheltered)
    decreases |s.rows|
  {
    if FirstRow(s.rows, k).Some? {
      var rows1 := RemoveFirst(s.rows, k);
      RemoveLeavesOthers(s.rows, k, other);
      NotifyLeaves(site, hist, now, lost(n), s, rows1, k, other, sheltered, dependents);
      var w := Notify(site, now, lost(n), s.(rows := rows1), k, dependents);
      if w.Saved? {
        DeleteRowsLeaves(site, hist, now, lost, n + 1, w.session, k, other, sheltered, dependents);
      }
    }
  }
}
