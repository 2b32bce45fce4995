/**
 Assigning and deleting settings: the table change, the two-phase save of a new encrypted row,
 and the signal that invalidates and re-reads. A process reads back what it wrote, and every
 direct dependent is recomputed from it.
 */
module SettingsWrites {
  import opened Helpers
  import opened SettingsModel
  import opened SettingsCache
  import opened SettingsFreshness

  /** The table together with one process's view of it. */
  datatype Session = Session(rows: seq<Row>, proc: Proc, cache: Cache)

  /** The end of a write: done, nothing to do, refused, or cut short by an exception that a
      re-read of the signal handler let through. */
  datatype Written = Saved(session: Session) | Unchanged | ReadOnlySetting | Invalid | CutShort(session: Session)

  function Notify(site: Site, now: real, lost: set<CacheOp>, s: Session, k: string, dependents: seq<string>): Written {
    var a := SettingChanged(site, s.rows, now, lost, s.proc, s.cache, k, dependents);
    var s1 := s.(proc := a.proc, cache := a.cache);
    if a.outcome.Raised? then CutShort(s1) else Saved(s1)
  }

  function PutValue(rows: seq<Row>, pk: Pk, v: Value): seq<Row> {
    if rows == [] then []
    else [if rows[0].pk == pk then rows[0].(value := v) else rows[0]] + PutValue(rows[1..], pk, v)
  }

  /** Saving an existing row; `lost` gives the lost operations of each signal in turn. */
  function SaveChanged(site: Site, now: real, lost: set<CacheOp>, s: Session, pk: Pk, k: string, v: Value,
                       dependents: seq<string>): Written {
    Notify(site, now, lost, s.(rows := PutValue(s.rows, pk, Sealed(site, k, Some(pk), v))), k, dependents)
  }

  /** Saving a new row: an encrypted one is first inserted empty, to learn its primary key, and
      then saved again with its value, each save sending the signal. */
  function SaveNew(site: Site, now: real, lost: nat -> set<CacheOp>, s: Session, pk: Pk, k: string, v: Value,
                   dependents: seq<string>): Written {
    if IsEncrypted(site, k) then
      match Notify(site, now, lost(0), s.(rows := s.rows + [Row(pk, k, None, Str(""))]), k, dependents)
      case Saved(s1) => SaveChanged(site, now, lost(1), s1, pk, k, v, dependents)
      case other => other
    else
      Notify(site, now, lost(0), s.(rows := s.rows + [Row(pk, k, None, v)]), k, dependents)
  }

  /** The JSON form an assigned value is stored in, when the field accepts it. */
  function DbValue(site: Site, k: string, value: Value): Option<Value> {
    match site.represent(k, value)
    case None => None
    case Some(data) =>
      match site.validate(k, data)
      case None => None
      case Some(x) => site.represent(k, x)
  }

  function SetLocal(site: Site, now: real, lost: nat -> set<CacheOp>, s: Session, pk: Pk, k: string, value: Value,
                    dependents: seq<string>): Written
    requires k in site.fields
  {
    if IsReadOnly(site, k in s.proc.marked, k) then ReadOnlySetting
    else
      match DbValue(site, k, value)
      case None => Invalid
      case Some(v) =>
        match FirstRow(s.rows, k)
        case None => SaveNew(site, now, lost, s, pk, k, v, dependents)
        case Some(r) => if r.value == v then Unchanged else SaveChanged(site, now, lost(0), s, r.pk, k, v, dependents)
  }

  function RemoveFirst(rows: seq<Row>, k: string): (r: seq<Row>)
    ensures FirstRow(rows, k).Some? ==> |r| < |rows|
  {
    if rows == [] then []
    else if IsGlobal(rows[0], k) then rows[1..]
    else [rows[0]] + RemoveFirst(rows[1..], k)
  }

  function DeleteRows(site: Site, now: real, lost: nat -> set<CacheOp>, n: nat, s: Session, k: string,
                      dependents: seq<string>): Written
    decreases |s.rows|
  {
    if FirstRow(s.rows, k).None? then (if n == 0 then Unchanged else Saved(s))
    else
      match Notify(site, now, lost(n), s.(rows := RemoveFirst(s.rows, k)), k, dependents)
      case Saved(s1) => DeleteRows(site, now, lost, n + 1, s1, k, dependents)
      case other => other
  }

  /** Deleting a setting deletes each of its global rows, each deletion sending the signal. */
  function DelLocal(site: Site, now: real, lost: nat -> set<CacheOp>, s: Session, k: string,
                    dependents: seq<string>): Written
    requires k in site.fields
  {
    if IsReadOnly(site, k in s.proc.marked, k) then ReadOnlySetting
    else DeleteRows(site, now, lost, 0, s, k, dependents)
  }

  /** What a process reads of `k` now. */
  function Reads(site: Site, now: real, lost: set<CacheOp>, s: Session, k: string): Effective
    requires k in site.fields
  {
    Resolve(site, k, GetMemoized(site, s.rows, now, lost, s.proc, s.cache, k).outcome)
  }

  /******* Table facts *******/

  lemma {:induction false} FirstRowAfterAppend(rows: seq<Row>, r: Row, k: string)
    ensures FirstRow(rows + [r], k)
            == (if FirstRow(rows, k).Some? then FirstRow(rows, k) else if IsGlobal(r, k) then Some(r) else None)
  {
    if rows == [] {
      assert rows + [r] == [r];
    } else {
      assert (rows + [r])[1..] == rows[1..] + [r];
      FirstRowAfterAppend(rows[1..], r, k);
    }
  }

  /** Primary keys are distinct, so changing one row's value changes no other setting's first row. */
  ghost predicate DistinctPks(rows: seq<Row>) {
    forall i, j :: 0 <= i < j < |rows| ==> rows[i].pk != rows[j].pk
  }

  lemma {:induction false} FirstRowAfterPut(rows: seq<Row>, r: Row, v: Value, k: string)
    requires DistinctPks(rows) && r in rows
    ensures FirstRow(PutValue(rows, r.pk, v), k) ==
            (if FirstRow(rows, k) == Some(r) then Some(r.(value := v)) else FirstRow(rows, k))
  {
    if rows[0] == r {
      PutElsewhere(rows[1..], r.pk, v);
      FirstRowIsGlobal(rows[1..], k);
    } else {
      var i :| 0 <= i < |rows| && rows[i] == r;
      assert rows[0].pk != rows[i].pk;
      FirstRowAfterPut(rows[1..], r, v, k);
    }
  }

  lemma {:induction false} PutElsewhere(rows: seq<Row>, pk: Pk, v: Value)
    requires forall r | r in rows :: r.pk != pk
    ensures PutValue(rows, pk, v) == rows
  {
    if rows != [] {
      assert rows[0] in rows;
      PutElsewhere(rows[1..], pk, v);
    }
  }

  /******* The signal *******/

  lemma {:induction false} ReadAllKeeps(site: Site, hist: seq<Sighting>, rows: seq<Row>, now: real, lost: set<CacheOp>,
                                        p: Proc, c: Cache, k: string, sheltered: bool, keys: seq<string>)
    requires Present(site, hist, rows, now, k) && (sheltered ==> Sheltered(site, lost, k))
    requires Good(site, hist, now, p, c, k, sheltered)
    ensures var a := ReadAll(site, rows, now, lost, p, c, keys); Good(site, hist, now, a.proc, a.cache, k, sheltered)
    decreases |keys|
  {
    if keys != [] {
      if keys[0] !in site.fields {
        ReadAllKeeps(site, hist, rows, now, lost, p, c, k, sheltered, keys[1..]);
      } else {
        ReadKeeps(site, hist, rows, now, lost, p, c, k, sheltered, keys[0]);
        var a := GetMemoized(site, rows, now, lost, p, c, keys[0]);
        ReadAllKeeps(site, hist, rows, now, lost, a.proc, a.cache, k, sheltered, keys[1..]);
      }
    }
  }

  lemma {:induction false} ReadAllKeepsProc(site: Site, rows: seq<Row>, now: real, lost: set<CacheOp>, p: Proc,
                                            c: Cache, keys: seq<string>)
    requires ProcOk(site, p)
    ensures ProcOk(site, ReadAll(site, rows, now, lost, p, c, keys).proc)
    decreases |keys|
  {
    if keys != [] {
      if keys[0] !in site.fields {
        ReadAllKeepsProc(site, rows, now, lost, p, c, keys[1..]);
      } else {
        ReadKeepsProc(site, rows, now, lost, p, c, keys[0]);
        var a := GetMemoized(site, rows, now, lost, p, c, keys[0]);
        ReadAllKeepsProc(site, rows, now, lost, a.proc, a.cache, keys[1..]);
      }
    }
  }

  lemma NotifyKeepsProc(site: Site, now: real, lost: set<CacheOp>, s: Session, changed: string, dependents: seq<string>)
    requires ProcOk(site, s.proc)
    ensures var w := Notify(site, now, lost, s, changed, dependents);
            (w.Saved? || w.CutShort?) && w.session.rows == s.rows && ProcOk(site, w.session.proc)
  {
    ReadAllKeepsProc(site, s.rows, now, lost, s.proc.(memo := map[]),
                     Evict(s.cache, {changed} + Dependents(site, changed), lost), [changed] + dependents);
  }

  /** The signal keeps what it does not invalidate, and makes what it does invalidate fresh with
      respect to the current table alone. */
  lemma NotifyFreshens(site: Site, hist: seq<Sighting>, now: real, lost: set<CacheOp>, s: Session, k: string,
                       sheltered: bool, changed: string, dependents: seq<string>)
    requires Present(site, hist, s.rows, now, k) && (sheltered ==> Sheltered(site, lost, k)) && ProcOk(site, s.proc)
    requires Good(site, hist, now, s.proc, s.cache, k, sheltered)
             || (DeleteMany !in lost && k in {changed} + Dependents(site, changed))
    ensures var w := Notify(site, now, lost, s, changed, dependents);
            (w.Saved? || w.CutShort?) && w.session.rows == s.rows
              && Good(site, hist, now, w.session.proc, w.session.cache, k, sheltered)
  {
    var p := s.proc.(memo := map[]);
    var c := Evict(s.cache, {changed} + Dependents(site, changed), lost);
    ReadAllKeeps(site, hist, s.rows, now, lost, p, c, k, sheltered, [changed] + dependents);
  }

  /******* Read your writes *******/

  /** A read answers as the table does, unless it has no live memo and cannot be made. */
  ghost predicate ReadsRight(site: Site, now: real, lost: set<CacheOp>, s: Session, k: string)
    requires k in site.fields
  {
    Reads(site, now, lost, s, k) ==
    if !HasMemo(s.proc, k, now) && CannotRead(site, s.rows, now, lost, s.proc, s.cache, k) then Failed
      else DirectRead(site, s.rows, k)
  }

  /** With one sighting, being fresh is being right. */
  lemma GoodReadsRight(site: Site, now: real, lost: set<CacheOp>, s: Session, k: string, sheltered: bool)
    requires k in site.fields && (sheltered ==> Sheltered(site, lost, k))
    requires var hist := [Sighting(now, DirectRead(site, s.rows, k))];
             Present(site, hist, s.rows, now, k) && Good(site, hist, now, s.proc, s.cache, k, sheltered)
    ensures ReadsRight(site, now, lost, s, k)
    ensures sheltered && IsClear(site, s.rows, lost, k) ==> Reads(site, now, lost, s, k) == DirectRead(site, s.rows, k)
  {
    ReadKeeps(site, [Sighting(now, DirectRead(site, s.rows, k))], s.rows, now, lost, s.proc, s.cache, k, sheltered, k);
  }

  /** Right after a signal whose delete took effect, whatever else is lost, the writer and every
      process without a live memo of the key read the changed setting, and each directly dependent
      writable setting, as the table now has it, or cannot read it; in shelter they can. */
  lemma ReadAfterSignal(site: Site, now: real, lost: set<CacheOp>, s: Session, k: string, sheltered: bool,
                        changed: string, dependents: seq<string>, reader: Proc, later: set<CacheOp>)
    requires Trackable(site, k) && TableOk(site, s.rows, k)
    requires sheltered ==> Sheltered(site, lost, k) && Sheltered(site, later, k)
    requires DeleteMany !in lost && (k == changed || changed in site.fields[k].dependsOn)
    requires ProcOk(site, s.proc) && ProcOk(site, reader) && !HasMemo(reader, k, now)
    ensures var w := Notify(site, now, lost, s, changed, dependents);
            && (w.Saved? || w.CutShort?) && w.session.rows == s.rows
            && ReadsRight(site, now, later, w.session, k)
            && ReadsRight(site, now, later, w.session.(proc := reader), k)
            && (sheltered && IsClear(site, s.rows, later, k) ==>
                  && Reads(site, now, later, w.session, k) == DirectRead(site, s.rows, k)
                  && Reads(site, now, later, w.session.(proc := reader), k) == DirectRead(site, s.rows, k))
  {
    var hist := [Sighting(now, DirectRead(site, s.rows, k))];
    NotifyFreshens(site, hist, now, lost, s, k, sheltered, changed, dependents);
    var w := Notify(site, now, lost, s, changed, dependents);
    GoodReadsRight(site, now, later, w.session, k, sheltered);
    GoodReadsRight(site, now, later, w.session.(proc := reader), k, sheltered);
  }

  /** A stored value that reads back: no sentinel, and plain text for an encrypted field. A null
      reads back as unset, which needs a default that does too. */
  ghost predicate ReadsBack(site: Site, k: string, v: Value)
    requires k in site.fields
  {
    !IsSentinel(v) && (IsEncrypted(site, k) ==> v.Str? && IsPlain(v)) && (v == Null ==> DefaultReadsAsUnset(site, k))
  }

  ghost predicate AtMostOneRow(rows: seq<Row>, k: string) {
    forall i, j :: 0 <= i < j < |rows| ==> !(IsGlobal(rows[i], k) && IsGlobal(rows[j], k))
  }

  lemma SealedReadable(site: Site, r: Row, v: Value)
    requires Lawful(site.cipher) && (IsEncrypted(site, r.key) ==> v.Str? && IsPlain(v))
    ensures RowValue(site, r.key, r.(value := Sealed(site, r.key, Some(r.pk), v))) == Some(v)
  {
  }

  lemma {:induction false} PutMembers(rows: seq<Row>, pk: Pk, v: Value)
    ensures |PutValue(rows, pk, v)| == |rows|
    ensures forall i :: 0 <= i < |rows| ==>
            PutValue(rows, pk, v)[i] == (if rows[i].pk == pk then rows[i].(value := v) else rows[i])
  {
    if rows != [] {
      PutMembers(rows[1..], pk, v);
    }
  }

  /** The table after an update of the key's own row: it holds the new value and stays sound. */
  lemma UpdatedTable(site: Site, rows: seq<Row>, r: Row, k: string, v: Value)
    requires WellFormed(site) && k in site.fields && DistinctPks(rows) && (v == Null ==> AtMostOneRow(rows, k))
    requires FirstRow(rows, k) == Some(r) && ReadsBack(site, k, v)
    ensures var rows1 := PutValue(rows, r.pk, Sealed(site, k, Some(r.pk), v));
            && TableOk(site, rows1, k)
            && FirstRow(rows1, k) == Some(r.(value := Sealed(site, k, Some(r.pk), v)))
  {
    FirstRowIsGlobal(rows, k);
    var sealed := Sealed(site, k, Some(r.pk), v);
    FirstRowAfterPut(rows, r, sealed, k);
    PutMembers(rows, r.pk, sealed);
    SealedReadable(site, r, v);
    var rows1 := PutValue(rows, r.pk, sealed);
    var i :| 0 <= i < |rows| && rows[i] == r;
    forall j | 0 <= j < |rows|
      ensures v == Null && IsGlobal(rows1[j], k) ==> rows1[j].value == Null
    {
      assert rows[j] in rows;
      assert i < j ==> rows[i].pk != rows[j].pk;
      assert j < i ==> rows[j].pk != rows[i].pk;
    }
  }

  /** The table after inserting a row for a key that had none. */
  lemma InsertedTable(site: Site, rows: seq<Row>, pk: Pk, k: string, v: Value)
    requires WellFormed(site) && k in site.fields && DistinctPks(rows)
    requires FirstRow(rows, k).None? && ReadsBack(site, k, v) && forall r | r in rows :: r.pk != pk
    ensures var rows1 := rows + [Row(pk, k, None, Sealed(site, k, Some(pk), v))];
            && TableOk(site, rows1, k) && DistinctPks(rows1) && AtMostOneRow(rows1, k)
            && FirstRow(rows1, k) == Some(rows1[|rows|])
  {
    var r := Row(pk, k, None, Sealed(site, k, Some(pk), v));
    FirstRowAfterAppend(rows, r, k);
    FirstRowIsGlobal(rows, k);
    SealedReadable(site, r, v);
    forall i | 0 <= i < |rows|
      ensures !IsGlobal(rows[i], k) && rows[i].pk != pk
    {
      assert rows[i] in rows;
    }
  }

  /** Primary keys are distinct, and the one a new row will get is not among them. */
  ghost predicate WritableTable(site: Site, rows: seq<Row>, pk: Pk) {
    && WellFormed(site) && DistinctPks(rows)
    && (forall r | r in rows :: r.pk != pk)
  }

  /** Neither the re-reads of a signal nor the read after it lose a write of an encrypted key's
      entries. */
  ghost predicate ShelteredWrite(site: Site, lost: nat -> set<CacheOp>, later: set<CacheOp>, k: string)
    requires k in site.fields
  {
    Sheltered(site, later, k) && forall n: nat :: Spared(site, lost(n), k)
  }

  /** The signal that ends an assignment: the second for a new encrypted row. */
  function LastSignal(site: Site, rows: seq<Row>, k: string): nat {
    if FirstRow(rows, k).None? && IsEncrypted(site, k) then 1 else 0
  }

  /** An assignment that saves is read back by the writer as the value it stored, including through
      the two saves of a new encrypted row, provided the last signal's delete was not lost; or the
      writer cannot read, which in shelter it always can. */
  lemma SetThenRead(site: Site, now: real, lost: nat -> set<CacheOp>, s: Session, pk: Pk, k: string, value: Value,
                    dependents: seq<string>, later: set<CacheOp>, sheltered: bool)
    requires Trackable(site, k) && WritableTable(site, s.rows, pk) && ProcOk(site, s.proc)
    requires DbValue(site, k, value) == Some(Null) ==> AtMostOneRow(s.rows, k)
    requires DbValue(site, k, value).Some? && ReadsBack(site, k, DbValue(site, k, value).value)
    requires DeleteMany !in lost(LastSignal(site, s.rows, k))
    requires sheltered ==> ShelteredWrite(site, lost, later, k)
    requires SetLocal(site, now, lost, s, pk, k, value, dependents).Saved?
    ensures var s1 := SetLocal(site, now, lost, s, pk, k, value, dependents).session;
            && DirectRead(site, s1.rows, k) == StoredAnswer(site, k, DbValue(site, k, value).value)
            && ReadsRight(site, now, later, s1, k)
            && (sheltered && IsClear(site, s1.rows, later, k) ==>
                  Reads(site, now, later, s1, k) == StoredAnswer(site, k, DbValue(site, k, value).value))
  {
    var v := DbValue(site, k, value).value;
    match FirstRow(s.rows, k)
    case Some(r) =>
      SaveChangedReads(site, now, lost(0), s, r, k, v, dependents, later, sheltered);
    case None =>
      if IsEncrypted(site, k) {
        assert EncryptField(site.cipher, Some(pk), Str("")) == Str("") by { assert site.cipher.text(Str("")) == ""; }
        InsertedTable(site, s.rows, pk, k, Str(""));
        var s0 := s.(rows := s.rows + [Row(pk, k, None, Str(""))]);
        NotifyKeepsProc(site, now, lost(0), s0, k, dependents);
        var s1 := Notify(site, now, lost(0), s0, k, dependents).session;
        SaveChangedReads(site, now, lost(1), s1, s0.rows[|s.rows|], k, v, dependents, later, sheltered);
      } else {
        InsertedTable(site, s.rows, pk, k, v);
        ReadAfterSignal(site, now, lost(0), s.(rows := s.rows + [Row(pk, k, None, v)]), k, sheltered, k, dependents,
                        FreshProc, later);
      }
  }

  lemma SaveChangedReads(site: Site, now: real, lost: set<CacheOp>, s: Session, r: Row, k: string, v: Value,
                         dependents: seq<string>, later: set<CacheOp>, sheltered: bool)
    requires Trackable(site, k) && DistinctPks(s.rows) && (v == Null ==> AtMostOneRow(s.rows, k))
    requires ProcOk(site, s.proc)
    requires FirstRow(s.rows, k) == Some(r) && ReadsBack(site, k, v) && DeleteMany !in lost
    requires sheltered ==> Sheltered(site, lost, k) && Sheltered(site, later, k)
    ensures var w := SaveChanged(site, now, lost, s, r.pk, k, v, dependents);
            && (w.Saved? || w.CutShort?)
            && DirectRead(site, w.session.rows, k) == StoredAnswer(site, k, v)
            && ReadsRight(site, now, later, w.session, k)
            && (sheltered && IsClear(site, w.session.rows, later, k) ==>
                  Reads(site, now, later, w.session, k) == StoredAnswer(site, k, v))
  {
    UpdatedTable(site, s.rows, r, k, v);
    FirstRowIsGlobal(s.rows, k);
    SealedReadable(site, r, v);
    var s1 := s.(rows := PutValue(s.rows, r.pk, Sealed(site, k, Some(r.pk), v)));
    ReadAfterSignal(site, now, lost, s1, k, sheltered, k, dependents, FreshProc, later);
  }

  /******* Deletion *******/

  function CountRows(rows: seq<Row>, k: string): nat {
    if rows == [] then 0 else (if IsGlobal(rows[0], k) then 1 else 0) + CountRows(rows[1..], k)
  }

  lemma {:induction false} RemovedRows(rows: seq<Row>, k: string)
    requires FirstRow(rows, k).Some?
    ensures CountRows(RemoveFirst(rows, k), k) == CountRows(rows, k) - 1
    ensures forall r | r in RemoveFirst(rows, k) :: r in rows
    decreases |rows|
  {
    if !IsGlobal(rows[0], k) {
      RemovedRows(rows[1..], k);
      assert ([rows[0]] + RemoveFirst(rows[1..], k))[1..] == RemoveFirst(rows[1..], k);
      assert rows[0] in rows;
    }
  }

  lemma {:induction false} NoRowsLeft(rows: seq<Row>, k: string)
    ensures CountRows(rows, k) == 0 <==> FirstRow(rows, k).None?
    decreases |rows|
  {
    if rows != [] {
      NoRowsLeft(rows[1..], k);
    }
  }

  /** A deletion that runs to its end, one signal for each of the setting's rows however many there
      are, leaves no row, and the writer reading the default, provided the last signal's delete was
      not lost; or the writer cannot read, which in shelter it always can. */
  lemma {:induction false} DeleteThenRead(site: Site, now: real, lost: nat -> set<CacheOp>, n: nat, s: Session,
                                          k: string, dependents: seq<string>, later: set<CacheOp>, sheltered: bool)
    requires Trackable(site, k) && ProcOk(site, s.proc)
    requires FirstRow(s.rows, k).Some? && CountRows(s.rows, k) > 0 && DeleteMany !in lost(n + CountRows(s.rows, k) - 1)
    requires sheltered ==> ShelteredWrite(site, lost, later, k)
    requires DeleteRows(site, now, lost, n, s, k, dependents).Saved?
    ensures var s1 := DeleteRows(site, now, lost, n, s, k, dependents).session;
            && FirstRow(s1.rows, k).None? && DirectRead(site, s1.rows, k) == DirectRead(site, [], k)
            && ReadsRight(site, now, later, s1, k)
            && (sheltered && IsClear(site, s1.rows, later, k) ==>
                  Reads(site, now, later, s1, k) == DirectRead(site, [], k))
    decreases |s.rows|
  {
    var s0 := s.(rows := RemoveFirst(s.rows, k));
    RemovedRows(s.rows, k);
    NoRowsLeft(s0.rows, k);
    NotifyKeepsProc(site, now, lost(n), s0, k, dependents);
    if FirstRow(s0.rows, k).None? {
      ReadAfterSignal(site, now, lost(n), s0, k, sheltered, k, dependents, FreshProc, later);
    } else {
      DeleteThenRead(site, now, lost, n + 1, Notify(site, now, lost(n), s0, k, dependents).session, k, dependents,
                     later, sheltered);
    }
  }
}
