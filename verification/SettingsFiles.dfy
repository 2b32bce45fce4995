/**
 Keys defined in the settings files: no row of the table can influence what they read as, and no
 process that has noticed them lets them be written.
 */
module SettingsFiles {
  import opened Helpers
  import opened SettingsModel
  import opened SettingsCache
  import opened SettingsFreshness
  import opened SettingsRuns
  import opened SettingsWrites
  import opened SettingsOutcomes

  /******* What the files answer *******/

  /** A file-defined key with a usable file value. */
  ghost predicate Shadowed(site: Site, k: string) {
    && WellFormed(site)
    && IsFileDefined(site, k) && k != INSTALL_UUID
    && FieldDefault(site, true, k).Fixed?
    && !IsSentinel(FieldDefault(site, true, k).value)
    && (IsEncrypted(site, k) ==> IsPlain(FieldDefault(site, true, k).value))
  }

  /** The answer the settings file gives for it; no table is consulted. */
  function FileAnswer(site: Site, k: string): Effective
    requires k in site.fields && FieldDefault(site, true, k).Fixed?
  {
    var d := FieldDefault(site, true, k).value;
    Resolve(site, k, if d == Null then Empty else Finish(site, true, k, d))
  }

  ghost predicate CacheShadowed(site: Site, c: Cache, k: string)
    requires k in site.fields && FieldDefault(site, true, k).Fixed?
  {
    && (k in c.values ==> c.values[k].value == Sealed(site, k, None, CacheForm(FieldDefault(site, true, k).value)))
    && (k in c.ids ==> c.ids[k].value == None)
  }

  ghost predicate ProcShadowed(site: Site, p: Proc, k: string)
    requires k in site.fields && FieldDefault(site, true, k).Fixed?
  {
    ProcOk(site, p) && (k in p.memo ==> Resolve(site, k, p.memo[k].value) == FileAnswer(site, k))
  }

  lemma PreloadShadowed(site: Site, rows: seq<Row>, now: real, lost: set<CacheOp>, p: Proc, c: Cache, k: string)
    requires Shadowed(site, k) && CacheShadowed(site, c, k) && ProcShadowed(site, p, k)
    ensures var pre := Preload(site, rows, now, lost, p, c);
            && CacheShadowed(site, pre.cache, k) && ProcShadowed(site, pre.proc, k) && k in pre.proc.marked
  {
    if PreloadDue(p, now) {
      var p1 := StartPreload(site, p, now);
      assert IsPreloaded(site, FreshProc, k);
      assert k in p1.marked && !IsPreloaded(site, p1, k);
    }
  }

  /** The read loads the cache itself, and meets a row it cannot open. */
  predicate Stumbles(site: Site, rows: seq<Row>, now: real, lost: set<CacheOp>, p: Proc, c: Cache) {
    LoadsCache(p, now, lost, c) && !CanPreload(site, StartPreload(site, p, now), rows)
  }

  lemma FetchShadowed(site: Site, rows: seq<Row>, now: real, lost: set<CacheOp>, p: Proc, c: Cache, k: string)
    requires Shadowed(site, k) && CacheShadowed(site, c, k) && k in p.marked
    ensures CacheGet(site, p, rows, now, lost, c, k) in {Absent, Hit(CacheForm(FieldDefault(site, true, k).value))}
  {
    if k in c.values && IsEncrypted(site, k) {
      assert !IsSealed(SETTING_CACHE_NOTSET) by { assert SETTING_CACHE_NOTSET[0] != ENCRYPTED_PREFIX[0]; }
      var s := CacheForm(FieldDefault(site, true, k).value).s;
      DecryptUndoesEncrypt(site.cipher, None, s);
    }
  }

  lemma RecomputeShadowed(site: Site, rows: seq<Row>, now: real, lost: set<CacheOp>, p: Proc, c: Cache, k: string,
                          fetch: Fetch)
    requires Shadowed(site, k) && CacheShadowed(site, c, k) && ProcShadowed(site, p, k) && k in p.marked
    ensures var a := Recompute(site, rows, now, lost, p, c, k, fetch);
            a.proc == p && CacheShadowed(site, a.cache, k) && Resolve(site, k, a.outcome) == FileAnswer(site, k)
  {
  }

  lemma SettleShadowed(site: Site, rows: seq<Row>, now: real, lost: set<CacheOp>, p: Proc, c: Cache, k: string,
                       other: string, fetch: Fetch, v: Value, id: Option<Option<Pk>>)
    requires Shadowed(site, k) && CacheShadowed(site, c, k) && other in site.fields && other != k
    ensures CacheShadowed(site, Settle(site, rows, now, lost, p, c, other, fetch, v, id).cache, k)
  {
  }

  lemma RecomputeElsewhereShadowed(site: Site, rows: seq<Row>, now: real, lost: set<CacheOp>, p: Proc, c: Cache,
                                   k: string, other: string, fetch: Fetch)
    requires Shadowed(site, k) && CacheShadowed(site, c, k) && ProcShadowed(site, p, k)
    requires other in site.fields && other != k
    ensures var a := Recompute(site, rows, now, lost, p, c, other, fetch);
            CacheShadowed(site, a.cache, k) && ProcShadowed(site, a.proc, k)
    decreases Rank(site, other), 0
  {
    match LookUp(site, rows, p, other)
    case Unopened =>
    case Stored(v, id) => SettleShadowed(site, rows, now, lost, p, c, k, other, fetch, v, id);
    case From(source, compute) =>
      ReadShadowed(site, rows, now, lost, p, c, k, source);
      var a := GetMemoized(site, rows, now, lost, p, c, source);
      var o := Resolve(site, source, a.outcome);
      if o.Resolved? {
        SettleShadowed(site, rows, now, lost, a.proc, a.cache, k, other, fetch, compute(o.value),
                       ComputedId(site, other));
      }
  }

  lemma LocalShadowed(site: Site, rows: seq<Row>, now: real, lost: set<CacheOp>, p: Proc, c: Cache, k: string)
    requires Shadowed(site, k) && CacheShadowed(site, c, k) && ProcShadowed(site, p, k)
    ensures var a := GetLocal(site, rows, now, lost, p, c, k);
            && CacheShadowed(site, a.cache, k) && ProcShadowed(site, a.proc, k)
            && Resolve(site, k, a.outcome) == if Stumbles(site, rows, now, lost, p, c) then Failed
               else FileAnswer(site, k)
  {
    PreloadShadowed(site, rows, now, lost, p, c, k);
    var pre := Preload(site, rows, now, lost, p, c);
    var fetch := CacheGet(site, pre.proc, rows, now, lost, pre.cache, k);
    FetchShadowed(site, rows, now, lost, pre.proc, pre.cache, k);
    RecomputeShadowed(site, rows, now, lost, pre.proc, pre.cache, k, fetch);
    CodecRoundTrip(FieldDefault(site, true, k).value);
  }

  lemma LocalElsewhereShadowed(site: Site, rows: seq<Row>, now: real, lost: set<CacheOp>, p: Proc, c: Cache, k: string,
                               other: string)
    requires Shadowed(site, k) && CacheShadowed(site, c, k) && ProcShadowed(site, p, k) && other in site.fields
    requires other != k
    ensures var a := GetLocal(site, rows, now, lost, p, c, other);
            CacheShadowed(site, a.cache, k) && ProcShadowed(site, a.proc, k)
    decreases Rank(site, other), 1
  {
    PreloadShadowed(site, rows, now, lost, p, c, k);
    var pre := Preload(site, rows, now, lost, p, c);
    if pre.ok {
      var fetch := CacheGet(site, pre.proc, rows, now, lost, pre.cache, other);
      RecomputeElsewhereShadowed(site, rows, now, lost, pre.proc, pre.cache, k, other, fetch);
    }
  }

  lemma ReadShadowed(site: Site, rows: seq<Row>, now: real, lost: set<CacheOp>, p: Proc, c: Cache, k: string,
                     other: string)
    requires Shadowed(site, k) && CacheShadowed(site, c, k) && ProcShadowed(site, p, k)
    requires other in site.fields
    ensures var a := GetMemoized(site, rows, now, lost, p, c, other);
            && CacheShadowed(site, a.cache, k) && ProcShadowed(site, a.proc, k)
            && (other == k ==>
                  Resolve(site, k, a.outcome) == if !HasMemo(p, k, now) && Stumbles(site, rows, now, lost, p, c)
                    then Failed else FileAnswer(site, k))
    decreases Rank(site, other), 2
  {
    if !HasMemo(p, other, now) {
      if other == k {
        LocalShadowed(site, rows, now, lost, p, c, k);
      } else {
        LocalElsewhereShadowed(site, rows, now, lost, p, c, k, other);
      }
    }
  }

  ghost predicate WorldShadowed(site: Site, w: World, k: string)
    requires k in site.fields && FieldDefault(site, true, k).Fixed?
  {
    CacheShadowed(site, w.cache, k) && forall p :: 0 <= p < |w.procs| ==> ProcShadowed(site, w.procs[p], k)
  }

  lemma {:induction false} RunShadowed(site: Site, ws: seq<World>, es: seq<Event>, k: string, i: nat)
    requires IsRun(site, ws, es) && Shadowed(site, k) && i < |ws|
    ensures WorldShadowed(site, ws[i], k)
  {
    if i > 0 {
      RunShadowed(site, ws, es, k, i - 1);
      var w := ws[i - 1];
      match es[i - 1]
      case Read(p, other, lost) => ReadShadowed(site, w.rows, w.now, lost, w.procs[p], w.cache, k, other);
      case _ =>
    }
  }

  /** In any run, whatever is lost and whatever rows the table holds, a read of a file-defined key
      gives the file's value, except exactly where it has no live memo, loads the cache itself and
      meets a row of some other key that cannot be opened: there it fails. */
  lemma FilesShadowTheTable(site: Site, ws: seq<World>, es: seq<Event>, k: string, i: nat)
    requires IsRun(site, ws, es) && Shadowed(site, k)
    requires i < |es| && es[i].Read? && es[i].key == k
    ensures var w, p := ws[i], ws[i].procs[es[i].proc];
            ReadAnswer(site, w, es[i]) ==
            if !HasMemo(p, k, w.now) && Stumbles(site, w.rows, w.now, es[i].lost, p, w.cache) then Failed
              else FileAnswer(site, k)
    ensures FileAnswer(site, k) != Failed
  {
    RunShadowed(site, ws, es, k, i);
    ReadShadowed(site, ws[i].rows, ws[i].now, es[i].lost, ws[i].procs[es[i].proc], ws[i].cache, k, k);
  }

  /******* What the files forbid *******/

  /** A mark once made is there in every later state. */
  lemma {:induction false} MarkPersists(site: Site, ws: seq<World>, es: seq<Event>, k: string, i: nat, j: nat, p: nat)
    requires IsRun(site, ws, es) && i <= j < |ws| && p < |ws[i].procs| && k in ws[i].procs[p].marked
    ensures p < |ws[j].procs| && k in ws[j].procs[p].marked
  {
    if i < j {
      MarkPersists(site, ws, es, k, i, j - 1, p);
      var w := ws[j - 1];
      match es[j - 1]
      case Read(q, other, lost) => ReadKeepsProc(site, w.rows, w.now, lost, w.procs[q], w.cache, other);
      case _ =>
    }
  }

  /** In every state each process has marked what the files define, once it has begun to read past its
      memo, and nothing else. */
  lemma {:induction false} RunKeepsProcs(site: Site, ws: seq<World>, es: seq<Event>, i: nat)
    requires IsRun(site, ws, es) && i < |ws|
    ensures forall p :: 0 <= p < |ws[i].procs| ==> ProcOk(site, ws[i].procs[p])
  {
    if i > 0 {
      RunKeepsProcs(site, ws, es, i - 1);
      var w := ws[i - 1];
      match es[i - 1]
      case Read(q, other, lost) => ReadKeepsProc(site, w.rows, w.now, lost, w.procs[q], w.cache, other);
      case _ =>
    }
  }

  /** Once a process has begun to read past its memo it has marked every key the files define, and
      from then on it refuses, in every state, to set such a key or to delete it, and changes
      nothing. */
  lemma FilesForbidWrites(site: Site, ws: seq<World>, es: seq<Event>, k: string, i: nat, j: nat, p: nat, s: Session,
                          now: real, lost: nat -> set<CacheOp>, pk: Pk, value: Value, dependents: seq<string>)
    requires IsRun(site, ws, es) && IsFileDefined(site, k) && i <= j < |ws|
    requires p < |ws[i].procs| && ws[i].procs[p].preloadExpires.Some?
    requires p < |ws[j].procs| ==> s.proc == ws[j].procs[p]
    ensures p < |ws[j].procs| && k in s.proc.marked
    ensures SetLocal(site, now, lost, s, pk, k, value, dependents) == ReadOnlySetting
    ensures DelLocal(site, now, lost, s, k, dependents) == ReadOnlySetting
  {
    RunKeepsProcs(site, ws, es, i);
    MarkPersists(site, ws, es, k, i, j, p);
  }

  /******* Exactly what is marked *******/

  /** A read past the memo leaves the process with a preload deadline. */
  lemma ReadKeepsDeadline(site: Site, rows: seq<Row>, now: real, lost: set<CacheOp>, p: Proc, c: Cache, k: string)
    requires k in site.fields
    ensures var p1 := GetMemoized(site, rows, now, lost, p, c, k).proc;
            p1 == p || p1.preloadExpires.Some?
    ensures p.preloadExpires.Some? ==> GetMemoized(site, rows, now, lost, p, c, k).proc.preloadExpires.Some?
    decreases Rank(site, k), 2
  {
    if !HasMemo(p, k, now) {
      LocalUnfolds(site, rows, now, lost, p, c, k);
      var pre := Preload(site, rows, now, lost, p, c);
      assert pre.proc.preloadExpires.Some?;
      RecomputeKeepsDeadline(site, rows, now, lost, pre.proc, pre.cache, k,
                             CacheGet(site, pre.proc, rows, now, lost, pre.cache, k));
    }
  }

  lemma RecomputeKeepsDeadline(site: Site, rows: seq<Row>, now: real, lost: set<CacheOp>, p: Proc, c: Cache, k: string,
                               fetch: Fetch)
    requires k in site.fields && p.preloadExpires.Some?
    ensures Recompute(site, rows, now, lost, p, c, k, fetch).proc.preloadExpires.Some?
    decreases Rank(site, k), 0
  {
    match LookUp(site, rows, p, k)
    case From(source, _) => ReadKeepsDeadline(site, rows, now, lost, p, c, source);
    case _ =>
  }

  /** A process that has not preloaded has marked nothing. */
  lemma {:induction false} UnloadedIsUnmarked(site: Site, ws: seq<World>, es: seq<Event>, i: nat)
    requires IsRun(site, ws, es) && i < |ws|
    ensures forall p :: 0 <= p < |ws[i].procs| && ws[i].procs[p].preloadExpires.None? ==> ws[i].procs[p].marked == {}
  {
    if i > 0 {
      UnloadedIsUnmarked(site, ws, es, i - 1);
      var w := ws[i - 1];
      match es[i - 1]
      case Read(q, other, lost) => ReadKeepsDeadline(site, w.rows, w.now, lost, w.procs[q], w.cache, other);
      case _ =>
    }
  }

  /** In every state of a run the settings a process has marked are, once it has preloaded, exactly
      those the table can back whose value in the settings files is not null and is not the one
      shipped; before, none. */
  lemma MarkedExactly(site: Site, ws: seq<World>, es: seq<Event>, i: nat, p: nat, k: string)
    requires IsRun(site, ws, es) && i < |ws| && p < |ws[i].procs|
    ensures k in ws[i].procs[p].marked <==>
            && ws[i].procs[p].preloadExpires.Some?
            && k in site.fields && (!site.fields[k].readOnly || k == "INSTALL_UUID")
            && k in site.files && site.files[k] != Null
            && (k in site.snapshot ==> site.snapshot[k] != site.files[k])
  {
    RunKeepsProcs(site, ws, es, i);
    UnloadedIsUnmarked(site, ws, es, i);
    assert ProcOk(site, ws[i].procs[p]);
  }

  /** So a setting the files leave as shipped can be written in every state, and one not declared
      read-only is refused only where the files have a value of their own for it. */
  lemma ShippedIsWritable(site: Site, ws: seq<World>, es: seq<Event>, i: nat, p: nat, k: string, s: Session, now: real,
                          lost: nat -> set<CacheOp>, pk: Pk, value: Value, dependents: seq<string>)
    requires IsRun(site, ws, es) && i < |ws| && p < |ws[i].procs| && s.proc == ws[i].procs[p]
    requires k in site.fields && !site.fields[k].readOnly
    requires k in site.files && site.files[k] != Null ==> k in site.snapshot && site.snapshot[k] == site.files[k]
    ensures k !in s.proc.marked
    ensures SetLocal(site, now, lost, s, pk, k, value, dependents) != ReadOnlySetting
    ensures DelLocal(site, now, lost, s, k, dependents) != ReadOnlySetting
  {
    MarkedExactly(site, ws, es, i, p, k);
    RefusedAsReadOnly(site, now, lost, s, pk, k, value, dependents);
  }
}
