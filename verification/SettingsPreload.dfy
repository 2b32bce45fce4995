/**
 The batch preload against the single read: they fill the same cache by different code, and
 agree except on a null row whose field default does not read as unset.
 */
module SettingsPreload {
  import opened Helpers
  import opened SettingsModel
  import opened SettingsCache
  import opened SettingsFreshness

  /** `k` can be stored and cached without meeting a sentinel, and its rows, if the first is null,
      are all null. */
  ghost predicate Storable(site: Site, rows: seq<Row>, k: string) {
    && Trackable(site, k)
    && match FirstRow(rows, k)
       case None => true
       case Some(r) =>
         match RowValue(site, k, r)
         case None => true
         case Some(v) =>
           && !IsSentinel(v)
           && (IsEncrypted(site, k) ==> IsPlain(v) && v != Null)
           && (v == Null ==> forall r | r in rows && IsGlobal(r, k) :: r.value == Null)
  }

  predicate HasNullRow(site: Site, rows: seq<Row>, k: string) {
    FirstRow(rows, k).Some? && RowValue(site, k, FirstRow(rows, k).value) == Some(Null)
  }

  /** The single read with nothing cached and the preload already claimed by another process. */
  function ColdRead(site: Site, rows: seq<Row>, now: real, k: string): Effective
    requires k in site.fields
  {
    var p := StartPreload(site, FreshProc, now);
    Resolve(site, k, Recompute(site, rows, now, {}, p, EmptyCache, k, Absent).outcome)
  }

  /** The first read of all, which preloads and then finds its key in the cache. */
  function WarmRead(site: Site, rows: seq<Row>, now: real, k: string): Effective
    requires k in site.fields
  {
    Resolve(site, k, GetLocal(site, rows, now, {}, FreshProc, EmptyCache, k).outcome)
  }

  lemma ColdReadIsDirect(site: Site, rows: seq<Row>, now: real, k: string)
    requires Storable(site, rows, k)
    ensures ColdRead(site, rows, now, k) == DirectRead(site, rows, k)
  {
  }

  /** What the preload caches for a null row is the field default. */
  lemma NullRowLoad(site: Site, p: Proc, rows: seq<Row>, k: string)
    requires Storable(site, rows, k) && HasNullRow(site, rows, k) && k !in p.marked
    ensures LoadKey(site, p, rows, k) == LoadDefault(site, false, k, Loaded(NotSet, None))
  {
    LoadNullRows(site, rows, k);
  }

  lemma StorableLoads(site: Site, p: Proc, rows: seq<Row>, k: string)
    requires Storable(site, rows, k) && k !in p.marked && LoadKey(site, p, rows, k).Loaded?
    ensures var cached := LoadKey(site, p, rows, k).cached;
            IsEncrypted(site, k) ==> IsPlain(cached) && cached != Null
  {
    LoadFirstRow(site, rows, k);
    if HasNullRow(site, rows, k) {
      NullRowLoad(site, p, rows, k);
    } else {
      LoadKeyAnswers(site, p, rows, k);
    }
  }

  lemma FetchSealed(site: Site, p: Proc, rows: seq<Row>, now: real, c: Cache, k: string, id: Option<Pk>, cached: Value)
    requires k in site.fields && Lawful(site.cipher) && k in c.values
    requires c.values[k] == Timed(Sealed(site, k, id, cached), now + SETTING_CACHE_TIMEOUT)
    requires IsEncrypted(site, k) ==>
             IsPlain(cached) && cached != Null && ObjId(site, p, rows, now, {}, c, k, Fetching) == id
    ensures CacheGet(site, p, rows, now, {}, c, k) == Hit(cached)
  {
  }

  /** Fetching a key right after a preload with nothing lost gives the form it loaded. */
  lemma FetchAfterFill(site: Site, p: Proc, rows: seq<Row>, now: real, k: string)
    requires Storable(site, rows, k) && k !in p.marked && CanPreload(site, p, rows)
    ensures CacheGet(site, p, rows, now, {}, PreloadFill(site, p, rows, now, {}, EmptyCache), k)
            == Hit(LoadKey(site, p, rows, k).cached)
  {
    assert IsPreloaded(site, p, k);
    StorableLoads(site, p, rows, k);
    var load := LoadKey(site, p, rows, k);
    var c1 := EmptyCache.(ids := EmptyCache.ids + IdEntries(site, p, rows, now, {}));
    var c := PreloadFill(site, p, rows, now, {}, EmptyCache);
    var id := ObjId(site, p, rows, now, {}, c1, k, Preloading);
    assert c.ids == c1.ids;
    assert k in ValueEntries(site, p, rows, now, {}, c1);
    assert c.values[k] == Timed(Sealed(site, k, id, load.cached), now + SETTING_CACHE_TIMEOUT);
    FetchSealed(site, p, rows, now, c, k, id, load.cached);
  }

  lemma FirstReadUnfolds(site: Site, rows: seq<Row>, now: real, k: string)
    requires k in site.fields && CanPreload(site, StartPreload(site, FreshProc, now), rows)
    ensures var p := StartPreload(site, FreshProc, now);
            var c := PreloadFill(site, p, rows, now, {}, EmptyCache);
            GetLocal(site, rows, now, {}, FreshProc, EmptyCache, k) == Fetched(site, rows, now, {}, p, c, k)
  {
  }

  lemma HitAnswers(site: Site, p: Proc, rows: seq<Row>, now: real, c: Cache, k: string, cached: Value)
    requires Storable(site, rows, k) && k !in p.marked && CacheGet(site, p, rows, now, {}, c, k) == Hit(cached)
    ensures Resolve(site, k, Fetched(site, rows, now, {}, p, c, k).outcome) ==
            if cached == NotSet then DirectRead(site, rows, k) else Answer(site, k, cached)
  {
  }

  lemma StartUnmarked(site: Site, now: real, k: string)
    requires Trackable(site, k)
    ensures k !in StartPreload(site, FreshProc, now).marked
  {
  }

  /** A key reads as its preloaded form, or directly when that form is "not set"; if some row cannot
      be opened there is no preload, and the read fails. */
  lemma WarmReadIsLoad(site: Site, rows: seq<Row>, now: real, k: string)
    requires Storable(site, rows, k)
    ensures var p := StartPreload(site, FreshProc, now);
            && k !in p.marked && IsPreloaded(site, p, k)
            && WarmRead(site, rows, now, k) ==
               (if !CanPreload(site, p, rows) then Failed
                else if LoadKey(site, p, rows, k).cached == NotSet then DirectRead(site, rows, k)
                else Answer(site, k, LoadKey(site, p, rows, k).cached))
  {
    var p := StartPreload(site, FreshProc, now);
    StartUnmarked(site, now, k);
    if CanPreload(site, p, rows) {
      FetchAfterFill(site, p, rows, now, k);
      FirstReadUnfolds(site, rows, now, k);
      HitAnswers(site, p, rows, now, PreloadFill(site, p, rows, now, {}, EmptyCache), k,
                 LoadKey(site, p, rows, k).cached);
    }
  }

  /** What the preload caches answers as the direct lookup does, or is "not set", except exactly at a
      null row whose default does not read as unset. */
  lemma LoadedAnswers(site: Site, p: Proc, rows: seq<Row>, k: string)
    requires Storable(site, rows, k) && k !in p.marked && LoadKey(site, p, rows, k).Loaded?
    ensures var cached := LoadKey(site, p, rows, k).cached;
            cached == NotSet || Answer(site, k, cached) == DirectRead(site, rows, k) <==>
            (HasNullRow(site, rows, k) ==> DefaultReadsAsUnset(site, k))
  {
    if HasNullRow(site, rows, k) {
      NullRowLoad(site, p, rows, k);
      if FieldDefault(site, false, k).Fixed? && FieldDefault(site, false, k).value != Null {
        CachedAnswers(site, k, FieldDefault(site, false, k).value);
      }
      CodecRoundTrip(Null);
    } else {
      LoadKeyAnswers(site, p, rows, k);
    }
  }

  lemma OwnRowFails(site: Site, p: Proc, rows: seq<Row>, k: string)
    requires Storable(site, rows, k) && IsPreloaded(site, p, k) && DirectRead(site, rows, k) == Failed
    ensures !CanPreload(site, p, rows)
  {
    LoadFirstRow(site, rows, k);
  }

  /** The preload refines the single read, where that does not fail too, except exactly in two cases:
      where a row of another key cannot be opened, so that the preload and with it the read fails;
      and at a null row whose default does not read as unset, where the preload serves the default. */
  lemma PreloadRefinesSingleRead(site: Site, rows: seq<Row>, now: real, k: string)
    requires Storable(site, rows, k)
    ensures WarmRead(site, rows, now, k) == ColdRead(site, rows, now, k) <==>
            || DirectRead(site, rows, k) == Failed
            || (CanPreload(site, StartPreload(site, FreshProc, now), rows)
                && (HasNullRow(site, rows, k) ==> DefaultReadsAsUnset(site, k)))
  {
    var p := StartPreload(site, FreshProc, now);
    WarmReadIsLoad(site, rows, now, k);
    ColdReadIsDirect(site, rows, now, k);
    if DirectRead(site, rows, k) == Failed {
      OwnRowFails(site, p, rows, k);
    } else if CanPreload(site, p, rows) {
      LoadedAnswers(site, p, rows, k);
    }
  }
}
