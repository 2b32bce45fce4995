/**
 What every read keeps about one writable setting: each live memo and cache entry holds an answer
 that a direct lookup gave recently enough, and encrypted entries agree with their id entries.
 */
module SettingsFreshness {
  import opened Helpers
  import opened SettingsModel
  import opened SettingsCache

  /******* Preconditions on a tracked key *******/

  /** A writable setting whose default caching can hold: not a callable, not a sentinel, and for an
      encrypted key, if there is one, textual or null. */
  ghost predicate Trackable(site: Site, k: string) {
    && WellFormed(site)
    && IsWritable(site, k)
    && !FieldDefault(site, false, k).Computed?
    && (FieldDefault(site, false, k).Fixed? ==> !IsSentinel(FieldDefault(site, false, k).value))
    && (IsEncrypted(site, k) && FieldDefault(site, false, k).Fixed? ==> IsPlain(FieldDefault(site, false, k).value))
  }

  predicate IsPlain(v: Value) {
    v == Null || (v.Str? && !IsSealed(v.s))
  }

  /** Serving the field default answers like an unset key: there is none, or it is invalid, or it
      validates to the very value in the settings file. */
  predicate DefaultReadsAsUnset(site: Site, k: string)
    requires k in site.fields
  {
    match FieldDefault(site, false, k)
    case Fixed(d) =>
      d == Null || site.validate(k, d) == None || (k in site.files && site.validate(k, d) == Some(site.files[k]))
    case _ => true
  }

  ghost predicate TableOk(site: Site, rows: seq<Row>, k: string)
    requires k in site.fields
  {
    match FirstRow(rows, k)
    case None => true
    case Some(r) =>
      match RowValue(site, k, r)
      case None => true
      case Some(v) =>
        && !IsSentinel(v)
        && (IsEncrypted(site, k) ==> IsPlain(v))
        && (v == Null ==> DefaultReadsAsUnset(site, k) && forall r | r in rows && IsGlobal(r, k) :: r.value == Null)
  }

  ghost predicate AllReadable(site: Site, rows: seq<Row>) {
    forall r | r in rows && r.user.None? :: RowValue(site, r.key, r).Some?
  }

  /******* Loading a key from the table *******/

  lemma {:induction false} ReadableLoads(site: Site, rows: seq<Row>, k: string, load: Load)
    requires AllReadable(site, rows) && load.Loaded?
    ensures LoadRows(site, rows, k, load).Loaded?
    decreases |rows|
  {
    if rows != [] {
      assert rows[0] in rows;
      assert forall r | r in rows[1..] :: r in rows;
      ReadableLoads(site, rows[1..], k, LoadRow(site, rows[0], k, load));
    }
  }

  lemma {:induction false} LoadedStays(site: Site, rows: seq<Row>, k: string, load: Load)
    requires load.Loaded? && load.cached != NotSet
    ensures LoadRows(site, rows, k, load) == load
    decreases |rows|
  {
    if rows != [] {
      LoadedStays(site, rows[1..], k, load);
    }
  }

  lemma {:induction false} LoadFirstRow(site: Site, rows: seq<Row>, k: string)
    ensures match FirstRow(rows, k)
            case None => LoadRows(site, rows, k, Loaded(NotSet, None)) == Loaded(NotSet, None)
            case Some(r) =>
              match RowValue(site, k, r)
              case None => LoadRows(site, rows, k, Loaded(NotSet, None)).Unreadable?
              case Some(v) =>
                CacheForm(v) != NotSet ==>
                  LoadRows(site, rows, k, Loaded(NotSet, None))
                    == Loaded(CacheForm(v), if IsEncrypted(site, k) then Some(Some(r.pk)) else None)
    decreases |rows|
  {
    if rows != [] {
      var next := LoadRow(site, rows[0], k, Loaded(NotSet, None));
      if !IsGlobal(rows[0], k) {
        LoadFirstRow(site, rows[1..], k);
      } else if next.Loaded? && next.cached != NotSet {
        LoadedStays(site, rows[1..], k, next);
      }
    }
  }

  lemma {:induction false} LoadNullRows(site: Site, rows: seq<Row>, k: string)
    requires !IsEncrypted(site, k)
    requires forall r | r in rows && IsGlobal(r, k) :: r.value == Null
    ensures LoadRows(site, rows, k, Loaded(NotSet, None)) == Loaded(NotSet, None)
    decreases |rows|
  {
    if rows != [] {
      assert rows[0] in rows;
      assert forall r | r in rows[1..] :: r in rows;
      LoadNullRows(site, rows[1..], k);
    }
  }

  function Answer(site: Site, k: string, cached: Value): Effective
    requires k in site.fields && cached != NotSet
  {
    Resolve(site, k, Finish(site, false, k, FromCache(cached).value))
  }

  lemma CachedAnswers(site: Site, k: string, v: Value)
    requires k in site.fields && v != Null && !IsSentinel(v)
    ensures CacheForm(v) != NotSet
    ensures Answer(site, k, CacheForm(v)) == Resolve(site, k, Finish(site, false, k, v))
  {
  }

  /** What a preload caches for a key answers a read as the direct lookup does, and its `_ID`
      entry, if there is a row or a default, names the row that a lookup in the table would name. */
  lemma LoadKeyAnswers(site: Site, p: Proc, rows: seq<Row>, k: string)
    requires Trackable(site, k) && TableOk(site, rows, k) && k !in p.marked && LoadKey(site, p, rows, k).Loaded?
    ensures var load := LoadKey(site, p, rows, k);
            && (load.cached != NotSet ==> Answer(site, k, load.cached) == DirectRead(site, rows, k))
            && (IsEncrypted(site, k) ==> IsPlain(load.cached) && load.cached != Null)
            && (IsEncrypted(site, k) && FieldDefault(site, false, k).Fixed? ==> load.id == Some(DbPk(site, p, rows, k)))
  {
    LoadFirstRow(site, rows, k);
    CodecRoundTrip(Null);
    match FirstRow(rows, k)
    case None =>
      if FieldDefault(site, false, k).Fixed? && FieldDefault(site, false, k).value != Null {
        CachedAnswers(site, k, FieldDefault(site, false, k).value);
      }
      assert !IsSealed(SETTING_CACHE_NOTSET) by { assert SETTING_CACHE_NOTSET[0] != ENCRYPTED_PREFIX[0]; }
    case Some(r) =>
      var v := RowValue(site, k, r).value;
      if v == Null {
        LoadNullRows(site, rows, k);
        if FieldDefault(site, false, k).Fixed? && FieldDefault(site, false, k).value != Null {
          CachedAnswers(site, k, FieldDefault(site, false, k).value);
        }
      } else {
        CachedAnswers(site, k, v);
      }
  }

  /******* Freshness *******/

  /** At `time`, a direct lookup of the tracked key gave `answer`. */
  datatype Sighting = Sighting(time: real, answer: Effective)

  ghost predicate SeenSince(hist: seq<Sighting>, since: real, answer: Effective) {
    exists j :: 0 <= j < |hist| && since <= hist[j].time && hist[j].answer == answer
  }

  ghost predicate SeenAfter(hist: seq<Sighting>, after: real, answer: Effective) {
    exists j :: 0 <= j < |hist| && after < hist[j].time && hist[j].answer == answer
  }

  ghost predicate ProcOk(site: Site, p: Proc) {
    && (forall k | k in p.marked :: IsFileDefined(site, k))
    && (p.initReadonly || p.preloadExpires.Some? ==>
          forall k | k in site.fields && IsFileDefined(site, k) :: k in p.marked)
  }

  predicate IsLive(c: Cache, k: string, now: real) {
    k in c.values && now < c.values[k].expires
  }

  /** An entry is some plain value sealed under some key. */
  predicate IsSealedEntry(site: Site, k: string, e: Timed<Value>, pk: Option<Pk>, plain: Value) {
    e.value == Sealed(site, k, pk, plain) && (IsEncrypted(site, k) ==> plain.Str? && !IsSealed(plain.s))
  }

  /** And unless that stands for "not set" it answers as a direct lookup did since the entry was
      written. */
  ghost predicate IsEntry(site: Site, hist: seq<Sighting>, k: string, e: Timed<Value>, pk: Option<Pk>, plain: Value)
    requires k in site.fields
  {
    && IsSealedEntry(site, k, e, pk, plain)
    && (plain != NotSet ==> SeenSince(hist, e.expires - SETTING_CACHE_TIMEOUT, Answer(site, k, plain)))
  }

  /** The `_ID` entry names the key the value is sealed under, and outlasts it. */
  predicate Agrees(c: Cache, k: string, pk: Option<Pk>)
    requires k in c.values
  {
    k in c.ids && c.values[k].expires <= c.ids[k].expires && c.ids[k].value == pk
  }

  /** A live entry is well made; in a sheltered run an encrypted one agrees with its `_ID` entry. */
  ghost predicate ValueOk(site: Site, hist: seq<Sighting>, c: Cache, k: string, now: real, sheltered: bool)
    requires k in site.fields
  {
    IsLive(c, k, now) ==>
      exists pk, plain ::
        IsEntry(site, hist, k, c.values[k], pk, plain) && (sheltered && IsEncrypted(site, k) ==> Agrees(c, k, pk))
  }

  ghost predicate MemoOk(site: Site, hist: seq<Sighting>, p: Proc, k: string, now: real)
    requires k in site.fields
  {
    k in p.memo && now < p.memo[k].expires ==>
      && !p.memo[k].value.Raised?
      && SeenAfter(hist, p.memo[k].expires - SETTING_CACHE_TIMEOUT - SETTING_MEMORY_TTL,
         Resolve(site, k, p.memo[k].value))
  }

  ghost predicate Good(site: Site, hist: seq<Sighting>, now: real, p: Proc, c: Cache, k: string, sheltered: bool)
    requires k in site.fields
  {
    ProcOk(site, p) && ValueOk(site, hist, c, k, now, sheltered) && MemoOk(site, hist, p, k, now)
  }

  /** No write of an encrypted key's entries is lost. */
  ghost predicate Spared(site: Site, lost: set<CacheOp>, k: string) {
    IsEncrypted(site, k) ==> forall ph :: SetId(k, ph) !in lost && SetValue(k, ph) !in lost
  }

  /** A fetch of an encrypted key can look its `_ID` entry up. */
  predicate FindsId(site: Site, lost: set<CacheOp>, k: string) {
    IsEncrypted(site, k) ==> GetId(k, Fetching) !in lost
  }

  /** An encrypted key that always has an `_ID` entry, one that outlasts the value's. */
  predicate HasLastingId(site: Site, k: string)
    requires k in site.fields
  {
    IsEncrypted(site, k) ==> FieldDefault(site, false, k).Fixed? && SETTING_CACHE_TIMEOUT <= site.idTimeout
  }

  /** The conditions under which a key's entry and its `_ID` entry go together. */
  ghost predicate Sheltered(site: Site, lost: set<CacheOp>, k: string)
    requires k in site.fields
  {
    HasLastingId(site, k) && Spared(site, lost, k)
  }

  /** Every row can be opened, and the lookup of the key's `_ID` entry is not lost. */
  ghost predicate IsClear(site: Site, rows: seq<Row>, lost: set<CacheOp>, k: string) {
    AllReadable(site, rows) && FindsId(site, lost, k)
  }

  /** What holds at the moment of a step: the tracked key's preconditions, and the current
      table's answer being the latest sighting. */
  ghost predicate Present(site: Site, hist: seq<Sighting>, rows: seq<Row>, now: real, k: string) {
    && Trackable(site, k) && TableOk(site, rows, k)
    && |hist| > 0 && hist[|hist| - 1] == Sighting(now, DirectRead(site, rows, k))
  }

  lemma SeenNow(site: Site, hist: seq<Sighting>, rows: seq<Row>, now: real, k: string, since: real)
    requires Present(site, hist, rows, now, k)
    ensures since <= now ==> SeenSince(hist, since, DirectRead(site, rows, k))
    ensures since < now ==> SeenAfter(hist, since, DirectRead(site, rows, k))
  {
  }

  /******* Fetching *******/

  /** A fetch finds a live entry that was sealed under another key than the one in force. */
  ghost predicate WrongKey(site: Site, rows: seq<Row>, now: real, lost: set<CacheOp>, p: Proc, c: Cache, k: string)
    requires k in site.fields
  {
    && IsEncrypted(site, k) && GetValue(k) !in lost && IsLive(c, k, now)
    && exists pk, s ::
       pk != ObjId(site, p, rows, now, lost, c, k, Fetching) && c.values[k].value == Str(site.cipher.seal(pk, s))
  }

  /** A live entry is under the wrong key exactly when it is sealed, under another than the one in force. */
  lemma WrongKeyIs(site: Site, rows: seq<Row>, now: real, lost: set<CacheOp>, p: Proc, c: Cache, k: string,
                   pk: Option<Pk>, plain: Value)
    requires WellFormed(site) && k in site.fields && IsEncrypted(site, k) && IsLive(c, k, now) && GetValue(k) !in lost
    requires IsSealedEntry(site, k, c.values[k], pk, plain)
    ensures WrongKey(site, rows, now, lost, p, c, k) <==>
            plain.s != "" && pk != ObjId(site, p, rows, now, lost, c, k, Fetching)
  {
    var id := ObjId(site, p, rows, now, lost, c, k, Fetching);
    OpensOrBreaks(site.cipher, pk, id, plain.s);
    if plain.s != "" {
      assert c.values[k].value == Str(site.cipher.seal(pk, plain.s));
    }
    if pk1, s :| pk1 != id && c.values[k].value == Str(site.cipher.seal(pk1, s)) {
      assert site.cipher.open(id, site.cipher.seal(pk1, s)) == BadToken;
    }
  }

  lemma EntryOpens(site: Site, rows: seq<Row>, now: real, lost: set<CacheOp>, p: Proc, c: Cache, k: string,
                   pk: Option<Pk>, plain: Value)
    requires WellFormed(site) && k in site.fields && IsLive(c, k, now) && IsSealedEntry(site, k, c.values[k], pk, plain)
    requires GetValue(k) !in lost
    ensures CacheGet(site, p, rows, now, lost, c, k) == if WrongKey(site, rows, now, lost, p, c, k) then Broken
            else Hit(plain)
  {
    if IsEncrypted(site, k) {
      WrongKeyIs(site, rows, now, lost, p, c, k, pk, plain);
      OpensOrBreaks(site.cipher, pk, ObjId(site, p, rows, now, lost, c, k, Fetching), plain.s);
    }
  }

  /** A hit on the tracked key answers with its fresh plain value; a fetch breaks exactly when the
      key in force is the wrong one, which in a sheltered run it never is. */
  lemma FetchIsFresh(site: Site, hist: seq<Sighting>, rows: seq<Row>, now: real, lost: set<CacheOp>, p: Proc, c: Cache,
                     k: string, sheltered: bool)
    requires WellFormed(site) && k in site.fields && ValueOk(site, hist, c, k, now, sheltered)
    ensures var fetch := CacheGet(site, p, rows, now, lost, c, k);
            && (fetch.Broken? <==> WrongKey(site, rows, now, lost, p, c, k))
            && (fetch.Broken? && sheltered ==> !FindsId(site, lost, k))
            && (fetch.Hit? && fetch.value != NotSet ==>
                  SeenAfter(hist, now - SETTING_CACHE_TIMEOUT, Answer(site, k, fetch.value)))
  {
    if IsLive(c, k, now) && GetValue(k) !in lost {
      var pk, plain :| IsEntry(site, hist, k, c.values[k], pk, plain)
        && (sheltered && IsEncrypted(site, k) ==> Agrees(c, k, pk));
      EntryOpens(site, rows, now, lost, p, c, k, pk, plain);
      if IsEncrypted(site, k) {
        OpensOrBreaks(site.cipher, pk, ObjId(site, p, rows, now, lost, c, k, Fetching), plain.s);
      }
    }
  }

  /******* Preload keeps freshness *******/

  lemma StartPreloadOk(site: Site, p: Proc, now: real)
    requires ProcOk(site, p)
    ensures ProcOk(site, StartPreload(site, p, now))
  {
  }

  lemma AllKeysLoad(site: Site, p: Proc, rows: seq<Row>)
    requires AllReadable(site, rows)
    ensures CanPreload(site, p, rows)
  {
    forall k | k in site.fields
      ensures LoadKey(site, p, rows, k).Loaded?
    {
      ReadableLoads(site, rows, k, Loaded(NotSet, None));
    }
  }

  /** What a preload leaves of one key it loads. */
  lemma FilledAt(site: Site, rows: seq<Row>, now: real, lost: set<CacheOp>, p: Proc, c: Cache, k: string)
    requires CanPreload(site, p, rows) && IsPreloaded(site, p, k)
    ensures var c2 := PreloadFill(site, p, rows, now, lost, c);
            var load := LoadKey(site, p, rows, k);
            && (if load.id.Some? && SetId(k, Preloading) !in lost then k in c2.ids
                  && c2.ids[k] == Timed(load.id.value, now + site.idTimeout)
                else (k in c2.ids <==> k in c.ids) && (k in c.ids ==> c2.ids[k] == c.ids[k]))
            && (if SetValue(k, Preloading) !in lost
                then k in c2.values
                     && c2.values[k]
                        == Timed(Sealed(site, k, ObjId(site, p, rows, now, lost, c2, k, Preloading), load.cached),
                                 now + SETTING_CACHE_TIMEOUT)
                else (k in c2.values <==> k in c.values) && (k in c.values ==> c2.values[k] == c.values[k]))
  {
  }

  /** A key's entry just sealed under the id in force is well made. */
  lemma NewEntryOk(site: Site, hist: seq<Sighting>, rows: seq<Row>, now: real, lost: set<CacheOp>, p: Proc, c: Cache,
                   k: string, sheltered: bool, plain: Value, phase: Phase)
    requires Present(site, hist, rows, now, k) && k in c.values
    requires var pk := ObjId(site, p, rows, now, lost, c, k, phase);
             && c.values[k] == Timed(Sealed(site, k, pk, plain), now + SETTING_CACHE_TIMEOUT)
             && (sheltered && IsEncrypted(site, k) ==> Agrees(c, k, pk))
    requires IsEncrypted(site, k) ==> plain.Str? && !IsSealed(plain.s)
    requires plain != NotSet ==> Answer(site, k, plain) == DirectRead(site, rows, k)
    ensures ValueOk(site, hist, c, k, now, sheltered)
  {
    SeenNow(site, hist, rows, now, k, c.values[k].expires - SETTING_CACHE_TIMEOUT);
    assert IsEntry(site, hist, k, c.values[k], ObjId(site, p, rows, now, lost, c, k, phase), plain);
  }

  lemma PreloadFillKeeps(site: Site, hist: seq<Sighting>, rows: seq<Row>, now: real, lost: set<CacheOp>, p: Proc,
                         c: Cache, k: string, sheltered: bool)
    requires Present(site, hist, rows, now, k) && (sheltered ==> Sheltered(site, lost, k))
    requires ProcOk(site, p) && ValueOk(site, hist, c, k, now, sheltered) && CanPreload(site, p, rows)
    ensures ValueOk(site, hist, PreloadFill(site, p, rows, now, lost, c), k, now, sheltered)
  {
    assert k !in p.marked && IsPreloaded(site, p, k);
    LoadKeyAnswers(site, p, rows, k);
    FilledAt(site, rows, now, lost, p, c, k);
    var c2 := PreloadFill(site, p, rows, now, lost, c);
    if SetValue(k, Preloading) !in lost {
      NewEntryOk(site, hist, rows, now, lost, p, c2, k, sheltered, LoadKey(site, p, rows, k).cached, Preloading);
    }
  }

  lemma PreloadKeeps(site: Site, hist: seq<Sighting>, rows: seq<Row>, now: real, lost: set<CacheOp>, p: Proc, c: Cache,
                     k: string, sheltered: bool)
    requires Present(site, hist, rows, now, k) && (sheltered ==> Sheltered(site, lost, k))
    requires Good(site, hist, now, p, c, k, sheltered)
    ensures var pre := Preload(site, rows, now, lost, p, c);
            && Good(site, hist, now, pre.proc, pre.cache, k, sheltered) && pre.proc.preloadExpires.Some?
            && (AllReadable(site, rows) ==> pre.ok)
  {
    if PreloadDue(p, now) {
      StartPreloadOk(site, p, now);
      var p1 := StartPreload(site, p, now);
      if AllReadable(site, rows) {
        AllKeysLoad(site, p1, rows);
      }
      if CanPreload(site, p1, rows) {
        PreloadFillKeeps(site, hist, rows, now, lost, p1, c, k, sheltered);
      }
    }
  }

  /******* A single read keeps freshness *******/

  /** Storing the direct answer keeps the key fresh, whatever of it is lost. */
  lemma StoreKeeps(site: Site, hist: seq<Sighting>, rows: seq<Row>, now: real, lost: set<CacheOp>, p: Proc, c: Cache,
                   k: string, sheltered: bool, v: Value, id: Option<Option<Pk>>)
    requires Present(site, hist, rows, now, k) && (sheltered ==> Sheltered(site, lost, k))
    requires Good(site, hist, now, p, c, k, sheltered)
    requires v == NotSet
             || (v != Null && !IsSentinel(v)
                   && Resolve(site, k, Finish(site, false, k, v)) == DirectRead(site, rows, k))
    requires IsEncrypted(site, k) ==> IsPlain(v) && (sheltered ==> id == Some(DbPk(site, p, rows, k)))
    ensures var c1 := StoreValue(site, p, rows, now, lost, StoreId(site, now, lost, c, k, id), k, v);
            ValueOk(site, hist, c1, k, now, sheltered)
  {
    var c1 := StoreId(site, now, lost, c, k, id);
    if SetValue(k, Storing) !in lost {
      if v != NotSet {
        CachedAnswers(site, k, v);
      }
      NewEntryOk(site, hist, rows, now, lost, p, StoreValue(site, p, rows, now, lost, c1, k, v), k, sheltered,
                 CacheForm(v), Storing);
    }
  }

  /** Settling another key leaves the tracked key's entries alone. */
  lemma SettleElsewhere(site: Site, hist: seq<Sighting>, rows: seq<Row>, now: real, lost: set<CacheOp>, p: Proc,
                        c: Cache, k: string, sheltered: bool, other: string, fetch: Fetch, v: Value,
                        id: Option<Option<Pk>>)
    requires k in site.fields && other in site.fields && other != k && Good(site, hist, now, p, c, k, sheltered)
    ensures var a := Settle(site, rows, now, lost, p, c, other, fetch, v, id);
            Good(site, hist, now, a.proc, a.cache, k, sheltered)
  {
  }

  /** A miss on the tracked key gives the direct answer, or fails where that does. */
  lemma RecomputeTracked(site: Site, hist: seq<Sighting>, rows: seq<Row>, now: real, lost: set<CacheOp>, p: Proc,
                         c: Cache, k: string, sheltered: bool, fetch: Fetch)
    requires Present(site, hist, rows, now, k) && (sheltered ==> Sheltered(site, lost, k))
    requires Good(site, hist, now, p, c, k, sheltered)
    ensures var a := Recompute(site, rows, now, lost, p, c, k, fetch);
            && a.proc == p && Good(site, hist, now, p, a.cache, k, sheltered)
            && Resolve(site, k, a.outcome) == DirectRead(site, rows, k)
  {
    assert k !in p.marked;
    assert !IsSealed(SETTING_CACHE_NOTSET) by { assert SETTING_CACHE_NOTSET[0] != ENCRYPTED_PREFIX[0]; }
    match FirstRow(rows, k)
    case Some(r) =>
      if RowValue(site, k, r).Some? {
        var v := RowValue(site, k, r).value;
        StoreKeeps(site, hist, rows, now, lost, p, c, k, sheltered, if v == Null then NotSet else v,
                   if IsEncrypted(site, k) then Some(Some(r.pk)) else None);
      }
    case None =>
      match FieldDefault(site, false, k) {
        case Fixed(v) =>
          StoreKeeps(site, hist, rows, now, lost, p, c, k, sheltered, if v == Null then NotSet else v,
                     if IsEncrypted(site, k) then Some(None) else None);
        case _ =>
          StoreKeeps(site, hist, rows, now, lost, p, c, k, sheltered, NotSet, None);
      }
  }

  lemma RecomputeElsewhere(site: Site, hist: seq<Sighting>, rows: seq<Row>, now: real, lost: set<CacheOp>, p: Proc,
                           c: Cache, k: string, sheltered: bool, other: string, fetch: Fetch)
    requires Present(site, hist, rows, now, k) && (sheltered ==> Sheltered(site, lost, k))
    requires Good(site, hist, now, p, c, k, sheltered)
    requires other in site.fields && other != k
    ensures var a := Recompute(site, rows, now, lost, p, c, other, fetch);
            Good(site, hist, now, a.proc, a.cache, k, sheltered)
    decreases Rank(site, other), 0
  {
    match LookUp(site, rows, p, other)
    case Unopened =>
    case Stored(v, id) => SettleElsewhere(site, hist, rows, now, lost, p, c, k, sheltered, other, fetch, v, id);
    case From(source, compute) =>
      ReadKeeps(site, hist, rows, now, lost, p, c, k, sheltered, source);
      var a := GetMemoized(site, rows, now, lost, p, c, source);
      var o := Resolve(site, source, a.outcome);
      if o.Resolved? {
        SettleElsewhere(site, hist, rows, now, lost, a.proc, a.cache, k, sheltered, other, fetch, compute(o.value),
                        ComputedId(site, other));
      }
  }

  /** A read past the memo fails here: the preload it makes stumbles over a row that cannot be
      opened, or it fetches under the wrong key, or it has to look up a row that cannot be opened. */
  ghost predicate CannotRead(site: Site, rows: seq<Row>, now: real, lost: set<CacheOp>, p: Proc, c: Cache, k: string)
    requires k in site.fields
  {
    var pre := Preload(site, rows, now, lost, p, c);
    var fetch := CacheGet(site, pre.proc, rows, now, lost, pre.cache, k);
    || !pre.ok
    || WrongKey(site, rows, now, lost, pre.proc, pre.cache, k)
    || (DirectRead(site, rows, k) == Failed && !(fetch.Hit? && fetch.value != NotSet))
  }

  /** What a read does once the preload it may make is done. */
  function Fetched(site: Site, rows: seq<Row>, now: real, lost: set<CacheOp>, p: Proc, c: Cache, k: string): Access
    requires k in site.fields
  {
    var fetch := CacheGet(site, p, rows, now, lost, c, k);
    if fetch.Broken? then Access(p, c, Raised)
    else if fetch.Hit? && FromCache(fetch.value).Some?
      then Access(p, c, Finish(site, k in p.marked, k, FromCache(fetch.value).value))
    else Recompute(site, rows, now, lost, p, c, k, fetch)
  }

  lemma LocalUnfolds(site: Site, rows: seq<Row>, now: real, lost: set<CacheOp>, p: Proc, c: Cache, k: string)
    requires k in site.fields
    ensures var pre := Preload(site, rows, now, lost, p, c);
            GetLocal(site, rows, now, lost, p, c, k) ==
            if pre.ok then Fetched(site, rows, now, lost, pre.proc, pre.cache, k)
            else Access(pre.proc, pre.cache, Raised)
  {
  }

  lemma FetchedTracked(site: Site, hist: seq<Sighting>, rows: seq<Row>, now: real, lost: set<CacheOp>, p: Proc,
                       c: Cache, k: string, sheltered: bool)
    requires Present(site, hist, rows, now, k) && (sheltered ==> Sheltered(site, lost, k))
    requires Good(site, hist, now, p, c, k, sheltered)
    ensures var a := Fetched(site, rows, now, lost, p, c, k);
            var fetch := CacheGet(site, p, rows, now, lost, c, k);
            && Good(site, hist, now, a.proc, a.cache, k, sheltered)
            && (a.outcome.Raised? <==>
                  WrongKey(site, rows, now, lost, p, c, k)
                    || (DirectRead(site, rows, k) == Failed && !(fetch.Hit? && fetch.value != NotSet)))
            && (a.outcome.Raised? && sheltered ==> !IsClear(site, rows, lost, k))
            && (!a.outcome.Raised? ==> SeenAfter(hist, now - SETTING_CACHE_TIMEOUT, Resolve(site, k, a.outcome)))
  {
    assert k !in p.marked;
    FetchIsFresh(site, hist, rows, now, lost, p, c, k, sheltered);
    RecomputeTracked(site, hist, rows, now, lost, p, c, k, sheltered, CacheGet(site, p, rows, now, lost, c, k));
    SeenNow(site, hist, rows, now, k, now - SETTING_CACHE_TIMEOUT);
    FirstReadable(site, rows, k);
  }

  /** A read of the tracked key past the memo fails exactly there, and otherwise answers with less
      than 60 seconds' delay. */
  lemma LocalTracked(site: Site, hist: seq<Sighting>, rows: seq<Row>, now: real, lost: set<CacheOp>, p: Proc, c: Cache,
                     k: string, sheltered: bool)
    requires Present(site, hist, rows, now, k) && (sheltered ==> Sheltered(site, lost, k))
    requires Good(site, hist, now, p, c, k, sheltered)
    ensures var a := GetLocal(site, rows, now, lost, p, c, k);
            && Good(site, hist, now, a.proc, a.cache, k, sheltered)
            && (a.outcome.Raised? <==> CannotRead(site, rows, now, lost, p, c, k))
               && (a.outcome.Raised? && sheltered ==> !IsClear(site, rows, lost, k))
            && (!a.outcome.Raised? ==> SeenAfter(hist, now - SETTING_CACHE_TIMEOUT, Resolve(site, k, a.outcome)))
  {
    PreloadKeeps(site, hist, rows, now, lost, p, c, k, sheltered);
    var pre := Preload(site, rows, now, lost, p, c);
    LocalUnfolds(site, rows, now, lost, p, c, k);
    if pre.ok {
      FetchedTracked(site, hist, rows, now, lost, pre.proc, pre.cache, k, sheltered);
    }
  }

  /** With every row readable the direct lookup does not fail. */
  lemma FirstReadable(site: Site, rows: seq<Row>, k: string)
    requires k in site.fields
    ensures AllReadable(site, rows) ==> DirectRead(site, rows, k) != Failed
  {
    FirstRowIsGlobal(rows, k);
  }

  lemma {:induction false} FirstRowIsGlobal(rows: seq<Row>, k: string)
    ensures match FirstRow(rows, k)
            case Some(r) => r in rows && IsGlobal(r, k)
            case None => forall r | r in rows :: !IsGlobal(r, k)
  {
    if rows != [] && !IsGlobal(rows[0], k) {
      FirstRowIsGlobal(rows[1..], k);
    }
  }

  lemma SeenLater(hist: seq<Sighting>, after: real, earlier: real, answer: Effective)
    requires SeenAfter(hist, after, answer) && earlier <= after
    ensures SeenAfter(hist, earlier, answer)
  {
  }

  predicate HasMemo(p: Proc, k: string, now: real) {
    k in p.memo && now < p.memo[k].expires
  }

  /** Any read keeps the tracked key fresh; a read of it fails exactly when it has no live memo and
      cannot be read, and otherwise answers as the direct lookup did less than 65 seconds before. */
  lemma ReadKeeps(site: Site, hist: seq<Sighting>, rows: seq<Row>, now: real, lost: set<CacheOp>, p: Proc, c: Cache,
                  k: string, sheltered: bool, other: string)
    requires Present(site, hist, rows, now, k) && (sheltered ==> Sheltered(site, lost, k))
    requires Good(site, hist, now, p, c, k, sheltered)
    requires other in site.fields
    ensures var a := GetMemoized(site, rows, now, lost, p, c, other);
            && Good(site, hist, now, a.proc, a.cache, k, sheltered)
            && (other == k ==>
                  && (a.outcome.Raised? <==> !HasMemo(p, k, now) && CannotRead(site, rows, now, lost, p, c, k))
                     && (a.outcome.Raised? && sheltered ==> !IsClear(site, rows, lost, k))
                  && (!a.outcome.Raised? ==>
                        SeenAfter(hist, now - SETTING_CACHE_TIMEOUT - SETTING_MEMORY_TTL, Resolve(site, k, a.outcome))))
    decreases Rank(site, other), 2
  {
    var since := now - SETTING_CACHE_TIMEOUT - SETTING_MEMORY_TTL;
    if HasMemo(p, other, now) {
      if other == k {
        SeenLater(hist, p.memo[k].expires - SETTING_CACHE_TIMEOUT - SETTING_MEMORY_TTL, since,
                  Resolve(site, k, p.memo[k].value));
      }
    } else if other == k {
      LocalTracked(site, hist, rows, now, lost, p, c, k, sheltered);
      var a := GetLocal(site, rows, now, lost, p, c, k);
      if !a.outcome.Raised? {
        SeenLater(hist, now - SETTING_CACHE_TIMEOUT, since, Resolve(site, k, a.outcome));
      }
    } else {
      LocalElsewhere(site, hist, rows, now, lost, p, c, k, sheltered, other);
    }
  }

  lemma LocalElsewhere(site: Site, hist: seq<Sighting>, rows: seq<Row>, now: real, lost: set<CacheOp>, p: Proc,
                       c: Cache, k: string, sheltered: bool, other: string)
    requires Present(site, hist, rows, now, k) && (sheltered ==> Sheltered(site, lost, k))
    requires Good(site, hist, now, p, c, k, sheltered)
    requires other in site.fields && other != k
    ensures var a := GetLocal(site, rows, now, lost, p, c, other); Good(site, hist, now, a.proc, a.cache, k, sheltered)
    decreases Rank(site, other), 1
  {
    PreloadKeeps(site, hist, rows, now, lost, p, c, k, sheltered);
    var pre := Preload(site, rows, now, lost, p, c);
    LocalUnfolds(site, rows, now, lost, p, c, other);
    if pre.ok {
      var fetch := CacheGet(site, pre.proc, rows, now, lost, pre.cache, other);
      RecomputeElsewhere(site, hist, rows, now, lost, pre.proc, pre.cache, k, sheltered, other, fetch);
    }
  }

  /******* What every read keeps of the process *******/

  /** Any read keeps what the process has marked, and marks only what the files define. */
  lemma ReadKeepsProc(site: Site, rows: seq<Row>, now: real, lost: set<CacheOp>, p: Proc, c: Cache, other: string)
    requires other in site.fields
    ensures var p1 := GetMemoized(site, rows, now, lost, p, c, other).proc;
            p.marked <= p1.marked && (ProcOk(site, p) ==> ProcOk(site, p1))
    decreases Rank(site, other), 2
  {
    if !HasMemo(p, other, now) {
      var pre := Preload(site, rows, now, lost, p, c);
      if ProcOk(site, p) {
        StartPreloadOk(site, p, now);
      }
      if pre.ok {
        RecomputeKeepsProc(site, rows, now, lost, pre.proc, pre.cache, other,
                           CacheGet(site, pre.proc, rows, now, lost, pre.cache, other));
      }
    }
  }

  lemma RecomputeKeepsProc(site: Site, rows: seq<Row>, now: real, lost: set<CacheOp>, p: Proc, c: Cache, other: string,
                           fetch: Fetch)
    requires other in site.fields
    ensures var p1 := Recompute(site, rows, now, lost, p, c, other, fetch).proc;
            p.marked <= p1.marked && (ProcOk(site, p) ==> ProcOk(site, p1))
    decreases Rank(site, other), 0
  {
    match LookUp(site, rows, p, other)
    case From(source, _) => ReadKeepsProc(site, rows, now, lost, p, c, source);
    case _ =>
  }
}
