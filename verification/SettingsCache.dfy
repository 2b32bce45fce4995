/**
 The caching layers of a setting read as functions on values: the per-process memo, the shared
 cache with its encrypted entries and their id entries, and the batch preload. Every cache
 operation may be lost, as the Redis wrapper allows; `lost` is the set of those that are.
 */
module SettingsCache {
  import opened Helpers
  import opened SettingsModel

  const SETTING_MEMORY_TTL := 5.0
  const SETTING_CACHE_TIMEOUT := 60.0

  datatype Timed<+T> = Timed(value: T, expires: real)

  /** The shared cache: setting values, the `_ID` entries naming the row an encrypted value was
      sealed under (`None` for no row), and the expiry of the preload marker. */
  datatype Cache = Cache(values: map<string, Timed<Value>>, ids: map<string, Timed<Option<Pk>>>, marker: Option<real>)

  /** One process: its memo, its own preload deadline, and the keys it has marked read-only. */
  datatype Proc = Proc(memo: map<string, Timed<Outcome>>, preloadExpires: Option<real>, initReadonly: bool,
                       marked: set<string>)

  const EmptyCache := Cache(map[], map[], None)
  const FreshProc := Proc(map[], None, false, {})

  datatype Phase = Preloading | Fetching | Storing

  datatype CacheOp =
    | GetMarker
    | SetMarker
    | GetValue(key: string)
    | SetValue(key: string, phase: Phase)
    | GetId(key: string, phase: Phase)
    | SetId(key: string, phase: Phase)
    | DeleteMany

  /******* Encrypted entries *******/

  function DbPk(site: Site, p: Proc, rows: seq<Row>, k: string): Option<Pk>
    requires k in site.fields
  {
    if IsDbBacked(site, k in p.marked, k) then
      match FirstRow(rows, k)
      case Some(r) => Some(r.pk)
      case None => None
    else
      None
  }

  /** The primary key an encrypted entry is sealed or opened under: the live `_ID` entry if it
      can be had, else the current row's. */
  function ObjId(site: Site, p: Proc, rows: seq<Row>, now: real, lost: set<CacheOp>, c: Cache, k: string,
                 phase: Phase): Option<Pk>
    requires k in site.fields
  {
    if GetId(k, phase) !in lost && k in c.ids && now < c.ids[k].expires
    then c.ids[k].value
    else DbPk(site, p, rows, k)
  }

  function Sealed(site: Site, k: string, pk: Option<Pk>, v: Value): Value {
    if IsEncrypted(site, k) then EncryptField(site.cipher, pk, v) else v
  }

  /** A cache lookup: a decrypted value, nothing, or a decryption error that escapes. */
  datatype Fetch = Hit(value: Value) | Absent | Broken

  function CacheGet(site: Site, p: Proc, rows: seq<Row>, now: real, lost: set<CacheOp>, c: Cache, k: string): Fetch
    requires k in site.fields
  {
    if GetValue(k) in lost || k !in c.values || c.values[k].expires <= now then Absent
    else if !IsEncrypted(site, k) then Hit(c.values[k].value)
    else
      match DecryptField(site.cipher, ObjId(site, p, rows, now, lost, c, k, Fetching), c.values[k].value)
      case Opened(s) => Hit(Str(s))
      case BadToken => Broken
      case Malformed => Absent
  }

  /******* Preload *******/

  predicate PreloadDue(p: Proc, now: real) {
    !(p.preloadExpires.Some? && now < p.preloadExpires.value)
  }

  /** A read here loads the cache itself: its preload is due, and no other process's is found. */
  predicate LoadsCache(p: Proc, now: real, lost: set<CacheOp>, c: Cache) {
    PreloadDue(p, now) && !(GetMarker !in lost && c.marker.Some? && now < c.marker.value)
  }

  /** The local half of a preload: the next deadline, and, once, the file-defined keys. */
  function StartPreload(site: Site, p: Proc, now: real): Proc {
    var p1 := p.(preloadExpires := Some(now + SETTING_CACHE_TIMEOUT));
    if p.initReadonly then p1
    else p1.(
      marked := p.marked + (set k | k in site.fields && IsFileDefined(site, k)),
      initReadonly := (exists k | k in site.fields :: IsDbBacked(site, k in p.marked, k)))
  }

  /** The cached form and `_ID` entry a preload has for one key. */
  datatype Load = Loaded(cached: Value, id: Option<Option<Pk>>) | Unreadable

  /** One key's pass over the table, resumed at `rows` with what was loaded so far. */
  function LoadRows(site: Site, rows: seq<Row>, k: string, load: Load): Load {
    if rows == [] || load.Unreadable? then load
    else LoadRows(site, rows[1..], k, LoadRow(site, rows[0], k, load))
  }

  function LoadRow(site: Site, r: Row, k: string, load: Load): Load
    requires load.Loaded?
  {
    if !IsGlobal(r, k) || load.cached != NotSet then load
    else
      match RowValue(site, k, r)
      case None => Unreadable
      case Some(v) => Loaded(CacheForm(v), if IsEncrypted(site, k) then Some(Some(r.pk)) else load.id)
  }

  function LoadDefault(site: Site, marked: bool, k: string, load: Load): Load
    requires k in site.fields
  {
    if load.Unreadable? || load.cached != NotSet then load
    else
      match FieldDefault(site, marked, k)
      case Fixed(v) => Loaded(CacheForm(v), if IsEncrypted(site, k) then Some(None) else load.id)
      case _ => load
  }

  function LoadKey(site: Site, p: Proc, rows: seq<Row>, k: string): Load
    requires k in site.fields
  {
    LoadDefault(site, k in p.marked, k, LoadRows(site, rows, k, Loaded(NotSet, None)))
  }

  predicate IsPreloaded(site: Site, p: Proc, k: string) {
    k in site.fields && IsDbBacked(site, k in p.marked, k)
  }

  predicate CanPreload(site: Site, p: Proc, rows: seq<Row>) {
    forall k | k in site.fields :: IsPreloaded(site, p, k) ==> LoadKey(site, p, rows, k).Loaded?
  }

  function IdEntries(site: Site, p: Proc, rows: seq<Row>, now: real, lost: set<CacheOp>): map<string, Timed<Option<Pk>>>
    requires CanPreload(site, p, rows)
  {
    map k | k in site.fields && IsPreloaded(site, p, k) && LoadKey(site, p, rows, k).id.Some?
      && SetId(k, Preloading) !in lost
      :: Timed(LoadKey(site, p, rows, k).id.value, now + site.idTimeout)
  }

  function ValueEntries(site: Site, p: Proc, rows: seq<Row>, now: real, lost: set<CacheOp>,
                        c: Cache): map<string, Timed<Value>>
    requires CanPreload(site, p, rows)
  {
    map k | k in site.fields && IsPreloaded(site, p, k) && SetValue(k, Preloading) !in lost
      :: Timed(Sealed(site, k, ObjId(site, p, rows, now, lost, c, k, Preloading), LoadKey(site, p, rows, k).cached),
               now + SETTING_CACHE_TIMEOUT)
  }

  /** The cache a completed preload leaves: one id entry for each encrypted key loaded, then one
      value entry for each key, then the marker. */
  function PreloadFill(site: Site, p: Proc, rows: seq<Row>, now: real, lost: set<CacheOp>, c: Cache): Cache
    requires CanPreload(site, p, rows)
  {
    var c1 := c.(ids := c.ids + IdEntries(site, p, rows, now, lost));
    c1.(
      values := c.values + ValueEntries(site, p, rows, now, lost, c1),
      marker := if SetMarker in lost then c.marker else Some(now + SETTING_CACHE_TIMEOUT))
  }

  datatype Preloaded = Preloaded(proc: Proc, cache: Cache, ok: bool)

  function Preload(site: Site, rows: seq<Row>, now: real, lost: set<CacheOp>, p: Proc, c: Cache): Preloaded {
    if !PreloadDue(p, now) then Preloaded(p, c, true)
    else
      var p1 := StartPreload(site, p, now);
      if !LoadsCache(p, now, lost, c) then Preloaded(p1, c, true)
      else if CanPreload(site, p1, rows) then Preloaded(p1, PreloadFill(site, p1, rows, now, lost, c), true)
      else Preloaded(p1, c, false)
  }

  /******* Single reads *******/

  datatype Access = Access(proc: Proc, cache: Cache, outcome: Outcome)

  function StoreId(site: Site, now: real, lost: set<CacheOp>, c: Cache, k: string, id: Option<Option<Pk>>): Cache {
    if id.Some? && SetId(k, Storing) !in lost
    then c.(ids := c.ids[k := Timed(id.value, now + site.idTimeout)])
    else c
  }

  function StoreValue(site: Site, p: Proc, rows: seq<Row>, now: real, lost: set<CacheOp>, c: Cache, k: string,
                      v: Value): Cache
    requires k in site.fields
  {
    if SetValue(k, Storing) in lost then c
    else c.(values := c.values[k := Timed(Sealed(site, k, ObjId(site, p, rows, now, lost, c, k, Storing), CacheForm(v)),
                                          now + SETTING_CACHE_TIMEOUT)])
  }

  /** Caches a recomputed value, unless "not set" was already cached, and validates it. */
  function Settle(site: Site, rows: seq<Row>, now: real, lost: set<CacheOp>, p: Proc, c: Cache, k: string,
                  fetch: Fetch, v: Value, id: Option<Option<Pk>>): Access
    requires k in site.fields
  {
    var value := if v == Null then NotSet else v;
    var c1 := if fetch == Hit(NotSet) && value == NotSet then c
              else StoreValue(site, p, rows, now, lost, StoreId(site, now, lost, c, k, id), k, value);
    Access(p, c1, if value == NotSet then Empty else Finish(site, k in p.marked, k, value))
  }

  function Rank(site: Site, k: string): nat {
    if k in site.fields && site.fields[k].default.Computed? then 1 else 0
  }

  /** What is found behind a cache miss: a value, with the `_ID` entry to write for it; a row that
      cannot be opened; or another setting to compute a value from. */
  datatype Lookup =
    | Stored(value: Value, id: Option<Option<Pk>>)
    | Unopened
    | From(source: string, compute: Value -> Value)

  /** The lookup in the table and among the defaults. Sources with callable defaults of their own are
      not modelled. */
  function LookUp(site: Site, rows: seq<Row>, p: Proc, k: string): (r: Lookup)
    requires k in site.fields
    ensures r.From? ==> r.source in site.fields && Rank(site, r.source) == 0 && Rank(site, k) == 1
  {
    var marked, enc := k in p.marked, IsEncrypted(site, k);
    match (if IsDbBacked(site, marked, k) then FirstRow(rows, k) else None)
    case Some(r) =>
      (match RowValue(site, k, r)
       case None => Unopened
       case Some(v) => Stored(v, if enc then Some(Some(r.pk)) else None))
    case None =>
      match FieldDefault(site, marked, k)
      case NoDefault => Stored(NotSet, None)
      case Fixed(v) => Stored(v, if enc then Some(None) else None)
      case Computed(source, compute) =>
        if source !in site.fields || Rank(site, source) != 0 then Stored(NotSet, None) else From(source, compute)
  }

  /** Settling what is looked up. A callable default reads its source setting through every layer. */
  function Recompute(site: Site, rows: seq<Row>, now: real, lost: set<CacheOp>, p: Proc, c: Cache, k: string,
                     fetch: Fetch): Access
    requires k in site.fields
    decreases Rank(site, k), 0
  {
    match LookUp(site, rows, p, k)
    case Unopened => Access(p, c, Raised)
    case Stored(v, id) => Settle(site, rows, now, lost, p, c, k, fetch, v, id)
    case From(source, compute) =>
      var a := GetMemoized(site, rows, now, lost, p, c, source);
      match Resolve(site, source, a.outcome)
      case Resolved(v) =>
        Settle(site, rows, now, lost, a.proc, a.cache, k, fetch, compute(v), ComputedId(site, k))
      case _ => Access(a.proc, a.cache, Raised)
  }

  function ComputedId(site: Site, k: string): Option<Option<Pk>> {
    if IsEncrypted(site, k) then Some(None) else None
  }

  function GetLocal(site: Site, rows: seq<Row>, now: real, lost: set<CacheOp>, p: Proc, c: Cache, k: string): Access
    requires k in site.fields
    decreases Rank(site, k), 1
  {
    var pre := Preload(site, rows, now, lost, p, c);
    if !pre.ok then Access(pre.proc, pre.cache, Raised)
    else
      var fetch := CacheGet(site, pre.proc, rows, now, lost, pre.cache, k);
      if fetch.Broken? then Access(pre.proc, pre.cache, Raised)
      else if fetch.Hit? && FromCache(fetch.value).Some? then
        Access(pre.proc, pre.cache, Finish(site, k in pre.proc.marked, k, FromCache(fetch.value).value))
      else Recompute(site, rows, now, lost, pre.proc, pre.cache, k, fetch)
  }

  /** A read through the memo; an exception is not memoized. */
  function GetMemoized(site: Site, rows: seq<Row>, now: real, lost: set<CacheOp>, p: Proc, c: Cache, k: string): Access
    requires k in site.fields
    decreases Rank(site, k), 2
  {
    if k in p.memo && now < p.memo[k].expires then Access(p, c, p.memo[k].value)
    else
      var a := GetLocal(site, rows, now, lost, p, c, k);
      if a.outcome.Raised? then a
      else a.(proc := a.proc.(memo := a.proc.memo[k := Timed(a.outcome, now + SETTING_MEMORY_TTL)]))
  }

  /******* Invalidation *******/

  function Evict(c: Cache, keys: set<string>, lost: set<CacheOp>): Cache {
    if DeleteMany in lost then c
    else c.(values := map k | k in c.values && k !in keys :: c.values[k])
  }

  function Dependents(site: Site, k: string): set<string> {
    set d | d in site.fields && k in site.fields[d].dependsOn
  }

  /** Reads a list of settings in turn, stopping at an exception. */
  function ReadAll(site: Site, rows: seq<Row>, now: real, lost: set<CacheOp>, p: Proc, c: Cache,
                   keys: seq<string>): Access
    decreases |keys|
  {
    if keys == [] then Access(p, c, Empty)
    else if keys[0] !in site.fields then ReadAll(site, rows, now, lost, p, c, keys[1..])
    else
      var a := GetMemoized(site, rows, now, lost, p, c, keys[0]);
      if a.outcome.Raised? then a
      else ReadAll(site, rows, now, lost, a.proc, a.cache, keys[1..])
  }

  /** The signal handler: drop the key and its direct dependents from the shared cache, clear the
      memo, then read each of them again; `dependents` lists the set in the order it is walked. */
  function SettingChanged(site: Site, rows: seq<Row>, now: real, lost: set<CacheOp>, p: Proc, c: Cache, k: string,
                          dependents: seq<string>): Access {
    ReadAll(site, rows, now, lost, p.(memo := map[]), Evict(c, {k} + Dependents(site, k), lost), [k] + dependents)
  }
}
