/**
 The settings wrapper of one process, with the shared cache and the table it works on. Each
 method updates this state in place, operation by operation, and is proved to leave it as the
 corresponding function of the value model says.
 */
module SettingsWrapper {
  import opened Helpers
  import opened SettingsModel
  import opened SettingsCache
  import opened SettingsWrites

  /** The Redis-backed cache. A lost operation has no effect, and a lost lookup finds nothing. */
  class SharedCache {
    var values: map<string, Timed<Value>>
    var ids: map<string, Timed<Option<Pk>>>
    var marker: Option<real>

    constructor ()
      ensures State() == EmptyCache
    {
      values, ids, marker := map[], map[], None;
    }

    function State(): Cache
      reads this
    {
      Cache(values, ids, marker)
    }

    method SetValue(k: string, v: Value, expires: real, lost: bool)
      modifies this`values
      ensures values == if lost then old(values) else old(values)[k := Timed(v, expires)]
    {
      if !lost {
        values := values[k := Timed(v, expires)];
      }
    }

    method SetId(k: string, id: Option<Pk>, expires: real, lost: bool)
      modifies this`ids
      ensures ids == if lost then old(ids) else old(ids)[k := Timed(id, expires)]
    {
      if !lost {
        ids := ids[k := Timed(id, expires)];
      }
    }

    method SetMarker(expires: real, lost: bool)
      modifies this`marker
      ensures marker == if lost then old(marker) else Some(expires)
    {
      if !lost {
        marker := Some(expires);
      }
    }

    method DeleteMany(keys: set<string>, lost: set<CacheOp>)
      modifies this`values
      ensures State() == Evict(old(State()), keys, lost)
    {
      if CacheOp.DeleteMany !in lost {
        values := map k | k in values && k !in keys :: values[k];
      }
    }
  }

  /** The table, with the next primary key it will assign. */
  class SettingTable {
    var rows: seq<Row>
    var nextPk: Pk

    constructor ()
      ensures rows == [] && nextPk == 1
    {
      rows, nextPk := [], 1;
    }

    method Insert(k: string, v: Value) returns (pk: Pk)
      modifies this
      ensures pk == old(nextPk) && nextPk == pk + 1 && rows == old(rows) + [Row(pk, k, None, v)]
    {
      pk := nextPk;
      rows, nextPk := rows + [Row(pk, k, None, v)], nextPk + 1;
    }

    method Update(pk: Pk, v: Value)
      modifies this`rows
      ensures rows == PutValue(old(rows), pk, v)
    {
      rows := PutValue(rows, pk, v);
    }

    method DeleteFirst(k: string)
      modifies this`rows
      ensures rows == RemoveFirst(old(rows), k)
    {
      rows := RemoveFirst(rows, k);
    }
  }

  datatype Status = Done | NoChange | RefusedReadOnly | RefusedInvalid | Escaped

  class SettingsWrapper {
    const site: Site
    const cache: SharedCache
    const table: SettingTable
    var memo: map<string, Timed<Outcome>>
    var preloadExpires: Option<real>
    var initReadonly: bool
    var marked: set<string>

    constructor (site: Site, cache: SharedCache, table: SettingTable)
      requires WellFormed(site)
      ensures this.site == site && this.cache == cache && this.table == table
      ensures Valid() && View() == FreshProc
    {
      this.site, this.cache, this.table := site, cache, table;
      memo, preloadExpires, initReadonly, marked := map[], None, false, {};
    }

    ghost predicate Valid()
      reads this
    {
      WellFormed(site) && (!initReadonly ==> marked == {})
    }

    function View(): Proc
      reads this
    {
      Proc(memo, preloadExpires, initReadonly, marked)
    }

    function View3(): Session
      reads this, cache, table
    {
      Session(table.rows, View(), cache.State())
    }

    /******* Preload *******/

    /** The settings that are not read-only, and INSTALL_UUID, in registration order. */
    method WriteableSettings() returns (keys: seq<string>)
      requires Valid()
      ensures forall k :: k in keys <==> IsPreloaded(site, View(), k)
      ensures forall i, j :: 0 <= i < j < |keys| ==> keys[i] != keys[j]
    {
      keys := [];
      for i := 0 to |site.order|
        invariant forall i, j :: 0 <= i < j < |keys| ==> keys[i] != keys[j]
        invariant forall k :: k in keys <==> k in site.order[..i] && IsPreloaded(site, View(), k)
      {
        var k := site.order[i];
        assert site.order[..i + 1] == site.order[..i] + [k];
        assert k in site.order && k !in site.order[..i];
        if IsDbBacked(site, k in marked, k) {
          keys := keys + [k];
        }
      }
      assert site.order[..|site.order|] == site.order;
    }

    /** Marks the keys whose settings file departs from the shipped defaults. */
    method MarkFileDefined()
      requires Valid() && !initReadonly
      modifies this`marked, this`initReadonly
      ensures marked == set k | k in site.fields && IsFileDefined(site, k)
      ensures initReadonly == exists k | k in site.fields :: IsDbBacked(site, false, k)
    {
      var keys := WriteableSettings();
      for i := 0 to |keys|
        invariant marked == set k | k in keys[..i] && IsFileDefined(site, k)
        invariant initReadonly == (i > 0)
        invariant forall k :: k in keys <==> k in site.fields && IsDbBacked(site, false, k)
      {
        var k := keys[i];
        assert k in keys;
        assert keys[..i + 1] == keys[..i] + [k];
        var initDefault := if k in site.snapshot then site.snapshot[k] else Null;
        var fileDefault := if k in site.files then site.files[k] else Null;
        if fileDefault != initDefault && fileDefault != Null {
          marked := marked + {k};
        }
        initReadonly := true;
      }
      assert keys[..|keys|] == keys;
      if |keys| > 0 {
        assert keys[0] in keys;
      }
    }

    static function LoadOf(settings: map<string, Value>, ids: map<string, Option<Pk>>, k: string): Load
      requires k in settings
    {
      Loaded(settings[k], if k in ids then Some(ids[k]) else None)
    }

    /** One pass over the table in primary-key order; `ok` is false if a row could not be decrypted. */
    method LoadFromTable(keys: seq<string>)
      returns (settings: map<string, Value>, ids: map<string, Option<Pk>>, ok: bool)
      requires forall k :: k in keys ==> k in site.fields
      ensures forall k :: k in settings <==> k in keys
      ensures ok <==> forall k | k in keys :: LoadRows(site, table.rows, k, Loaded(NotSet, None)).Loaded?
      ensures ok ==>
              forall k | k in keys :: LoadOf(settings, ids, k) == LoadRows(site, table.rows, k, Loaded(NotSet, None))
      ensures ids.Keys <= settings.Keys
    {
      settings := map k | k in keys :: NotSet;
      ids := map[];
      ok := true;
      for i := 0 to |table.rows|
        invariant settings.Keys == set k | k in keys
        invariant ids.Keys <= settings.Keys
        invariant forall k | k in keys ::
                    LoadRows(site, table.rows[i..], k, LoadOf(settings, ids, k))
                      == LoadRows(site, table.rows, k, Loaded(NotSet, None))
      {
        var r := table.rows[i];
        assert table.rows[i..][0] == r && table.rows[i..][1..] == table.rows[i + 1..];
        if r.key in settings && r.user.None? && settings[r.key] == NotSet {
          var v := RowValue(site, r.key, r);
          if v.None? {
            assert LoadRow(site, r, r.key, LoadOf(settings, ids, r.key)).Unreadable?;
            ok := false;
            return;
          }
          if IsEncrypted(site, r.key) {
            ids := ids[r.key := Some(r.pk)];
          }
          settings := settings[r.key := CacheForm(v.value)];
        }
      }
    }

    /** Field defaults for the keys the table did not set. */
    method LoadDefaults(keys: seq<string>, settings0: map<string, Value>, ids0: map<string, Option<Pk>>)
      returns (settings: map<string, Value>, ids: map<string, Option<Pk>>)
      requires forall k :: k in keys ==> k in site.fields && k in settings0
      requires forall i, j :: 0 <= i < j < |keys| ==> keys[i] != keys[j]
      ensures settings.Keys == settings0.Keys
      ensures ids.Keys <= ids0.Keys + settings0.Keys
      ensures forall k | k in keys ::
              LoadOf(settings, ids, k) == LoadDefault(site, k in marked, k, LoadOf(settings0, ids0, k))
    {
      settings, ids := settings0, ids0;
      for i := 0 to |keys|
        invariant settings.Keys == settings0.Keys
        invariant ids.Keys <= ids0.Keys + settings0.Keys
        invariant forall j | 0 <= j < i ::
                  LoadOf(settings, ids, keys[j])
                    == LoadDefault(site, keys[j] in marked, keys[j], LoadOf(settings0, ids0, keys[j]))
        invariant forall j | i <= j < |keys| :: LoadOf(settings, ids, keys[j]) == LoadOf(settings0, ids0, keys[j])
      {
        var k := keys[i];
        if settings[k] == NotSet {
          match FieldDefault(site, k in marked, k) {
            case Fixed(v) =>
              settings := settings[k := CacheForm(v)];
              if IsEncrypted(site, k) {
                ids := ids[k := None];
              }
            case _ =>
          }
        }
      }
    }

    /** `after` is `before` with the entries of `added` written over it. */
    ghost predicate Overlaid<T(!new)>(before: map<string, T>, added: map<string, T>, after: map<string, T>) {
      && (forall k :: k in after <==> k in before || k in added)
      && (forall k :: k in after ==> after[k] == if k in added then added[k] else before[k])
    }

    /** Writes the id entries of a preload. */
    method StoreIds(now: real, lost: set<CacheOp>, keys: seq<string>, ids: map<string, Option<Pk>>,
                    ghost entries: map<string, Timed<Option<Pk>>>)
      requires forall k :: k in entries <==> k in keys && k in ids && CacheOp.SetId(k, Preloading) !in lost
      requires forall k :: k in entries ==> entries[k] == Timed(ids[k], now + site.idTimeout)
      modifies cache`ids
      ensures cache.ids == old(cache.ids) + entries
    {
      ghost var done: map<string, Timed<Option<Pk>>> := map[];
      for i := 0 to |keys|
        invariant Overlaid(old(cache.ids), done, cache.ids)
        invariant forall k :: k in done <==> k in entries && k in keys[..i]
        invariant forall k :: k in done ==> done[k] == entries[k]
      {
        var k := keys[i];
        assert keys[..i + 1] == keys[..i] + [k];
        if k in ids {
          cache.SetId(k, ids[k], now + site.idTimeout, CacheOp.SetId(k, Preloading) in lost);
          if k in entries {
            done := done[k := entries[k]];
          }
        }
      }
      assert keys[..|keys|] == keys;
      assert done == entries;
    }

    /** Writes the value entries of a preload, sealing each under the id entry now in force. */
    method StoreValues(now: real, lost: set<CacheOp>, keys: seq<string>, settings: map<string, Value>,
                       ghost entries: map<string, Timed<Value>>)
      requires forall k :: k in keys ==> k in site.fields && k in settings
      requires forall k :: k in entries <==> k in keys && CacheOp.SetValue(k, Preloading) !in lost
      requires forall k | k in entries ::
                 entries[k] == Timed(Sealed(site, k,
                   ObjId(site, View(), table.rows, now, lost, cache.State(), k, Preloading), settings[k]),
                                     now + SETTING_CACHE_TIMEOUT)
      modifies cache`values
      ensures cache.values == old(cache.values) + entries
    {
      ghost var done: map<string, Timed<Value>> := map[];
      for i := 0 to |keys|
        invariant Overlaid(old(cache.values), done, cache.values)
        invariant forall k :: k in done <==> k in entries && k in keys[..i]
        invariant forall k :: k in done ==> done[k] == entries[k]
      {
        var k := keys[i];
        assert k in keys;
        assert keys[..i + 1] == keys[..i] + [k];
        var pk := ObjId(site, View(), table.rows, now, lost, cache.State(), k, Preloading);
        assert pk == ObjId(site, View(), table.rows, now, lost, old(cache.State()), k, Preloading);
        cache.SetValue(k, Sealed(site, k, pk, settings[k]), now + SETTING_CACHE_TIMEOUT,
                       CacheOp.SetValue(k, Preloading) in lost);
        if k in entries {
          done := done[k := entries[k]];
        }
      }
      assert keys[..|keys|] == keys;
      assert done == entries;
    }

    /** Loads every writable setting from the table, else from its default. */
    method LoadSettings()
      returns (keys: seq<string>, settings: map<string, Value>, ids: map<string, Option<Pk>>, ok: bool)
      requires Valid()
      ensures forall k :: k in keys <==> IsPreloaded(site, View(), k)
      ensures ok <==> CanPreload(site, View(), table.rows)
      ensures ok ==> forall k :: k in keys ==>
              k in site.fields && k in settings && LoadOf(settings, ids, k) == LoadKey(site, View(), table.rows, k)
    {
      keys := WriteableSettings();
      settings, ids, ok := LoadFromTable(keys);
      assert forall k :: k in keys ==>
        LoadKey(site, View(), table.rows, k).Loaded? == LoadRows(site, table.rows, k, Loaded(NotSet, None)).Loaded?;
      if ok {
        settings, ids := LoadDefaults(keys, settings, ids);
      }
    }

    /** The shared half of a preload: load every writable setting and store it. */
    method FillCache(now: real, lost: set<CacheOp>) returns (ok: bool)
      requires Valid()
      modifies cache
      ensures ok <==> CanPreload(site, View(), table.rows)
      ensures cache.State() == if ok then PreloadFill(site, View(), table.rows, now, lost, old(cache.State()))
              else old(cache.State())
    {
      var keys, settings, ids, loaded := LoadSettings();
      if !loaded {
        return false;
      }
      StoreIds(now, lost, keys, ids, IdEntries(site, View(), table.rows, now, lost));
      StoreValues(now, lost, keys, settings, ValueEntries(site, View(), table.rows, now, lost, cache.State()));
      cache.SetMarker(now + SETTING_CACHE_TIMEOUT, CacheOp.SetMarker in lost);
      return true;
    }

    /** Preloads the shared cache unless this process or another has done so recently; `ok` is
        false when a row that cannot be decrypted cuts it short. */
    method PreloadCache(now: real, lost: set<CacheOp>) returns (ok: bool)
      requires Valid()
      modifies this, cache
      ensures Valid()
      ensures Preloaded(View(), cache.State(), ok)
              == Preload(site, table.rows, now, lost, old(View()), old(cache.State()))
    {
      if preloadExpires.Some? && now < preloadExpires.value {
        return true;
      }
      preloadExpires := Some(now + SETTING_CACHE_TIMEOUT);
      if !initReadonly {
        MarkFileDefined();
      }
      ghost var p := StartPreload(site, old(View()), now);
      assert View() == p;
      if CacheOp.GetMarker !in lost && cache.marker.Some? && now < cache.marker.value {
        return true;
      }
      ok := FillCache(now, lost);
    }

    /******* Reads *******/

    /** Caches a recomputed value with its id entry, unless "not set" was cached already. */
    method Cached(now: real, lost: set<CacheOp>, k: string, fetch: Fetch, v: Value,
                  id: Option<Option<Pk>>) returns (o: Outcome)
      requires Valid() && k in site.fields
      modifies cache
      ensures Access(View(), cache.State(), o)
              == Settle(site, table.rows, now, lost, View(), old(cache.State()), k, fetch, v, id)
    {
      var value := if v == Null then NotSet else v;
      if fetch != Hit(NotSet) || value != NotSet {
        if id.Some? {
          cache.SetId(k, id.value, now + site.idTimeout, CacheOp.SetId(k, Storing) in lost);
        }
        var pk := ObjId(site, View(), table.rows, now, lost, cache.State(), k, Storing);
        cache.SetValue(k, Sealed(site, k, pk, CacheForm(value)), now + SETTING_CACHE_TIMEOUT,
                       CacheOp.SetValue(k, Storing) in lost);
      }
      o := if value == NotSet then Empty else Finish(site, k in marked, k, value);
    }

    method GetLocal(now: real, lost: set<CacheOp>, k: string) returns (o: Outcome)
      requires Valid() && k in site.fields
      modifies this, cache
      ensures Valid()
      ensures Access(View(), cache.State(), o)
              == SettingsCache.GetLocal(site, table.rows, now, lost, old(View()), old(cache.State()), k)
      decreases Rank(site, k), 1
    {
      var ok := PreloadCache(now, lost);
      if !ok {
        return Raised;
      }
      var fetch := CacheGet(site, View(), table.rows, now, lost, cache.State(), k);
      if fetch.Broken? {
        return Raised;
      }
      if fetch.Hit? && FromCache(fetch.value).Some? {
        return Finish(site, k in marked, k, FromCache(fetch.value).value);
      }
      o := Recomputed(now, lost, k, fetch);
    }

    /** The row of a setting that the table backs, decrypted where it is encrypted, or else its
        default. */
    method FindStored(k: string) returns (r: Lookup)
      requires Valid() && k in site.fields
      ensures r == LookUp(site, table.rows, View(), k)
    {
      var encrypted := IsEncrypted(site, k);
      var row := if IsDbBacked(site, k in marked, k) then FirstRow(table.rows, k) else None;
      if row.Some? {
        var v := RowValue(site, k, row.value);
        if v.None? {
          return Unopened;
        }
        return Stored(v.value, if encrypted then Some(Some(row.value.pk)) else None);
      }
      match FieldDefault(site, k in marked, k)
      case NoDefault =>
        return Stored(NotSet, None);
      case Fixed(v) =>
        return Stored(v, if encrypted then Some(None) else None);
      case Computed(source, compute) =>
        if source !in site.fields || Rank(site, source) != 0 {
          return Stored(NotSet, None);
        }
        return From(source, compute);
    }

    /** The lookup in the table and among the defaults behind a cache miss. */
    method Recomputed(now: real, lost: set<CacheOp>, k: string, fetch: Fetch) returns (o: Outcome)
      requires Valid() && k in site.fields
      modifies this, cache
      ensures Valid()
      ensures Access(View(), cache.State(), o)
              == Recompute(site, table.rows, now, lost, old(View()), old(cache.State()), k, fetch)
      decreases Rank(site, k), 0
    {
      var found := FindStored(k);
      match found
      case Unopened =>
        o := Raised;
      case Stored(v, id) =>
        o := Cached(now, lost, k, fetch, v, id);
      case From(source, compute) =>
        var dep := GetLocalWithCache(now, lost, source);
        var answer := Resolve(site, source, dep);
        if !answer.Resolved? {
          return Raised;
        }
        o := Cached(now, lost, k, fetch, compute(answer.value), ComputedId(site, k));
    }

    method GetLocalWithCache(now: real, lost: set<CacheOp>, k: string) returns (o: Outcome)
      requires Valid() && k in site.fields
      modifies this, cache
      ensures Valid()
      ensures Access(View(), cache.State(), o)
              == GetMemoized(site, table.rows, now, lost, old(View()), old(cache.State()), k)
      decreases Rank(site, k), 2
    {
      if k in memo && now < memo[k].expires {
        return memo[k].value;
      }
      o := GetLocal(now, lost, k);
      if !o.Raised? {
        memo := memo[k := Timed(o, now + SETTING_MEMORY_TTL)];
      }
    }

    /** Attribute access: the setting, else the settings file. */
    method GetAttr(now: real, lost: set<CacheOp>, k: string) returns (answer: Effective)
      requires Valid() && k in site.fields
      modifies this, cache
      ensures Valid() && table.rows == old(table.rows)
      ensures var a := GetMemoized(site, table.rows, now, lost, old(View()), old(cache.State()), k);
              View() == a.proc && cache.State() == a.cache && answer == Resolve(site, k, a.outcome)
    {
      var o := GetLocalWithCache(now, lost, k);
      answer := Resolve(site, k, o);
    }

    /******* Writes *******/

    /** The signal handler, run by the process that made the change. */
    method HandleSettingChange(now: real, lost: set<CacheOp>, k: string, dependents: seq<string>) returns (ok: bool)
      requires Valid()
      modifies this, cache
      ensures Valid()
      ensures (if ok then Saved(View3()) else CutShort(View3())) == Notify(site, now, lost, old(View3()), k, dependents)
    {
      cache.DeleteMany({k} + Dependents(site, k), lost);
      memo := map[];
      var keys := [k] + dependents;
      ghost var p, c := View(), cache.State();
      var i := 0;
      while i < |keys|
        invariant 0 <= i <= |keys| && Valid()
        invariant ReadAll(site, table.rows, now, lost, View(), cache.State(), keys[i..])
                  == ReadAll(site, table.rows, now, lost, p, c, keys)
      {
        assert keys[i..][0] == keys[i] && keys[i..][1..] == keys[i + 1..];
        if keys[i] in site.fields {
          var o := GetLocalWithCache(now, lost, keys[i]);
          if o.Raised? {
            return false;
          }
        }
        i := i + 1;
      }
      return true;
    }

    static predicate StatusIs(status: Status, s: Session, w: Written) {
      match w
      case Saved(s1) => status == Done && s == s1
      case Unchanged => status == NoChange
      case ReadOnlySetting => status == RefusedReadOnly
      case Invalid => status == RefusedInvalid
      case CutShort(s1) => status == Escaped && s == s1
    }

    method SaveExisting(now: real, lost: set<CacheOp>, pk: Pk, k: string, v: Value,
                        dependents: seq<string>) returns (status: Status)
      requires Valid()
      modifies this, cache, table
      ensures Valid() && StatusIs(status, View3(), SaveChanged(site, now, lost, old(View3()), pk, k, v, dependents))
    {
      table.Update(pk, Sealed(site, k, Some(pk), v));
      var ok := HandleSettingChange(now, lost, k, dependents);
      status := if ok then Done else Escaped;
    }

    /** Creating a row; an encrypted value is held back until the insert has assigned a key. */
    method SaveNewRow(now: real, lost: nat -> set<CacheOp>, k: string, v: Value,
                      dependents: seq<string>) returns (status: Status)
      requires Valid()
      modifies this, cache, table
      ensures Valid()
      ensures StatusIs(status, View3(), SaveNew(site, now, lost, old(View3()), old(table.nextPk), k, v, dependents))
    {
      var encrypted := IsEncrypted(site, k);
      var pk := table.Insert(k, if encrypted then Str("") else v);
      var ok := HandleSettingChange(now, lost(0), k, dependents);
      if !ok {
        return Escaped;
      }
      status := Done;
      if encrypted {
        status := SaveExisting(now, lost(1), pk, k, v, dependents);
      }
    }

    method SetAttr(now: real, lost: nat -> set<CacheOp>, k: string, value: Value,
                   dependents: seq<string>) returns (status: Status)
      requires Valid() && k in site.fields
      modifies this, cache, table
      ensures Valid()
      ensures StatusIs(status, View3(),
              SetLocal(site, now, lost, old(View3()), old(table.nextPk), k, value, dependents))
      ensures status in {NoChange, RefusedReadOnly, RefusedInvalid} ==> View3() == old(View3())
    {
      if IsReadOnly(site, k in marked, k) {
        return RefusedReadOnly;
      }
      var v := DbValue(site, k, value);
      if v.None? {
        return RefusedInvalid;
      }
      var row := FirstRow(table.rows, k);
      if row.None? {
        status := SaveNewRow(now, lost, k, v.value, dependents);
      } else if row.value.value != v.value {
        status := SaveExisting(now, lost(0), row.value.pk, k, v.value, dependents);
      } else {
        status := NoChange;
      }
    }

    method DelAttr(now: real, lost: nat -> set<CacheOp>, k: string, dependents: seq<string>) returns (status: Status)
      requires Valid() && k in site.fields
      modifies this, cache, table
      ensures Valid() && StatusIs(status, View3(), DelLocal(site, now, lost, old(View3()), k, dependents))
      ensures status in {NoChange, RefusedReadOnly} ==> View3() == old(View3())
    {
      if IsReadOnly(site, k in marked, k) {
        return RefusedReadOnly;
      }
      ghost var s := View3();
      var n: nat := 0;
      while FirstRow(table.rows, k).Some?
        invariant Valid() && (n == 0 ==> View3() == s)
        invariant DeleteRows(site, now, lost, n, View3(), k, dependents)
                  == DeleteRows(site, now, lost, 0, s, k, dependents)
        decreases |table.rows|
      {
        table.DeleteFirst(k);
        var ok := HandleSettingChange(now, lost(n), k, dependents);
        if !ok {
          return Escaped;
        }
        n := n + 1;
      }
      status := if n == 0 then NoChange else Done;
    }
  }
}
