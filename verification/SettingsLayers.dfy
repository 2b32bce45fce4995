/**
 The layers of a read one by one, spelled out: what the table and the defaults answer, what a fetch
 gives, what a preload loads, what is cached for how long, and what an eviction takes.
 */
module SettingsLayers {
  import opened Helpers
  import opened SettingsModel
  import opened SettingsCache
  import opened SettingsFreshness
  import opened SettingsOutcomes

  /******* The table and the defaults *******/

  /** The answer when nothing usable is set: the value in the settings files, or none. */
  function UnsetAnswer(site: Site, k: string): Effective {
    if k in site.files then Resolved(site.files[k]) else Missing
  }

  /** The answer a value gives: nothing for null and the "not set" marker, what the field makes of it, or
      nothing where it is invalid. A setting found in the files is converted, any other validated. */
  function ValueAnswer(site: Site, k: string, fixed: bool, v: Value): Effective {
    var made := if fixed then site.internalize(k, v) else site.validate(k, v);
    if v == Null || v == Str("___notset___") || made == None then UnsetAnswer(site, k) else Resolved(made.value)
  }

  /** What a row of an encrypted setting opens to: its text as it is, if that is empty or does not look
      sealed; else what unsealing it under the row's key gives. */
  function OpenedText(site: Site, pk: Option<Pk>, v: Value): Opened {
    var text := site.cipher.text(v);
    if text == "" || !("$encrypted$" <= text) then Opened(text) else site.cipher.open(pk, text)
  }

  /** The direct lookup answers from the first row of a setting that has one. */
  lemma DirectFromRow(site: Site, rows: seq<Row>, k: string, i: nat)
    requires k in site.fields && IsFirst(rows, i, k)
    ensures DirectRead(site, rows, k) ==
            if !site.fields[k].encrypted then ValueAnswer(site, k, site.fields[k].readOnly, rows[i].value)
            else
              match OpenedText(site, Some(rows[i].pk), rows[i].value)
              case Opened(text) => ValueAnswer(site, k, site.fields[k].readOnly, Str(text))
              case _ => Failed
  {
    FirstIsFirst(rows, i, k);
  }

  /** And of one that has none from its default, if that is a value. */
  lemma DirectFromDefault(site: Site, rows: seq<Row>, k: string)
    requires k in site.fields && HasNone(rows, k)
    ensures DirectRead(site, rows, k) ==
            match FieldDefault(site, false, k)
            case Fixed(v) => ValueAnswer(site, k, site.fields[k].readOnly, v)
            case _ => UnsetAnswer(site, k)
  {
    NoneIsFirst(rows, k);
  }

  /******* The cached form *******/

  /** Neither null nor an empty list or dictionary is ever cached, and nothing else is changed. */
  lemma FormsExactly(v: Value)
    ensures CacheForm(v) ==
            if v == Null then Str("___notset___") else if v == List([]) then Str("___[]___")
            else if v == Dict(map[]) then Str("___{}___") else v
    ensures CacheForm(v) !in {Null, List([]), Dict(map[])}
  {
  }

  /******* A fetch *******/

  /** The row whose key an encrypted entry is sealed and opened under: that of the `_ID` entry, if it is
      live and its lookup is answered; else the first row's, of a setting the table backs; else none. */
  ghost predicate IsKeyInForce(site: Site, p: Proc, rows: seq<Row>, now: real, lost: set<CacheOp>, c: Cache, k: string,
                               phase: Phase, pk: Option<Pk>)
    requires k in site.fields
  {
    if GetId(k, phase) !in lost && k in c.ids && now < c.ids[k].expires then pk == c.ids[k].value
    else if !((!site.fields[k].readOnly && k !in p.marked) || k == "INSTALL_UUID") || HasNone(rows, k) then pk == None
    else exists i: nat :: IsFirst(rows, i, k) && pk == Some(rows[i].pk)
  }

  lemma KeyInForce(site: Site, p: Proc, rows: seq<Row>, now: real, lost: set<CacheOp>, c: Cache, k: string,
                   phase: Phase)
    requires k in site.fields
    ensures IsKeyInForce(site, p, rows, now, lost, c, k, phase, ObjId(site, p, rows, now, lost, c, k, phase))
  {
    NoneIsFirst(rows, k);
    if !HasNone(rows, k) {
      var i: nat :| IsFirst(rows, i, k);
      FirstIsFirst(rows, i, k);
    }
  }

  /** A fetch finds nothing where it is lost, or there is no live entry; else what the entry holds, opened
      under the key in force; a token that key refuses escapes, and a malformed text is as nothing. */
  lemma FetchesExactly(site: Site, p: Proc, rows: seq<Row>, now: real, lost: set<CacheOp>, c: Cache, k: string,
                       pk: Option<Pk>)
    requires k in site.fields && pk == ObjId(site, p, rows, now, lost, c, k, Fetching)
    ensures CacheGet(site, p, rows, now, lost, c, k) ==
            if GetValue(k) in lost || k !in c.values || c.values[k].expires <= now then Absent
            else if !site.fields[k].encrypted then Hit(c.values[k].value)
            else
              match OpenedText(site, pk, c.values[k].value)
              case Opened(text) => Hit(Str(text))
              case BadToken => Broken
              case Malformed => Absent
    ensures IsKeyInForce(site, p, rows, now, lost, c, k, Fetching, pk)
  {
    KeyInForce(site, p, rows, now, lost, c, k, Fetching);
  }

  /******* A read *******/

  /** A live memo answers and nothing changes. */
  lemma MemoAnswers(site: Site, rows: seq<Row>, now: real, lost: set<CacheOp>, p: Proc, c: Cache, k: string)
    requires k in site.fields && k in p.memo && now < p.memo[k].expires
    ensures GetMemoized(site, rows, now, lost, p, c, k) == Access(p, c, p.memo[k].value)
  {
  }

  lemma {:induction false} RecomputeKeepsMemo(site: Site, rows: seq<Row>, now: real, lost: set<CacheOp>, p: Proc,
                                              c: Cache, k: string, fetch: Fetch, x: string)
    requires k in site.fields && Rank(site, k) <= Rank(site, x)
    ensures SameMemo(p, Recompute(site, rows, now, lost, p, c, k, fetch).proc, x)
    decreases Rank(site, k), 0
  {
    if LookUp(site, rows, p, k).From? {
      ReadKeepsMemo(site, rows, now, lost, p, c, LookUp(site, rows, p, k).source, x);
    }
  }

  ghost predicate SameMemo(p: Proc, p1: Proc, x: string) {
    (x in p1.memo <==> x in p.memo) && (x in p.memo ==> p1.memo[x] == p.memo[x])
  }

  /** A read memoizes nothing of any other setting that is no source of it, nor, where an exception escapes,
      of its own. */
  lemma {:induction false} ReadKeepsMemo(site: Site, rows: seq<Row>, now: real, lost: set<CacheOp>, p: Proc, c: Cache,
                                         k: string, x: string)
    requires k in site.fields && Rank(site, k) <= Rank(site, x)
    ensures var a := GetMemoized(site, rows, now, lost, p, c, k);
            x != k || a.outcome.Raised? ==> SameMemo(p, a.proc, x)
    decreases Rank(site, k), 1
  {
    LocalUnfolds(site, rows, now, lost, p, c, k);
    var pre := Preload(site, rows, now, lost, p, c);
    if pre.ok {
      var fetch := CacheGet(site, pre.proc, rows, now, lost, pre.cache, k);
      RecomputeKeepsMemo(site, rows, now, lost, pre.proc, pre.cache, k, fetch, x);
    }
  }

  /** Any other read leaves its answer in the memo for five seconds; an exception that escapes leaves there
      what there was. */
  lemma ReadIsMemoized(site: Site, rows: seq<Row>, now: real, lost: set<CacheOp>, p: Proc, c: Cache, k: string)
    requires k in site.fields && !(k in p.memo && now < p.memo[k].expires)
    ensures var a := GetMemoized(site, rows, now, lost, p, c, k);
            if a.outcome.Raised?
            then (k in a.proc.memo <==> k in p.memo) && (k in p.memo ==> a.proc.memo[k] == p.memo[k])
            else k in a.proc.memo && a.proc.memo[k] == Timed(a.outcome, now + 5.0)
  {
    ReadKeepsMemo(site, rows, now, lost, p, c, k, k);
  }

  /** A preload is due unless its deadline is still to come; then the next is in a minute. */
  lemma PreloadsExactly(site: Site, rows: seq<Row>, now: real, lost: set<CacheOp>, p: Proc, c: Cache)
    ensures var pre := Preload(site, rows, now, lost, p, c);
            if p.preloadExpires.Some? && now < p.preloadExpires.value then pre == Preloaded(p, c, true)
            else
              && pre.proc.preloadExpires == Some(now + 60.0) && pre.proc.memo == p.memo
              && (GetMarker !in lost && c.marker.Some? && now < c.marker.value ==> pre.ok && pre.cache == c)
              && (!pre.ok ==> pre.cache == c)
              && (!(GetMarker !in lost && c.marker.Some? && now < c.marker.value) ==>
                    && (pre.ok <==> forall k | k in site.fields && IsBacked(site, pre.proc, k) ::
                                     LoadKey(site, pre.proc, rows, k).Loaded?)
                    && (pre.ok ==> pre.cache.marker == if SetMarker in lost then c.marker else Some(now + 60.0)))
  {
  }

  /** The table backs the setting: it is neither declared nor marked read-only, or is the installation's
      identifier. */
  predicate IsBacked(site: Site, p: Proc, k: string)
    requires k in site.fields
  {
    (!site.fields[k].readOnly && k !in p.marked) || k == "INSTALL_UUID"
  }

  /** A preload that gets to load the cache writes for each setting the table backs, unless the write is
      lost, what was loaded, sealed under the key in force, for a minute, and for an encrypted one the
      row it was loaded from; and for no other setting anything. */
  lemma FillsExactly(site: Site, rows: seq<Row>, now: real, lost: set<CacheOp>, p: Proc, c: Cache, k: string)
    requires CanPreload(site, p, rows)
    ensures var c1 := PreloadFill(site, p, rows, now, lost, c);
            if k in site.fields && IsBacked(site, p, k) then
              var load := LoadKey(site, p, rows, k);
              && load.Loaded?
              && (if load.id.Some? && SetId(k, Preloading) !in lost
                  then k in c1.ids && c1.ids[k] == Timed(load.id.value, now + site.idTimeout)
                  else (k in c1.ids <==> k in c.ids) && (k in c.ids ==> c1.ids[k] == c.ids[k]))
              && (if SetValue(k, Preloading) !in lost
                  then k in c1.values
                       && c1.values[k]
                          == Timed(Sealed(site, k, ObjId(site, p, rows, now, lost, c1, k, Preloading), load.cached),
                                   now + 60.0)
                  else (k in c1.values <==> k in c.values) && (k in c.values ==> c1.values[k] == c.values[k]))
            else
              && (k in c1.ids <==> k in c.ids) && (k in c.ids ==> c1.ids[k] == c.ids[k])
              && (k in c1.values <==> k in c.values) && (k in c.values ==> c1.values[k] == c.values[k])
  {
  }

  /******* What a preload loads *******/

  /** A row of `k` that holds nothing to cache. */
  ghost predicate IsUnset(site: Site, r: Row) {
    if r.key in site.fields && site.fields[r.key].encrypted
    then OpenedText(site, Some(r.pk), r.value) == Opened("___notset___")
    else r.value == Null || r.value == Str("___notset___")
  }

  /** Row `i` is the first of `k` that belongs to no user and is not unset. */
  ghost predicate IsFirstSet(site: Site, rows: seq<Row>, i: nat, k: string) {
    && i < |rows| && rows[i].key == k && rows[i].user == None && !IsUnset(site, rows[i])
    && forall j :: 0 <= j < i ==> !(rows[j].key == k && rows[j].user == None) || IsUnset(site, rows[j])
  }

  /** Once something is loaded later rows do not matter. */
  lemma {:induction false} RowsBefore(site: Site, rows: seq<Row>, rows1: seq<Row>, k: string, load: Load)
    ensures LoadRows(site, rows + rows1, k, load) == LoadRows(site, rows1, k, LoadRows(site, rows, k, load))
    decreases |rows|
  {
    if rows == [] || load.Unreadable? {
      assert rows + rows1 == if rows == [] then rows1 else rows + rows1;
    } else {
      assert (rows + rows1)[1..] == rows[1..] + rows1 && (rows + rows1)[0] == rows[0];
      RowsBefore(site, rows[1..], rows1, k, LoadRow(site, rows[0], k, load));
    }
  }

  lemma {:induction false} UnsetRows(site: Site, rows: seq<Row>, k: string, load: Load)
    requires forall r | r in rows :: r.key == k && r.user == None ==> IsUnset(site, r)
    requires load.Loaded? && load.cached == NotSet && (!IsEncrypted(site, k) ==> load.id == None)
    ensures var load1 := LoadRows(site, rows, k, load);
            && load1.Loaded? && load1.cached == NotSet && (!IsEncrypted(site, k) ==> load1.id == None)
    decreases |rows|
  {
    if rows != [] {
      assert rows[0] in rows;
      UnsetRows(site, rows[1..], k, LoadRow(site, rows[0], k, load));
    }
  }

  /** A setting is loaded from its first row that is not unset, with that row for its `_ID` entry if it is
      encrypted; if that does not open, nothing can be loaded at all. */
  lemma LoadsFromRow(site: Site, p: Proc, rows: seq<Row>, k: string, i: nat)
    requires k in site.fields && IsFirstSet(site, rows, i, k)
    ensures LoadKey(site, p, rows, k) ==
            if !site.fields[k].encrypted then Loaded(CacheForm(rows[i].value), None)
            else
              match OpenedText(site, Some(rows[i].pk), rows[i].value)
              case Opened(text) => Loaded(CacheForm(Str(text)), Some(Some(rows[i].pk)))
              case _ => Unreadable
  {
    assert rows == rows[..i] + rows[i..];
    RowsBefore(site, rows[..i], rows[i..], k, Loaded(NotSet, None));
    forall r | r in rows[..i]
      ensures r.key == k && r.user == None ==> IsUnset(site, r)
    {
      var j :| 0 <= j < i && rows[j] == r;
    }
    UnsetRows(site, rows[..i], k, Loaded(NotSet, None));
    var before := LoadRows(site, rows[..i], k, Loaded(NotSet, None));
    var load := LoadRow(site, rows[i], k, before);
    assert rows[i..][0] == rows[i];
    if load.Loaded? {
      LoadedStays(site, rows[i..][1..], k, load);
    }
  }

  /** One without is loaded as its default, and for an encrypted one the `_ID` entry says no row; without
      a default that is a value it is "not set". */
  lemma LoadsDefault(site: Site, p: Proc, rows: seq<Row>, k: string)
    requires k in site.fields && forall r | r in rows :: r.key == k && r.user == None ==> IsUnset(site, r)
    ensures var load := LoadKey(site, p, rows, k);
            && load.Loaded?
            && match FieldDefault(site, k in p.marked, k)
               case Fixed(v) => load == Loaded(CacheForm(v), if site.fields[k].encrypted then Some(None) else None)
               case _ => load.cached == Str("___notset___")
  {
    UnsetRows(site, rows, k, Loaded(NotSet, None));
  }

  /******* What a miss caches *******/

  /** The outcome of a value: found as the field makes it, or empty. */
  function ValueOutcome(site: Site, k: string, fixed: bool, v: Value): Outcome {
    var made := if fixed then site.internalize(k, v) else site.validate(k, v);
    if v == Null || v == Str("___notset___") || made == None then Empty else Found(made.value)
  }

  /** The value is settled: unless "not set" was cached already and is what there is, its form is cached
      for a minute under the key in force, after the `_ID` entry that goes with it; other settings'
      entries stay, and so does what is lost. */
  ghost predicate IsSettled(site: Site, rows: seq<Row>, now: real, lost: set<CacheOp>, p: Proc, c: Cache, k: string,
                            fetch: Fetch, v: Value, id: Option<Option<Pk>>, a: Access)
    requires k in site.fields
  {
    var form := if v == Null then NotSet else CacheForm(v);
    && a.proc == p && a.outcome == ValueOutcome(site, k, site.fields[k].readOnly || k in p.marked, v)
    && (fetch == Hit(NotSet) && (v == Null || v == NotSet) ==> a.cache == c)
    && (!(fetch == Hit(NotSet) && (v == Null || v == NotSet)) ==>
          && a.cache.ids ==
             (if id.Some? && SetId(k, Storing) !in lost then c.ids[k := Timed(id.value, now + site.idTimeout)]
              else c.ids)
          && a.cache.values ==
             (if SetValue(k, Storing) in lost then c.values
              else c.values[k := Timed(Sealed(site, k, ObjId(site, p, rows, now, lost, a.cache, k, Storing), form),
                                       now + 60.0)])
          && a.cache.marker == c.marker)
  }

  lemma SettlesExactly(site: Site, rows: seq<Row>, now: real, lost: set<CacheOp>, p: Proc, c: Cache, k: string,
                       fetch: Fetch, v: Value, id: Option<Option<Pk>>)
    requires k in site.fields
    ensures IsSettled(site, rows, now, lost, p, c, k, fetch, v, id,
                      Settle(site, rows, now, lost, p, c, k, fetch, v, id))
  {
    var a := Settle(site, rows, now, lost, p, c, k, fetch, v, id);
    assert a.outcome == ValueOutcome(site, k, site.fields[k].readOnly || k in p.marked, v);
    if !(fetch == Hit(NotSet) && (v == Null || v == NotSet)) {
      var c1 := StoreId(site, now, lost, c, k, id);
      assert c1.ids == a.cache.ids;
      assert ObjId(site, p, rows, now, lost, c1, k, Storing) == ObjId(site, p, rows, now, lost, a.cache, k, Storing);
    }
  }

  /** Behind a miss the first row of a setting the table backs is looked up, and settled under that row;
      if it does not open the read fails. */
  lemma MissFindsRow(site: Site, rows: seq<Row>, now: real, lost: set<CacheOp>, p: Proc, c: Cache, k: string,
                     fetch: Fetch, i: nat)
    requires k in site.fields && IsBacked(site, p, k) && IsFirst(rows, i, k)
    ensures var a := Recompute(site, rows, now, lost, p, c, k, fetch);
            if !site.fields[k].encrypted then IsSettled(site, rows, now, lost, p, c, k, fetch, rows[i].value, None, a)
            else
              match OpenedText(site, Some(rows[i].pk), rows[i].value)
              case Opened(text) =>
                IsSettled(site, rows, now, lost, p, c, k, fetch, Str(text), Some(Some(rows[i].pk)), a)
              case _ => a == Access(p, c, Raised)
  {
    FirstIsFirst(rows, i, k);
    var r := rows[i];
    if RowValue(site, k, r).Some? {
      var id := if IsEncrypted(site, k) then Some(Some(r.pk)) else None;
      assert LookUp(site, rows, p, k) == Stored(RowValue(site, k, r).value, id);
      SettlesExactly(site, rows, now, lost, p, c, k, fetch, RowValue(site, k, r).value, id);
    }
  }

  /** Of any other the default is, under no row. */
  lemma MissFindsDefault(site: Site, rows: seq<Row>, now: real, lost: set<CacheOp>, p: Proc, c: Cache, k: string,
                         fetch: Fetch)
    requires k in site.fields && (!IsBacked(site, p, k) || HasNone(rows, k))
    ensures var a := Recompute(site, rows, now, lost, p, c, k, fetch);
            && (forall v :: FieldDefault(site, k in p.marked, k) == Fixed(v) ==>
                  IsSettled(site, rows, now, lost, p, c, k, fetch, v,
                            if site.fields[k].encrypted then Some(None) else None, a))
            && (FieldDefault(site, k in p.marked, k) == NoDefault ==>
                  IsSettled(site, rows, now, lost, p, c, k, fetch, Null, None, a))
  {
    NoneIsFirst(rows, k);
    match FieldDefault(site, k in p.marked, k)
    case Fixed(v) =>
      assert LookUp(site, rows, p, k) == Stored(v, if IsEncrypted(site, k) then Some(None) else None);
      SettlesExactly(site, rows, now, lost, p, c, k, fetch, v, if IsEncrypted(site, k) then Some(None) else None);
    case NoDefault =>
      assert LookUp(site, rows, p, k) == Stored(NotSet, None);
      SettlesExactly(site, rows, now, lost, p, c, k, fetch, NotSet, None);
    case _ =>
  }

  /** A computed default is what it makes of its source, if reading the source gives a value; if not, the
      read fails. */
  lemma MissComputes(site: Site, rows: seq<Row>, now: real, lost: set<CacheOp>, p: Proc, c: Cache, k: string,
                     fetch: Fetch, source: string, compute: Value -> Value)
    requires k in site.fields && (!IsBacked(site, p, k) || HasNone(rows, k))
    requires FieldDefault(site, k in p.marked, k) == Computed(source, compute)
    requires source in site.fields && !site.fields[source].default.Computed?
    ensures var a := Recompute(site, rows, now, lost, p, c, k, fetch);
            var b := GetMemoized(site, rows, now, lost, p, c, source);
            match Resolve(site, source, b.outcome)
            case Resolved(v) =>
              IsSettled(site, rows, now, lost, b.proc, b.cache, k, fetch, compute(v),
                        if site.fields[k].encrypted then Some(None) else None, a)
            case _ => a == Access(b.proc, b.cache, Raised)
  {
    NoneIsFirst(rows, k);
    var b := GetMemoized(site, rows, now, lost, p, c, source);
    assert LookUp(site, rows, p, k) == From(source, compute);
    match Resolve(site, source, b.outcome)
    case Resolved(v) =>
      SettlesExactly(site, rows, now, lost, b.proc, b.cache, k, fetch, compute(v), ComputedId(site, k));
    case _ =>
  }

  /** A read past the memo fails where its preload or its fetch does; a value fetched answers as it stands
      for, and nothing more is cached; "not set", or nothing, sends it to the table. */
  lemma ReadsExactly(site: Site, rows: seq<Row>, now: real, lost: set<CacheOp>, p: Proc, c: Cache, k: string)
    requires k in site.fields
    ensures var pre := Preload(site, rows, now, lost, p, c);
            var a := GetLocal(site, rows, now, lost, p, c, k);
            var fixed := site.fields[k].readOnly || k in pre.proc.marked;
            if !pre.ok then a == Access(pre.proc, pre.cache, Raised)
            else
              match CacheGet(site, pre.proc, rows, now, lost, pre.cache, k)
              case Broken => a == Access(pre.proc, pre.cache, Raised)
              case Absent => a == Recompute(site, rows, now, lost, pre.proc, pre.cache, k, Absent)
              case Hit(v) =>
                if v == Str("___notset___") then a == Recompute(site, rows, now, lost, pre.proc, pre.cache, k, Hit(v))
                else
                  var stood := if v == Str("___[]___") then List([])
                               else if v == Str("___{}___") then Dict(map[]) else v;
                  var made := if fixed then site.internalize(k, stood) else site.validate(k, stood);
                  a == Access(pre.proc, pre.cache, if made.Some? then Found(made.value) else Empty)
  {
  }

  /******* The signal *******/

  /** An eviction takes the values named, unless it is lost, and nothing else: `_ID` entries stay. */
  lemma EvictsExactly(c: Cache, keys: set<string>, lost: set<CacheOp>, k: string)
    ensures var c1 := Evict(c, keys, lost);
            && (k in c1.values <==> k in c.values && (k !in keys || DeleteMany in lost))
            && (k in c1.values ==> c1.values[k] == c.values[k]) && c1.ids == c.ids && c1.marker == c.marker
  {
  }

  /** The settings dropped and read again with one are those that say they depend on it. */
  lemma DependentsExactly(site: Site, k: string, d: string)
    ensures d in Dependents(site, k) <==> d in site.fields && k in site.fields[d].dependsOn
  {
  }

  /** What an outcome is as an attribute. */
  lemma ResolvesExactly(site: Site, k: string, o: Outcome)
    ensures Resolve(site, k, o) ==
            if o.Found? then Resolved(o.value) else if o == Raised then Failed else UnsetAnswer(site, k)
  {
  }
}
