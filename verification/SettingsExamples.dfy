/**
 Small installations in which a setting read goes wrong: inputs for the conditions under which
 reads fail, preload and single read disagree, and putting a document back changes a setting.
 */
module SettingsExamples {
  import opened Helpers
  import opened SettingsModel
  import opened SettingsCache
  import opened SettingsFreshness
  import opened SettingsRuns
  import opened SettingsPreload
  import opened SettingsFiles
  import opened SettingsWrites
  import opened SettingsView

  /******* A cipher *******/

  function Mark(n: nat): (m: string)
    ensures |m| == n && forall i :: 0 <= i < n ==> m[i] == 'x'
  {
    if n == 0 then "" else "x" + Mark(n - 1)
  }

  function Number(pk: Option<Pk>): nat {
    if pk.Some? then pk.value else 0
  }

  /** The header of a text sealed under `pk`: no header is the beginning of another. */
  function Header(pk: Option<Pk>): (h: string) {
    ENCRYPTED_PREFIX + Mark(Number(pk)) + "$"
  }

  function PlainSeal(pk: Option<Pk>, s: string): string {
    Header(pk) + s
  }

  function PlainOpen(pk: Option<Pk>, t: string): Opened {
    if Header(pk) <= t then Opened(t[|Header(pk)|..]) else BadToken
  }

  function PlainText(v: Value): string {
    if v.Str? then v.s else "None"
  }

  function PlainCipher(): Cipher {
    Cipher(PlainSeal, PlainOpen, PlainText)
  }

  lemma HeadersDiffer(pk: Option<Pk>, pk1: Option<Pk>, s: string)
    requires pk != pk1
    ensures !(Header(pk1) <= Header(pk) + s)
  {
    var n, n1 := Number(pk), Number(pk1);
    var t := Header(pk) + s;
    assert n != n1;
    assert t[|ENCRYPTED_PREFIX| + n] == '$' && Header(pk1)[|ENCRYPTED_PREFIX| + n1] == '$';
    if n < n1 {
      assert Header(pk1)[|ENCRYPTED_PREFIX| + n] == Mark(n1)[n];
    } else {
      assert t[|ENCRYPTED_PREFIX| + n1] == Mark(n)[n1];
    }
  }

  lemma PlainCipherIsLawful()
    ensures Lawful(PlainCipher())
  {
    forall pk: Option<Pk>, pk1: Option<Pk>, s: string | pk != pk1
      ensures PlainCipher().open(pk1, PlainCipher().seal(pk, s)) == BadToken
    {
      HeadersDiffer(pk, pk1, s);
    }
    forall pk: Option<Pk>, s: string
      ensures PlainCipher().open(pk, PlainCipher().seal(pk, s)) == Opened(s)
    {
      assert (Header(pk) + s)[|Header(pk)|..] == s;
    }
  }

  /******* An installation *******/

  const K := "K"

  /** One setting, nothing in the settings files, and field classes that take any value as it is. */
  function OneKey(encrypted: bool, default: Default): Site {
    Site([K], map[K := Field(false, encrypted, default, {})], map[], map[],
         (k, v) => Some(v), (k, v) => Some(v), (k, v) => Some(v), PlainCipher(), 300.0)
  }

  lemma OneKeyIsTrackable(encrypted: bool, default: Default)
    requires default in {NoDefault, Fixed(Str("d")), Fixed(Num(7))} && (encrypted ==> default != Fixed(Num(7)))
    ensures Trackable(OneKey(encrypted, default), K)
    ensures FieldDefault(OneKey(encrypted, default), false, K) == default
  {
    PlainCipherIsLawful();
    assert "d" != SETTING_CACHE_NOTSET && "d" != SETTING_CACHE_EMPTY_LIST && "d" != SETTING_CACHE_EMPTY_DICT
      && !IsSealed("d");
  }

  /******* A read under the wrong key *******/

  /** What the first preload loses: the `_ID` write, or, where there is no default, nothing. */
  function FirstLosses(default: Default): set<CacheOp> {
    if default.NoDefault? then {} else {SetId(K, Preloading)}
  }

  predicate IsSecret(default: Default) {
    default == NoDefault || default == Fixed(Str("d"))
  }

  /** What the first preload then leaves, at time 0 and with an empty table: a value sealed under no
      row, and no `_ID` entry to say so. */
  lemma FirstPreload(default: Default)
    requires IsSecret(default)
    ensures var site, p := OneKey(true, default), StartPreload(OneKey(true, default), FreshProc, 0.0);
            && K !in p.marked && CanPreload(site, p, [])
            && var c := PreloadFill(site, p, [], 0.0, FirstLosses(default), EmptyCache);
               && c.ids == map[] && c.marker == Some(SETTING_CACHE_TIMEOUT)
               && K in c.values && c.values[K].expires == SETTING_CACHE_TIMEOUT
               && exists s :: c.values[K].value == Str(PlainCipher().seal(None, s))
  {
    var site := OneKey(true, default);
    OneKeyIsTrackable(true, default);
    var p := StartPreload(site, FreshProc, 0.0);
    FilledAt(site, [], 0.0, FirstLosses(default), p, EmptyCache, K);
    var c := PreloadFill(site, p, [], 0.0, FirstLosses(default), EmptyCache);
    var plain := LoadKey(site, p, [], K).cached;
    LoadKeyAnswers(site, p, [], K);
    assert c.values[K].value == Str(PlainCipher().seal(None, plain.s));
  }

  /** A new encrypted row as it is first saved: empty, and saved again once its key is known. */
  const NewRow := Row(1, K, None, Str(""))

  /** A first read on an empty table preloads; a value is assigned, whose new row is saved; before the
      signal of that save evicts anything a fresh process reads, and loses nothing. */
  function WrongKeyEvents(default: Default): seq<Event> {
    [Spawn, Read(0, K, FirstLosses(default)), Commit([NewRow]), Spawn, Read(1, K, {})]
  }

  /** The first read leaves the cache as its preload filled it. */
  lemma FirstReadFills(default: Default)
    requires IsSecret(default)
    ensures var site, p := OneKey(true, default), StartPreload(OneKey(true, default), FreshProc, 0.0);
            && CanPreload(site, p, [])
            && GetMemoized(site, [], 0.0, FirstLosses(default), FreshProc, EmptyCache, K).cache
               == PreloadFill(site, p, [], 0.0, FirstLosses(default), EmptyCache)
  {
    var site, p := OneKey(true, default), StartPreload(OneKey(true, default), FreshProc, 0.0);
    var lost := FirstLosses(default);
    OneKeyIsTrackable(true, default);
    FirstPreload(default);
    FilledAt(site, [], 0.0, lost, p, EmptyCache, K);
    LoadKeyAnswers(site, p, [], K);
    var c := PreloadFill(site, p, [], 0.0, lost, EmptyCache);
    var plain := LoadKey(site, p, [], K).cached;
    DecryptUndoesEncrypt(PlainCipher(), None, plain.s);
    assert CacheGet(site, p, [], 0.0, lost, c, K) == Hit(plain);
    assert Fetched(site, [], 0.0, lost, p, c, K).cache == c by {
      assert default.Fixed? ==> plain == Str("d") && FromCache(plain) == Some(plain);
      assert default.NoDefault? ==> plain == NotSet;
    }
    assert GetLocal(site, [], 0.0, lost, FreshProc, EmptyCache, K) == Fetched(site, [], 0.0, lost, p, c, K);
  }

  /** The value, its `_ID` entry lost or never written, outlives the table it was made from: with a
      row there the fresh process looks for a key the value was not sealed under. */
  lemma FreshReadFails(default: Default, w: World)
    requires IsSecret(default)
    requires w.now == 0.0 && w.rows == [NewRow] && w.cache.ids == map[] && w.cache.marker == Some(SETTING_CACHE_TIMEOUT)
    requires K in w.cache.values && w.cache.values[K].expires == SETTING_CACHE_TIMEOUT
    requires exists s :: w.cache.values[K].value == Str(PlainCipher().seal(None, s))
    ensures var site := OneKey(true, default);
            && WrongKey(site, w.rows, w.now, {}, FreshProc, w.cache, K)
            && Resolve(site, K, GetMemoized(site, w.rows, w.now, {}, FreshProc, w.cache, K).outcome) == Failed
            && DirectRead(site, w.rows, K) == Resolved(Str(""))
  {
    PlainCipherIsLawful();
    OneKeyIsTrackable(true, default);
    var site, p := OneKey(true, default), StartPreload(OneKey(true, default), FreshProc, 0.0);
    assert FirstRow(w.rows, K) == Some(NewRow);
    assert ObjId(site, FreshProc, w.rows, w.now, {}, w.cache, K, Fetching) == Some(1);
    assert ObjId(site, p, w.rows, w.now, {}, w.cache, K, Fetching) == Some(1);
    var s :| w.cache.values[K].value == Str(PlainCipher().seal(None, s));
    assert IsSealed(PlainCipher().seal(None, s));
  }

  function WrongKeyWorlds(default: Default): (ws: seq<World>)
    ensures |ws| == 6 && ws[0] == World(0.0, [], EmptyCache, [])
  {
    var site, es := OneKey(true, default), WrongKeyEvents(default);
    var w1 := Step(site, World(0.0, [], EmptyCache, []), es[0]);
    var w2 := Step(site, w1, es[1]);
    var w3 := Step(site, w2, es[2]);
    var w4 := Step(site, w3, es[3]);
    [World(0.0, [], EmptyCache, []), w1, w2, w3, w4, Step(site, w4, es[4])]
  }

  lemma WrongKeyTables(default: Default)
    requires IsSecret(default)
    ensures TableOk(OneKey(true, default), [], K) && TableOk(OneKey(true, default), [NewRow], K)
  {
    PlainCipherIsLawful();
    assert FirstRow([NewRow], K) == Some(NewRow);
    assert "" != SETTING_CACHE_NOTSET && "" != SETTING_CACHE_EMPTY_LIST && "" != SETTING_CACHE_EMPTY_DICT
      && !IsSealed("");
  }

  lemma WrongKeyStep(default: Default, i: nat)
    requires i < 5
    ensures var site, ws, es := OneKey(true, default), WrongKeyWorlds(default), WrongKeyEvents(default);
            Enabled(site, ws[i], es[i]) && ws[i + 1] == Step(site, ws[i], es[i])
  {
    var ws := WrongKeyWorlds(default);
    assert |ws[1].procs| == |ws[2].procs| == |ws[3].procs| == 1 && |ws[4].procs| == 2;
  }

  lemma WrongKeyIsARun(default: Default)
    ensures IsRun(OneKey(true, default), WrongKeyWorlds(default), WrongKeyEvents(default))
  {
    forall i | 0 <= i < 5
      ensures Enabled(OneKey(true, default), WrongKeyWorlds(default)[i], WrongKeyEvents(default)[i])
      ensures WrongKeyWorlds(default)[i + 1]
              == Step(OneKey(true, default), WrongKeyWorlds(default)[i], WrongKeyEvents(default)[i])
    {
      WrongKeyStep(default, i);
    }
  }

  lemma WrongKeyRows(default: Default, i: nat)
    requires i < 6
    ensures WrongKeyWorlds(default)[i].rows == if i < 3 then [] else [NewRow]
  {
  }

  lemma WrongKeyIsTracked(default: Default)
    requires IsSecret(default)
    ensures IsTrackedRun(OneKey(true, default), WrongKeyWorlds(default), WrongKeyEvents(default), K)
  {
    OneKeyIsTrackable(true, default);
    WrongKeyIsARun(default);
    forall i | 0 <= i < |WrongKeyWorlds(default)|
      ensures TableOk(OneKey(true, default), WrongKeyWorlds(default)[i].rows, K)
    {
      WrongKeyRows(default, i);
      WrongKeyTables(default);
    }
  }

  /** A run in which nothing a preload needs but one `_ID` write is lost, or, for a setting without a
      default, nothing at all, and a read fails although the table has an answer. */
  lemma WrongKeyRun(default: Default)
    requires IsSecret(default)
    ensures var site, ws, es := OneKey(true, default), WrongKeyWorlds(default), WrongKeyEvents(default);
            && IsTrackedRun(site, ws, es, K) && es[4] == Read(1, K, {})
            && WrongKey(site, ws[4].rows, ws[4].now, {}, ws[4].procs[1], ws[4].cache, K)
            && ReadAnswer(site, ws[4], es[4]) == Failed
            && DirectRead(site, ws[4].rows, K) == Resolved(Str(""))
  {
    WrongKeyIsTracked(default);
    FirstPreload(default);
    FirstReadFills(default);
    FreshReadFails(default, WrongKeyWorlds(default)[4]);
  }

  /******* A row that cannot be opened *******/

  const F := "F"

  /** Two settings: a plain one with a default of 7, and an encrypted one. */
  function TwoKeys(files: map<string, Value>): Site {
    Site([F, K], map[F := Field(false, false, Fixed(Num(7)), {}), K := Field(false, true, NoDefault, {})], files, map[],
         (k, v) => Some(v), (k, v) => Some(v), (k, v) => Some(v), PlainCipher(), 300.0)
  }

  lemma TwoKeysIsWellFormed(files: map<string, Value>)
    ensures WellFormed(TwoKeys(files)) && F != K
  {
    PlainCipherIsLawful();
    assert F[0] != K[0];
  }

  /** A row of the encrypted setting that looks sealed and is not. */
  const BadRow := Row(1, K, None, Str(ENCRYPTED_PREFIX))

  lemma BadRowStopsPreload(files: map<string, Value>, p: Proc)
    requires K !in p.marked
    ensures !CanPreload(TwoKeys(files), p, [BadRow])
  {
    var site := TwoKeys(files);
    TwoKeysIsWellFormed(files);
    assert |Header(Some(1))| > |ENCRYPTED_PREFIX|;
    assert RowValue(site, K, BadRow) == None;
    LoadFirstRow(site, [BadRow], K);
    assert FirstRow([BadRow], K) == Some(BadRow);
    assert !LoadKey(site, p, [BadRow], K).Loaded? && IsPreloaded(site, p, K);
  }

  function FileRun(): seq<World> {
    var site := TwoKeys(map[F := Num(1)]);
    var w0 := World(0.0, [BadRow], EmptyCache, []);
    var w1 := Step(site, w0, Spawn);
    [w0, w1, Step(site, w1, Read(0, F, {}))]
  }

  lemma FileShadows()
    ensures var site := TwoKeys(map[F := Num(1)]);
            Shadowed(site, F) && FileAnswer(site, F) == Resolved(Num(1)) && !IsFileDefined(site, K)
  {
    TwoKeysIsWellFormed(map[F := Num(1)]);
    assert F != INSTALL_UUID;
  }

  /** A setting the files define, whose first read fails because of another setting's row. */
  lemma FileReadFails()
    ensures var site, ws, es := TwoKeys(map[F := Num(1)]), FileRun(), [Spawn, Read(0, F, {})];
            && IsRun(site, ws, es) && Shadowed(site, F)
            && ReadAnswer(site, ws[1], es[1]) == Failed && FileAnswer(site, F) == Resolved(Num(1))
  {
    var site, ws, es := TwoKeys(map[F := Num(1)]), FileRun(), [Spawn, Read(0, F, {})];
    FileShadows();
    BadRowStopsPreload(map[F := Num(1)], StartPreload(site, FreshProc, 0.0));
    FilesShadowTheTable(site, ws, es, F, 1);
  }

  /** And one that is not: the single read gives its default, the first read fails. */
  lemma PreloadFails()
    ensures var site := TwoKeys(map[]);
            && Storable(site, [BadRow], F) && !HasNullRow(site, [BadRow], F)
            && WarmRead(site, [BadRow], 0.0, F) == Failed && ColdRead(site, [BadRow], 0.0, F) == Resolved(Num(7))
  {
    var site := TwoKeys(map[]);
    TwoKeysIsWellFormed(map[]);
    BadRowStopsPreload(map[], StartPreload(site, FreshProc, 0.0));
    assert FirstRow([BadRow], F) == None;
    WarmReadIsLoad(site, [BadRow], 0.0, F);
    ColdReadIsDirect(site, [BadRow], 0.0, F);
  }

  /******* Preload against single read *******/

  /** A null row under a default of 7: the preload serves the default and the single read does not. */
  lemma PreloadServesTheDefault()
    ensures var site, rows := OneKey(false, Fixed(Num(7))), [Row(1, K, None, Null)];
            && Storable(site, rows, K) && CanPreload(site, StartPreload(site, FreshProc, 0.0), rows)
            && WarmRead(site, rows, 0.0, K) != ColdRead(site, rows, 0.0, K)
            && WarmRead(site, rows, 0.0, K) == Resolved(Num(7)) && ColdRead(site, rows, 0.0, K) == Missing
  {
    var site, rows := OneKey(false, Fixed(Num(7))), [Row(1, K, None, Null)];
    OneKeyIsTrackable(false, Fixed(Num(7)));
    assert FirstRow(rows, K) == Some(rows[0]);
    PreloadRefinesSingleRead(site, rows, 0.0, K);
    WarmReadIsLoad(site, rows, 0.0, K);
    ColdReadIsDirect(site, rows, 0.0, K);
    NullRowLoad(site, StartPreload(site, FreshProc, 0.0), rows, K);
  }

  /******* Putting a document back *******/

  /** An encrypted setting without a default and without a row is shown as null; put back, it reads
      as the text of null. */
  lemma PutBackStoresTheTextOfNull(current: string -> Value)
    ensures var site := OneKey(true, NoDefault);
            var document := Document(site, {}, [], [K], current);
            && document == map[K := Null] && !PutsBack(site, [], K, Null)
            && DirectRead(site, [], K) == Missing
            && DirectRead(site, Put(site, {}, [], [K], document, current, (shown, attrs) => true), K)
               == Resolved(Str("None"))
  {
    var site := OneKey(true, NoDefault);
    var document := Document(site, {}, [], [K], current);
    PlainCipherIsLawful();
    OneKeyIsTrackable(true, NoDefault);
    assert document == map[K := Null];
    assert "None"[0] != ENCRYPTED_PREFIX[0] && "None" != SETTING_CACHE_NOTSET;
    PutBackIsNoOp(site, {}, [], [K], current, (shown, attrs) => true, K);
    var r := Row(1, K, None, Null);
    assert SubmitAll(site, {}, [], [K], document) == Submit(site, {}, [], K, Null);
    assert FirstRow([r], K) == Some(r);
  }

  /** Of two rows of a setting the first is read, the last is shown, and put back it overwrites the
      first. */
  lemma PutBackOverwritesTheFirstRow(current: string -> Value)
    ensures var site, rows := OneKey(false, NoDefault), [Row(1, K, None, Num(1)), Row(2, K, None, Num(2))];
            var document := Document(site, {}, rows, [K], current);
            && document == map[K := Num(2)] && !PutsBack(site, rows, K, Num(2))
            && DirectRead(site, rows, K) == Resolved(Num(1))
            && DirectRead(site, Put(site, {}, rows, [K], document, current, (shown, attrs) => true), K)
               == Resolved(Num(2))
  {
    var site, rows := OneKey(false, NoDefault), [Row(1, K, None, Num(1)), Row(2, K, None, Num(2))];
    var document := Document(site, {}, rows, [K], current);
    PlainCipherIsLawful();
    OneKeyIsTrackable(false, NoDefault);
    assert LastRow(rows, K) == Some(rows[1]) && FirstRow(rows, K) == Some(rows[0]);
    assert document == map[K := Num(2)];
    PutBackIsNoOp(site, {}, rows, [K], current, (shown, attrs) => true, K);
    assert SubmitAll(site, {}, rows, [K], document) == Submit(site, {}, rows, K, Num(2));
    FirstRowAfterPut(rows, rows[0], Num(2), K);
  }

  /******* The bound is sharp *******/

  function NumRow(n: int): Row {
    Row(1, K, None, Num(n))
  }

  /** A first read preloads 1; the table then says 2; just before the entry expires another process reads,
      and just before its memo does, again. */
  function SharpEvents(d: real): seq<Event> {
    [Spawn, Read(0, K, {}), Commit([NumRow(2)]), Spawn, Pass(60.0 - d), Read(1, K, {}), Pass(5.0 - d), Read(1, K, {})]
  }

  function SharpStart(): (ws: seq<World>)
    ensures |ws| == 5 && ws[0] == World(0.0, [NumRow(1)], EmptyCache, []) && |ws[4].procs| == 2
  {
    var site := OneKey(false, NoDefault);
    var w0 := World(0.0, [NumRow(1)], EmptyCache, []);
    var w1 := Step(site, w0, Spawn);
    var w2 := Step(site, w1, Read(0, K, {}));
    var w3 := Step(site, w2, Commit([NumRow(2)]));
    [w0, w1, w2, w3, Step(site, w3, Spawn)]
  }

  function SharpWorlds(d: real): (ws: seq<World>)
    requires 0.0 < d <= 5.0
    ensures |ws| == 9 && ws[..5] == SharpStart()
  {
    var site, start := OneKey(false, NoDefault), SharpStart();
    var w5 := Step(site, start[4], Pass(60.0 - d));
    var w6 := Step(site, w5, Read(1, K, {}));
    var w7 := Step(site, w6, Pass(5.0 - d));
    start + [w5, w6, w7, Step(site, w7, Read(1, K, {}))]
  }

  /** The preload caches 1 for a minute. */
  lemma SharpPreload(d: real)
    requires 0.0 < d <= 5.0
    ensures var w := SharpWorlds(d)[2];
            && w.cache.marker == Some(60.0) && K in w.cache.values && w.cache.values[K] == Timed(Num(1), 60.0)
            && w.now == 0.0 && |w.procs| == 1
  {
    var site := OneKey(false, NoDefault);
    OneKeyIsTrackable(false, NoDefault);
    var p, rows := StartPreload(site, FreshProc, 0.0), [NumRow(1)];
    assert FirstRow(rows, K) == Some(NumRow(1));
    LoadFirstRow(site, rows, K);
    FilledAt(site, rows, 0.0, {}, p, EmptyCache, K);
    LocalUnfolds(site, rows, 0.0, {}, FreshProc, EmptyCache, K);
  }

  /** Another process finds it there, and keeps it in its memo for five seconds. */
  lemma SecondRead(rows: seq<Row>, now: real, c: Cache)
    requires c.marker == Some(60.0) && K in c.values && c.values[K] == Timed(Num(1), 60.0) && now < 60.0
    ensures var a := GetMemoized(OneKey(false, NoDefault), rows, now, {}, FreshProc, c, K);
            K in a.proc.memo && a.proc.memo[K] == Timed(Found(Num(1)), now + 5.0)
  {
    var site := OneKey(false, NoDefault);
    OneKeyIsTrackable(false, NoDefault);
    var p := StartPreload(site, FreshProc, now);
    LocalUnfolds(site, rows, now, {}, FreshProc, c, K);
    assert Preload(site, rows, now, {}, FreshProc, c) == Preloaded(p, c, true);
    assert CacheGet(site, p, rows, now, {}, c, K) == Hit(Num(1));
    assert K !in p.marked;
  }

  lemma SharpFetch(d: real)
    requires 0.0 < d <= 5.0
    ensures var w := SharpWorlds(d)[6];
            && w.now == 60.0 - d && w.rows == [NumRow(2)]
            && |w.procs| == 2 && K in w.procs[1].memo && w.procs[1].memo[K] == Timed(Found(Num(1)), 65.0 - d)
  {
    SharpPreload(d);
    var w := SharpWorlds(d)[5];
    assert w.now == 60.0 - d && w.cache == SharpWorlds(d)[2].cache;
    assert |w.procs| == 2 && w.procs[1] == FreshProc && w.rows == [NumRow(2)];
    SecondRead(w.rows, w.now, w.cache);
  }

  lemma SharpStep(d: real, i: nat)
    requires 0.0 < d <= 5.0 && i < 8
    ensures var site, ws, es := OneKey(false, NoDefault), SharpWorlds(d), SharpEvents(d);
            Enabled(site, ws[i], es[i]) && ws[i + 1] == Step(site, ws[i], es[i])
  {
    SharpFetch(d);
    SharpPreload(d);
  }

  lemma StepTable(site: Site, w: World, e: Event)
    requires Enabled(site, w, e)
    ensures Step(site, w, e).rows == if e.Commit? then e.table else w.rows
    ensures !e.Pass? ==> Step(site, w, e).now == w.now
  {
  }

  lemma {:induction false} SharpTables(d: real, j: nat)
    requires 0.0 < d <= 5.0 && j < 9
    ensures var w := SharpWorlds(d)[j];
            if j < 3 then w.rows == [NumRow(1)] && w.now == 0.0 else w.rows == [NumRow(2)]
  {
    if j > 0 {
      SharpTables(d, j - 1);
      SharpStep(d, j - 1);
      StepTable(OneKey(false, NoDefault), SharpWorlds(d)[j - 1], SharpEvents(d)[j - 1]);
    }
  }

  /** A read can give what the table has not said for all but 65 seconds. */
  lemma StalenessIsSharp(d: real)
    requires 0.0 < d <= 5.0
    ensures var site, ws, es := OneKey(false, NoDefault), SharpWorlds(d), SharpEvents(d);
            && IsTrackedRun(site, ws, es, K) && es[7] == Read(1, K, {})
            && forall j :: 0 <= j <= 7 && ws[7].now - (65.0 - 2.0 * d) < ws[j].now ==>
                 DirectRead(site, ws[j].rows, K) != ReadAnswer(site, ws[7], es[7])
  {
    var site, ws, es := OneKey(false, NoDefault), SharpWorlds(d), SharpEvents(d);
    OneKeyIsTrackable(false, NoDefault);
    SharpFetch(d);
    forall i | 0 <= i < 8
      ensures Enabled(site, ws[i], es[i]) && ws[i + 1] == Step(site, ws[i], es[i])
    {
      SharpStep(d, i);
    }
    forall j | 0 <= j < 9
      ensures ws[j].rows == if j < 3 then [NumRow(1)] else [NumRow(2)]
      ensures TableOk(site, ws[j].rows, K)
      ensures DirectRead(site, ws[j].rows, K) == Resolved(Num(if j < 3 then 1 else 2))
      ensures j < 3 ==> ws[j].now == 0.0
    {
      SharpTables(d, j);
      assert FirstRow(ws[j].rows, K) == Some(ws[j].rows[0]);
    }
    assert ws[7].now == 65.0 - 2.0 * d && ws[7].procs[1].memo == ws[6].procs[1].memo;
  }
}
