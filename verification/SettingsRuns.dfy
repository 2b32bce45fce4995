/**
 Runs of the whole installation: any number of processes reading through their memos and the
 shared cache, the table changing, keys being evicted, time passing, and cache operations being
 lost, in any order.
 */
module SettingsRuns {
  import opened SettingsModel
  import opened SettingsCache
  import opened SettingsFreshness

  datatype World = World(now: real, rows: seq<Row>, cache: Cache, procs: seq<Proc>)

  datatype Event =
    | Pass(seconds: real)
    | Spawn
    | Commit(table: seq<Row>)
    | EvictKeys(keys: set<string>, lost: set<CacheOp>)
    | ClearMemo(proc: nat)
    | Read(proc: nat, key: string, lost: set<CacheOp>)

  predicate Enabled(site: Site, w: World, e: Event) {
    match e
    case Pass(seconds) => 0.0 <= seconds
    case ClearMemo(p) => p < |w.procs|
    case Read(p, k, _) => p < |w.procs| && k in site.fields
    case _ => true
  }

  function Step(site: Site, w: World, e: Event): World
    requires Enabled(site, w, e)
  {
    match e
    case Pass(seconds) => w.(now := w.now + seconds)
    case Spawn => w.(procs := w.procs + [FreshProc])
    case Commit(table) => w.(rows := table)
    case EvictKeys(keys, lost) => w.(cache := Evict(w.cache, keys, lost))
    case ClearMemo(p) => w.(procs := w.procs[p := w.procs[p].(memo := map[])])
    case Read(p, k, lost) =>
      var a := GetMemoized(site, w.rows, w.now, lost, w.procs[p], w.cache, k);
      w.(procs := w.procs[p := a.proc], cache := a.cache)
  }

  /** The answer a read event gives its caller. */
  function ReadAnswer(site: Site, w: World, e: Event): Effective
    requires Enabled(site, w, e) && e.Read?
  {
    Resolve(site, e.key, GetMemoized(site, w.rows, w.now, e.lost, w.procs[e.proc], w.cache, e.key).outcome)
  }

  ghost predicate IsRun(site: Site, ws: seq<World>, es: seq<Event>) {
    && |ws| == |es| + 1
    && ws[0].cache == EmptyCache && ws[0].procs == []
    && (forall i :: 0 <= i < |es| ==> Enabled(site, ws[i], es[i]) && ws[i + 1] == Step(site, ws[i], es[i]))
  }

  /** A run during which the tracked key keeps its preconditions. */
  ghost predicate IsTrackedRun(site: Site, ws: seq<World>, es: seq<Event>, k: string) {
    && IsRun(site, ws, es)
    && Trackable(site, k)
    && (forall i :: 0 <= i < |ws| ==> TableOk(site, ws[i].rows, k))
  }

  /** One in which, besides, the key always has a lasting `_ID` entry and no read loses a write of an
      encrypted key's entries. */
  ghost predicate IsShelteredRun(site: Site, ws: seq<World>, es: seq<Event>, k: string) {
    && IsTrackedRun(site, ws, es, k) && HasLastingId(site, k)
    && (forall i :: 0 <= i < |es| && es[i].Read? ==> Spared(site, es[i].lost, k))
  }

  /******* The invariant *******/

  ghost function History(site: Site, ws: seq<World>, k: string): (hist: seq<Sighting>)
    requires k in site.fields
    ensures |hist| == |ws|
    ensures forall i :: 0 <= i < |ws| ==> hist[i] == Sighting(ws[i].now, DirectRead(site, ws[i].rows, k))
  {
    seq(|ws|, i requires 0 <= i < |ws| => Sighting(ws[i].now, DirectRead(site, ws[i].rows, k)))
  }

  ghost predicate WorldGood(site: Site, hist: seq<Sighting>, w: World, k: string, sheltered: bool)
    requires k in site.fields
  {
    && ValueOk(site, hist, w.cache, k, w.now, sheltered)
    && (forall p :: 0 <= p < |w.procs| ==> ProcOk(site, w.procs[p]) && MemoOk(site, hist, w.procs[p], k, w.now))
  }

  lemma SeenGrows(hist: seq<Sighting>, s: Sighting, since: real, answer: Effective)
    ensures SeenSince(hist, since, answer) ==> SeenSince(hist + [s], since, answer)
    ensures SeenAfter(hist, since, answer) ==> SeenAfter(hist + [s], since, answer)
  {
    forall j | 0 <= j < |hist|
      ensures (hist + [s])[j] == hist[j]
    {
    }
  }

  /** The invariant survives a new sighting and the passing of time. */
  lemma GoodAges(site: Site, hist: seq<Sighting>, w: World, k: string, sheltered: bool, s: Sighting, now: real)
    requires k in site.fields && WorldGood(site, hist, w, k, sheltered) && w.now <= now
    ensures WorldGood(site, hist + [s], w.(now := now), k, sheltered)
  {
    if IsLive(w.cache, k, now) {
      var e := w.cache.values[k];
      var pk, plain :| IsEntry(site, hist, k, e, pk, plain)
        && (sheltered && IsEncrypted(site, k) ==> Agrees(w.cache, k, pk));
      if plain != NotSet {
        SeenGrows(hist, s, e.expires - SETTING_CACHE_TIMEOUT, Answer(site, k, plain));
      }
      assert IsEntry(site, hist + [s], k, e, pk, plain);
    }
    forall p | 0 <= p < |w.procs|
      ensures MemoOk(site, hist + [s], w.procs[p], k, now)
    {
      if k in w.procs[p].memo {
        SeenGrows(hist, s, w.procs[p].memo[k].expires - SETTING_CACHE_TIMEOUT - SETTING_MEMORY_TTL,
                  Resolve(site, k, w.procs[p].memo[k].value));
      }
    }
  }

  lemma StepKeeps(site: Site, hist: seq<Sighting>, w: World, e: Event, k: string, sheltered: bool)
    requires Enabled(site, w, e) && Present(site, hist, w.rows, w.now, k)
    requires sheltered && e.Read? ==> Sheltered(site, e.lost, k)
    requires WorldGood(site, hist, w, k, sheltered)
    ensures var w1 := Step(site, w, e);
            w.now <= w1.now && WorldGood(site, hist, w1.(now := w.now), k, sheltered)
  {
    match e
    case Read(p, other, lost) =>
      ReadKeeps(site, hist, w.rows, w.now, lost, w.procs[p], w.cache, k, sheltered, other);
    case _ =>
  }

  lemma {:induction false} RunGood(site: Site, ws: seq<World>, es: seq<Event>, k: string, sheltered: bool, i: nat)
    requires IsTrackedRun(site, ws, es, k) && (sheltered ==> IsShelteredRun(site, ws, es, k)) && i < |ws|
    ensures WorldGood(site, History(site, ws[..i + 1], k), ws[i], k, sheltered)
  {
    if i > 0 {
      RunGood(site, ws, es, k, sheltered, i - 1);
      var hist := History(site, ws[..i], k);
      StepKeeps(site, hist, ws[i - 1], es[i - 1], k, sheltered);
      var s := Sighting(ws[i].now, DirectRead(site, ws[i].rows, k));
      GoodAges(site, hist, ws[i].(now := ws[i - 1].now), k, sheltered, s, ws[i].now);
      assert History(site, ws[..i + 1], k) == hist + [s];
    }
  }

  lemma {:induction false} TimeAdvances(site: Site, ws: seq<World>, es: seq<Event>, i: nat, j: nat)
    requires IsRun(site, ws, es) && j <= i < |ws|
    ensures ws[j].now <= ws[i].now
  {
    if j < i {
      TimeAdvances(site, ws, es, i - 1, j);
    }
  }

  /******* Bounded staleness *******/

  /** What the invariant gives of one read of a run. */
  lemma ReadInRun(site: Site, ws: seq<World>, es: seq<Event>, k: string, sheltered: bool, i: nat)
    requires IsTrackedRun(site, ws, es, k) && (sheltered ==> IsShelteredRun(site, ws, es, k))
    requires i < |es| && es[i].Read? && es[i].key == k
    ensures var w, p := ws[i], ws[i].procs[es[i].proc];
            && (ReadAnswer(site, w, es[i]) == Failed <==>
                  !HasMemo(p, k, w.now) && CannotRead(site, w.rows, w.now, es[i].lost, p, w.cache, k))
            && (ReadAnswer(site, w, es[i]) == Failed && sheltered ==> !IsClear(site, w.rows, es[i].lost, k))
            && (ReadAnswer(site, w, es[i]) != Failed ==>
                  SeenAfter(History(site, ws[..i + 1], k), w.now - SETTING_CACHE_TIMEOUT - SETTING_MEMORY_TTL,
                    ReadAnswer(site, w, es[i])))
  {
    RunGood(site, ws, es, k, sheltered, i);
    var w := ws[i];
    ReadKeeps(site, History(site, ws[..i + 1], k), w.rows, w.now, es[i].lost, w.procs[es[i].proc], w.cache, k,
              sheltered, k);
  }

  /** The run was in a state, less than 65 seconds before, whose table gives the answer directly. */
  ghost predicate SeenRecently(site: Site, ws: seq<World>, k: string, i: nat, answer: Effective)
    requires i < |ws| && k in site.fields
  {
    exists j :: 0 <= j <= i && ws[i].now - 65.0 < ws[j].now <= ws[i].now && answer == DirectRead(site, ws[j].rows, k)
  }

  /** Whatever the processes do and whichever operations are lost, a read of a writable setting
      fails, or answers as a direct lookup in the table did less than 65 seconds before. */
  lemma BoundedStaleness(site: Site, ws: seq<World>, es: seq<Event>, k: string, i: nat)
    requires IsTrackedRun(site, ws, es, k) && i < |es| && es[i].Read? && es[i].key == k
    ensures ReadAnswer(site, ws[i], es[i]) == Failed || SeenRecently(site, ws, k, i, ReadAnswer(site, ws[i], es[i]))
  {
    ReadInRun(site, ws, es, k, false, i);
    if ReadAnswer(site, ws[i], es[i]) != Failed {
      var hist := History(site, ws[..i + 1], k);
      var j :| 0 <= j < |hist| && ws[i].now - SETTING_CACHE_TIMEOUT - SETTING_MEMORY_TTL < hist[j].time
        && hist[j].answer == ReadAnswer(site, ws[i], es[i]);
      TimeAdvances(site, ws, es, i, j);
    }
  }

  /** It fails exactly when the reader has no live memo, and its preload meets a row that cannot be
      opened, or it fetches a live entry while the key in force is not the one that was sealed
      under, or it finds no value cached and the direct lookup fails too. */
  lemma ReadFailsExactly(site: Site, ws: seq<World>, es: seq<Event>, k: string, i: nat)
    requires IsTrackedRun(site, ws, es, k) && i < |es| && es[i].Read? && es[i].key == k
    ensures var w, p := ws[i], ws[i].procs[es[i].proc];
            ReadAnswer(site, w, es[i]) == Failed <==>
              !HasMemo(p, k, w.now) && CannotRead(site, w.rows, w.now, es[i].lost, p, w.cache, k)
  {
    ReadInRun(site, ws, es, k, false, i);
  }

  /** Where an encrypted key keeps a lasting `_ID` entry and loses no write of its entries, and for
      every other key, a read that finds every row readable and does not lose its own lookup of the
      `_ID` entry does not fail, whatever was lost or could not be read before. */
  lemma ShelteredNeverFails(site: Site, ws: seq<World>, es: seq<Event>, k: string, i: nat)
    requires IsShelteredRun(site, ws, es, k) && i < |es| && es[i].Read? && es[i].key == k
    requires IsClear(site, ws[i].rows, es[i].lost, k)
    ensures ReadAnswer(site, ws[i], es[i]) != Failed && SeenRecently(site, ws, k, i, ReadAnswer(site, ws[i], es[i]))
  {
    ReadInRun(site, ws, es, k, true, i);
    BoundedStaleness(site, ws, es, k, i);
  }

  /******* When a read fails *******/

  /** A read that makes no preload of its own, because none is due or another process has made one,
      fails exactly by what it finds: an entry sealed under another key than the one in force, or
      no value, where the direct lookup fails too. */
  lemma FailsAsItStands(site: Site, rows: seq<Row>, now: real, lost: set<CacheOp>, p: Proc, c: Cache, k: string)
    requires WellFormed(site) && IsWritable(site, k) && ProcOk(site, p)
    requires !PreloadDue(p, now) || (GetMarker !in lost && c.marker.Some? && now < c.marker.value)
    ensures var fetch := CacheGet(site, p, rows, now, lost, c, k);
            CannotRead(site, rows, now, lost, p, c, k) <==>
            WrongKey(site, rows, now, lost, p, c, k)
              || (DirectRead(site, rows, k) == Failed && !(fetch.Hit? && fetch.value != NotSet))
  {
    StartPreloadOk(site, p, now);
    var p1 := if PreloadDue(p, now) then StartPreload(site, p, now) else p;
    assert k !in p.marked && k !in p1.marked;
    assert CacheGet(site, p1, rows, now, lost, c, k) == CacheGet(site, p, rows, now, lost, c, k);
  }

  /** Right after its own preload has written an encrypted key's value, a read fails by its key
      exactly when the value is not the empty text and one of the two id lookups, sealing and
      fetching, was lost while the other found a live entry naming another row than the table. */
  lemma FailsAfterOwnPreload(site: Site, rows: seq<Row>, now: real, lost: set<CacheOp>, p: Proc, c: Cache, k: string)
    requires Trackable(site, k) && IsEncrypted(site, k) && TableOk(site, rows, k) && ProcOk(site, p)
    requires CanPreload(site, p, rows)
    requires SetValue(k, Preloading) !in lost && GetValue(k) !in lost
    ensures var c2 := PreloadFill(site, p, rows, now, lost, c);
            WrongKey(site, rows, now, lost, p, c2, k) <==>
            && LoadKey(site, p, rows, k).cached != Str("")
            && (GetId(k, Preloading) in lost <==> GetId(k, Fetching) !in lost)
            && k in c2.ids && now < c2.ids[k].expires && c2.ids[k].value != DbPk(site, p, rows, k)
  {
    assert k !in p.marked && IsPreloaded(site, p, k);
    LoadKeyAnswers(site, p, rows, k);
    FilledAt(site, rows, now, lost, p, c, k);
    var c2 := PreloadFill(site, p, rows, now, lost, c);
    WrongKeyIs(site, rows, now, lost, p, c2, k, ObjId(site, p, rows, now, lost, c2, k, Preloading),
               LoadKey(site, p, rows, k).cached);
  }

  /******* Key agreement *******/

  /** In every state of a run that loses no write of the key's entries a live encrypted entry is
      sealed under the key its live `_ID` entry names, so a fetch gives back the sealed text,
      whatever rows came and went meanwhile and whatever lookups were lost. */
  lemma KeyAgreement(site: Site, ws: seq<World>, es: seq<Event>, k: string, i: nat, p: Proc,
                     lost: set<CacheOp>) returns (s: string)
    requires IsShelteredRun(site, ws, es, k) && i < |ws| && IsEncrypted(site, k)
    requires IsLive(ws[i].cache, k, ws[i].now) && GetValue(k) !in lost && GetId(k, Fetching) !in lost
    ensures var c := ws[i].cache;
            && k in c.ids && ws[i].now < c.ids[k].expires
            && c.values[k].value == EncryptField(site.cipher, c.ids[k].value, Str(s))
            && CacheGet(site, p, ws[i].rows, ws[i].now, lost, c, k) == Hit(Str(s))
  {
    RunGood(site, ws, es, k, true, i);
    var c, hist := ws[i].cache, History(site, ws[..i + 1], k);
    var pk, plain :| IsEntry(site, hist, k, c.values[k], pk, plain) && Agrees(c, k, pk);
    OpensOrBreaks(site.cipher, pk, pk, plain.s);
    s := plain.s;
  }
}
