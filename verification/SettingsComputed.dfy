/**
 Settings computed from others by callable defaults: how stale a read of one can be, and exactly
 when it fails.
 */
module SettingsComputed {
  import opened Helpers
  import opened SettingsModel
  import opened SettingsCache
  import opened SettingsFreshness
  import opened SettingsRuns

  /******* Computed settings *******/

  /** `d` is a read-only setting computed from `k`. */
  ghost predicate ComputedFrom(site: Site, d: string, k: string) {
    && d in site.fields && k in site.fields && d != k
    && site.fields[d].readOnly && d != INSTALL_UUID
    && site.fields[d].default.Computed? && site.fields[d].default.source == k
    && site.fields[k].default.Computed? == false
  }

  /** The answer `d` gives when its source resolves to `v`. */
  function ComputedOutcome(site: Site, d: string, v: Value): Outcome
    requires d in site.fields && site.fields[d].default.Computed?
  {
    var x := site.fields[d].default.compute(v);
    if x == Null || x == NotSet then Empty else Finish(site, false, d, x)
  }

  /** The form a computed value takes in the cache. */
  function ComputedForm(site: Site, d: string, v: Value): Value
    requires d in site.fields && site.fields[d].default.Computed?
  {
    var x := site.fields[d].default.compute(v);
    CacheForm(if x == Null then NotSet else x)
  }

  /** What `d` is computed to be can be cached: no sentinel but "not set", and for an encrypted
      setting null or plain text. */
  ghost predicate CachesWell(site: Site, d: string)
    requires d in site.fields && site.fields[d].default.Computed?
  {
    forall v :: IsCacheable(site, d, site.fields[d].default.compute(v))
  }

  predicate IsCacheable(site: Site, d: string, x: Value) {
    x == NotSet || (!IsSentinel(x) && (IsEncrypted(site, d) ==> IsPlain(x)))
  }

  lemma ComputedFormAnswers(site: Site, d: string, v: Value)
    requires d in site.fields && site.fields[d].default.Computed?
    requires IsCacheable(site, d, site.fields[d].default.compute(v))
    ensures var form := ComputedForm(site, d, v);
            && (form == NotSet ==> ComputedOutcome(site, d, v) == Empty)
            && (form != NotSet ==>
                  FromCache(form).Some? && Finish(site, false, d, FromCache(form).value) == ComputedOutcome(site, d, v))
            && (IsEncrypted(site, d) ==> form.Str? && !IsSealed(form.s))
  {
    assert !IsSealed(SETTING_CACHE_NOTSET) by { assert SETTING_CACHE_NOTSET[0] != ENCRYPTED_PREFIX[0]; }
  }

  /******* What other reads leave alone *******/

  ghost predicate SameAt(p: Proc, c: Cache, p1: Proc, c1: Cache, d: string) {
    && (d in p.memo <==> d in p1.memo) && (d in p.memo ==> p.memo[d] == p1.memo[d])
    && (d in c.values <==> d in c1.values) && (d in c.values ==> c.values[d] == c1.values[d])
  }

  lemma PreloadLeaves(site: Site, rows: seq<Row>, now: real, lost: set<CacheOp>, p: Proc, c: Cache, d: string)
    requires d in site.fields && site.fields[d].readOnly && d != INSTALL_UUID
    ensures var pre := Preload(site, rows, now, lost, p, c); SameAt(p, c, pre.proc, pre.cache, d)
  {
  }

  lemma SettleLeaves(site: Site, rows: seq<Row>, now: real, lost: set<CacheOp>, p: Proc, c: Cache, d: string,
                     other: string, fetch: Fetch, v: Value, id: Option<Option<Pk>>)
    requires other in site.fields && other != d
    ensures var a := Settle(site, rows, now, lost, p, c, other, fetch, v, id); SameAt(p, c, a.proc, a.cache, d)
  {
  }

  /** Reading another setting does not touch what is held of a computed one. */
  lemma RecomputeLeaves(site: Site, rows: seq<Row>, now: real, lost: set<CacheOp>, p: Proc, c: Cache, d: string,
                        other: string, fetch: Fetch)
    requires d in site.fields && site.fields[d].readOnly && d != INSTALL_UUID && Rank(site, d) == 1
    requires other in site.fields && other != d
    ensures var a := Recompute(site, rows, now, lost, p, c, other, fetch); SameAt(p, c, a.proc, a.cache, d)
    decreases Rank(site, other), 0
  {
    match LookUp(site, rows, p, other)
    case Unopened =>
    case Stored(v, id) => SettleLeaves(site, rows, now, lost, p, c, d, other, fetch, v, id);
    case From(source, compute) =>
      ReadLeaves(site, rows, now, lost, p, c, d, source);
      var a := GetMemoized(site, rows, now, lost, p, c, source);
      var o := Resolve(site, source, a.outcome);
      if o.Resolved? {
        SettleLeaves(site, rows, now, lost, a.proc, a.cache, d, other, fetch, compute(o.value),
                     ComputedId(site, other));
      }
  }

  lemma ReadLeaves(site: Site, rows: seq<Row>, now: real, lost: set<CacheOp>, p: Proc, c: Cache, d: string,
                   other: string)
    requires d in site.fields && site.fields[d].readOnly && d != INSTALL_UUID && Rank(site, d) == 1
    requires other in site.fields && other != d
    ensures var a := GetMemoized(site, rows, now, lost, p, c, other); SameAt(p, c, a.proc, a.cache, d)
    decreases Rank(site, other), 2
  {
    if !(other in p.memo && now < p.memo[other].expires) {
      PreloadLeaves(site, rows, now, lost, p, c, d);
      var pre := Preload(site, rows, now, lost, p, c);
      var fetch := CacheGet(site, pre.proc, rows, now, lost, pre.cache, other);
      RecomputeLeaves(site, rows, now, lost, pre.proc, pre.cache, d, other, fetch);
    }
  }

  /******* What a computed setting is computed from *******/

  /** The longest a source's answer can be behind the table. */
  const SOURCE_DELAY := SETTING_CACHE_TIMEOUT + SETTING_MEMORY_TTL

  /** The outcome is computed from a value the source had directly after some time. */
  ghost predicate FromSource(site: Site, hist: seq<Sighting>, d: string, after: real, o: Outcome)
    requires d in site.fields && site.fields[d].default.Computed?
  {
    exists v :: SeenAfter(hist, after, Resolved(v)) && o == ComputedOutcome(site, d, v)
  }

  ghost predicate FormFromSource(site: Site, hist: seq<Sighting>, d: string, after: real, form: Value)
    requires d in site.fields && site.fields[d].default.Computed?
  {
    exists v :: SeenAfter(hist, after, Resolved(v)) && form == ComputedForm(site, d, v)
  }

  /** A live entry seals a form computed from a value its source had, not long before it was written. */
  ghost predicate EntryFrom(site: Site, hist: seq<Sighting>, c: Cache, d: string, now: real)
    requires d in site.fields && site.fields[d].default.Computed?
  {
    IsLive(c, d, now) ==>
      exists pk, form :: IsSealedEntry(site, d, c.values[d], pk, form)
                         && FormFromSource(site, hist, d, c.values[d].expires - SETTING_CACHE_TIMEOUT - SOURCE_DELAY,
                            form)
  }

  ghost predicate MemoFrom(site: Site, hist: seq<Sighting>, p: Proc, d: string, now: real)
    requires d in site.fields && site.fields[d].default.Computed?
  {
    HasMemo(p, d, now) ==>
      FromSource(site, hist, d, p.memo[d].expires - SETTING_MEMORY_TTL - SETTING_CACHE_TIMEOUT - SOURCE_DELAY,
        p.memo[d].value)
  }

  /** A later bound is met where an earlier one was, and with more of the history. */
  lemma FromSourceLater(site: Site, hist: seq<Sighting>, d: string, after: real, earlier: real, o: Outcome)
    requires d in site.fields && site.fields[d].default.Computed?
    requires FromSource(site, hist, d, after, o) && earlier <= after
    ensures FromSource(site, hist, d, earlier, o)
  {
    var v :| SeenAfter(hist, after, Resolved(v)) && o == ComputedOutcome(site, d, v);
    SeenLater(hist, after, earlier, Resolved(v));
  }

  /******* One read *******/

  /** A fetch of a computed setting gives a form computed from a recent value of its source, or
      breaks exactly when the key in force is the wrong one. */
  lemma FetchComputed(site: Site, hist: seq<Sighting>, rows: seq<Row>, now: real, lost: set<CacheOp>, p: Proc, c: Cache,
                      d: string)
    requires WellFormed(site) && d in site.fields && site.fields[d].default.Computed?
    requires EntryFrom(site, hist, c, d, now)
    ensures var fetch := CacheGet(site, p, rows, now, lost, c, d);
            && (fetch.Broken? <==> WrongKey(site, rows, now, lost, p, c, d))
            && (fetch.Hit? ==> FormFromSource(site, hist, d, now - SOURCE_DELAY - SETTING_CACHE_TIMEOUT, fetch.value))
  {
    if IsLive(c, d, now) && GetValue(d) !in lost {
      var since := c.values[d].expires - SETTING_CACHE_TIMEOUT - SOURCE_DELAY;
      var pk, form :| IsSealedEntry(site, d, c.values[d], pk, form) && FormFromSource(site, hist, d, since, form);
      EntryOpens(site, rows, now, lost, p, c, d, pk, form);
      var v :| SeenAfter(hist, since, Resolved(v)) && form == ComputedForm(site, d, v);
      SeenLater(hist, since, now - SOURCE_DELAY - SETTING_CACHE_TIMEOUT, Resolved(v));
    }
  }

  /** Settling a value computed from a recent value of the source leaves a good entry. */
  lemma SettleComputed(site: Site, hist: seq<Sighting>, rows: seq<Row>, now: real, lost: set<CacheOp>, p: Proc,
                       c: Cache, d: string, fetch: Fetch, v: Value, id: Option<Option<Pk>>)
    requires d in site.fields && site.fields[d].default.Computed? && d !in p.marked && EntryFrom(site, hist, c, d, now)
    requires IsCacheable(site, d, site.fields[d].default.compute(v)) && SeenAfter(hist, now - SOURCE_DELAY, Resolved(v))
    ensures var a := Settle(site, rows, now, lost, p, c, d, fetch, site.fields[d].default.compute(v), id);
            a.proc == p && EntryFrom(site, hist, a.cache, d, now) && a.outcome == ComputedOutcome(site, d, v)
  {
    ComputedFormAnswers(site, d, v);
    var x := site.fields[d].default.compute(v);
    var value := if x == Null then NotSet else x;
    var form := ComputedForm(site, d, v);
    if !(fetch == Hit(NotSet) && value == NotSet) && SetValue(d, Storing) !in lost {
      var c1 := StoreId(site, now, lost, c, d, id);
      var pk := ObjId(site, p, rows, now, lost, c1, d, Storing);
      var a := Settle(site, rows, now, lost, p, c, d, fetch, x, id);
      assert a.cache == StoreValue(site, p, rows, now, lost, c1, d, value);
      assert a.cache.values[d] == Timed(Sealed(site, d, pk, form), now + SETTING_CACHE_TIMEOUT);
      assert IsSealedEntry(site, d, a.cache.values[d], pk, form);
      assert FormFromSource(site, hist, d, now - SOURCE_DELAY, form);
    }
  }

  /** What reading the source gives at this point. */
  function SourceAnswer(site: Site, rows: seq<Row>, now: real, lost: set<CacheOp>, p: Proc, c: Cache,
                        k: string): Effective
    requires k in site.fields
  {
    Resolve(site, k, GetMemoized(site, rows, now, lost, p, c, k).outcome)
  }

  /** Recomputing a computed setting is reading its source and settling what is computed from it. */
  lemma RecomputeUnfolds(site: Site, rows: seq<Row>, now: real, lost: set<CacheOp>, p: Proc, c: Cache, d: string,
                         k: string, fetch: Fetch)
    requires ComputedFrom(site, d, k) && d !in p.marked
    ensures var a := GetMemoized(site, rows, now, lost, p, c, k);
            var answer := Resolve(site, k, a.outcome);
            Recompute(site, rows, now, lost, p, c, d, fetch) ==
            if answer.Resolved? then
              Settle(site, rows, now, lost, a.proc, a.cache, d, fetch, site.fields[d].default.compute(answer.value),
                     ComputedId(site, d))
            else Access(a.proc, a.cache, Raised)
  {
  }

  /** Recomputing a setting computes it from a recent value of its source, or fails exactly where
      reading that gives none. */
  lemma RecomputeComputed(site: Site, hist: seq<Sighting>, rows: seq<Row>, now: real, lost: set<CacheOp>, p: Proc,
                          c: Cache, d: string, k: string, fetch: Fetch)
    requires ComputedFrom(site, d, k) && CachesWell(site, d) && d !in p.marked
    requires Present(site, hist, rows, now, k) && Good(site, hist, now, p, c, k, false)
    requires EntryFrom(site, hist, c, d, now)
    ensures var a := Recompute(site, rows, now, lost, p, c, d, fetch);
            && EntryFrom(site, hist, a.cache, d, now) && (d in a.proc.memo <==> d in p.memo)
               && (d in p.memo ==> a.proc.memo[d] == p.memo[d])
            && (a.outcome.Raised? <==> !SourceAnswer(site, rows, now, lost, p, c, k).Resolved?)
            && (!a.outcome.Raised? ==> FromSource(site, hist, d, now - SOURCE_DELAY, a.outcome))
  {
    ReadKeeps(site, hist, rows, now, lost, p, c, k, false, k);
    ReadKeepsProc(site, rows, now, lost, p, c, k);
    ReadLeaves(site, rows, now, lost, p, c, d, k);
    RecomputeUnfolds(site, rows, now, lost, p, c, d, k, fetch);
    var a := GetMemoized(site, rows, now, lost, p, c, k);
    var answer := Resolve(site, k, a.outcome);
    assert d !in a.proc.marked;
    if answer.Resolved? {
      assert IsCacheable(site, d, site.fields[d].default.compute(answer.value));
      SettleComputed(site, hist, rows, now, lost, a.proc, a.cache, d, fetch, answer.value,
                     ComputedId(site, d));
    }
  }

  /** A read of a computed setting past its memo fails here: the preload it makes fails, or it
      fetches under the wrong key, or it finds no value and its source gives none. */
  ghost predicate CannotReadComputed(site: Site, rows: seq<Row>, now: real, lost: set<CacheOp>, p: Proc, c: Cache,
                                     d: string, k: string)
    requires d in site.fields && k in site.fields
  {
    var pre := Preload(site, rows, now, lost, p, c);
    var fetch := CacheGet(site, pre.proc, rows, now, lost, pre.cache, d);
    || !pre.ok
    || WrongKey(site, rows, now, lost, pre.proc, pre.cache, d)
    || (!(fetch.Hit? && fetch.value != NotSet)
          && !SourceAnswer(site, rows, now, lost, pre.proc, pre.cache, k).Resolved?)
  }

  /** A form computed from a recent value of the source decodes to an answer computed from it. */
  lemma FormAnswers(site: Site, hist: seq<Sighting>, d: string, after: real, form: Value)
    requires d in site.fields && site.fields[d].default.Computed? && CachesWell(site, d)
    requires FormFromSource(site, hist, d, after, form) && form != NotSet
    ensures FromCache(form).Some? && FromSource(site, hist, d, after, Finish(site, false, d, FromCache(form).value))
  {
    var v :| SeenAfter(hist, after, Resolved(v)) && form == ComputedForm(site, d, v);
    assert IsCacheable(site, d, site.fields[d].default.compute(v));
    ComputedFormAnswers(site, d, v);
  }

  lemma FetchedComputed(site: Site, hist: seq<Sighting>, rows: seq<Row>, now: real, lost: set<CacheOp>, p: Proc,
                        c: Cache, d: string, k: string)
    requires ComputedFrom(site, d, k) && CachesWell(site, d) && d !in p.marked
    requires Present(site, hist, rows, now, k) && Good(site, hist, now, p, c, k, false)
    requires EntryFrom(site, hist, c, d, now)
    ensures var a := Fetched(site, rows, now, lost, p, c, d);
            var fetch := CacheGet(site, p, rows, now, lost, c, d);
            && EntryFrom(site, hist, a.cache, d, now) && (d in a.proc.memo <==> d in p.memo)
               && (d in p.memo ==> a.proc.memo[d] == p.memo[d])
            && (a.outcome.Raised? <==>
                  || WrongKey(site, rows, now, lost, p, c, d)
                  || (!(fetch.Hit? && fetch.value != NotSet)
                        && !SourceAnswer(site, rows, now, lost, p, c, k).Resolved?))
            && (!a.outcome.Raised? ==> FromSource(site, hist, d, now - SOURCE_DELAY - SETTING_CACHE_TIMEOUT, a.outcome))
  {
    var fetch := CacheGet(site, p, rows, now, lost, c, d);
    var since := now - SOURCE_DELAY - SETTING_CACHE_TIMEOUT;
    FetchComputed(site, hist, rows, now, lost, p, c, d);
    if fetch.Hit? && fetch.value != NotSet {
      FormAnswers(site, hist, d, since, fetch.value);
    } else if !fetch.Broken? {
      RecomputeComputed(site, hist, rows, now, lost, p, c, d, k, fetch);
      var a := Recompute(site, rows, now, lost, p, c, d, fetch);
      if !a.outcome.Raised? {
        FromSourceLater(site, hist, d, now - SOURCE_DELAY, since, a.outcome);
      }
    }
  }

  /** A read of a computed setting keeps what is held of it computed from recent values of its
      source, fails exactly where it has no live memo and cannot be read, and otherwise answers as
      computed from a value the source had less than 130 seconds before. */
  lemma ReadComputed(site: Site, hist: seq<Sighting>, rows: seq<Row>, now: real, lost: set<CacheOp>, p: Proc, c: Cache,
                     d: string, k: string)
    requires ComputedFrom(site, d, k) && CachesWell(site, d)
    requires Present(site, hist, rows, now, k) && Good(site, hist, now, p, c, k, false)
    requires EntryFrom(site, hist, c, d, now) && MemoFrom(site, hist, p, d, now)
    ensures var a := GetMemoized(site, rows, now, lost, p, c, d);
            && EntryFrom(site, hist, a.cache, d, now) && MemoFrom(site, hist, a.proc, d, now)
            && (a.outcome.Raised? <==> !HasMemo(p, d, now) && CannotReadComputed(site, rows, now, lost, p, c, d, k))
            && (!a.outcome.Raised? ==>
                  FromSource(site, hist, d, now - SOURCE_DELAY - SETTING_CACHE_TIMEOUT - SETTING_MEMORY_TTL, a.outcome))
  {
    var since := now - SOURCE_DELAY - SETTING_CACHE_TIMEOUT - SETTING_MEMORY_TTL;
    if HasMemo(p, d, now) {
      FromSourceLater(site, hist, d, p.memo[d].expires - SETTING_MEMORY_TTL - SETTING_CACHE_TIMEOUT - SOURCE_DELAY,
                      since, p.memo[d].value);
    } else {
      PreloadKeeps(site, hist, rows, now, lost, p, c, k, false);
      PreloadLeaves(site, rows, now, lost, p, c, d);
      var pre := Preload(site, rows, now, lost, p, c);
      assert d !in pre.proc.marked;
      LocalUnfolds(site, rows, now, lost, p, c, d);
      if pre.ok {
        FetchedComputed(site, hist, rows, now, lost, pre.proc, pre.cache, d, k);
        var a := Fetched(site, rows, now, lost, pre.proc, pre.cache, d);
        if !a.outcome.Raised? {
          FromSourceLater(site, hist, d, now - SOURCE_DELAY - SETTING_CACHE_TIMEOUT, since, a.outcome);
        }
      }
    }
  }

  /******* Runs *******/

  ghost predicate WorldComputed(site: Site, hist: seq<Sighting>, w: World, d: string)
    requires d in site.fields && site.fields[d].default.Computed?
  {
    EntryFrom(site, hist, w.cache, d, w.now) && forall p :: 0 <= p < |w.procs| ==>
      MemoFrom(site, hist, w.procs[p], d, w.now)
  }

  lemma FromSourceGrows(site: Site, hist: seq<Sighting>, s: Sighting, d: string, after: real, o: Outcome)
    requires d in site.fields && site.fields[d].default.Computed? && FromSource(site, hist, d, after, o)
    ensures FromSource(site, hist + [s], d, after, o)
  {
    var v :| SeenAfter(hist, after, Resolved(v)) && o == ComputedOutcome(site, d, v);
    SeenGrows(hist, s, after, Resolved(v));
  }

  lemma ComputedAges(site: Site, hist: seq<Sighting>, w: World, d: string, s: Sighting, now: real)
    requires d in site.fields && site.fields[d].default.Computed? && WorldComputed(site, hist, w, d) && w.now <= now
    ensures WorldComputed(site, hist + [s], w.(now := now), d)
  {
    if IsLive(w.cache, d, now) {
      var e := w.cache.values[d];
      var since := e.expires - SETTING_CACHE_TIMEOUT - SOURCE_DELAY;
      var pk, form :| IsSealedEntry(site, d, e, pk, form) && FormFromSource(site, hist, d, since, form);
      var v :| SeenAfter(hist, since, Resolved(v)) && form == ComputedForm(site, d, v);
      SeenGrows(hist, s, since, Resolved(v));
    }
    forall p | 0 <= p < |w.procs| && HasMemo(w.procs[p], d, now)
      ensures MemoFrom(site, hist + [s], w.procs[p], d, now)
    {
      var m := w.procs[p].memo[d];
      FromSourceGrows(site, hist, s, d, m.expires - SETTING_MEMORY_TTL - SETTING_CACHE_TIMEOUT - SOURCE_DELAY, m.value);
    }
  }

  lemma StepKeepsComputed(site: Site, hist: seq<Sighting>, w: World, e: Event, d: string, k: string)
    requires ComputedFrom(site, d, k) && CachesWell(site, d) && Enabled(site, w, e)
    requires Present(site, hist, w.rows, w.now, k)
    requires WorldGood(site, hist, w, k, false) && WorldComputed(site, hist, w, d)
    ensures WorldComputed(site, hist, Step(site, w, e).(now := w.now), d)
  {
    match e
    case Read(p, other, lost) =>
      if other == d {
        ReadComputed(site, hist, w.rows, w.now, lost, w.procs[p], w.cache, d, k);
      } else {
        ReadLeaves(site, w.rows, w.now, lost, w.procs[p], w.cache, d, other);
      }
    case _ =>
  }

  lemma {:induction false} RunComputed(site: Site, ws: seq<World>, es: seq<Event>, d: string, k: string, i: nat)
    requires IsTrackedRun(site, ws, es, k) && ComputedFrom(site, d, k) && CachesWell(site, d) && i < |ws|
    ensures WorldComputed(site, History(site, ws[..i + 1], k), ws[i], d)
  {
    if i > 0 {
      RunComputed(site, ws, es, d, k, i - 1);
      RunGood(site, ws, es, k, false, i - 1);
      var hist := History(site, ws[..i], k);
      StepKeepsComputed(site, hist, ws[i - 1], es[i - 1], d, k);
      var s := Sighting(ws[i].now, DirectRead(site, ws[i].rows, k));
      ComputedAges(site, hist, ws[i].(now := ws[i - 1].now), d, s, ws[i].now);
      assert History(site, ws[..i + 1], k) == hist + [s];
    }
  }

  /** What the invariant gives of one read of a run. */
  lemma ReadComputedInRun(site: Site, ws: seq<World>, es: seq<Event>, d: string, k: string, i: nat)
    requires IsTrackedRun(site, ws, es, k) && ComputedFrom(site, d, k) && CachesWell(site, d)
    requires i < |es| && es[i].Read? && es[i].key == d
    ensures var w, p := ws[i], ws[i].procs[es[i].proc];
            var o := GetMemoized(site, w.rows, w.now, es[i].lost, p, w.cache, d).outcome;
            && (o.Raised? <==>
                  !HasMemo(p, d, w.now) && CannotReadComputed(site, w.rows, w.now, es[i].lost, p, w.cache, d, k))
            && (!o.Raised? ==>
                  FromSource(site, History(site, ws[..i + 1], k), d,
                    w.now - SOURCE_DELAY - SETTING_CACHE_TIMEOUT - SETTING_MEMORY_TTL, o))
  {
    RunGood(site, ws, es, k, false, i);
    RunComputed(site, ws, es, d, k, i);
    var w := ws[i];
    ReadComputed(site, History(site, ws[..i + 1], k), w.rows, w.now, es[i].lost, w.procs[es[i].proc], w.cache, d, k);
  }

  /** The run was in a state, less than 130 seconds before, whose table gives the source a value from
      which the answer is computed. */
  ghost predicate ComputedRecently(site: Site, ws: seq<World>, d: string, k: string, i: nat, answer: Effective)
    requires i < |ws| && k in site.fields && d in site.fields && site.fields[d].default.Computed?
  {
    exists j, v :: 0 <= j <= i && ws[i].now - 130.0 < ws[j].now <= ws[i].now
                   && DirectRead(site, ws[j].rows, k) == Resolved(v)
                      && answer == Resolve(site, d, ComputedOutcome(site, d, v))
  }

  /** Whatever the processes do and whichever operations are lost, a read of a computed setting
      fails, or answers as computed from what a direct lookup of its source gave less than 130
      seconds before: its own delay and that of its source. */
  lemma ComputedStaleness(site: Site, ws: seq<World>, es: seq<Event>, d: string, k: string, i: nat)
    requires IsTrackedRun(site, ws, es, k) && ComputedFrom(site, d, k) && CachesWell(site, d)
    requires i < |es| && es[i].Read? && es[i].key == d
    ensures ReadAnswer(site, ws[i], es[i]) == Failed
            || ComputedRecently(site, ws, d, k, i, ReadAnswer(site, ws[i], es[i]))
  {
    ReadComputedInRun(site, ws, es, d, k, i);
    var w := ws[i];
    var hist, after := History(site, ws[..i + 1], k), w.now - SOURCE_DELAY - SETTING_CACHE_TIMEOUT - SETTING_MEMORY_TTL;
    var o := GetMemoized(site, w.rows, w.now, es[i].lost, w.procs[es[i].proc], w.cache, d).outcome;
    if !o.Raised? {
      var v :| SeenAfter(hist, after, Resolved(v)) && o == ComputedOutcome(site, d, v);
      var j :| 0 <= j < |hist| && after < hist[j].time && hist[j].answer == Resolved(v);
      TimeAdvances(site, ws, es, i, j);
      assert DirectRead(site, ws[j].rows, k) == Resolved(v);
    }
  }

  /** It fails exactly when the reader has no live memo, and its preload meets a row that cannot be
      opened, or it fetches a live entry under the wrong key, or it finds no value cached and
      reading the source gives none. */
  lemma ComputedFailsExactly(site: Site, ws: seq<World>, es: seq<Event>, d: string, k: string, i: nat)
    requires IsTrackedRun(site, ws, es, k) && ComputedFrom(site, d, k) && CachesWell(site, d)
    requires i < |es| && es[i].Read? && es[i].key == d
    ensures var w, p := ws[i], ws[i].procs[es[i].proc];
            ReadAnswer(site, w, es[i]) == Failed
            <==> !HasMemo(p, d, w.now) && CannotReadComputed(site, w.rows, w.now, es[i].lost, p, w.cache, d, k)
  {
    ReadComputedInRun(site, ws, es, d, k, i);
  }
}
