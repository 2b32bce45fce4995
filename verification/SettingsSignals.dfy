/**
 The signal handler as part of a run: what it does in one call is a sequence of the events runs are
 made of, so what holds of every run holds of every save and deletion.
 */
module SettingsSignals {
  import opened SettingsModel
  import opened SettingsCache
  import opened SettingsRuns

  predicate CanStepAll(site: Site, w: World, es: seq<Event>)
    decreases |es|
  {
    es != [] ==> Enabled(site, w, es[0]) && CanStepAll(site, Step(site, w, es[0]), es[1..])
  }

  function StepAll(site: Site, w: World, es: seq<Event>): World
    requires CanStepAll(site, w, es)
    decreases |es|
  {
    if es == [] then w else StepAll(site, Step(site, w, es[0]), es[1..])
  }

  /** Reading a list of settings in turn, up to the first exception. */
  function ReadEvents(site: Site, w: World, p: nat, lost: set<CacheOp>, keys: seq<string>): seq<Event>
    requires p < |w.procs|
    decreases |keys|
  {
    if keys == [] then []
    else if keys[0] !in site.fields then ReadEvents(site, w, p, lost, keys[1..])
    else
      var e := Read(p, keys[0], lost);
      [e] + if GetMemoized(site, w.rows, w.now, lost, w.procs[p], w.cache, keys[0]).outcome.Raised? then []
            else ReadEvents(site, Step(site, w, e), p, lost, keys[1..])
  }

  lemma {:induction false} ReadsAreEvents(site: Site, w: World, p: nat, lost: set<CacheOp>, keys: seq<string>)
    requires p < |w.procs|
    ensures var es := ReadEvents(site, w, p, lost, keys);
            var a := ReadAll(site, w.rows, w.now, lost, w.procs[p], w.cache, keys);
            CanStepAll(site, w, es) && StepAll(site, w, es) == w.(procs := w.procs[p := a.proc], cache := a.cache)
    decreases |keys|
  {
    if keys == [] {
      assert w.procs == w.procs[p := w.procs[p]];
    } else if keys[0] !in site.fields {
      ReadsAreEvents(site, w, p, lost, keys[1..]);
    } else {
      var e := Read(p, keys[0], lost);
      var w1 := Step(site, w, e);
      var es := ReadEvents(site, w, p, lost, keys);
      var raised := GetMemoized(site, w.rows, w.now, lost, w.procs[p], w.cache, keys[0]).outcome.Raised?;
      assert es[0] == e && es[1..] == if raised then [] else ReadEvents(site, w1, p, lost, keys[1..]);
      if !raised {
        ReadsAreEvents(site, w1, p, lost, keys[1..]);
      }
    }
  }

  function SignalEvents(site: Site, w: World, p: nat, lost: set<CacheOp>, k: string,
                        dependents: seq<string>): seq<Event>
    requires p < |w.procs|
  {
    var evict := EvictKeys({k} + Dependents(site, k), lost);
    var w1 := Step(site, w, evict);
    [evict, ClearMemo(p)] + ReadEvents(site, Step(site, w1, ClearMemo(p)), p, lost, [k] + dependents)
  }

  /** The handler's call, whatever it loses and wherever it is cut short, is a run of an eviction, a
      cleared memo and the reads it makes. */
  lemma SignalIsARun(site: Site, w: World, p: nat, lost: set<CacheOp>, k: string, dependents: seq<string>)
    requires p < |w.procs|
    ensures var es := SignalEvents(site, w, p, lost, k, dependents);
            var a := SettingChanged(site, w.rows, w.now, lost, w.procs[p], w.cache, k, dependents);
            CanStepAll(site, w, es) && StepAll(site, w, es) == w.(procs := w.procs[p := a.proc], cache := a.cache)
  {
    var evict := EvictKeys({k} + Dependents(site, k), lost);
    var w1 := Step(site, w, evict);
    var w2 := Step(site, w1, ClearMemo(p));
    var es := SignalEvents(site, w, p, lost, k, dependents);
    ReadsAreEvents(site, w2, p, lost, [k] + dependents);
    assert es[0] == evict && es[1..][0] == ClearMemo(p)
      && es[1..][1..] == ReadEvents(site, w2, p, lost, [k] + dependents);
  }
}
