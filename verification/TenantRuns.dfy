/**
 Every run of the registration protocol: any requests and verifications, in any order, with any
 time passing between them.
 */
module TenantRuns {
  import opened Helpers
  import opened TenantRegistration

  /** What one successful verification made of which registration, and when. */
  datatype Made = Made(registration: Registration, org: Org, user: User, pool: Pool, at: int)

  datatype World = World(site: Site, now: int, made: seq<Made>)

  datatype Event =
    | Ask(form: Form, nonce: string, hash: string)
    | Confirm(token: Option<Token>, terms: string)
    | Wait(seconds: nat)

  function Step(config: Config, w: World, e: Event): World {
    match e
    case Ask(f, nonce, hash) => w.(site := Register(config, w.site, f, w.now, nonce, hash).site)
    case Confirm(token, terms) =>
      var r := Verify(config, w.site, token, terms, w.now);
      if r.reply.Provisioned? then
        var reg := w.site.regs[Find(w.site.regs, token.value.registration).value].(consumedAt := Some(w.now));
        World(r.site, w.now, w.made + [Made(reg, r.reply.org, r.reply.user, r.reply.pool, w.now)])
      else w.(site := r.site)
    case Wait(seconds) => w.(now := w.now + seconds)
  }

  function Run(config: Config, w: World, events: seq<Event>): World {
    if events == [] then w
    else
      var n := |events| - 1;
      Step(config, Run(config, w, events[..n]), events[n])
  }

  /** A site where nothing has been verified yet; it may have other organizations, users and pools. */
  ghost predicate Start(w: World) {
    && w.made == [] && Unique(w.site.regs)
    && (forall r | r in w.site.regs :: r.consumedAt.None? && r.pk < w.site.nextReg)
    && (forall o | o in w.site.orgs :: o.pk < w.site.nextOrg)
  }

  /******* What every run keeps *******/

  function OrgsOf(made: seq<Made>): seq<Org> {
    seq(|made|, i requires 0 <= i < |made| => made[i].org)
  }

  function UsersOf(made: seq<Made>): seq<User> {
    seq(|made|, i requires 0 <= i < |made| => made[i].user)
  }

  function PoolsOf(made: seq<Made>): seq<Pool> {
    seq(|made|, i requires 0 <= i < |made| => made[i].pool)
  }

  /** Everything made comes from a registration consumed before it expired, with what it asked for. */
  ghost predicate IsMadeFrom(m: Made) {
    var r := m.registration;
    && r.consumedAt == Some(m.at) && m.at < r.expiresAt
    && m.org.name == r.orgName && m.org.slug == Some(r.slug)
    && m.user.username == r.username && m.user.email == r.email && m.user.passwordHash == r.passwordHash
    && m.pool.org == Some(m.org.pk) && m.pool.name == PoolName(m.org.pk, r.slug)
  }

  ghost predicate MadeOk(w: World) {
    && (forall k | 0 <= k < |w.made| :: IsMadeFrom(w.made[k]) && w.made[k].registration in w.site.regs)
    && (forall j, k :: 0 <= j < k < |w.made| ==> w.made[j].registration.pk != w.made[k].registration.pk)
    && (forall r | r in w.site.regs && r.consumedAt.Some? :: IsIn(r, w.made))
  }

  ghost predicate IsIn(r: Registration, made: seq<Made>) {
    exists k :: 0 <= k < |made| && made[k].registration == r
  }

  /** The rows are those there at the start and those made, one each for every verification. */
  ghost predicate RowsOk(w0: World, w: World) {
    && w.site.orgs == w0.site.orgs + OrgsOf(w.made)
    && w.site.users == w0.site.users + UsersOf(w.made)
    && w.site.pools == w0.site.pools + PoolsOf(w.made)
  }

  ghost predicate OrgsApart(config: Config, a: Org, b: Org) {
    a.pk != b.pk && config.fold(a.name) != config.fold(b.name) && a.slug != b.slug
  }

  ghost predicate UsersApart(config: Config, a: User, b: User) {
    config.fold(a.username) != config.fold(b.username) && config.fold(a.email) != config.fold(b.email)
  }

  /** What was made differs from everything there before it. */
  ghost predicate NamesOk(config: Config, w0: World, w: World) {
    && (forall o | o in w.site.orgs :: o.pk < w.site.nextOrg)
    && (forall i, j :: 0 <= i < j < |w.site.orgs| && |w0.site.orgs| <= j ==>
          OrgsApart(config, w.site.orgs[i], w.site.orgs[j]))
    && (forall i, j :: 0 <= i < j < |w.site.users| && |w0.site.users| <= j ==>
          UsersApart(config, w.site.users[i], w.site.users[j]))
    && (forall i, j :: 0 <= i < j < |w.site.pools| && |w0.site.pools| <= j ==>
          w.site.pools[i].name != w.site.pools[j].name)
  }

  ghost predicate Safe(config: Config, w0: World, w: World) {
    RegsOk(w.site) && MadeOk(w) && RowsOk(w0, w) && NamesOk(config, w0, w)
  }

  /******* One step *******/

  /** Asking never removes or adds a consumed registration. */
  lemma RegisterKeepsConsumed(config: Config, site: Site, f: Form, now: int, nonce: string, hash: string,
                              r: Registration)
    requires r.consumedAt.Some?
    ensures r in Register(config, site, f, now, nonce, hash).site.regs <==> r in site.regs
  {
    PurgedAre(site.regs, f, now, r);
  }

  lemma AskKeeps(config: Config, w0: World, w: World, f: Form, nonce: string, hash: string)
    requires Safe(config, w0, w)
    ensures Safe(config, w0, Step(config, w, Ask(f, nonce, hash)))
  {
    var w1 := Step(config, w, Ask(f, nonce, hash));
    RegisterKeepsRegs(config, w.site, f, w.now, nonce, hash);
    forall k | 0 <= k < |w.made|
      ensures w.made[k].registration in w1.site.regs
    {
      RegisterKeepsConsumed(config, w.site, f, w.now, nonce, hash, w.made[k].registration);
    }
    forall r | r in w1.site.regs && r.consumedAt.Some?
      ensures IsIn(r, w.made)
    {
      RegisterKeepsConsumed(config, w.site, f, w.now, nonce, hash, r);
    }
  }

  lemma ConfirmKeepsRegs(site: Site, i: nat, at: int)
    requires RegsOk(site) && i < |site.regs|
    ensures RegsOk(site.(regs := site.regs[i := site.regs[i].(consumedAt := Some(at))]))
  {
  }

  /** Verifying registration `i` of a site. */
  ghost predicate IsConfirm(config: Config, w: World, token: Token, terms: string, i: nat) {
    && i < |w.site.regs| && Find(w.site.regs, token.registration) == Some(i)
    && CanVerify(config, w.site, w.site.regs[i], token.nonce, terms, w.now)
  }

  lemma ConfirmedApart(regs: seq<Registration>, i: nat, at: int, r: Registration)
    requires Unique(regs) && i < |regs| && regs[i].consumedAt.None? && r in regs && r.consumedAt.Some?
    ensures r in regs[i := regs[i].(consumedAt := Some(at))] && r.pk != regs[i].pk
  {
    var j :| 0 <= j < |regs| && regs[j] == r;
    var regs1 := regs[i := regs[i].(consumedAt := Some(at))];
    assert regs1[j] == r;
    if j < i {
      assert Apart(regs[j], regs[i]);
    } else {
      assert Apart(regs[i], regs[j]);
    }
  }

  lemma ConsumedIsMade(regs: seq<Registration>, i: nat, made: seq<Made>, m: Made, s: Registration)
    requires i < |regs| && (forall r | r in regs && r.consumedAt.Some? :: IsIn(r, made))
    requires s in regs[i := m.registration] && s.consumedAt.Some?
    ensures IsIn(s, made + [m])
  {
    var made1 := made + [m];
    if s == m.registration {
      assert made1[|made|].registration == s;
    } else {
      var j :| 0 <= j < |regs| && regs[i := m.registration][j] == s;
      assert regs[j] in regs;
      var k :| 0 <= k < |made| && made[k].registration == s;
      assert made1[k].registration == s;
    }
  }

  lemma ConfirmKeepsMade(config: Config, w: World, token: Token, terms: string, i: nat)
    requires RegsOk(w.site) && MadeOk(w) && IsConfirm(config, w, token, terms, i)
    ensures MadeOk(Step(config, w, Confirm(Some(token), terms)))
  {
    var w1 := Step(config, w, Confirm(Some(token), terms));
    var n := |w.made|;
    assert w1.site.regs[i] == w1.made[n].registration && IsMadeFrom(w1.made[n]);
    forall k | 0 <= k < n
      ensures w.made[k].registration in w1.site.regs && w.made[k].registration.pk != w.site.regs[i].pk
    {
      assert IsMadeFrom(w.made[k]);
      ConfirmedApart(w.site.regs, i, w.now, w.made[k].registration);
    }
    forall s | s in w1.site.regs && s.consumedAt.Some?
      ensures IsIn(s, w1.made)
    {
      ConsumedIsMade(w.site.regs, i, w.made, w1.made[n], s);
    }
  }

  lemma ConfirmKeepsRows(config: Config, w0: World, w: World, token: Token, terms: string, i: nat)
    requires RowsOk(w0, w) && IsConfirm(config, w, token, terms, i)
    ensures RowsOk(w0, Step(config, w, Confirm(Some(token), terms)))
  {
  }

  lemma ConfirmKeepsNames(config: Config, w0: World, w: World, token: Token, terms: string, i: nat)
    requires NamesOk(config, w0, w) && IsConfirm(config, w, token, terms, i)
    ensures NamesOk(config, w0, Step(config, w, Confirm(Some(token), terms)))
  {
  }

  lemma StepKeeps(config: Config, w0: World, w: World, e: Event)
    requires Safe(config, w0, w)
    ensures Safe(config, w0, Step(config, w, e))
  {
    match e
    case Ask(f, nonce, hash) => AskKeeps(config, w0, w, f, nonce, hash);
    case Wait(_) =>
    case Confirm(token, terms) =>
      if token.Some? && Verify(config, w.site, token, terms, w.now).reply.Provisioned? {
        var i := Find(w.site.regs, token.value.registration).value;
        ConfirmKeepsRegs(w.site, i, w.now);
        ConfirmKeepsMade(config, w, token.value, terms, i);
        ConfirmKeepsRows(config, w0, w, token.value, terms, i);
        ConfirmKeepsNames(config, w0, w, token.value, terms, i);
      }
  }

  /** In every reachable state: no two registrations share an identifier, username or address;
      each verification consumed its own registration before that expired, and made exactly one
      organization, administrator and pool from it; and what was made is, ignoring case, named
      unlike everything else. */
  lemma {:induction false} RunIsSafe(config: Config, w0: World, events: seq<Event>)
    requires Start(w0)
    ensures Safe(config, w0, Run(config, w0, events))
    decreases |events|
  {
    if events == [] {
      assert w0.site.orgs + OrgsOf([]) == w0.site.orgs;
      assert w0.site.users + UsersOf([]) == w0.site.users;
      assert w0.site.pools + PoolsOf([]) == w0.site.pools;
    } else {
      var n := |events| - 1;
      RunIsSafe(config, w0, events[..n]);
      StepKeeps(config, w0, Run(config, w0, events[..n]), events[n]);
    }
  }

  /******* What a run never does *******/

  /** A link that has been used is refused in every later state. */
  lemma ReplayIsRefused(config: Config, w0: World, events: seq<Event>, token: Token, terms: string, k: nat)
    requires Start(w0)
    requires var w := Run(config, w0, events); k < |w.made| && w.made[k].registration.pk == token.registration
    ensures var w := Run(config, w0, events);
            Verify(config, w.site, Some(token), terms, w.now) == Result(w.site, Rejected({"token"}))
  {
    var w := Run(config, w0, events);
    RunIsSafe(config, w0, events);
    assert IsMadeFrom(w.made[k]);
    FindFinds(w.site.regs, w.made[k].registration);
  }

  /** Of two pending requests for, up to case, the same organization, username or address, at most
      one is ever verified. */
  lemma RivalIsRefused(config: Config, w0: World, events: seq<Event>, token: Token, terms: string, k: nat)
    requires Start(w0)
    requires var w := Run(config, w0, events);
             && k < |w.made| && Find(w.site.regs, token.registration).Some?
             && var r := w.site.regs[Find(w.site.regs, token.registration).value];
                var s := w.made[k].registration;
                || config.fold(r.orgName) == config.fold(s.orgName)
                || config.fold(r.username) == config.fold(s.username)
                || config.fold(r.email) == config.fold(s.email)
    ensures var w := Run(config, w0, events);
            Verify(config, w.site, Some(token), terms, w.now) == Result(w.site, Rejected({"token"}))
  {
    RunIsSafe(config, w0, events);
    MadeAreStored(config, w0, Run(config, w0, events), k);
  }

  /** What a verification made is among what is stored, under the names asked for. */
  lemma MadeAreStored(config: Config, w0: World, w: World, k: nat)
    requires Safe(config, w0, w) && k < |w.made|
    ensures var m := w.made[k];
            && IsMadeFrom(m) && m.org in w.site.orgs && m.user in w.site.users && m.pool in w.site.pools
  {
    var m := w.made[k];
    assert w.site.orgs[|w0.site.orgs| + k] == m.org;
    assert w.site.users[|w0.site.users| + k] == m.user;
    assert w.site.pools[|w0.site.pools| + k] == m.pool;
  }

  /** The name of the next pool can only be taken by a pool that was there at the start: names made
      here never collide, although they are cut to fit. */
  lemma PoolNameIsFree(config: Config, w0: World, events: seq<Event>, slug: string)
    requires Start(w0)
    requires var w := Run(config, w0, events); w.site.nextOrg < Power10(PK_DIGITS)
    ensures var w := Run(config, w0, events);
            PoolTaken(w.site.pools, PoolName(w.site.nextOrg, slug)) <==>
              PoolTaken(w0.site.pools, PoolName(w.site.nextOrg, slug))
  {
    RunIsSafe(config, w0, events);
    PoolNameIsFreeIn(config, w0, Run(config, w0, events), slug);
  }

  lemma PoolNameIsFreeIn(config: Config, w0: World, w: World, slug: string)
    requires Safe(config, w0, w) && w.site.nextOrg < Power10(PK_DIGITS)
    ensures PoolTaken(w.site.pools, PoolName(w.site.nextOrg, slug)) <==>
            PoolTaken(w0.site.pools, PoolName(w.site.nextOrg, slug))
  {
    var name := PoolName(w.site.nextOrg, slug);
    if p :| p in w0.site.pools && p.name == name {
      assert p in w.site.pools;
    }
    forall p | p in w.site.pools && p !in w0.site.pools
      ensures p.name != name
    {
      assert p in PoolsOf(w.made);
      var k :| 0 <= k < |w.made| && w.made[k].pool == p;
      MadePoolDiffers(config, w0, w, k, slug);
    }
  }

  lemma MadePoolDiffers(config: Config, w0: World, w: World, k: nat, slug: string)
    requires Safe(config, w0, w) && k < |w.made| && w.site.nextOrg < Power10(PK_DIGITS)
    ensures w.made[k].pool.name != PoolName(w.site.nextOrg, slug)
  {
    MadeAreStored(config, w0, w, k);
    PoolNamesDiffer(w.made[k].org.pk, w.site.nextOrg, w.made[k].registration.slug, slug);
  }
}
