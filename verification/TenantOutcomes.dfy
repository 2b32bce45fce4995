/**
 What a request for a tenant and the verification of its link answer and store, spelled out over the
 stored rows.
 */
module TenantOutcomes {
  import opened Helpers
  import opened TenantRegistration

  /******* Requests *******/

  /** A registration holds the form's identifier, username or address as it is written. */
  predicate Shares(r: Registration, f: Form) {
    r.slug == f.slug || r.username == f.username || r.email == f.email
  }

  predicate IsWaiting(r: Registration, f: Form, now: int) {
    Shares(r, f) && r.consumedAt == None && now < r.expiresAt
  }

  predicate HasLapsed(r: Registration, f: Form, now: int) {
    Shares(r, f) && r.consumedAt == None && r.expiresAt <= now
  }

  /** A registration asks for what the form asks for, the case of names aside. */
  predicate AsksTheSame(config: Config, r: Registration, f: Form) {
    && r.slug == f.slug && config.fold(r.username) == config.fold(f.username)
    && config.fold(r.email) == config.fold(f.email) && r.terms == f.terms
  }

  /** `r` is the one registration waiting in the form's way. */
  ghost predicate IsOnlyWaiting(regs: seq<Registration>, f: Form, now: int, r: Registration) {
    r in regs && IsWaiting(r, f, now) && forall s | s in regs && IsWaiting(s, f, now) :: s == r
  }

  /** The stored registrations are those there were, less those lapsed in the form's way. */
  ghost predicate LapsedAreGone(regs: seq<Registration>, regs1: seq<Registration>, f: Form, now: int) {
    Unique(regs1) && forall r :: r in regs1 <==> r in regs && !HasLapsed(r, f, now)
  }

  lemma {:induction false} ConflictsUnique(regs: seq<Registration>, f: Form)
    requires Unique(regs)
    ensures Unique(Conflicts(regs, f))
    decreases |regs|
  {
    if regs != [] {
      var n := |regs| - 1;
      ConflictsUnique(regs[..n], f);
      var rest := Conflicts(regs[..n], f);
      forall i | 0 <= i < |rest|
        ensures Apart(rest[i], regs[n])
      {
        assert rest[i] in rest;
        ConflictsAre(regs[..n], f, rest[i]);
        var k :| 0 <= k < n && regs[..n][k] == rest[i];
        assert Apart(regs[k], regs[n]);
      }
    }
  }

  /** The conflicts of a request are the registrations waiting in its way, each once. */
  lemma ConflictsWait(regs: seq<Registration>, f: Form, now: int)
    requires Unique(regs)
    ensures var conflicts := Conflicts(Purged(regs, f, now), f);
            && Unique(conflicts) && LapsedAreGone(regs, Purged(regs, f, now), f, now)
            && forall r :: r in conflicts <==> r in regs && IsWaiting(r, f, now)
  {
    var kept := Purged(regs, f, now);
    PurgedUnique(regs, f, now);
    ConflictsUnique(kept, f);
    forall r
      ensures r in kept <==> r in regs && !HasLapsed(r, f, now)
      ensures r in Conflicts(kept, f) <==> r in regs && IsWaiting(r, f, now)
    {
      PurgedAre(regs, f, now, r);
      ConflictsAre(kept, f, r);
    }
  }

  lemma OnlyOne(regs: seq<Registration>, r: Registration)
    requires Unique(regs) && r in regs && forall s | s in regs :: s == r
    ensures regs == [r]
  {
    var last := |regs| - 1;
    assert regs[0] in regs && regs[last] in regs;
    SamePlace(regs, 0, last);
  }

  lemma SamePlace(regs: seq<Registration>, i: nat, j: nat)
    requires Unique(regs) && i < |regs| && j < |regs| && regs[i].pk == regs[j].pk
    ensures i == j
  {
  }

  /** One registration alone is in conflict exactly if it alone is waiting. */
  lemma OnlyConflict(regs: seq<Registration>, f: Form, now: int, r: Registration)
    requires Unique(regs)
    ensures Conflicts(Purged(regs, f, now), f) == [r] <==> IsOnlyWaiting(regs, f, now, r)
    ensures Conflicts(Purged(regs, f, now), f) == [] <==> forall s | s in regs :: !IsWaiting(s, f, now)
  {
    ConflictsWait(regs, f, now);
    var conflicts := Conflicts(Purged(regs, f, now), f);
    if IsOnlyWaiting(regs, f, now, r) {
      OnlyOne(conflicts, r);
    }
    if conflicts == [r] {
      assert r in conflicts;
    }
    if conflicts != [] {
      assert conflicts[0] in conflicts;
    }
  }

  /** What a request does, by what is in its way. */
  lemma RegisterCases(config: Config, site: Site, f: Form, now: int, nonce: string, hash: string)
    ensures var kept := Purged(site.regs, f, now);
            var conflicts := Conflicts(kept, f);
            var done := Register(config, site, f, now, nonce, hash);
            if conflicts != [] && |conflicts| == 1 && AsksTheSame(config, conflicts[0], f) then
              done == Result(site.(regs := kept), Pending(conflicts[0]))
            else if conflicts != [] || exists r :: r in kept && Shares(r, f)
            then done.site == site && done.reply.Rejected?
            else
              var r := Registration(site.nextReg, f.orgName, f.slug, f.username, f.email, hash, nonce, f.terms, now,
                                    now + config.maxAge, None);
              done == Result(site.(regs := kept + [r], nextReg := site.nextReg + 1), Pending(r))
  {
  }

  /** A request is answered with a stored registration exactly if that is the one waiting in its way
      and asks for the same; then the lapsed ones are gone and nothing else changes. */
  lemma AnsweredWithStored(config: Config, site: Site, f: Form, now: int, nonce: string, hash: string, r: Registration)
    requires RegsOk(site) && r in site.regs
    ensures var done := Register(config, site, f, now, nonce, hash);
            && (done.reply == Pending(r) <==> IsOnlyWaiting(site.regs, f, now, r) && AsksTheSame(config, r, f))
            && (done.reply == Pending(r) ==>
                  LapsedAreGone(site.regs, done.site.regs, f, now) && done.site == site.(regs := done.site.regs))
  {
    ConflictsWait(site.regs, f, now);
    OnlyConflict(site.regs, f, now, r);
    RegisterCases(config, site, f, now, nonce, hash);
  }

  /** A new registration is stored exactly if nothing that waits, and nothing that has been used, shares
      anything with the request; it holds what was asked for under a key not yet given out. */
  lemma StoredAsNew(config: Config, site: Site, f: Form, now: int, nonce: string, hash: string)
    requires RegsOk(site)
    ensures var done := Register(config, site, f, now, nonce, hash);
            var stored := Registration(site.nextReg, f.orgName, f.slug, f.username, f.email, hash, nonce, f.terms, now,
                                       now + config.maxAge, None);
            && (done.reply == Pending(stored) <==> forall r | r in site.regs && Shares(r, f) :: HasLapsed(r, f, now))
            && (done.reply == Pending(stored) ==>
                  && done.site == site.(regs := done.site.regs, nextReg := site.nextReg + 1) && Unique(done.site.regs)
                  && (forall r :: r in done.site.regs <==> r == stored || (r in site.regs && !HasLapsed(r, f, now))))
  {
    ConflictsWait(site.regs, f, now);
    RegisterKeepsRegs(config, site, f, now, nonce, hash);
    RegisterCases(config, site, f, now, nonce, hash);
    NoneWaits(site.regs, f, now);
    var conflicts := Conflicts(Purged(site.regs, f, now), f);
    if conflicts != [] {
      assert conflicts[0] in conflicts;
    }
  }

  lemma NoneWaits(regs: seq<Registration>, f: Form, now: int)
    requires Unique(regs)
    ensures (forall r | r in regs && Shares(r, f) :: HasLapsed(r, f, now)) <==>
            (Conflicts(Purged(regs, f, now), f) == [] && forall r | r in Purged(regs, f, now) :: !Shares(r, f))
  {
    ConflictsWait(regs, f, now);
    var conflicts := Conflicts(Purged(regs, f, now), f);
    if conflicts != [] {
      assert conflicts[0] in conflicts && !HasLapsed(conflicts[0], f, now);
    }
  }

  /** Any other request is refused and leaves everything stored as it was. */
  lemma RefusedUnchanged(config: Config, site: Site, f: Form, now: int, nonce: string, hash: string)
    requires RegsOk(site)
    ensures var done := Register(config, site, f, now, nonce, hash);
            && (done.reply.Rejected? ==> done.site == site)
            && (done.reply.Rejected? || done.reply.Pending?)
            && (done.reply.Rejected? <==>
                && (exists r :: r in site.regs && Shares(r, f) && !HasLapsed(r, f, now))
                && !(exists r :: IsOnlyWaiting(site.regs, f, now, r) && AsksTheSame(config, r, f)))
  {
    ConflictsWait(site.regs, f, now);
    RegisterCases(config, site, f, now, nonce, hash);
    NoneWaits(site.regs, f, now);
    var conflicts := Conflicts(Purged(site.regs, f, now), f);
    if conflicts != [] {
      assert conflicts[0] in conflicts;
      OnlyConflict(site.regs, f, now, conflicts[0]);
    }
    if r :| IsOnlyWaiting(site.regs, f, now, r) && AsksTheSame(config, r, f) {
      OnlyConflict(site.regs, f, now, r);
    }
  }

  /******* Verification *******/

  /** The pool's name: the organization's key and identifier, cut to 250 characters. */
  ghost predicate IsPoolName(name: string, org: nat, slug: string) {
    var full := "tenant-" + Decimal(org) + "-" + slug;
    name == if |full| > 250 then full[..250] else full
  }

  /** What a registration asks for is free: its organization's name and identifier, its user's name and
      address, case aside, and the pool's name. */
  ghost predicate IsFree(config: Config, site: Site, r: Registration) {
    && (forall o | o in site.orgs :: config.fold(o.name) != config.fold(r.orgName) && o.slug != Some(r.slug))
    && (forall u | u in site.users ::
          config.fold(u.username) != config.fold(r.username) && config.fold(u.email) != config.fold(r.email))
    && (forall q | q in site.pools :: !IsPoolName(q.name, site.nextOrg, r.slug))
  }

  /** The link is that of a stored registration, with its nonce, under the terms in force, not used, not
      expired, and for what is free. */
  ghost predicate IsGood(config: Config, site: Site, token: Option<Token>, terms: string, now: int, r: Registration) {
    && token == Some(Token(r.pk, r.nonce)) && r.terms == terms && r.consumedAt == None && now < r.expiresAt
    && IsFree(config, site, r)
  }

  /** A verification provisions exactly where the link is good; otherwise it is refused and nothing
      changes. What it stores is the registration used now, and one organization, user and pool more. */
  lemma VerifiesExactly(config: Config, site: Site, token: Option<Token>, terms: string, now: int)
    requires Unique(site.regs)
    ensures var done := Verify(config, site, token, terms, now);
            && (done.reply.Provisioned? <==> exists r :: r in site.regs && IsGood(config, site, token, terms, now, r))
            && (!done.reply.Provisioned? ==> done == Result(site, Rejected({"token"})))
  {
    if token.Some? && Find(site.regs, token.value.registration).Some? {
      var r := site.regs[Find(site.regs, token.value.registration).value];
      assert r in site.regs;
      var taken := OrgTaken(config, site.orgs, r) || UserTaken(config, site.users, r)
                   || PoolTaken(site.pools, PoolName(site.nextOrg, r.slug));
      assert taken <==> !IsFree(config, site, r);
      forall s | s in site.regs && s.pk == r.pk
        ensures s == r
      {
        FindFinds(site.regs, s);
      }
    }
  }

  lemma VerifiedStores(config: Config, site: Site, token: Option<Token>, terms: string, now: int, i: nat)
    requires Unique(site.regs) && i < |site.regs| && IsGood(config, site, token, terms, now, site.regs[i])
    ensures var done := Verify(config, site, token, terms, now);
            var r := site.regs[i];
            var org := Org(site.nextOrg, r.orgName, Some(r.slug));
            var user := User(|site.users|, r.username, r.email, r.passwordHash);
            && done.reply.Provisioned?
            && var pool := done.reply.pool;
               && done.reply == Provisioned(org, user, pool)
               && pool == Pool(|site.pools|, pool.name, Some(site.nextOrg))
               && IsPoolName(pool.name, site.nextOrg, r.slug)
               && done.site == Site(site.regs[i := r.(consumedAt := Some(now))], site.orgs + [org], site.users + [user],
                                    site.pools + [pool], site.nextReg, site.nextOrg + 1)
  {
    VerifiesExactly(config, site, token, terms, now);
    var r := site.regs[i];
    FindFinds(site.regs, r);
    SamePlace(site.regs, i, Find(site.regs, r.pk).value);
  }
}
