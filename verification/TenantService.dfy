/**
 The registration endpoint's writes, step by step on the stored rows, each in one transaction.
 */
module TenantService {
  import opened Helpers
  import opened TenantRegistration

  /******* What an answer means *******/

  /** A field is reported exactly when a pending, unexpired registration that overlaps the form
      agrees with it in that field. */
  lemma ReportedFields(config: Config, site: Site, f: Form, now: int, nonce: string, hash: string)
    requires var reply := Register(config, site, f, now, nonce, hash).reply;
             reply.Rejected? && reply.fields != {"detail"}
    ensures var fields := Register(config, site, f, now, nonce, hash).reply.fields;
            && ("organization_slug" in fields <==> exists r :: r in site.regs && IsLive(r, f, now) && r.slug == f.slug)
            && ("username" in fields <==>
                  exists r :: r in site.regs && IsLive(r, f, now) && config.fold(r.username) == config.fold(f.username))
            && ("email" in fields <==>
                  exists r :: r in site.regs && IsLive(r, f, now) && config.fold(r.email) == config.fold(f.email))
  {
    var conflicts := Conflicts(Purged(site.regs, f, now), f);
    forall r
      ensures r in conflicts <==> r in site.regs && IsLive(r, f, now)
    {
      PurgedAre(site.regs, f, now, r);
      ConflictsAre(Purged(site.regs, f, now), f, r);
    }
    FieldsAre(config, conflicts, f, "organization_slug");
    FieldsAre(config, conflicts, f, "username");
    FieldsAre(config, conflicts, f, "email");
  }

  /** A request is refused without naming a field exactly when nothing live is in its way but a
      consumed registration is. */
  lemma RefusedForConsumed(config: Config, site: Site, f: Form, now: int, nonce: string, hash: string)
    ensures Register(config, site, f, now, nonce, hash).reply == Rejected({"detail"})
            <==> (forall r | r in site.regs :: !IsLive(r, f, now))
                 && (exists r :: r in site.regs && Overlaps(r, f) && r.consumedAt.Some?)
  {
    var kept := Purged(site.regs, f, now);
    var conflicts := Conflicts(kept, f);
    forall r
      ensures r in kept <==> r in site.regs && !IsStale(r, f, now)
      ensures r in conflicts <==> r in site.regs && IsLive(r, f, now)
    {
      PurgedAre(site.regs, f, now, r);
      ConflictsAre(kept, f, r);
    }
    if conflicts != [] {
      assert conflicts[0] in conflicts && IsLive(conflicts[0], f, now);
      FieldsAre(config, conflicts, f, "detail");
    }
  }

  predicate IsLive(r: Registration, f: Form, now: int) {
    Overlaps(r, f) && r.consumedAt.None? && now < r.expiresAt
  }

  /** After a request is accepted its registration is the only unconsumed one in its way. */
  lemma AcceptedIsAlone(config: Config, site: Site, f: Form, now: int, nonce: string, hash: string)
    requires Register(config, site, f, now, nonce, hash).reply.Pending?
    ensures var done := Register(config, site, f, now, nonce, hash);
            var r := done.reply.registration;
            && r in done.site.regs && IsSameRequest(config, r, f) && IsConflict(r, f)
            && (forall s | s in done.site.regs && IsConflict(s, f) :: s == r)
            && Conflicts(done.site.regs, f) == [r]
  {
    var kept := Purged(site.regs, f, now);
    var conflicts := Conflicts(kept, f);
    var done := Register(config, site, f, now, nonce, hash);
    var r := done.reply.registration;
    if conflicts == [] {
      assert done.site.regs[..|kept|] == kept;
      ConflictsAre(kept, f, r);
    } else {
      assert conflicts == [r] && r in conflicts;
      ConflictsAre(kept, f, r);
    }
    forall s | s in done.site.regs && IsConflict(s, f)
      ensures s == r
    {
      ConflictsAre(done.site.regs, f, s);
    }
  }

  /** The registration answered with is a stored one that has not expired, or a new one that holds
      what the form asks for and expires when a link does. */
  lemma AcceptedRegistration(config: Config, site: Site, f: Form, now: int, nonce: string, hash: string)
    requires RegsOk(site) && Register(config, site, f, now, nonce, hash).reply.Pending?
    ensures var r := Register(config, site, f, now, nonce, hash).reply.registration;
            if r in site.regs then IsLive(r, f, now)
            else r == Registration(site.nextReg, f.orgName, f.slug, f.username, f.email, hash, nonce, f.terms,
                                   now, now + config.maxAge, None)
  {
    var kept := Purged(site.regs, f, now);
    var conflicts := Conflicts(kept, f);
    if conflicts != [] {
      assert conflicts[0] in conflicts;
      ConflictsAre(kept, f, conflicts[0]);
      PurgedAre(site.regs, f, now, conflicts[0]);
    }
  }

  lemma {:induction false} PurgedAll(regs: seq<Registration>, f: Form, now: int)
    requires forall r | r in regs :: !IsStale(r, f, now)
    ensures Purged(regs, f, now) == regs
    decreases |regs|
  {
    if regs != [] {
      var n := |regs| - 1;
      assert regs[n] in regs;
      PurgedAll(regs[..n], f, now);
      assert regs == regs[..n] + [regs[n]];
    }
  }

  /** Sending the same request again before the first expires, in whatever case its username and
      address are written and with whatever password, answers with the first registration exactly if
      no other live one overlaps the new writing, and changes nothing exactly if no other unconsumed
      one does. */
  lemma ResubmissionIsIdempotent(config: Config, site: Site, f: Form, now: int, nonce: string, hash: string,
                                 again: Form, later: int, nonce1: string, hash1: string)
    requires Register(config, site, f, now, nonce, hash).reply.Pending?
    requires again.slug == f.slug && again.terms == f.terms
    requires config.fold(again.username) == config.fold(f.username) && config.fold(again.email) == config.fold(f.email)
    requires later < Register(config, site, f, now, nonce, hash).reply.registration.expiresAt
    ensures var done := Register(config, site, f, now, nonce, hash);
            var r := done.reply.registration;
            var next := Register(config, done.site, again, later, nonce1, hash1);
            && (next.reply == Pending(r) <==> forall s | s in done.site.regs && IsLive(s, again, later) :: s == r)
            && (next == done <==> forall s | s in done.site.regs && IsConflict(s, again) :: s == r)
  {
    var done := Register(config, site, f, now, nonce, hash);
    var r := done.reply.registration;
    AcceptedIsAlone(config, site, f, now, nonce, hash);
    OthersRefuse(config, done.site, again, later, nonce1, hash1, r);
    if forall s | s in done.site.regs && IsLive(s, again, later) :: s == r {
      SameConflicts(done.site.regs, f, again, later, r);
    }
    if forall s | s in done.site.regs && IsConflict(s, again) :: s == r {
      PurgedAll(done.site.regs, again, later);
    }
  }

  /** What another registration in the way of a form does to its answer. */
  lemma OthersRefuse(config: Config, site: Site, f: Form, now: int, nonce: string, hash: string, r: Registration)
    requires r in site.regs && IsLive(r, f, now)
    ensures var done := Register(config, site, f, now, nonce, hash);
            forall s | s in site.regs && s != r ::
              && (IsLive(s, f, now) ==> done.reply.Rejected?)
              && (IsStale(s, f, now) ==> done.site != site || done.reply.Rejected?)
  {
    var done := Register(config, site, f, now, nonce, hash);
    var kept := Purged(site.regs, f, now);
    forall s | s in site.regs && s != r
      ensures IsLive(s, f, now) ==> done.reply.Rejected?
      ensures IsStale(s, f, now) ==> done.site != site || done.reply.Rejected?
    {
      PurgedAre(site.regs, f, now, r);
      PurgedAre(site.regs, f, now, s);
      ConflictsAre(kept, f, r);
      ConflictsAre(kept, f, s);
    }
  }

  /** A form in whose way no other live registration is meets the one the first form met. */
  lemma {:induction false} SameConflicts(regs: seq<Registration>, f: Form, again: Form, later: int, r: Registration)
    requires IsConflict(r, f) && IsLive(r, again, later)
    requires forall s | s in regs :: (IsConflict(s, f) ==> s == r) && (IsLive(s, again, later) ==> s == r)
    ensures Conflicts(Purged(regs, again, later), again) == Conflicts(regs, f)
    decreases |regs|
  {
    if regs != [] {
      var n := |regs| - 1;
      SameConflicts(regs[..n], f, again, later, r);
      var kept := Purged(regs[..n], again, later);
      assert regs[n] in regs;
      if IsStale(regs[n], again, later) {
        assert kept + [] == kept;
      } else {
        assert (kept + [regs[n]])[..|kept|] == kept;
      }
    }
  }

  /** The link sent for an accepted request works until it expires, as long as the terms stand and
      the names are still free. */
  lemma AcceptedCanBeVerified(config: Config, site: Site, f: Form, now: int, nonce: string, hash: string, later: int)
    requires RegsOk(site)
    requires Register(config, site, f, now, nonce, hash).reply.Pending?
    ensures var done := Register(config, site, f, now, nonce, hash);
            var r := done.reply.registration;
            var verified := Verify(config, done.site, Some(Token(r.pk, r.nonce)), f.terms, later);
            verified.reply.Provisioned? <==>
              && later < r.expiresAt && !OrgTaken(config, site.orgs, r) && !UserTaken(config, site.users, r)
              && !PoolTaken(site.pools, PoolName(site.nextOrg, r.slug))
  {
    var done := Register(config, site, f, now, nonce, hash);
    AcceptedIsAlone(config, site, f, now, nonce, hash);
    RegisterKeepsRegs(config, site, f, now, nonce, hash);
    FindFinds(done.site.regs, done.reply.registration);
  }

  /** Names are compared exactly when requests are stored, so two requests whose usernames differ
      only in case are both kept; only verifying one of them shuts the other out. */
  lemma CaseVariantsCoexist(config: Config, f: Form, g: Form, nonce: string, hash: string)
    requires f.username != g.username && config.fold(f.username) == config.fold(g.username)
    requires f.slug != g.slug && f.email != g.email
    ensures var first := Register(config, Site([], [], [], [], 0, 0), f, 0, nonce, hash).site;
            Register(config, first, g, 0, nonce, hash).site.regs
            == [NewRegistration(config, 0, f, 0, nonce, hash), NewRegistration(config, 1, g, 0, nonce, hash)]
  {
    var r := NewRegistration(config, 0, f, 0, nonce, hash);
    assert Register(config, Site([], [], [], [], 0, 0), f, 0, nonce, hash).site == Site([r], [], [], [], 1, 0);
    assert !Overlaps(r, g) && [r][..0] == [];
    assert Conflicts([r][..0], g) == [] && Conflicts([r], g) == [];
    assert Purged([r][..0], g, 0) == [] && Purged([r], g, 0) == [r];
  }

  /******* The service *******/

  class TenantTables {
    const config: Config
    var regs: seq<Registration>
    var orgs: seq<Org>
    var users: seq<User>
    var pools: seq<Pool>
    var nextReg: nat
    var nextOrg: nat

    constructor (config: Config)
      ensures this.config == config && Rows() == Site([], [], [], [], 0, 0)
    {
      this.config := config;
      regs, orgs, users, pools, nextReg, nextOrg := [], [], [], [], 0, 0;
    }

    function Rows(): Site
      reads this
    {
      Site(regs, orgs, users, pools, nextReg, nextOrg)
    }

    /** Deletes the expired registrations in the way of a form. */
    method DeleteStale(f: Form, now: int)
      modifies this`regs
      ensures regs == Purged(old(regs), f, now)
    {
      var kept := [];
      var i := 0;
      while i < |regs|
        invariant i <= |regs| && kept == Purged(regs[..i], f, now) && regs == old(regs)
      {
        assert regs[..i + 1][..i] == regs[..i];
        if !IsStale(regs[i], f, now) {
          kept := kept + [regs[i]];
        }
        i := i + 1;
      }
      assert regs[..i] == regs;
      regs := kept;
    }

    method SelectConflicts(f: Form) returns (conflicts: seq<Registration>)
      ensures conflicts == Conflicts(regs, f)
    {
      conflicts := [];
      var i := 0;
      while i < |regs|
        invariant i <= |regs| && conflicts == Conflicts(regs[..i], f)
      {
        assert regs[..i + 1][..i] == regs[..i];
        if IsConflict(regs[i], f) {
          conflicts := conflicts + [regs[i]];
        }
        i := i + 1;
      }
      assert regs[..i] == regs;
    }

    method CollectErrors(conflicts: seq<Registration>, f: Form) returns (errors: set<string>)
      ensures errors == AllConflictFields(config, conflicts, f)
    {
      errors := {};
      var i := 0;
      while i < |conflicts|
        invariant i <= |conflicts| && errors == AllConflictFields(config, conflicts[..i], f)
      {
        var conflict := conflicts[i];
        assert conflicts[..i + 1][..i] == conflicts[..i];
        if conflict.slug == f.slug {
          errors := errors + {"organization_slug"};
        }
        if config.fold(conflict.username) == config.fold(f.username) {
          errors := errors + {"username"};
        }
        if config.fold(conflict.email) == config.fold(f.email) {
          errors := errors + {"email"};
        }
        i := i + 1;
      }
      assert conflicts[..i] == conflicts;
    }

    /** Stores a request, or answers with the pending one it repeats; a refused request rolls back
        the deletions made on its behalf. */
    method CreateRegistration(f: Form, now: int, nonce: string, hash: string) returns (reply: Reply)
      modifies this`regs, this`nextReg
      ensures Result(Rows(), reply) == Register(config, old(Rows()), f, now, nonce, hash)
      ensures reply.Rejected? ==> Rows() == old(Rows())
    {
      ghost var before := Rows();
      var savepoint := regs;
      DeleteStale(f, now);
      ghost var kept := regs;
      assert Rows() == before.(regs := kept);
      var conflicts := SelectConflicts(f);
      assert Register(config, before, f, now, nonce, hash)
        == Decide(config, before, kept, conflicts, f, now, nonce, hash);
      if conflicts != [] {
        if |conflicts| == 1 && IsSameRequest(config, conflicts[0], f) {
          return Pending(conflicts[0]);
        }
        var errors := CollectErrors(conflicts, f);
        regs := savepoint;
        assert Rows() == before;
        return Rejected(errors);
      }
      if IsTaken(regs, f) {
        regs := savepoint;
        assert Rows() == before;
        return Rejected({"detail"});
      }
      var r := NewRegistration(config, nextReg, f, now, nonce, hash);
      regs, nextReg := regs + [r], nextReg + 1;
      reply := Pending(r);
    }

    /** Turns a registration into a tenant; whatever fails, nothing is left behind. */
    method VerifyRegistration(token: Option<Token>, terms: string, now: int) returns (reply: Reply)
      modifies this
      ensures Result(Rows(), reply) == Verify(config, old(Rows()), token, terms, now)
      ensures reply.Rejected? ==> Rows() == old(Rows())
    {
      if token.None? {
        return Rejected({"token"});
      }
      var found := Find(regs, token.value.registration);
      if found.None? {
        return Rejected({"token"});
      }
      var r := regs[found.value];
      if r.nonce != token.value.nonce || r.consumedAt.Some? || r.expiresAt <= now || r.terms != terms {
        return Rejected({"token"});
      }
      if OrgTaken(config, orgs, r) || UserTaken(config, users, r) {
        return Rejected({"token"});
      }
      var savepoint, savedNext := orgs, nextOrg;
      var org := Org(nextOrg, r.orgName, Some(r.slug));
      orgs, nextOrg := orgs + [org], nextOrg + 1;
      var name := PoolName(org.pk, r.slug);
      if PoolTaken(pools, name) {
        orgs, nextOrg := savepoint, savedNext;
        return Rejected({"token"});
      }
      var pool := Pool(|pools|, name, Some(org.pk));
      pools := pools + [pool];
      var user := User(|users|, r.username, r.email, r.passwordHash);
      users := users + [user];
      regs := regs[found.value := r.(consumedAt := Some(now))];
      reply := Provisioned(org, user, pool);
    }
  }
}
