/**
 Registering a tenant: a request is kept until its email address is verified, and verifying it
 creates the organization, its administrator and its execution pool, once.
 */
module TenantRegistration {
  import opened Helpers

  /******* Rows *******/

  datatype Registration = Registration(
    pk: nat, orgName: string, slug: string, username: string, email: string,
    passwordHash: string, nonce: string, terms: string,
    acceptedAt: int, expiresAt: int, consumedAt: Option<int>)

  datatype Org = Org(pk: nat, name: string, slug: Option<string>)

  datatype User = User(pk: nat, username: string, email: string, passwordHash: string)

  datatype Pool = Pool(pk: nat, name: string, org: Option<nat>)

  /** The stored rows, with the next key each table will give out. */
  datatype Site = Site(regs: seq<Registration>, orgs: seq<Org>, users: seq<User>, pools: seq<Pool>, nextReg: nat,
                       nextOrg: nat)

  /** What a request asks for; the address has been normalized to lower case. */
  datatype Form = Form(orgName: string, slug: string, username: string, email: string, terms: string)

  /** What a signed verification link carries. */
  datatype Token = Token(registration: nat, nonce: string)

  /** How text is folded for comparisons that ignore case, and how long a link lasts. */
  datatype Config = Config(fold: string -> string, maxAge: nat)

  datatype Reply =
    | Pending(registration: Registration)
    | Provisioned(org: Org, user: User, pool: Pool)
    | Rejected(fields: set<string>)

  datatype Result = Result(site: Site, reply: Reply)

  /******* Asking for a tenant *******/

  predicate Overlaps(r: Registration, f: Form) {
    r.slug == f.slug || r.username == f.username || r.email == f.email
  }

  predicate IsStale(r: Registration, f: Form, now: int) {
    Overlaps(r, f) && r.consumedAt.None? && r.expiresAt <= now
  }

  predicate IsConflict(r: Registration, f: Form) {
    Overlaps(r, f) && r.consumedAt.None?
  }

  /** The registrations left when the expired ones in the way of a form are deleted. */
  function Purged(regs: seq<Registration>, f: Form, now: int): seq<Registration> {
    if regs == [] then []
    else
      var n := |regs| - 1;
      Purged(regs[..n], f, now) + if IsStale(regs[n], f, now) then [] else [regs[n]]
  }

  function Conflicts(regs: seq<Registration>, f: Form): seq<Registration> {
    if regs == [] then []
    else
      var n := |regs| - 1;
      Conflicts(regs[..n], f) + if IsConflict(regs[n], f) then [regs[n]] else []
  }

  predicate IsSameRequest(config: Config, r: Registration, f: Form) {
    && r.slug == f.slug && r.terms == f.terms
    && config.fold(r.username) == config.fold(f.username) && config.fold(r.email) == config.fold(f.email)
  }

  /** The fields in which a pending registration stands in the way. */
  function ConflictFields(config: Config, r: Registration, f: Form): set<string> {
    (if r.slug == f.slug then {"organization_slug"} else {})
    + (if config.fold(r.username) == config.fold(f.username) then {"username"} else {})
    + (if config.fold(r.email) == config.fold(f.email) then {"email"} else {})
  }

  function AllConflictFields(config: Config, conflicts: seq<Registration>, f: Form): set<string> {
    if conflicts == [] then {}
    else
      var n := |conflicts| - 1;
      AllConflictFields(config, conflicts[..n], f) + ConflictFields(config, conflicts[n], f)
  }

  predicate IsTaken(regs: seq<Registration>, f: Form) {
    exists r :: r in regs && Overlaps(r, f)
  }

  function NewRegistration(config: Config, pk: nat, f: Form, now: int, nonce: string, hash: string): Registration {
    Registration(pk, f.orgName, f.slug, f.username, f.email, hash, nonce, f.terms, now, now + config.maxAge, None)
  }

  /** What becomes of a form, given the registrations left and those of them in its way. */
  function Decide(config: Config, site: Site, kept: seq<Registration>, conflicts: seq<Registration>, f: Form, now: int,
                  nonce: string, hash: string): Result {
    if conflicts != [] then
      if |conflicts| == 1 && IsSameRequest(config, conflicts[0], f)
        then Result(site.(regs := kept), Pending(conflicts[0]))
      else Result(site, Rejected(AllConflictFields(config, conflicts, f)))
    else if IsTaken(kept, f) then Result(site, Rejected({"detail"}))
    else
      var r := NewRegistration(config, site.nextReg, f, now, nonce, hash);
      Result(site.(regs := kept + [r], nextReg := site.nextReg + 1), Pending(r))
  }

  function Register(config: Config, site: Site, f: Form, now: int, nonce: string, hash: string): Result {
    var kept := Purged(site.regs, f, now);
    Decide(config, site, kept, Conflicts(kept, f), f, now, nonce, hash)
  }

  /******* Verifying the address *******/

  predicate OrgTaken(config: Config, orgs: seq<Org>, r: Registration) {
    exists o :: o in orgs && (config.fold(o.name) == config.fold(r.orgName) || o.slug == Some(r.slug))
  }

  predicate UserTaken(config: Config, users: seq<User>, r: Registration) {
    exists u :: u in users
      && (config.fold(u.username) == config.fold(r.username) || config.fold(u.email) == config.fold(r.email))
  }

  predicate PoolTaken(pools: seq<Pool>, name: string) {
    exists p :: p in pools && p.name == name
  }

  const POOL_NAME_MAX := 250

  function PoolName(org: nat, slug: string): string {
    var name := "tenant-" + Decimal(org) + "-" + slug;
    if |name| <= POOL_NAME_MAX then name else name[..POOL_NAME_MAX]
  }

  /** The position of a registration by key. */
  function Find(regs: seq<Registration>, pk: nat): (i: Option<nat>)
    ensures i.Some? ==> i.value < |regs| && regs[i.value].pk == pk
    ensures i.None? ==> forall r | r in regs :: r.pk != pk
  {
    if regs == [] then None
    else
      var n := |regs| - 1;
      if regs[n].pk == pk then Some(n) else Find(regs[..n], pk)
  }

  function NewOrg(site: Site, r: Registration): Org {
    Org(site.nextOrg, r.orgName, Some(r.slug))
  }

  function NewUser(site: Site, r: Registration): User {
    User(|site.users|, r.username, r.email, r.passwordHash)
  }

  function NewPool(site: Site, r: Registration): Pool {
    Pool(|site.pools|, PoolName(site.nextOrg, r.slug), Some(site.nextOrg))
  }

  /** Why a registration cannot be verified now, if it cannot. */
  predicate CanVerify(config: Config, site: Site, r: Registration, nonce: string, terms: string, now: int) {
    && r.nonce == nonce && r.consumedAt.None? && now < r.expiresAt && r.terms == terms
    && !OrgTaken(config, site.orgs, r) && !UserTaken(config, site.users, r)
    && !PoolTaken(site.pools, PoolName(site.nextOrg, r.slug))
  }

  function Verify(config: Config, site: Site, token: Option<Token>, terms: string, now: int): Result {
    if token.None? then Result(site, Rejected({"token"}))
    else
      var found := Find(site.regs, token.value.registration);
      if found.None? then Result(site, Rejected({"token"}))
      else
        var r := site.regs[found.value];
        if !CanVerify(config, site, r, token.value.nonce, terms, now) then Result(site, Rejected({"token"}))
        else
          Result(Site(site.regs[found.value := r.(consumedAt := Some(now))],
                      site.orgs + [NewOrg(site, r)], site.users + [NewUser(site, r)], site.pools + [NewPool(site, r)],
                      site.nextReg, site.nextOrg + 1),
                 Provisioned(NewOrg(site, r), NewUser(site, r), NewPool(site, r)))
  }

  /******* Reading the queries *******/

  lemma {:induction false} PurgedAre(regs: seq<Registration>, f: Form, now: int, r: Registration)
    ensures r in Purged(regs, f, now) <==> r in regs && !IsStale(r, f, now)
    decreases |regs|
  {
    if regs != [] {
      var n := |regs| - 1;
      PurgedAre(regs[..n], f, now, r);
      assert regs == regs[..n] + [regs[n]];
    }
  }

  lemma {:induction false} ConflictsAre(regs: seq<Registration>, f: Form, r: Registration)
    ensures r in Conflicts(regs, f) <==> r in regs && IsConflict(r, f)
    decreases |regs|
  {
    if regs != [] {
      var n := |regs| - 1;
      ConflictsAre(regs[..n], f, r);
      assert regs == regs[..n] + [regs[n]];
    }
  }

  lemma {:induction false} FieldsAre(config: Config, conflicts: seq<Registration>, f: Form, field: string)
    ensures field in AllConflictFields(config, conflicts, f) <==>
            exists r :: r in conflicts && field in ConflictFields(config, r, f)
    decreases |conflicts|
  {
    if conflicts != [] {
      var n := |conflicts| - 1;
      FieldsAre(config, conflicts[..n], f, field);
      assert forall r :: r in conflicts <==> r in conflicts[..n] || r == conflicts[n];
    }
  }

  /** No two registrations share a key, an identifier, a username or an address. */
  ghost predicate Unique(regs: seq<Registration>) {
    forall i, j :: 0 <= i < j < |regs| ==> Apart(regs[i], regs[j])
  }

  ghost predicate Apart(r: Registration, s: Registration) {
    r.pk != s.pk && r.slug != s.slug && r.username != s.username && r.email != s.email
  }

  lemma {:induction false} PurgedUnique(regs: seq<Registration>, f: Form, now: int)
    requires Unique(regs)
    ensures Unique(Purged(regs, f, now))
    decreases |regs|
  {
    if regs != [] {
      var n := |regs| - 1;
      PurgedUnique(regs[..n], f, now);
      var kept := Purged(regs[..n], f, now);
      forall i | 0 <= i < |kept|
        ensures Apart(kept[i], regs[n])
      {
        assert kept[i] in kept;
        PurgedAre(regs[..n], f, now, kept[i]);
        var k :| 0 <= k < n && regs[..n][k] == kept[i];
        assert regs[k] == kept[i];
      }
    }
  }

  /** The registrations are unique, and no later key has been given out. */
  ghost predicate RegsOk(site: Site) {
    Unique(site.regs) && forall r | r in site.regs :: r.pk < site.nextReg
  }

  lemma RegisterKeepsRegs(config: Config, site: Site, f: Form, now: int, nonce: string, hash: string)
    requires RegsOk(site)
    ensures RegsOk(Register(config, site, f, now, nonce, hash).site)
  {
    var kept := Purged(site.regs, f, now);
    PurgedUnique(site.regs, f, now);
    forall r | r in kept
      ensures r.pk < site.nextReg
    {
      PurgedAre(site.regs, f, now, r);
    }
    if Conflicts(kept, f) == [] && !IsTaken(kept, f) {
      NewIsApart(kept, NewRegistration(config, site.nextReg, f, now, nonce, hash), f);
    }
  }

  lemma NewIsApart(kept: seq<Registration>, r: Registration, f: Form)
    requires Unique(kept) && !IsTaken(kept, f) && r.slug == f.slug && r.username == f.username && r.email == f.email
    requires forall s | s in kept :: s.pk < r.pk
    ensures Unique(kept + [r])
  {
    forall i | 0 <= i < |kept|
      ensures Apart(kept[i], r)
    {
      assert kept[i] in kept && !Overlaps(kept[i], f);
    }
  }

  lemma FindFinds(regs: seq<Registration>, r: Registration)
    requires Unique(regs) && r in regs
    ensures Find(regs, r.pk).Some? && regs[Find(regs, r.pk).value] == r
  {
    var i :| 0 <= i < |regs| && regs[i] == r;
    var j := Find(regs, r.pk).value;
    assert i < j ==> Apart(regs[i], regs[j]);
    assert j < i ==> Apart(regs[j], regs[i]);
  }

  /******* Names of pools *******/

  function Power10(k: nat): nat {
    if k == 0 then 1 else 10 * Power10(k - 1)
  }

  lemma {:induction false} DecimalLength(n: nat, k: nat)
    requires n < Power10(k) && 0 < k
    ensures |Decimal(n)| <= k
    decreases k
  {
    if n >= 10 {
      DecimalLength(n / 10, k - 1);
    }
  }

  lemma {:induction false} DecimalIsInjective(m: nat, n: nat)
    requires Decimal(m) == Decimal(n)
    ensures m == n
    decreases m
  {
    var s, t := Decimal(m), Decimal(n);
    assert s[|s| - 1] == ('0' as int + m % 10) as char && t[|t| - 1] == ('0' as int + n % 10) as char;
    if m >= 10 && n >= 10 {
      assert s[..|s| - 1] == Decimal(m / 10) && t[..|t| - 1] == Decimal(n / 10);
      DecimalIsInjective(m / 10, n / 10);
    }
  }

  const PK_DIGITS := 19

  lemma PoolNameAt(org: nat, slug: string)
    requires |Decimal(org)| <= PK_DIGITS
    ensures var d := Decimal(org);
            var name := PoolName(org, slug);
            |d| + 8 <= |name| && name[7..7 + |d|] == d && name[7 + |d|] == '-'
            && forall k :: 0 <= k < |d| ==> name[7 + k] == d[k]
  {
  }

  lemma ShorterDiffers(a: nat, b: nat, slugA: string, slugB: string)
    requires |Decimal(a)| < |Decimal(b)| <= PK_DIGITS
    ensures PoolName(a, slugA) != PoolName(b, slugB)
  {
    PoolNameAt(a, slugA);
    PoolNameAt(b, slugB);
    var i := |Decimal(a)|;
    assert Decimal(b)[i] in Decimal(b);
    assert PoolName(a, slugA)[7 + i] != PoolName(b, slugB)[7 + i];
  }

  lemma SameLengthDiffers(a: nat, b: nat, slugA: string, slugB: string)
    requires a != b && |Decimal(a)| == |Decimal(b)| <= PK_DIGITS
    ensures PoolName(a, slugA) != PoolName(b, slugB)
  {
    PoolNameAt(a, slugA);
    PoolNameAt(b, slugB);
    if Decimal(a) == Decimal(b) {
      DecimalIsInjective(a, b);
    }
  }

  /** Keys of different organizations never give the same pool name, whatever their identifiers and
      wherever the name is cut: the key and the hyphen after it always fit. */
  lemma PoolNamesDiffer(a: nat, b: nat, slugA: string, slugB: string)
    requires a != b && a < Power10(PK_DIGITS) && b < Power10(PK_DIGITS)
    ensures PoolName(a, slugA) != PoolName(b, slugB)
  {
    DecimalLength(a, PK_DIGITS);
    DecimalLength(b, PK_DIGITS);
    if |Decimal(a)| < |Decimal(b)| {
      ShorterDiffers(a, b, slugA, slugB);
    } else if |Decimal(b)| < |Decimal(a)| {
      ShorterDiffers(b, a, slugB, slugA);
    } else {
      SameLengthDiffers(a, b, slugA, slugB);
    }
  }
}
