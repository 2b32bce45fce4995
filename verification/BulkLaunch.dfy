/**
 Bulk job launch: the requested jobs are checked and given identifiers, one workflow node is built
 for each, and the objects each job asks for are then attached to its node by identifier.
 */
module BulkLaunch {
  import opened Helpers

  datatype Kind = Credentials | Labels | InstanceGroups

  /** What a job asks for at most one of. */
  datatype Use = Inventory | ExecutionEnvironment

  /** A requested job: its template, its identifier if it brings one, the objects of each kind it
      asks for, and plain attributes. */
  datatype Job = Job(template: nat, identifier: Option<string>, links: map<Kind, seq<nat>>, uses: map<Use, nat>,
                       attrs: map<string, string>)

  datatype Node = Node(template: nat, identifier: string, uses: map<Use, nat>, attrs: map<string, string>)

  datatype TemplateType = JobTemplate | Project | InventorySource | WorkflowJobTemplate | OtherType

  /** The stored templates, what of them the user may run or update, the objects the user may use, and
      whether the organization and the inventory of the request itself may be used. */
  datatype Access = Access(templates: map<nat, TemplateType>, runnable: set<nat>, objects: Kind -> set<nat>,
                           usable: Use -> set<nat>, request: bool, maxJobs: nat)

  datatype Checked = Accepted(jobs: seq<Job>) | Refused | UnknownTemplate

  /******* Checking *******/

  /** The identifiers brought by the jobs. */
  function Brought(jobs: seq<Job>): set<string> {
    set i | 0 <= i < |jobs| && jobs[i].identifier.Some? :: jobs[i].identifier.value
  }

  predicate NoneRepeated(jobs: seq<Job>) {
    forall i, j :: 0 <= i < j < |jobs| && jobs[i].identifier.Some? ==> jobs[i].identifier != jobs[j].identifier
  }

  predicate MayUse(access: Access, job: Job) {
    && (forall kind, x | kind in job.links && x in job.links[kind] :: x in access.objects(kind))
    && (forall use | use in job.uses :: job.uses[use] in access.usable(use))
  }

  /** A stored template is of a type a bulk job can run, and one the user may run. */
  predicate MayRun(access: Access, job: Job) {
    job.template in access.templates ==> access.templates[job.template] != OtherType && job.template in access.runnable
  }

  predicate AllMayRun(access: Access, jobs: seq<Job>) {
    forall i | 0 <= i < |jobs| :: MayRun(access, jobs[i])
  }

  predicate AllMayUse(access: Access, jobs: seq<Job>) {
    forall i | 0 <= i < |jobs| :: MayUse(access, jobs[i])
  }

  predicate AllTemplatesKnown(access: Access, jobs: seq<Job>) {
    forall i | 0 <= i < |jobs| :: jobs[i].template in access.templates
  }

  /** The jobs with an identifier each, taking generated ones in turn for those without. */
  function Identified(jobs: seq<Job>, uuids: nat -> string): seq<Job> {
    if jobs == [] then []
    else
      var n := |jobs| - 1;
      Identified(jobs[..n], uuids)
        + [if jobs[n].identifier.Some? then jobs[n] else jobs[n].(identifier := Some(uuids(n)))]
  }

  function Check(access: Access, jobs: seq<Job>, uuids: nat -> string): Checked {
    if |jobs| > access.maxJobs || !NoneRepeated(jobs) || !AllMayRun(access,
      jobs) || !access.request || !AllMayUse(access, jobs) then Refused
    else if !AllTemplatesKnown(access, jobs) then UnknownTemplate
    else Accepted(Identified(jobs, uuids))
  }

  /** Generated identifiers differ from one another and from those the jobs bring. */
  ghost predicate FreshIds(jobs: seq<Job>, uuids: nat -> string) {
    && (forall m, n | 0 <= m < n < |jobs| :: uuids(m) != uuids(n))
    && (forall n | 0 <= n < |jobs| :: uuids(n) !in Brought(jobs))
  }

  predicate HasIds(jobs: seq<Job>) {
    forall i | 0 <= i < |jobs| :: jobs[i].identifier.Some?
  }

  ghost predicate UniqueIds(jobs: seq<Job>) {
    HasIds(jobs) && forall i, j :: 0 <= i < j < |jobs| ==> jobs[i].identifier != jobs[j].identifier
  }

  lemma {:induction false} IdentifiedAt(jobs: seq<Job>, uuids: nat -> string, i: nat)
    requires i < |jobs|
    ensures var ids := Identified(jobs, uuids);
            |ids| == |jobs|
              && ids[i] == if jobs[i].identifier.Some? then jobs[i] else jobs[i].(identifier := Some(uuids(i)))
    decreases |jobs|
  {
    var n := |jobs| - 1;
    if n > 0 {
      IdentifiedAt(jobs[..n], uuids, if i < n then i else 0);
    }
  }

  lemma {:induction false} IdentifiedLength(jobs: seq<Job>, uuids: nat -> string)
    ensures |Identified(jobs, uuids)| == |jobs|
    decreases |jobs|
  {
    if jobs != [] {
      IdentifiedLength(jobs[..|jobs| - 1], uuids);
    }
  }

  /** Accepted jobs are the requested ones, in order, each with its own identifier, of a template
      that is there, can be run in bulk and may be run, and every object they ask for is one the user
      may use, so looking them up cannot fail. */
  lemma AcceptedJobs(access: Access, jobs: seq<Job>, uuids: nat -> string)
    requires FreshIds(jobs, uuids) && Check(access, jobs, uuids).Accepted?
    ensures var accepted := Check(access, jobs, uuids).jobs;
            && UniqueIds(accepted) && |accepted| == |jobs|
            && AllMayUse(access, accepted) && AllMayRun(access, accepted) && AllTemplatesKnown(access, accepted)
            && forall i | 0 <= i < |jobs| ::
                 accepted[i] == jobs[i].(identifier := accepted[i].identifier)
                 && accepted[i].identifier == Some(IdOf(jobs, uuids, i))
  {
    var accepted := Check(access, jobs, uuids).jobs;
    IdentifiedLength(jobs, uuids);
    forall i | 0 <= i < |jobs|
      ensures accepted[i] == if jobs[i].identifier.Some? then jobs[i] else jobs[i].(identifier := Some(uuids(i)))
    {
      IdentifiedAt(jobs, uuids, i);
    }
    forall i, j | 0 <= i < j < |accepted|
      ensures accepted[i].identifier != accepted[j].identifier
    {
      IdsDiffer(jobs, uuids, i, j);
    }
    forall i | 0 <= i < |jobs|
      ensures MayUse(access, accepted[i]) && MayRun(access, accepted[i])
    {
      assert MayUse(access, jobs[i]) && MayRun(access, jobs[i]);
    }
  }

  function IdOf(jobs: seq<Job>, uuids: nat -> string, i: nat): string
    requires i < |jobs|
  {
    if jobs[i].identifier.Some? then jobs[i].identifier.value else uuids(i)
  }

  lemma IdsDiffer(jobs: seq<Job>, uuids: nat -> string, i: nat, j: nat)
    requires FreshIds(jobs, uuids) && NoneRepeated(jobs) && i < j < |jobs|
    ensures IdOf(jobs, uuids, i) != IdOf(jobs, uuids, j)
  {
  }

  /******* Exactly what is accepted *******/

  /** A job asks for a stored template that is a job template, a project, an inventory source or a workflow
      and that the user may run, and for nothing the user may not use. */
  ghost predicate IsAllowed(access: Access, job: Job) {
    && job.template in access.templates && job.template in access.runnable
    && access.templates[job.template] in {JobTemplate, Project, InventorySource, WorkflowJobTemplate}
    && UsesAllowed(access, job)
  }

  ghost predicate UsesAllowed(access: Access, job: Job) {
    && (forall kind, x | kind in job.links && x in job.links[kind] :: x in access.objects(kind))
    && (forall use | use in job.uses :: job.uses[use] in access.usable(use))
  }

  ghost predicate HasRepeat(jobs: seq<Job>) {
    exists i, j :: 0 <= i < j < |jobs| && jobs[i].identifier.Some? && jobs[i].identifier == jobs[j].identifier
  }

  lemma EachJob(access: Access, jobs: seq<Job>)
    ensures AllMayRun(access, jobs) <==> forall job | job in jobs :: MayRun(access, job)
    ensures AllMayUse(access, jobs) <==> forall job | job in jobs :: UsesAllowed(access, job)
    ensures AllTemplatesKnown(access, jobs) <==> forall job | job in jobs :: job.template in access.templates
    ensures NoneRepeated(jobs) <==> !HasRepeat(jobs)
    ensures forall job :: MayRun(access, job) <==>
              job.template in access.templates ==>
                job.template in access.runnable
                && access.templates[job.template] in {JobTemplate, Project, InventorySource, WorkflowJobTemplate}
  {
    forall i | 0 <= i < |jobs|
      ensures jobs[i] in jobs
    {
    }
    forall job | job in jobs
      ensures exists i :: 0 <= i < |jobs| && jobs[i] == job
    {
    }
  }

  /** A request is accepted exactly if it is not too long, repeats no identifier, may use what it asks for
      itself, and every job is allowed. */
  lemma AcceptedExactly(access: Access, jobs: seq<Job>, uuids: nat -> string)
    ensures Check(access, jobs, uuids).Accepted? <==>
            |jobs| <= access.maxJobs && !HasRepeat(jobs) && access.request
            && forall job | job in jobs :: IsAllowed(access, job)
  {
    EachJob(access, jobs);
  }

  /** It gets past the checks to an unknown template exactly if it has one and nothing else is wrong. */
  lemma UnknownExactly(access: Access, jobs: seq<Job>, uuids: nat -> string)
    ensures Check(access, jobs, uuids) == UnknownTemplate <==>
            && |jobs| <= access.maxJobs && !HasRepeat(jobs) && access.request
            && (forall job | job in jobs :: UsesAllowed(access, job))
            && (forall job | job in jobs && job.template in access.templates :: IsAllowed(access, job))
            && exists job :: job in jobs && job.template !in access.templates
  {
    EachJob(access, jobs);
  }

  /******* Building *******/

  function NodeOf(job: Job): Node
    requires job.identifier.Some?
  {
    Node(job.template, job.identifier.value, job.uses, job.attrs)
  }

  function Nodes(jobs: seq<Job>): seq<Node>
    requires HasIds(jobs)
  {
    seq(|jobs|, i requires 0 <= i < |jobs| => NodeOf(jobs[i]))
  }

  /** What is remembered under an identifier: the objects asked for, and the node by its position. */
  datatype Entry = Entry(links: map<Kind, seq<nat>>, node: nat)

  /** An insertion-ordered dictionary: writing a key again keeps its place. */
  datatype Dict = Dict(keys: seq<string>, vals: map<string, Entry>)

  function Insert(d: Dict, key: string, e: Entry): Dict {
    Dict(if key in d.vals then d.keys else d.keys + [key], d.vals[key := e])
  }

  function Remembered(jobs: seq<Job>): Dict
    requires HasIds(jobs)
  {
    if jobs == [] then Dict([], map[])
    else
      var n := |jobs| - 1;
      Insert(Remembered(jobs[..n]), jobs[n].identifier.value, Entry(jobs[n].links, n))
  }

  function Pairs(node: nat, objects: seq<nat>): seq<(nat, nat)> {
    seq(|objects|, i requires 0 <= i < |objects| => (node, objects[i]))
  }

  function Asked(links: map<Kind, seq<nat>>, kind: Kind): seq<nat> {
    if kind in links then links[kind] else []
  }

  /** The through rows created for the remembered entries, in order. */
  function Through(keys: seq<string>, vals: map<string, Entry>, kind: Kind): seq<(nat, nat)> {
    if keys == [] then []
    else
      var n := |keys| - 1;
      Through(keys[..n], vals, kind) + if keys[n] in vals
        then Pairs(vals[keys[n]].node, Asked(vals[keys[n]].links, kind)) else []
  }

  /** The pairs of node and object the request amounts to. */
  function Requested(jobs: seq<Job>, kind: Kind): seq<(nat, nat)> {
    if jobs == [] then []
    else
      var n := |jobs| - 1;
      Requested(jobs[..n], kind) + Pairs(n, Asked(jobs[n].links, kind))
  }

  lemma {:induction false} RememberedAre(jobs: seq<Job>)
    requires UniqueIds(jobs)
    ensures var d := Remembered(jobs);
            && |d.keys| == |jobs| && (forall i | 0 <= i < |jobs| :: d.keys[i] == jobs[i].identifier.value)
            && (forall i | 0 <= i < |jobs| :: d.keys[i] in d.vals && d.vals[d.keys[i]] == Entry(jobs[i].links, i))
            && (forall k | k in d.vals :: k in d.keys)
    decreases |jobs|
  {
    if jobs != [] {
      var n := |jobs| - 1;
      RememberedAre(jobs[..n]);
      var d := Remembered(jobs[..n]);
      var id := jobs[n].identifier.value;
      forall i | 0 <= i < n
        ensures d.keys[i] != id
      {
        assert jobs[i].identifier != jobs[n].identifier;
      }
    }
  }

  lemma {:induction false} ThroughSame(keys: seq<string>, vals: map<string, Entry>, vals1: map<string, Entry>,
                                       kind: Kind)
    requires forall k | k in keys :: k in vals && k in vals1 && vals[k] == vals1[k]
    ensures Through(keys, vals, kind) == Through(keys, vals1, kind)
    decreases |keys|
  {
    if keys != [] {
      ThroughSame(keys[..|keys| - 1], vals, vals1, kind);
    }
  }

  lemma RememberedGrows(jobs: seq<Job>)
    requires UniqueIds(jobs) && jobs != []
    ensures var n := |jobs| - 1;
            var d, d1 := Remembered(jobs[..n]), Remembered(jobs);
            && |d1.keys| == |jobs| && d1.keys[..n] == d.keys
            && (forall k | k in d.keys :: k in d.vals && k in d1.vals && d.vals[k] == d1.vals[k])
            && d1.keys[n] in d1.vals && d1.vals[d1.keys[n]] == Entry(jobs[n].links, n)
  {
    var n := |jobs| - 1;
    RememberedAre(jobs[..n]);
    RememberedAre(jobs);
    var d, d1 := Remembered(jobs[..n]), Remembered(jobs);
    forall k | k in d.keys
      ensures k in d1.vals && d1.vals[k] == d.vals[k]
    {
      var i :| 0 <= i < n && d.keys[i] == k;
      assert d1.keys[i] == k;
    }
  }

  /** With an identifier to each job, the through rows of a kind are exactly the requested pairs, in
      the order of the jobs: nothing is lost and nothing ends up on another job's node. */
  lemma {:induction false} ThroughIsRequested(jobs: seq<Job>, kind: Kind)
    requires UniqueIds(jobs)
    ensures Through(Remembered(jobs).keys, Remembered(jobs).vals, kind) == Requested(jobs, kind)
    decreases |jobs|
  {
    if jobs != [] {
      var n := |jobs| - 1;
      ThroughIsRequested(jobs[..n], kind);
      RememberedGrows(jobs);
      ThroughSame(Remembered(jobs[..n]).keys, Remembered(jobs[..n]).vals, Remembered(jobs).vals, kind);
    }
  }

  lemma ThroughOne(key: string, e: Entry, kind: Kind)
    ensures Through([key], map[key := e], kind) == Pairs(e.node, Asked(e.links, kind))
  {
  }

  /** And without: of two jobs under one identifier the first loses everything it asks for. */
  lemma SharedIdentifierLoses(a: Job, b: Job, kind: Kind)
    requires a.identifier.Some? && a.identifier == b.identifier
    ensures Through(Remembered([a, b]).keys, Remembered([a, b]).vals, kind) == Pairs(1, Asked(b.links, kind))
  {
    var id := a.identifier.value;
    var first := Dict([id], map[id := Entry(a.links, 0)]);
    assert [a, b][..1] == [a] && [a][..0] == [];
    assert Remembered([a]) == first;
    assert Insert(first, id, Entry(b.links, 1)) == Dict([id], map[id := Entry(b.links, 1)]);
    ThroughOne(id, Entry(b.links, 1), kind);
  }

  lemma {:induction false} RequestedAre(jobs: seq<Job>, kind: Kind, i: nat, x: nat)
    ensures (i, x) in Requested(jobs, kind) <==> i < |jobs| && x in Asked(jobs[i].links, kind)
    decreases |jobs|
  {
    if jobs != [] {
      var n := |jobs| - 1;
      RequestedAre(jobs[..n], kind, i, x);
      var asked := Asked(jobs[n].links, kind);
      if i == n && x in asked {
        var k :| 0 <= k < |asked| && asked[k] == x;
        assert Pairs(n, asked)[k] == (i, x);
      }
    }
  }

  /** For an accepted request a node is built for each job, and an object is attached to a node
      exactly when the job at that place asked for it. */
  lemma LaunchConserves(access: Access, jobs: seq<Job>, uuids: nat -> string, kind: Kind, i: nat, x: nat)
    requires FreshIds(jobs, uuids) && Check(access, jobs, uuids).Accepted?
    ensures var accepted := Check(access, jobs, uuids).jobs;
            && UniqueIds(accepted) && |Nodes(accepted)| == |jobs|
            && (i < |jobs| ==>
                  Nodes(accepted)[i] == Node(jobs[i].template, IdOf(jobs, uuids, i), jobs[i].uses, jobs[i].attrs))
            && var d := Remembered(accepted);
               ((i, x) in Through(d.keys, d.vals, kind) <==>
                i < |jobs| && kind in jobs[i].links && x in jobs[i].links[kind])
  {
    AcceptedJobs(access, jobs, uuids);
    var accepted := Check(access, jobs, uuids).jobs;
    ThroughIsRequested(accepted, kind);
    RequestedAre(accepted, kind, i, x);
  }

  /******* The loops *******/

  method Validate(access: Access, jobs: seq<Job>, uuids: nat -> string) returns (checked: Checked)
    ensures checked == Check(access, jobs, uuids)
  {
    if |jobs| > access.maxJobs {
      return Refused;
    }
    var identifiers: set<string> := {};
    var named: seq<Job> := [];
    var i := 0;
    while i < |jobs|
      invariant i <= |jobs| && identifiers == Brought(jobs[..i]) && NoneRepeated(jobs[..i])
      invariant named == Identified(jobs[..i], uuids)
    {
      assert jobs[..i + 1][..i] == jobs[..i];
      BroughtStep(jobs, i);
      if jobs[i].identifier.Some? {
        if jobs[i].identifier.value in identifiers {
          return Refused;
        }
        identifiers := identifiers + {jobs[i].identifier.value};
        named := named + [jobs[i]];
      } else {
        named := named + [jobs[i].(identifier := Some(uuids(i)))];
      }
      i := i + 1;
    }
    assert jobs[..i] == jobs;
    if !AllMayRun(access, jobs) || !access.request || !AllMayUse(access, jobs) {
      return Refused;
    }
    if !AllTemplatesKnown(access, jobs) {
      return UnknownTemplate;
    }
    return Accepted(named);
  }

  /** A job's identifier repeats an earlier one exactly if it has been brought before. */
  lemma BroughtStep(jobs: seq<Job>, i: nat)
    requires i < |jobs| && NoneRepeated(jobs[..i])
    ensures var id := jobs[i].identifier;
            && Brought(jobs[..i + 1]) == Brought(jobs[..i]) + (if id.Some? then {id.value} else {})
            && (if id.Some? && id.value in Brought(jobs[..i]) then !NoneRepeated(jobs) else NoneRepeated(jobs[..i + 1]))
  {
  }

  method CreateNodes(jobs: seq<Job>) returns (nodes: seq<Node>, d: Dict)
    requires HasIds(jobs)
    ensures nodes == Nodes(jobs) && d == Remembered(jobs)
  {
    nodes, d := [], Dict([], map[]);
    var i := 0;
    while i < |jobs|
      invariant i <= |jobs| && nodes == Nodes(jobs[..i]) && d == Remembered(jobs[..i])
    {
      var job := jobs[i];
      assert jobs[..i + 1][..i] == jobs[..i];
      nodes := nodes + [Node(job.template, job.identifier.value, job.uses, job.attrs)];
      d := Insert(d, job.identifier.value, Entry(job.links, i));
      i := i + 1;
    }
    assert jobs[..i] == jobs;
  }

  method AttachObjects(d: Dict, kind: Kind) returns (rows: seq<(nat, nat)>)
    ensures rows == Through(d.keys, d.vals, kind)
  {
    rows := [];
    var i := 0;
    while i < |d.keys|
      invariant i <= |d.keys| && rows == Through(d.keys[..i], d.vals, kind)
    {
      assert d.keys[..i + 1][..i] == d.keys[..i];
      if d.keys[i] in d.vals && kind in d.vals[d.keys[i]].links {
        var e := d.vals[d.keys[i]];
        var before := rows;
        var j := 0;
        while j < |e.links[kind]|
          invariant j <= |e.links[kind]| && rows == before + Pairs(e.node, e.links[kind][..j])
        {
          rows := rows + [(e.node, e.links[kind][j])];
          j := j + 1;
        }
        assert e.links[kind][..j] == e.links[kind];
      }
      i := i + 1;
    }
    assert d.keys[..i] == d.keys;
  }

  /** The nodes of an accepted request and the through rows of one kind. */
  method Launch(jobs: seq<Job>, kind: Kind) returns (nodes: seq<Node>, rows: seq<(nat, nat)>)
    requires UniqueIds(jobs)
    ensures nodes == Nodes(jobs) && rows == Requested(jobs, kind)
  {
    var d;
    nodes, d := CreateNodes(jobs);
    rows := AttachObjects(d, kind);
    ThroughIsRequested(jobs, kind);
  }
}
