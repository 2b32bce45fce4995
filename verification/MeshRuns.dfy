/**
 Whole requests to the instance endpoint, and every run of them.
 */
module MeshRuns {
  import opened Helpers
  import opened Mesh
  import opened MeshInvariants

  /******* Saving the address *******/

  lemma CanPeerStored(net: Net, a: Address)
    requires Ok(net) && CanStore(net, a)
    ensures CanPeerControls(Store(net, a), a.owner, a.address) <==> CanPeerControls(net, a.owner, a.address)
  {
    var net1 := Store(net, a);
    forall l | l in net.links
      ensures OwnerOf(net1.rows, l.1) == OwnerOf(net.rows, l.1)
      ensures Row(net1.rows, l.1).value.address == Row(net.rows, l.1).value.address
    {
      StoredFinds(net, a, l.1);
    }
    forall c | c in Controls(net.nodes)
      ensures CanPeer(net1, c, a.owner, a.address) <==> CanPeer(net, c, a.owner, a.address)
    {
    }
  }

  lemma SaveKeeps(net: Net, x: nat, req: Request)
    requires Ok(net) && Sound(net) && x < |net.nodes| && req.port != Null && SaveAddress(net, x, req).Some?
    ensures var net1 := SaveAddress(net, x, req).value;
            Ok(net1) && (Sound(net1) <==>
              (PeersControls(net, x, req) ==> CanPeerControls(net, x, net.nodes[x].hostname)))
  {
    if SavesAddress(net, x, req) {
      CanonicalCanStore(net, x, PortOf(req), req.fromControl);
      CanonicalFlag(net, x, req);
      var a := Canonical(net, x, net.nodes[x].hostname, PortOf(req), req.fromControl).value;
      StoreOk(net, a);
      StoreSound(net, a);
      StoredFinds(net, a, a.pk);
      CanPeerStored(net, a);
      AddressSavedSound(Store(net, a), a);
      SavedOk(Store(net, a), a);
    }
  }

  lemma SavedOk(net: Net, a: Address)
    requires Ok(net) && Row(net.rows, a.pk).Some?
    ensures Ok(AddressSaved(net, a))
  {
  }

  /** With the port given as null no address is left to save. */
  lemma NullSavesNothing(net: Net, x: nat, req: Request)
    requires Ok(net) && x < |net.nodes| && req.port.Null? && RowAt(net.rows, x, net.nodes[x].hostname).None?
    ensures SaveAddress(net, x, req) == Some(net) && CanonicalPort(net.rows, x).None?
  {
  }

  lemma DeletedNone(net: Net, x: nat, address: string)
    requires Ok(net)
    ensures RowAt(Delete(net, x, address).rows, x, address).None?
  {
    if RowAt(net.rows, x, address).Some? {
      var rows1 := Delete(net, x, address).rows;
      forall a | a in rows1
        ensures !IsDropped(a, x, address)
      {
        RowsWithoutAre(net.rows, x, address, a);
      }
    }
  }

  /******* Well-formedness *******/

  lemma WriteInstanceOk(net: Net, x: nat, req: Request)
    requires Ok(net) && x < |net.nodes| && (req.peers.Some? ==> Exist(net.rows, req.peers.value))
    ensures Ok(WriteInstance(net, x, req))
  {
  }

  lemma SaveOk(net: Net, x: nat, req: Request)
    requires Ok(net) && x < |net.nodes| && SaveAddress(net, x, req).Some?
    ensures Ok(SaveAddress(net, x, req).value)
  {
    if SavesAddress(net, x, req) {
      CanonicalCanStore(net, x, PortOf(req), req.fromControl);
      var a := Canonical(net, x, net.nodes[x].hostname, PortOf(req), req.fromControl).value;
      StoreOk(net, a);
      StoredFinds(net, a, a.pk);
      SavedOk(Store(net, a), a);
    }
  }

  lemma UpdateOk(k8s: bool, net: Net, x: nat, req: Request)
    requires Ok(net) && x < |net.nodes| && Valid(k8s, net, Some(x), req) && Update(net, x, req).Some?
    ensures Ok(Update(net, x, req).value)
  {
    var net1 := if req.port.Null? then Delete(net, x, net.nodes[x].hostname) else net;
    DeleteOk(net, x, net.nodes[x].hostname);
    if req.peers.Some? {
      forall p | p in req.peers.value
        ensures Row(net1.rows, p).Some?
      {
        DeleteFinds(net, x, net.nodes[x].hostname, p);
      }
    }
    WriteInstanceOk(net1, x, req);
    SaveOk(WriteInstance(net1, x, req), x, req);
  }

  lemma NodeAddedOk(net: Net, node: Node)
    requires Ok(net)
    ensures Ok(net.(nodes := net.nodes + [node]))
  {
  }

  lemma CreateOk(k8s: bool, net: Net, node: Node, req: Request)
    requires Ok(net) && Valid(k8s, net, None, req) && Create(net, node, req).Some?
    ensures Ok(Create(net, node, req).value)
  {
    var net0, x := net.(nodes := net.nodes + [node]), |net.nodes|;
    NodeAddedOk(net, node);
    WriteInstanceOk(net0, x, req);
    SaveOk(WriteInstance(net0, x, req), x, req);
  }

  /******* Updates *******/

  lemma PeersOkDeleted(net: Net, x: nat, address: string, req: Request)
    requires Ok(net) && PeersOk(net, x, req)
    ensures PeersOk(Delete(net, x, address), x, req)
  {
    if req.peers.Some? {
      var net1 := Delete(net, x, address);
      forall p | p in req.peers.value
        ensures OwnerOf(net1.rows, p) == OwnerOf(net.rows, p) && Row(net1.rows, p).Some?
      {
        DeleteFinds(net, x, address, p);
      }
      forall p | p in req.peers.value
        ensures !IsPeeredBack(net1, x, p)
      {
        forall l | l in net1.links && OwnerOf(net1.rows, l.1) == Some(x)
          ensures OwnerOf(net1.rows, p) != Some(l.0)
        {
          DeleteFinds(net, x, address, l.1);
          assert !IsPeeredBack(net, x, p);
        }
      }
      forall i, j | 0 <= i < j < |req.peers.value|
        ensures !SameOwner(net1.rows, req.peers.value[i], req.peers.value[j])
      {
        assert !SameOwner(net.rows, req.peers.value[i], req.peers.value[j]);
      }
    }
  }

  lemma UpdateNullKeeps(net: Net, x: nat, req: Request)
    requires Ok(net) && Sound(net) && x < |net.nodes| && req.port.Null? && PeersOk(net, x, req)
    ensures var net1 := Update(net, x, req);
            net1.Some? && Ok(net1.value) && Sound(net1.value) && RowAt(net1.value.rows, x, net.nodes[x].hostname).None?
  {
    var host := net.nodes[x].hostname;
    var net1 := Delete(net, x, host);
    DeleteOk(net, x, host);
    DeleteSound(net, x, host);
    DeletedNone(net, x, host);
    PeersOkDeleted(net, x, host, req);
    WriteInstanceKeeps(net1, x, req);
    NullSavesNothing(WriteInstance(net1, x, req), x, req);
  }

  /** An accepted update leaves the mesh sound exactly when, if it saves an address that control
      nodes are to peer to, the instance is apart from every control node. */
  lemma UpdateIsSound(k8s: bool, net: Net, x: nat, req: Request)
    requires Ok(net) && Sound(net) && x < |net.nodes| && Valid(k8s, net, Some(x), req) && Update(net, x, req).Some?
    ensures var net1 := Update(net, x, req).value;
            Ok(net1) && (Sound(net1) <==> (PeersControls(net, x, req) ==> ControlsApart(net, x, req)))
  {
    assert PeersOk(net, x, req);
    if req.port.Null? {
      UpdateNullKeeps(net, x, req);
    } else {
      WrittenIsSound(net, x, req);
    }
  }

  lemma WrittenIsSound(net: Net, x: nat, req: Request)
    requires Ok(net) && Sound(net) && x < |net.nodes| && !req.port.Null? && PeersOk(net, x, req)
    requires SaveAddress(WriteInstance(net, x, req), x, req).Some?
    ensures var net1 := SaveAddress(WriteInstance(net, x, req), x, req).value;
            Ok(net1) && (Sound(net1) <==> (PeersControls(net, x, req) ==> ControlsApart(net, x, req)))
  {
    var net1 := WriteInstance(net, x, req);
    WriteInstanceKeeps(net, x, req);
    SaveKeeps(net1, x, req);
    PeersAfterAre(net, x, req);
    ApartIsCanPeer(net, x, req);
    if c :| c in Controls(net.nodes) && c == x {
      assert !CanPeer(net1, c, x, net.nodes[x].hostname);
      assert !ControlApart(net, c, x, req);
    }
  }

  /******* Creation *******/

  lemma NodeAddedKeeps(net: Net, node: Node)
    requires Ok(net) && Sound(net)
    ensures var net0 := net.(nodes := net.nodes + [node]); Ok(net0) && Sound(net0)
  {
  }

  lemma CreateIsSound(k8s: bool, net: Net, node: Node, req: Request)
    requires Ok(net) && Sound(net) && Valid(k8s, net, None, req) && Create(net, node, req).Some?
    ensures var net0 := net.(nodes := net.nodes + [node]);
            var net1 := Create(net, node, req).value;
            Ok(net1) && (Sound(net1) <==>
              (PeersControls(net0, |net.nodes|, req) ==> ControlsApart(net0, |net.nodes|, req)))
  {
    var net0 := net.(nodes := net.nodes + [node]);
    NodeAddedKeeps(net, node);
    NewHasNone(net, req);
    assert PeersOk(net0, |net.nodes|, req);
    if req.port.Null? {
      assert forall a | a in net.rows :: RowOk(net, a);
      WriteInstanceKeeps(net0, |net.nodes|, req);
      NullSavesNothing(WriteInstance(net0, |net.nodes|, req), |net.nodes|, req);
    } else {
      WrittenIsSound(net0, |net.nodes|, req);
    }
  }

  /** A new instance has no address yet, so nothing is its own and nothing peers to it. */
  lemma NewHasNone(net: Net, req: Request)
    requires Ok(net)
    ensures forall p :: OwnerOf(net.rows, p) != Some(|net.nodes|)
  {
  }

  /******* Runs *******/

  datatype Op = Make(node: Node, req: Request) | Change(x: nat, req: Request)

  /** The endpoint makes only execution and hop nodes, under host names not yet in use. */
  predicate Accepted(k8s: bool, net: Net, op: Op) {
    match op
    case Make(node, req) =>
      && k8s && (node.kind == Execution || node.kind == Hop) && !HostTaken(net.nodes, node.hostname)
      && Valid(k8s, net, None, req)
    case Change(x, req) => x < |net.nodes| && Valid(k8s, net, Some(x), req)
  }

  /** A request that is refused, or whose save fails, changes nothing. */
  function Step(k8s: bool, net: Net, op: Op): Net {
    if !Accepted(k8s, net, op) then net
    else
      var done := match op case Make(node, req) => Create(net, node, req) case Change(x, req) => Update(net, x, req);
      if done.Some? then done.value else net
  }

  function Run(k8s: bool, net: Net, ops: seq<Op>): Net {
    if ops == [] then net else Step(k8s, Run(k8s, net, ops[..|ops| - 1]), ops[|ops| - 1])
  }

  /** The check that is missing from the endpoint, for the requests it goes through with. */
  ghost predicate IsGuarded(k8s: bool, net: Net, op: Op) {
    Accepted(k8s, net, op) ==>
      match op
      case Make(node, req) =>
        var net0 := net.(nodes := net.nodes + [node]);
        Create(net, node, req).Some? && PeersControls(net0, |net.nodes|, req) ==> ControlsApart(net0, |net.nodes|, req)
      case Change(x, req) => Update(net, x, req).Some? && PeersControls(net, x, req) ==> ControlsApart(net, x, req)
  }

  lemma StepIsSound(k8s: bool, net: Net, op: Op)
    requires Ok(net) && Sound(net)
    ensures Ok(Step(k8s, net, op)) && (Sound(Step(k8s, net, op)) <==> IsGuarded(k8s, net, op))
  {
    if Accepted(k8s, net, op) {
      match op
      case Make(node, req) =>
        if Create(net, node, req).Some? {
          CreateIsSound(k8s, net, node, req);
        }
      case Change(x, req) =>
        if Update(net, x, req).Some? {
          UpdateIsSound(k8s, net, x, req);
        }
    }
  }

  ghost predicate AlwaysSound(k8s: bool, net: Net, ops: seq<Op>) {
    && Sound(Run(k8s, net, ops))
    && (ops != [] ==> AlwaysSound(k8s, net, ops[..|ops| - 1]))
  }

  ghost predicate AlwaysGuarded(k8s: bool, net: Net, ops: seq<Op>) {
    ops != [] ==>
      && AlwaysGuarded(k8s, net, ops[..|ops| - 1])
      && IsGuarded(k8s, Run(k8s, net, ops[..|ops| - 1]), ops[|ops| - 1])
  }

  /** Over a whole run no instance ever peers to itself, back to one that peers to it, or twice to
      one instance, exactly when every request that saves an address for control nodes to peer to
      is for an instance apart from them. */
  lemma {:induction false} RunIsSound(k8s: bool, net: Net, ops: seq<Op>)
    requires Ok(net) && Sound(net)
    ensures AlwaysSound(k8s, net, ops) <==> AlwaysGuarded(k8s, net, ops)
    ensures AlwaysSound(k8s, net, ops) ==> Ok(Run(k8s, net, ops))
    decreases |ops|
  {
    if ops != [] {
      var n := |ops| - 1;
      RunIsSound(k8s, net, ops[..n]);
      if AlwaysSound(k8s, net, ops[..n]) {
        AlwaysSoundEnds(k8s, net, ops[..n]);
        StepIsSound(k8s, Run(k8s, net, ops[..n]), ops[n]);
      }
    }
  }

  lemma AlwaysSoundEnds(k8s: bool, net: Net, ops: seq<Op>)
    requires AlwaysSound(k8s, net, ops)
    ensures Sound(Run(k8s, net, ops))
  {
  }

  /** Where there are no control nodes in the table the checks made are enough. */
  lemma {:induction false} WithoutControlsSound(k8s: bool, net: Net, ops: seq<Op>)
    requires Ok(net) && Sound(net) && Controls(net.nodes) == {}
    ensures Sound(Run(k8s, net, ops)) && Ok(Run(k8s, net, ops)) && Controls(Run(k8s, net, ops).nodes) == {}
    decreases |ops|
  {
    if ops != [] {
      var n := |ops| - 1;
      WithoutControlsSound(k8s, net, ops[..n]);
      var net1 := Run(k8s, net, ops[..n]);
      ControlsStay(k8s, net1, ops[n]);
      StepIsSound(k8s, net1, ops[n]);
      if ops[n].Make? && Accepted(k8s, net1, ops[n]) {
        assert Controls(net1.nodes + [ops[n].node]) == {};
      }
    }
  }

  /** No request makes a control node, or stops a node being one. */
  lemma ControlsStay(k8s: bool, net: Net, op: Op)
    ensures Controls(Step(k8s, net, op).nodes) == Controls(net.nodes)
  {
  }

  /** The missing check matters: a new node that peers to any control node and asks control nodes
      to peer to it is accepted, and the two then peer to each other. */
  lemma MutualPeersAreAccepted(net: Net, node: Node, port: int, p: nat)
    requires Ok(net) && Sound(net) && OwnerOf(net.rows, p).Some? && IsControl(net.nodes, OwnerOf(net.rows, p).value)
    requires (node.kind == Execution || node.kind == Hop) && !HostTaken(net.nodes, node.hostname)
    requires !AddressTaken(net.rows, node.hostname)
    requires 0 < port
    ensures var op := Make(node, Request(Number(port), Some(true), Some([p])));
            Accepted(true, net, op) && !Sound(Step(true, net, op))
  {
    var req := Request(Number(port), Some(true), Some([p]));
    var net0 := net.(nodes := net.nodes + [node]);
    var c := OwnerOf(net.rows, p).value;
    assert c in Controls(net0.nodes) && p in PeersAfter(net0, |net.nodes|, req);
    assert !ControlApart(net0, c, |net.nodes|, req);
    assert Accepted(true, net, Make(node, req));
    assert Canonical(net0, |net.nodes|, node.hostname, Number(port), Some(true)).Some?;
    CreateIsSound(true, net, node, req);
  }

  /******* Ports *******/

  lemma OneCanonical(net: Net, x: nat, a: Address)
    requires Ok(net) && a in net.rows && a.owner == x && a.canonical
    ensures CanonicalPort(net.rows, x) == Some(a.port)
  {
  }

  /** The port of an instance after an accepted update: none if null was given, the number given,
      and otherwise what it was. */
  lemma PortAfterUpdate(k8s: bool, net: Net, x: nat, req: Request)
    requires Ok(net) && x < |net.nodes| && Valid(k8s, net, Some(x), req) && Update(net, x, req).Some?
    ensures CanonicalPort(Update(net, x, req).value.rows, x) ==
            match PortOf(req)
            case Null => None
            case Absent => None
            case Number(n) => if n != MISSING then Some(n) else CanonicalPort(net.rows, x)
  {
    var net1 := Update(net, x, req).value;
    UpdateOk(k8s, net, x, req);
    WriteInstanceOk(net, x, req);
    if req.port.Null? {
      NullRemoves(net, x, req);
      assert forall a | a in net1.rows :: RowOk(net1, a);
    } else {
      PortAfterSave(WriteInstance(net, x, req), net1, x, req);
    }
  }

  /** A null port removes the instance's row at its host name. */
  lemma NullRemoves(net: Net, x: nat, req: Request)
    requires Ok(net) && x < |net.nodes| && req.port.Null? && Update(net, x, req).Some?
    ensures RowAt(Update(net, x, req).value.rows, x, net.nodes[x].hostname).None?
  {
    var host := net.nodes[x].hostname;
    DeleteOk(net, x, host);
    DeletedNone(net, x, host);
    var net1 := Delete(net, x, host);
    assert forall a | a in net1.rows :: RowOk(net1, a);
  }

  /** An instance's canonical row is the one at its host name. */
  lemma CanonicalRow(net: Net, x: nat) returns (a: Address)
    requires Ok(net) && x < |net.nodes| && CanonicalPort(net.rows, x).Some?
    ensures a in net.rows && a.owner == x && a.canonical && CanonicalPort(net.rows, x) == Some(a.port)
    ensures RowAt(net.rows, x, net.nodes[x].hostname) == Some(a)
  {
    a :| a in net.rows && a.owner == x && a.canonical && CanonicalPort(net.rows, x) == Some(a.port);
    assert RowOk(net, a);
    SameAddress(net, a, RowAt(net.rows, x, net.nodes[x].hostname).value);
  }

  lemma PortAfterSave(net: Net, net1: Net, x: nat, req: Request)
    requires Ok(net) && Ok(net1) && x < |net.nodes| && !req.port.Null? && SaveAddress(net, x, req) == Some(net1)
    ensures CanonicalPort(net1.rows, x) == if PortOf(req) != Number(MISSING) then Some(PortOf(req).n)
            else CanonicalPort(net.rows, x)
  {
    if SavesAddress(net, x, req) {
      var host := net.nodes[x].hostname;
      CanonicalCanStore(net, x, PortOf(req), req.fromControl);
      var a := Canonical(net, x, host, PortOf(req), req.fromControl).value;
      StoredFinds(net, a, a.pk);
      OneCanonical(net1, x, a);
      if PortOf(req) == Number(MISSING) {
        var b := CanonicalRow(net, x);
      }
    }
  }

  /** A port in use only ever changes to another number when the number asked for is zero, which
      the check takes for no port at all. */
  lemma PortOnlyZeroed(k8s: bool, net: Net, x: nat, req: Request)
    requires Ok(net) && x < |net.nodes| && Valid(k8s, net, Some(x), req) && Update(net, x, req).Some?
    requires IsTruthy(CanonicalPort(net.rows, x))
    ensures var port, after := CanonicalPort(net.rows, x), CanonicalPort(Update(net, x, req).value.rows, x);
            (after.Some? && after != port) <==> req.port == Number(0)
  {
    PortAfterUpdate(k8s, net, x, req);
  }

  /** And zero can be asked for: of any instance that is not managed and has a port in use. */
  lemma ZeroIsAccepted(k8s: bool, net: Net, x: nat)
    requires Ok(net) && x < |net.nodes| && !net.nodes[x].managed && IsTruthy(CanonicalPort(net.rows, x))
    ensures var req := Request(Number(0), None, None);
            Valid(k8s, net, Some(x), req) && Update(net, x, req).Some?
              && CanonicalPort(Step(k8s, net, Change(x, req)).rows, x) == Some(0)
  {
    var req := Request(Number(0), None, None);
    var b := CanonicalRow(net, x);
    assert Canonical(net, x, net.nodes[x].hostname, Number(0), None).Some?;
    assert Valid(k8s, net, Some(x), req) && Update(net, x, req).Some?;
    PortAfterUpdate(k8s, net, x, req);
  }

  /** Asking for control nodes to peer in, without a port, never makes an address, on a new instance
      or an old one, and changes one only where there is a canonical one. */
  lemma FlagMakesNoAddress(k8s: bool, net: Net, op: Op)
    requires Ok(net) && PortOf(op.req) == Number(MISSING)
    ensures |Step(k8s, net, op).rows| == |net.rows|
    ensures Step(k8s, net, op).rows == net.rows || (op.Change? && CanonicalPort(net.rows, op.x).Some?)
  {
    if Accepted(k8s, net, op) {
      match op
      case Make(node, req) =>
        NewHasNone(net, req);
        assert forall a | a in net.rows :: RowOk(net, a);
      case Change(x, req) =>
        if Update(net, x, req).Some? {
          UpdateMakesNoAddress(net, x, req);
        }
    }
  }

  lemma UpdateMakesNoAddress(net: Net, x: nat, req: Request)
    requires Ok(net) && x < |net.nodes| && PortOf(req) == Number(MISSING) && Update(net, x, req).Some?
    ensures |Update(net, x, req).value.rows| == |net.rows|
    ensures CanonicalPort(net.rows, x).None? ==> Update(net, x, req).value.rows == net.rows
  {
    var net1 := WriteInstance(net, x, req);
    if SavesAddress(net1, x, req) {
      var host := net.nodes[x].hostname;
      var a := CanonicalRow(net, x);
      RowFinds(net.rows, a);
      ReplaceRowIs(net.rows, Canonical(net1, x, host, PortOf(req), req.fromControl).value);
    }
  }

  lemma FlagOfCanonical(net: Net, x: nat, a: Address)
    requires Ok(net) && a in net.rows && a.owner == x && a.canonical
    ensures CanonicalFromControl(net.rows, x) == a.fromControl
  {
    CanonicalFirst(net.rows, a);
  }

  lemma {:induction false} CanonicalFirst(rows: seq<Address>, a: Address)
    requires a in rows && a.canonical && forall b | b in rows && b.owner == a.owner && b.canonical :: b == a
    ensures CanonicalFromControl(rows, a.owner) == a.fromControl
  {
    if rows[0].owner != a.owner || !rows[0].canonical {
      CanonicalFirst(rows[1..], a);
    }
  }

  /** An accepted update of a managed instance changes neither its port nor whether control nodes
      peer to it. */
  lemma ManagedKeepsAddress(k8s: bool, net: Net, x: nat, req: Request)
    requires Ok(net) && x < |net.nodes| && net.nodes[x].managed && Valid(k8s, net, Some(x), req)
    requires Update(net, x, req).Some?
    ensures var net1 := Update(net, x, req).value;
            && CanonicalPort(net1.rows, x) == CanonicalPort(net.rows, x)
            && CanonicalFromControl(net1.rows, x) == CanonicalFromControl(net.rows, x)
  {
    var net0, net1 := WriteInstance(net, x, req), Update(net, x, req).value;
    PortAfterUpdate(k8s, net, x, req);
    UpdateOk(k8s, net, x, req);
    WriteInstanceOk(net, x, req);
    if CanonicalPort(net.rows, x).Some? && SavesAddress(net0, x, req) {
      var host := net.nodes[x].hostname;
      var b := CanonicalRow(net, x);
      FlagOfCanonical(net, x, b);
      CanonicalCanStore(net0, x, PortOf(req), req.fromControl);
      var a := Canonical(net0, x, host, PortOf(req), req.fromControl).value;
      StoredFinds(net0, a, a.pk);
      FlagOfCanonical(net1, x, a);
    }
  }

  ghost predicate NeverWithoutPort(k8s: bool, net: Net, ops: seq<Op>, x: nat) {
    && CanonicalPort(Run(k8s, net, ops).rows, x).Some?
    && (ops != [] ==> NeverWithoutPort(k8s, net, ops[..|ops| - 1], x))
  }

  predicate AsksForZero(op: Op) {
    op.req.port == Number(0)
  }

  /******* Ports over a run *******/

  lemma SaveLeavesOthers(net: Net, x: nat, req: Request, a: Address)
    requires Ok(net) && x < |net.nodes| && SaveAddress(net, x, req).Some? && a.owner != x
    ensures a in SaveAddress(net, x, req).value.rows <==> a in net.rows
  {
    if SavesAddress(net, x, req) {
      CanonicalCanStore(net, x, PortOf(req), req.fromControl);
      var b := Canonical(net, x, net.nodes[x].hostname, PortOf(req), req.fromControl).value;
      var rows1 := Store(net, b).rows;
      ReplaceRowIs(net.rows, b);
      if a in net.rows {
        RowFinds(net.rows, a);
        var i :| 0 <= i < |net.rows| && net.rows[i] == a;
        assert rows1[i] == a;
      }
    }
  }

  lemma UpdateLeavesOthers(net: Net, x: nat, req: Request, a: Address)
    requires Ok(net) && x < |net.nodes| && Update(net, x, req).Some? && a.owner != x
    requires (req.peers.Some? ==> Exist(net.rows, req.peers.value))
    requires req.peers.Some? ==> forall p | p in req.peers.value :: OwnerOf(net.rows, p) != Some(x)
    ensures a in Update(net, x, req).value.rows <==> a in net.rows
  {
    var host := net.nodes[x].hostname;
    var net1 := if req.port.Null? then Delete(net, x, host) else net;
    RowsWithoutAre(net.rows, x, host, a);
    DeleteOk(net, x, host);
    if req.peers.Some? {
      forall p | p in req.peers.value
        ensures Row(net1.rows, p).Some?
      {
        DeleteFinds(net, x, host, p);
      }
    }
    WriteInstanceOk(net1, x, req);
    SaveLeavesOthers(WriteInstance(net1, x, req), x, req, a);
  }

  lemma SamePort(net: Net, net1: Net, x: nat)
    requires Ok(net) && Ok(net1) && forall a: Address | a.owner == x :: a in net.rows <==> a in net1.rows
    ensures CanonicalPort(net1.rows, x) == CanonicalPort(net.rows, x)
  {
  }

  lemma CreateLeavesPort(k8s: bool, net: Net, node: Node, req: Request, x: nat)
    requires Ok(net) && x < |net.nodes| && Valid(k8s, net, None, req) && Create(net, node, req).Some?
    ensures var net1 := Create(net, node, req).value;
            Ok(net1) && CanonicalPort(net1.rows, x) == CanonicalPort(net.rows, x)
  {
    var net1 := Create(net, node, req).value;
    var net0 := net.(nodes := net.nodes + [node]);
    CreateOk(k8s, net, node, req);
    NodeAddedOk(net, node);
    WriteInstanceOk(net0, |net.nodes|, req);
    forall a: Address | a.owner == x
      ensures a in net.rows <==> a in net1.rows
    {
      SaveLeavesOthers(WriteInstance(net0, |net.nodes|, req), |net.nodes|, req, a);
    }
    SamePort(net, net1, x);
  }

  lemma UpdateLeavesPort(k8s: bool, net: Net, y: nat, req: Request, x: nat)
    requires Ok(net) && x < |net.nodes| && y < |net.nodes| && y != x && Valid(k8s, net, Some(y), req)
    requires Update(net, y, req).Some?
    ensures CanonicalPort(Update(net, y, req).value.rows, x) == CanonicalPort(net.rows, x)
  {
    var net1 := Update(net, y, req).value;
    UpdateOk(k8s, net, y, req);
    forall a: Address | a.owner == x
      ensures a in net.rows <==> a in net1.rows
    {
      UpdateLeavesOthers(net, y, req, a);
    }
    SamePort(net, net1, x);
  }

  /** A step leaves an instance's port alone, or is an update of that very instance. */
  lemma PortAfterStep(k8s: bool, net: Net, op: Op, x: nat)
    requires Ok(net) && x < |net.nodes|
    ensures var net1 := Step(k8s, net, op);
            && Ok(net1) && x < |net1.nodes|
            && (CanonicalPort(net1.rows, x) == CanonicalPort(net.rows, x)
                || (op.Change? && op.x == x && Accepted(k8s, net, op) && Update(net, x, op.req) == Some(net1)))
  {
    if Accepted(k8s, net, op) {
      match op
      case Make(node, req) =>
        if Create(net, node, req).Some? {
          CreateLeavesPort(k8s, net, node, req, x);
        }
      case Change(y, req) =>
        if Update(net, y, req).Some? {
          UpdateOk(k8s, net, y, req);
          if y != x {
            UpdateLeavesPort(k8s, net, y, req, x);
          }
        }
    }
  }

  /** Over any run that asks for no port zero, a port in use stays the same number for as long as
      the instance has a port at all. */
  lemma {:induction false} PortIsKept(k8s: bool, net: Net, ops: seq<Op>, x: nat)
    requires Ok(net) && x < |net.nodes| && IsTruthy(CanonicalPort(net.rows, x))
    requires NeverWithoutPort(k8s, net, ops, x) && forall op | op in ops :: !AsksForZero(op)
    ensures var net1 := Run(k8s, net, ops);
            Ok(net1) && x < |net1.nodes| && CanonicalPort(net1.rows, x) == CanonicalPort(net.rows, x)
    decreases |ops|
  {
    if ops != [] {
      var n := |ops| - 1;
      PortIsKept(k8s, net, ops[..n], x);
      var net1 := Run(k8s, net, ops[..n]);
      PortAfterStep(k8s, net1, ops[n], x);
      assert !AsksForZero(ops[n]);
      if ops[n].Change? && ops[n].x == x && Accepted(k8s, net1, ops[n]) && Update(net1, x, ops[n].req).Some? {
        PortOnlyZeroed(k8s, net1, x, ops[n].req);
      }
    }
  }

  /******* Links *******/

  lemma DeletedLinks(net: Net, x: nat, address: string, l: (nat, nat))
    requires Ok(net)
    ensures l in Delete(net, x, address).links <==>
            l in net.links && !(Row(net.rows, l.1).Some? && IsDropped(Row(net.rows, l.1).value, x, address))
  {
    if l in net.links && IsDropped(Row(net.rows, l.1).value, x, address) {
      DroppedIsOne(net, x, address, l.1);
    }
  }

  /** The links after an update that takes the port away: the instance's are the peers it names, if
      it names any, and the rest are as they were but for those to the row taken away. */
  lemma LinksAfterNull(net: Net, x: nat, req: Request, l: (nat, nat))
    requires Ok(net) && x < |net.nodes| && req.port.Null? && Update(net, x, req).Some?
    ensures l in Update(net, x, req).value.links <==>
            if l.0 == x && req.peers.Some? then l.1 in req.peers.value
            else
              l in net.links
              && !(Row(net.rows, l.1).Some? && IsDropped(Row(net.rows, l.1).value, x, net.nodes[x].hostname))
  {
    var host := net.nodes[x].hostname;
    var net1 := Delete(net, x, host);
    DeleteOk(net, x, host);
    DeletedNone(net, x, host);
    DeletedLinks(net, x, host, l);
    assert forall a | a in net1.rows :: RowOk(net1, a);
    assert CanonicalPort(WriteInstance(net1, x, req).rows, x).None?;
  }

  /** The links after any other update: those of control nodes to the row saved are as that asks, the
      instance's are the peers it names, if it names any, and the rest are as they were. */
  lemma LinksAfterSave(net: Net, x: nat, req: Request, l: (nat, nat))
    requires Ok(net) && x < |net.nodes| && !req.port.Null? && Update(net, x, req).Some?
    ensures var net1 := Update(net, x, req).value;
            var saved := RowAt(net1.rows, x, net.nodes[x].hostname);
            l in net1.links <==>
              if SavesAddress(net, x, req) && IsControl(net.nodes, l.0) && saved.Some? && saved.value.pk == l.1
                then PeersControls(net, x, req)
              else if l.0 == x && req.peers.Some? then l.1 in req.peers.value
              else l in net.links
  {
    var host := net.nodes[x].hostname;
    var net0 := WriteInstance(net, x, req);
    if SavesAddress(net, x, req) {
      CanonicalFlag(net, x, req);
      var a := Canonical(net, x, host, PortOf(req), req.fromControl).value;
      assert Canonical(net0, x, host, PortOf(req), req.fromControl) == Some(a);
      SavedRow(net0, a, x, host);
    }
  }

  /** In the place of the row with the same key, at the same address, the row stored is found. */
  lemma ReplacedRow(rows: seq<Address>, a: Address, b: Address)
    requires RowsUnique(rows) && b in rows && b.pk == a.pk && b.owner == a.owner && b.address == a.address
    ensures RowAt(ReplaceRow(rows, a), a.owner, a.address) == Some(a)
  {
    var rows1 := ReplaceRow(rows, a);
    ReplaceRowIs(rows, a);
    var j :| 0 <= j < |rows| && rows[j] == b;
    assert rows1[j] == a && a in rows1;
    forall i | 0 <= i < |rows| && i != j
      ensures rows1[i] == rows[i] && rows1[i].address != a.address
    {
      assert if i < j then RowsApart(rows[i], rows[j]) else RowsApart(rows[j], rows[i]);
    }
  }

  lemma SavedRow(net: Net, a: Address, x: nat, host: string)
    requires a.owner == x && a.address == host && RowsUnique(net.rows)
    requires match RowAt(net.rows, x, host)
             case Some(b) => b.pk == a.pk
             case None => a.pk == net.nextPk && forall b | b in net.rows :: b.pk < a.pk
    ensures RowAt(Store(net, a).rows, x, host) == Some(a)
  {
    if RowAt(net.rows, x, host).Some? {
      RowFinds(net.rows, RowAt(net.rows, x, host).value);
      ReplacedRow(net.rows, a, RowAt(net.rows, x, host).value);
    }
  }
}
