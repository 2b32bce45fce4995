/**
 What the instance endpoint accepts and what it then stores, spelled out over addresses and links.
 */
module MeshOutcomes {
  import opened Helpers
  import opened Mesh
  import opened MeshInvariants
  import opened MeshRuns

  /******* Peers *******/

  /** The peers named are keys of addresses, no two of which belong to one instance. */
  ghost predicate NamesOneEach(rows: seq<Address>, value: seq<nat>) {
    && (forall p | p in value :: exists a :: a in rows && a.pk == p)
    && (forall i, j, a, b | 0 <= i < j < |value| && a in rows && b in rows && a.pk == value[i] && b.pk == value[j] ::
          a.owner != b.owner)
  }

  /** They are the peers the instance has. */
  ghost predicate NamesItsPeers(net: Net, x: nat, value: seq<nat>) {
    forall p: nat :: p in value <==> (x, p) in net.links
  }

  /** None is an address of the instance, or of one that peers to an address of it. */
  ghost predicate NamesNoneOfItsOwn(net: Net, x: nat, value: seq<nat>) {
    && (forall a | a in net.rows && a.pk in value :: a.owner != x)
    && (forall a, b | a in net.rows && b in net.rows && a.pk in value && b.owner == x :: (a.owner, b.pk) !in net.links)
  }

  lemma OneEachIs(rows: seq<Address>, value: seq<nat>)
    requires RowsUnique(rows)
    ensures Exist(rows, value) && OneEach(rows, value) <==> NamesOneEach(rows, value)
  {
    forall a | a in rows
      ensures Row(rows, a.pk) == Some(a)
    {
      RowFinds(rows, a);
    }
    if Exist(rows, value) && OneEach(rows, value) {
      forall i, j, a, b | 0 <= i < j < |value| && a in rows && b in rows && a.pk == value[i] && b.pk == value[j]
        ensures a.owner != b.owner
      {
        assert !SameOwner(rows, value[i], value[j]);
      }
    }
    if NamesOneEach(rows, value) {
      forall i, j | 0 <= i < j < |value|
        ensures !SameOwner(rows, value[i], value[j])
      {
        assert value[i] in value && value[j] in value;
        var a :| a in rows && a.pk == value[i];
        var b :| b in rows && b.pk == value[j];
      }
    }
  }

  lemma NoneOfItsOwnIs(net: Net, x: nat, value: seq<nat>)
    requires Ok(net) && Exist(net.rows, value)
    ensures (forall p | p in value :: OwnerOf(net.rows, p) != Some(x))
            && (forall p | p in value :: !IsPeeredBack(net, x, p))
            <==> NamesNoneOfItsOwn(net, x, value)
  {
    forall a | a in net.rows
      ensures Row(net.rows, a.pk) == Some(a)
    {
      RowFinds(net.rows, a);
    }
    if NamesNoneOfItsOwn(net, x, value) {
      forall p | p in value
        ensures !IsPeeredBack(net, x, p)
      {
        var a := Row(net.rows, p).value;
        forall l | l in net.links && OwnerOf(net.rows, l.1) == Some(x)
          ensures l.0 != a.owner
        {
          assert l == (l.0, Row(net.rows, l.1).value.pk);
        }
      }
    } else if forall p | p in value :: OwnerOf(net.rows, p) != Some(x) {
      var a, b :| a in net.rows && b in net.rows && a.pk in value && b.owner == x && (a.owner, b.pk) in net.links;
      assert IsPeeredBack(net, x, a.pk);
    }
  }

  lemma UnchangedIs(net: Net, x: nat, value: seq<nat>)
    ensures PeersUnchanged(net, x, value) <==> NamesItsPeers(net, x, value)
  {
  }

  /** Which lists of peers an update is accepted with: those that name one address each of other
      instances, none of which peers back, and of a managed instance, or outside Kubernetes, just the
      peers it has. */
  lemma PeersAcceptedExactly(k8s: bool, net: Net, x: nat, value: seq<nat>)
    requires Ok(net) && x < |net.nodes|
    ensures PeersValid(k8s, net, Some(x), value) <==>
            && NamesOneEach(net.rows, value) && NamesNoneOfItsOwn(net, x, value)
            && (net.nodes[x].managed || !k8s ==> NamesItsPeers(net, x, value))
  {
    OneEachIs(net.rows, value);
    if Exist(net.rows, value) {
      NoneOfItsOwnIs(net, x, value);
    }
    UnchangedIs(net, x, value);
  }

  lemma NewPeersAcceptedExactly(k8s: bool, net: Net, value: seq<nat>)
    requires Ok(net)
    ensures PeersValid(k8s, net, None, value) <==> NamesOneEach(net.rows, value)
  {
    OneEachIs(net.rows, value);
  }

  /******* Whole requests *******/

  /** The instance's canonical address, if it has one. */
  ghost predicate IsCanonicalOf(net: Net, x: nat, a: Address) {
    a in net.rows && a.owner == x && a.canonical
  }

  predicate AsksForPort(req: Request) {
    req.port.Number? && req.port.n != -1
  }

  /** A port in use stays unless zero is asked for, or null; a managed instance's stays as it is. */
  ghost predicate PortAllowed(net: Net, x: nat, req: Request)
    requires x < |net.nodes|
  {
    && (forall a | IsCanonicalOf(net, x, a) && a.port != 0 && req.port.Number? && req.port.n != 0 ::
          req.port.n == a.port)
    && (net.nodes[x].managed && req.port != Absent ==>
          if req.port == Null then forall a :: !IsCanonicalOf(net, x, a)
          else exists a :: IsCanonicalOf(net, x, a) && req.port.n == a.port)
  }

  /** Control nodes are asked to peer in only where there is, or will be, a port, and of a managed
      instance only as they do. */
  ghost predicate FlagAllowed(net: Net, x: nat, req: Request)
    requires x < |net.nodes|
  {
    && (req.fromControl == Some(true) ==>
          req.port != Null && (AsksForPort(req) || exists a :: IsCanonicalOf(net, x, a)))
    && (net.nodes[x].managed && req.fromControl.Some? ==>
          (req.fromControl == Some(true) <==> exists a :: IsCanonicalOf(net, x, a) && a.fromControl))
  }

  lemma CanonicalIs(net: Net, x: nat, a: Address)
    requires Ok(net) && IsCanonicalOf(net, x, a)
    ensures CanonicalPort(net.rows, x) == Some(a.port) && CanonicalFromControl(net.rows, x) == a.fromControl
    ensures forall b | IsCanonicalOf(net, x, b) :: b == a
  {
    OneCanonical(net, x, a);
    FlagOfCanonical(net, x, a);
    forall b | IsCanonicalOf(net, x, b)
      ensures b == a
    {
      assert RowOk(net, a) && RowOk(net, b);
      SameAddress(net, a, b);
    }
  }

  /** An update is accepted exactly if its port, its flag and its peers are. */
  lemma UpdateAcceptedExactly(k8s: bool, net: Net, x: nat, req: Request)
    requires Ok(net) && x < |net.nodes|
    ensures Valid(k8s, net, Some(x), req) <==>
            && PortAllowed(net, x, req) && FlagAllowed(net, x, req)
            && (req.peers.Some? ==>
                  && NamesOneEach(net.rows, req.peers.value) && NamesNoneOfItsOwn(net, x, req.peers.value)
                  && (net.nodes[x].managed || !k8s ==> NamesItsPeers(net, x, req.peers.value)))
  {
    if req.peers.Some? {
      PeersAcceptedExactly(k8s, net, x, req.peers.value);
    }
    PortAllowedIs(net, x, req);
    FlagAllowedIs(net, x, req);
  }

  lemma NoCanonicalIs(net: Net, x: nat)
    ensures CanonicalPort(net.rows, x).None? <==> forall a :: !IsCanonicalOf(net, x, a)
  {
    if CanonicalPort(net.rows, x).Some? {
      var a :| a in net.rows && a.owner == x && a.canonical;
      assert IsCanonicalOf(net, x, a);
    } else {
      forall a
        ensures !IsCanonicalOf(net, x, a)
      {
      }
    }
  }

  lemma PortAllowedIs(net: Net, x: nat, req: Request)
    requires Ok(net) && x < |net.nodes|
    ensures PortValid(net, x, req.port) <==> PortAllowed(net, x, req)
  {
    NoCanonicalIs(net, x);
    if a :| IsCanonicalOf(net, x, a) {
      CanonicalIs(net, x, a);
    }
  }

  lemma FlagAllowedIs(net: Net, x: nat, req: Request)
    requires Ok(net) && x < |net.nodes|
    ensures FlagValid(net, Some(x), req) <==> FlagAllowed(net, x, req)
  {
    NoCanonicalIs(net, x);
    if a :| IsCanonicalOf(net, x, a) {
      CanonicalIs(net, x, a);
    }
  }

  /** A creation is accepted exactly if it names one address each of other instances and does not ask
      control nodes to peer in while its port is null. */
  lemma CreateAcceptedExactly(k8s: bool, net: Net, req: Request)
    requires Ok(net)
    ensures Valid(k8s, net, None, req) <==>
            && (req.peers.Some? ==> NamesOneEach(net.rows, req.peers.value))
            && !(req.fromControl == Some(true) && req.port == Null)
  {
    if req.peers.Some? {
      NewPeersAcceptedExactly(k8s, net, req.peers.value);
    }
  }

  /** An accepted update of a managed instance, or outside Kubernetes, names its peers as they are. */
  lemma ManagedKeepsPeers(k8s: bool, net: Net, x: nat, req: Request)
    requires Ok(net) && x < |net.nodes| && Valid(k8s, net, Some(x), req) && req.peers.Some?
    requires net.nodes[x].managed || !k8s
    ensures forall p: nat :: p in req.peers.value <==> (x, p) in net.links
  {
    PeersAcceptedExactly(k8s, net, x, req.peers.value);
  }

  /******* What is stored *******/

  /** The update writes the instance's address: it asks for a port, or control nodes to peer or not to a
      port in use. */
  ghost predicate Writes(net: Net, x: nat, req: Request) {
    AsksForPort(req)
    || (req.port != Null && req.fromControl.Some? && exists a :: IsCanonicalOf(net, x, a) && a.port != 0)
  }

  ghost predicate IsAt(a: Address, x: nat, host: string) {
    a.owner == x && a.address == host
  }

  lemma WritesIs(net: Net, x: nat, req: Request)
    requires Ok(net) && req.port != Null
    ensures SavesAddress(net, x, req) <==> Writes(net, x, req)
  {
    if a :| IsCanonicalOf(net, x, a) {
      CanonicalIs(net, x, a);
    }
  }

  /** The address as it is written over the one there was, or as new: the port and flag asked for, else
      those there were, else 27199 and no. */
  ghost predicate IsWrittenOver(net: Net, x: nat, host: string, req: Request, old1: Option<Address>, a: Address) {
    && a.owner == x && a.address == host && a.canonical
    && a.pk == (if old1.Some? then old1.value.pk else net.nextPk)
    && a.port == (if AsksForPort(req) then req.port.n else if old1.Some? then old1.value.port else 27199)
    && a.fromControl == (if req.fromControl.Some? then req.fromControl.value
                         else old1.Some? && old1.value.fromControl)
  }

  /** The address at the instance's host name, if there is one. */
  ghost predicate IsOld(net: Net, x: nat, host: string, old1: Option<Address>) {
    if old1.Some? then old1.value in net.rows && IsAt(old1.value, x, host)
    else forall a | a in net.rows :: !IsAt(a, x, host)
  }

  lemma OldIs(net: Net, x: nat, host: string, old1: Option<Address>)
    requires RowsUnique(net.rows) && IsOld(net, x, host, old1)
    ensures RowAt(net.rows, x, host) == old1
  {
    if old1.Some? {
      SameRowAt(net.rows, old1.value, RowAt(net.rows, x, host).value);
    }
  }

  lemma SameRowAt(rows: seq<Address>, a: Address, b: Address)
    requires RowsUnique(rows) && a in rows && b in rows && a.address == b.address
    ensures a == b
  {
  }

  lemma StoredRows(net: Net, a: Address, old1: Option<Address>, b: Address)
    requires Ok(net) && CanStore(net, a) && IsOld(net, a.owner, a.address, old1)
    requires old1.Some? ==> old1.value.pk == a.pk
    requires old1.None? ==> a.pk == net.nextPk
    ensures b in Store(net, a).rows <==> b == a || (b in net.rows && Some(b) != old1)
  {
    if old1.Some? {
      RowFinds(net.rows, old1.value);
      ReplaceRowIs(net.rows, a);
      var rows1 := ReplaceRow(net.rows, a);
      var j :| 0 <= j < |net.rows| && net.rows[j] == old1.value;
      assert rows1[j] == a;
      if b in net.rows && b != old1.value {
        var i :| 0 <= i < |net.rows| && net.rows[i] == b;
        assert RowsApart(net.rows[if i < j then i else j], net.rows[if i < j then j else i]);
        assert rows1[i] == b;
      }
      if b in rows1 && b != a {
        var i :| 0 <= i < |rows1| && rows1[i] == b;
        assert net.rows[i] == b && i != j;
        assert RowsApart(net.rows[if i < j then i else j], net.rows[if i < j then j else i]);
      }
    }
  }

  /** The addresses after an update that does not take the port away, or a creation once the instance is
      there: where the address is written it replaces the one at the host name, and all others are as
      they were; it cannot be written exactly where another instance has an address of that name. */
  lemma AddressesAfterSave(net: Net, x: nat, req: Request, old1: Option<Address>, b: Address)
    requires Ok(net) && x < |net.nodes| && req.port != Null && IsOld(net, x, net.nodes[x].hostname, old1)
    ensures var host := net.nodes[x].hostname;
            && (SaveAddress(net, x, req).None? <==>
                  Writes(net, x, req) && old1.None? && exists a :: a in net.rows && a.address == host)
            && (SaveAddress(net, x, req).Some? ==>
                  (b in SaveAddress(net, x, req).value.rows <==>
                     if Writes(net, x, req)
                     then IsWrittenOver(net, x, host, req, old1, b) || (b in net.rows && Some(b) != old1)
                     else b in net.rows))
  {
    var host := net.nodes[x].hostname;
    WritesIs(net, x, req);
    OldIs(net, x, host, old1);
    if SavesAddress(net, x, req) && Canonical(net, x, host, PortOf(req), req.fromControl).Some? {
      CanonicalCanStore(net, x, PortOf(req), req.fromControl);
      StoredRows(net, Canonical(net, x, host, PortOf(req), req.fromControl).value, old1, b);
    }
  }

  /** After an update that takes the port away all addresses but the one at the host name are there. */
  lemma AddressesAfterNull(net: Net, x: nat, req: Request, b: Address)
    requires Ok(net) && x < |net.nodes| && req.port == Null
    ensures Update(net, x, req).Some?
    ensures b in Update(net, x, req).value.rows <==> b in net.rows && !IsAt(b, x, net.nodes[x].hostname)
  {
    var host := net.nodes[x].hostname;
    var net1 := Delete(net, x, host);
    DeleteOk(net, x, host);
    DeletedNone(net, x, host);
    RowsWithoutAre(net.rows, x, host, b);
    assert forall a | a in net1.rows :: RowOk(net1, a);
    assert CanonicalPort(net1.rows, x).None?;
  }

  /** A node control nodes are: of type control or hybrid. */
  ghost predicate IsControlKind(net: Net, x: nat) {
    x < |net.nodes| && net.nodes[x].kind in {Control, Hybrid}
  }

  /** The links after an update that does not take the port away: where the address is written, control
      nodes link to it exactly if it says so; otherwise the instance links to the peers it names, if it
      names any, and every other link is as it was. */
  lemma LinksAfterUpdate(net: Net, x: nat, req: Request, b: Address, l: (nat, nat))
    requires Ok(net) && x < |net.nodes| && req.port != Null && Update(net, x, req).Some?
    requires b in Update(net, x, req).value.rows && IsAt(b, x, net.nodes[x].hostname)
    requires Ok(Update(net, x, req).value)
    ensures l in Update(net, x, req).value.links <==>
            if Writes(net, x, req) && IsControlKind(net, l.0) && l.1 == b.pk then b.fromControl
            else if l.0 == x && req.peers.Some? then l.1 in req.peers.value
            else l in net.links
  {
    var host := net.nodes[x].hostname;
    var net1 := Update(net, x, req).value;
    WritesIs(net, x, req);
    LinksAfterSave(net, x, req, l);
    SameRowAt(net1.rows, b, RowAt(net1.rows, x, host).value);
    if SavesAddress(net, x, req) {
      var net0 := WriteInstance(net, x, req);
      CanonicalFlag(net, x, req);
      var a := Canonical(net, x, host, PortOf(req), req.fromControl).value;
      assert Canonical(net0, x, host, PortOf(req), req.fromControl) == Some(a);
      SavedRow(net0, a, x, host);
    }
  }

  /** Where it is not written, nothing but the peers named changes. */
  lemma LinksUnwritten(net: Net, x: nat, req: Request, l: (nat, nat))
    requires Ok(net) && x < |net.nodes| && req.port != Null && !Writes(net, x, req)
    ensures Update(net, x, req).Some?
    ensures l in Update(net, x, req).value.links <==>
            if l.0 == x && req.peers.Some? then l.1 in req.peers.value else l in net.links
  {
    WritesIs(net, x, req);
    assert CanonicalPort(WriteInstance(net, x, req).rows, x) == CanonicalPort(net.rows, x);
  }

  /** A creation is the update of the instance once it is there. */
  lemma CreateIsUpdate(net: Net, node: Node, req: Request)
    requires Ok(net)
    ensures Create(net, node, req) == Update(net.(nodes := net.nodes + [node]), |net.nodes|, req)
  {
    assert forall a | a in net.rows :: RowOk(net, a);
  }

  /** The requests the endpoint goes through with: creations of execution and hop nodes on Kubernetes,
      under names not in use, and updates, each with what it asks for accepted. */
  lemma RequestsAccepted(k8s: bool, net: Net, op: Op)
    ensures Accepted(k8s, net, op) <==>
            if op.Make? then
              && k8s && op.node.kind in {Execution, Hop}
              && (forall n | n in net.nodes :: n.hostname != op.node.hostname)
              && Valid(k8s, net, None, op.req)
            else op.x < |net.nodes| && Valid(k8s, net, Some(op.x), op.req)
  {
  }
}
