/**
 What editing the mesh through the instance endpoint keeps.
 */
module MeshInvariants {
  import opened Helpers
  import opened Mesh

  /******* Deleting the canonical row *******/

  /** Deleting takes away the row's key and every link to it, and leaves the rest. */
  lemma DeleteFinds(net: Net, x: nat, address: string, pk: nat)
    requires Ok(net)
    ensures var net1 := Delete(net, x, address);
            Row(net1.rows, pk) == if Row(net.rows, pk).Some? && IsDropped(Row(net.rows, pk).value, x, address) then None
              else Row(net.rows, pk)
  {
    var rows1 := Delete(net, x, address).rows;
    var r := Row(net.rows, pk);
    if RowAt(net.rows, x, address).Some? {
      RowsWithoutApart(net.rows, x, address);
      if r.Some? {
        RowsWithoutAre(net.rows, x, address, r.value);
        if !IsDropped(r.value, x, address) {
          RowFinds(rows1, r.value);
        }
      }
      if Row(rows1, pk).Some? {
        RowsWithoutAre(net.rows, x, address, Row(rows1, pk).value);
        RowFinds(net.rows, Row(rows1, pk).value);
      }
    }
  }

  lemma DeleteOk(net: Net, x: nat, address: string)
    requires Ok(net)
    ensures Ok(Delete(net, x, address))
  {
    var net1 := Delete(net, x, address);
    var dropped := RowAt(net.rows, x, address);
    if dropped.Some? {
      RowsWithoutApart(net.rows, x, address);
      forall a | a in net1.rows
        ensures RowOk(net1, a)
      {
        RowsWithoutAre(net.rows, x, address, a);
        assert RowOk(net, a);
      }
      forall l | l in net1.links
        ensures l.0 < |net1.nodes| && Row(net1.rows, l.1).Some?
      {
        DeleteFinds(net, x, address, l.1);
        if IsDropped(Row(net.rows, l.1).value, x, address) {
          DroppedIsOne(net, x, address, l.1);
        }
      }
    }
  }

  lemma DroppedIsOne(net: Net, x: nat, address: string, pk: nat)
    requires Ok(net) && RowAt(net.rows, x, address).Some? && Row(net.rows, pk).Some?
    requires IsDropped(Row(net.rows, pk).value, x, address)
    ensures RowAt(net.rows, x, address).value.pk == pk
  {
  }

  lemma DeleteSound(net: Net, x: nat, address: string)
    requires Ok(net) && Sound(net)
    ensures Sound(Delete(net, x, address))
  {
    var net1 := Delete(net, x, address);
    forall l | l in net1.links
      ensures OwnerOf(net1.rows, l.1) == OwnerOf(net.rows, l.1)
    {
      DeleteFinds(net, x, address, l.1);
      if Row(net.rows, l.1).Some? && IsDropped(Row(net.rows, l.1).value, x, address) {
        DroppedIsOne(net, x, address, l.1);
      }
    }
    SoundCarries(net, net1);
  }

  /** Fewer links between the same instances are as sound. */
  lemma SoundCarries(net: Net, net1: Net)
    requires Sound(net) && net1.links <= net.links
    requires forall l | l in net1.links :: OwnerOf(net1.rows, l.1) == OwnerOf(net.rows, l.1)
    ensures Sound(net1)
  {
  }

  /******* Replacing peers *******/

  /** The checks on peers are enough: the new links are sound with one another and with those of
      every other instance. */
  lemma SetPeersSound(net: Net, x: nat, value: seq<nat>)
    requires Sound(net) && Exist(net.rows, value) && OneEach(net.rows, value)
    requires forall p | p in value :: OwnerOf(net.rows, p) != Some(x)
    requires forall p | p in value :: !IsPeeredBack(net, x, p)
    ensures Sound(SetPeers(net, x, value))
  {
  }

  /******* Saving the canonical row *******/

  /** A row that can be stored: it replaces its namesake, or is new at an address of its own. */
  ghost predicate CanStore(net: Net, a: Address) {
    && a.owner < |net.nodes| && (a.canonical ==> a.address == net.nodes[a.owner].hostname)
    && match Row(net.rows, a.pk)
       case Some(was) => was.owner == a.owner && was.address == a.address
       case None => a.pk == net.nextPk && !AddressTaken(net.rows, a.address)
  }

  lemma CanonicalCanStore(net: Net, x: nat, port: PortArg, fromControl: Option<bool>)
    requires Ok(net) && x < |net.nodes| && Canonical(net, x, net.nodes[x].hostname, port, fromControl).Some?
    ensures var a := Canonical(net, x, net.nodes[x].hostname, port, fromControl).value;
            CanStore(net, a) && a.owner == x && a.canonical && a.address == net.nodes[x].hostname
  {
  }

  lemma StoredFinds(net: Net, a: Address, pk: nat)
    requires Ok(net) && CanStore(net, a)
    ensures Row(Store(net, a).rows, pk) == if pk == a.pk then Some(a) else Row(net.rows, pk)
  {
    if Row(net.rows, a.pk).Some? {
      StoreFinds(net.rows, a, pk);
    } else {
      assert (net.rows + [a])[..|net.rows|] == net.rows;
    }
  }

  lemma StoreOk(net: Net, a: Address)
    requires Ok(net) && CanStore(net, a)
    ensures Ok(Store(net, a))
  {
    var net1 := Store(net, a);
    forall l | l in net1.links
      ensures l.0 < |net1.nodes| && Row(net1.rows, l.1).Some?
    {
      StoredFinds(net, a, l.1);
    }
    match Row(net.rows, a.pk)
    case Some(was) => ReplaceOk(net, a);
    case None =>
      forall i | 0 <= i < |net.rows|
        ensures RowsApart(net.rows[i], a) && RowOk(net1, net.rows[i])
      {
        assert RowOk(net, net.rows[i]);
      }
  }

  lemma ReplaceOk(net: Net, a: Address)
    requires Ok(net) && CanStore(net, a) && Row(net.rows, a.pk).Some?
    ensures var net1 := Store(net, a); RowsUnique(net1.rows) && forall b | b in net1.rows :: RowOk(net1, b)
  {
    var net1 := Store(net, a);
    var was := Row(net.rows, a.pk).value;
    ReplaceRowIs(net.rows, a);
    forall i | 0 <= i < |net.rows|
      ensures RowOk(net1, net1.rows[i]) && net1.rows[i].address == net.rows[i].address
      ensures net1.rows[i].pk == net.rows[i].pk
    {
      assert RowOk(net, net.rows[i]) && RowOk(net, was);
      if net.rows[i].pk == a.pk {
        RowFinds(net.rows, net.rows[i]);
      }
    }
    forall i, j | 0 <= i < j < |net1.rows|
      ensures RowsApart(net1.rows[i], net1.rows[j])
    {
      assert RowsApart(net.rows[i], net.rows[j]);
    }
  }

  lemma StoreSound(net: Net, a: Address)
    requires Ok(net) && Sound(net) && CanStore(net, a)
    ensures Sound(Store(net, a))
  {
    forall l | l in net.links
      ensures OwnerOf(Store(net, a).rows, l.1) == OwnerOf(net.rows, l.1)
    {
      StoredFinds(net, a, l.1);
    }
    SoundCarries(net, Store(net, a));
  }

  /** Peering every control node to an address is sound exactly when its instance is not a control
      node, peers to none, and none of them peers to another address of it. */
  ghost predicate CanPeerControls(net: Net, x: nat, address: string) {
    forall c | c in Controls(net.nodes) :: CanPeer(net, c, x, address)
  }

  ghost predicate CanPeer(net: Net, c: nat, x: nat, address: string) {
    && c != x
    && (forall l | l in net.links && l.0 == x :: OwnerOf(net.rows, l.1) != Some(c))
    && (forall l | l in net.links && l.0 == c && OwnerOf(net.rows, l.1) == Some(x) ::
          Row(net.rows, l.1).value.address == address)
  }

  lemma AutomaticIsSound(net: Net, a: Address)
    requires Ok(net) && Sound(net) && Row(net.rows, a.pk) == Some(a) && a.fromControl
    requires CanPeerControls(net, a.owner, a.address)
    ensures Sound(AddressSaved(net, a))
  {
  }

  lemma SameAddress(net: Net, a: Address, b: Address)
    requires Ok(net) && a in net.rows && b in net.rows && a.address == b.address
    ensures a == b
  {
  }

  lemma UnsafeIsUnsound(net: Net, a: Address, c: nat)
    requires Ok(net) && Row(net.rows, a.pk) == Some(a) && a.fromControl && c in Controls(net.nodes)
    requires !CanPeer(net, c, a.owner, a.address)
    ensures !Sound(AddressSaved(net, a))
  {
    var net1 := AddressSaved(net, a);
    var made := (c, a.pk);
    assert made in net1.links;
    if c == a.owner {
      assert IsMutual(net1.rows, made, made);
    } else if l :| l in net.links && l.0 == a.owner && OwnerOf(net.rows, l.1) == Some(c) {
      assert l in net1.links && IsMutual(net1.rows, made, l);
    } else {
      var l :| l in net.links && l.0 == c && OwnerOf(net.rows, l.1) == Some(a.owner)
        && Row(net.rows, l.1).value.address != a.address;
      assert l in net1.links && IsDouble(net1.rows, made, l);
    }
  }

  lemma AddressSavedSound(net: Net, a: Address)
    requires Ok(net) && Sound(net) && Row(net.rows, a.pk) == Some(a)
    ensures Sound(AddressSaved(net, a)) <==> (a.fromControl ==> CanPeerControls(net, a.owner, a.address))
  {
    if !a.fromControl {
      SoundCarries(net, AddressSaved(net, a));
    } else if CanPeerControls(net, a.owner, a.address) {
      AutomaticIsSound(net, a);
    } else {
      var c :| c in Controls(net.nodes) && !CanPeer(net, c, a.owner, a.address);
      UnsafeIsUnsound(net, a, c);
    }
  }

  /******* One request *******/

  /** Whether a request ends with an address saved that control nodes are to peer to. */
  predicate PeersControls(net: Net, x: nat, req: Request)
    requires x < |net.nodes|
  {
    && req.port != Null && SavesAddress(net, x, req)
    && match req.fromControl
       case Some(flag) => flag
       case None =>
         var a := RowAt(net.rows, x, net.nodes[x].hostname);
         a.Some? && a.value.fromControl
  }

  /** The peers an instance has once a request is written. */
  function PeersAfter(net: Net, x: nat, req: Request): set<nat> {
    match req.peers
    case Some(value) => set p | p in value
    case None => set l | l in net.links && l.0 == x :: l.1
  }

  /** What would have to be checked before a request, besides what is: that no control node is the
      instance itself, is peered to by it, or peers to another of its addresses. */
  ghost predicate ControlsApart(net: Net, x: nat, req: Request)
    requires x < |net.nodes|
  {
    forall c | c in Controls(net.nodes) :: ControlApart(net, c, x, req)
  }

  ghost predicate ControlApart(net: Net, c: nat, x: nat, req: Request)
    requires x < |net.nodes|
  {
    && c != x
    && (forall p | p in PeersAfter(net, x, req) :: OwnerOf(net.rows, p) != Some(c))
    && (forall l | l in net.links && l.0 == c && OwnerOf(net.rows, l.1) == Some(x) ::
          Row(net.rows, l.1).value.address == net.nodes[x].hostname)
  }

  ghost predicate PeersOk(net: Net, x: nat, req: Request) {
    req.peers.Some? ==>
      && Exist(net.rows, req.peers.value) && OneEach(net.rows, req.peers.value)
      && (forall p | p in req.peers.value :: OwnerOf(net.rows, p) != Some(x))
      && (forall p | p in req.peers.value :: !IsPeeredBack(net, x, p))
  }

  lemma WriteInstanceKeeps(net: Net, x: nat, req: Request)
    requires Ok(net) && Sound(net) && x < |net.nodes| && PeersOk(net, x, req)
    ensures Ok(WriteInstance(net, x, req)) && Sound(WriteInstance(net, x, req))
  {
  }

  /** The row saved is one control nodes are to peer to exactly when the request says so. */
  lemma CanonicalFlag(net: Net, x: nat, req: Request)
    requires Ok(net) && x < |net.nodes| && SavesAddress(net, x, req)
    requires req.port != Null && Canonical(net, x, net.nodes[x].hostname, PortOf(req), req.fromControl).Some?
    ensures Canonical(net, x, net.nodes[x].hostname, PortOf(req), req.fromControl).value.fromControl <==>
            PeersControls(net, x, req)
  {
  }

  lemma ApartIsCanPeer(net: Net, x: nat, req: Request)
    requires x < |net.nodes|
    requires (req.peers.Some? ==> forall p | p in req.peers.value :: (x, p) in WriteInstance(net, x, req).links)
    ensures (forall c | c in Controls(net.nodes) :: c != x) ==>
              (CanPeerControls(WriteInstance(net, x, req), x, net.nodes[x].hostname) <==> ControlsApart(net, x, req))
  {
  }

  lemma PeersAfterAre(net: Net, x: nat, req: Request)
    ensures forall l | l in WriteInstance(net, x, req).links && l.0 == x :: l.1 in PeersAfter(net, x, req)
    ensures forall p | p in PeersAfter(net, x, req) :: (x, p) in WriteInstance(net, x, req).links
  {
  }
}
