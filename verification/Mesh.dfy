/**
 The receptor mesh as the instance endpoint edits it: instances, their addresses, and which
 addresses each instance peers to.
 */
module Mesh {
  import opened Helpers

  /******* State *******/

  datatype NodeType = Control | Hybrid | Execution | Hop

  datatype Node = Node(hostname: string, kind: NodeType, managed: bool)

  datatype Address = Address(pk: nat, address: string, port: int, canonical: bool, fromControl: bool, owner: nat)

  /** `(x, a)` is a link from instance `x` to the address with key `a`. */
  datatype Net = Net(nodes: seq<Node>, rows: seq<Address>, links: set<(nat, nat)>, nextPk: nat)

  const DEFAULT_PORT := 27199

  function Row(rows: seq<Address>, pk: nat): (r: Option<Address>)
    ensures r.Some? ==> r.value in rows && r.value.pk == pk
    ensures r.None? ==> forall a | a in rows :: a.pk != pk
  {
    if rows == [] then None
    else
      var n := |rows| - 1;
      if rows[n].pk == pk then Some(rows[n]) else Row(rows[..n], pk)
  }

  /** The row of an instance at an address. */
  function RowAt(rows: seq<Address>, owner: nat, address: string): (r: Option<Address>)
    ensures r.Some? ==> r.value in rows && r.value.owner == owner && r.value.address == address
    ensures r.None? ==> forall a | a in rows :: !(a.owner == owner && a.address == address)
  {
    if rows == [] then None
    else
      var n := |rows| - 1;
      if rows[n].owner == owner && rows[n].address == address then Some(rows[n]) else RowAt(rows[..n], owner, address)
  }

  /** The port of an instance's first canonical address. */
  function CanonicalPort(rows: seq<Address>, owner: nat): (r: Option<int>)
    ensures r.Some? ==> exists a :: a in rows && a.owner == owner && a.canonical && a.port == r.value
    ensures r.None? <==> forall a | a in rows && a.owner == owner :: !a.canonical
  {
    if rows == [] then None
    else if rows[0].owner == owner && rows[0].canonical then Some(rows[0].port)
    else CanonicalPort(rows[1..], owner)
  }

  /** Whether control nodes are to peer to an instance's first canonical address. */
  function CanonicalFromControl(rows: seq<Address>, owner: nat): (r: bool)
    ensures r ==> exists a :: a in rows && a.owner == owner && a.canonical && a.fromControl
  {
    if rows == [] then false
    else if rows[0].owner == owner && rows[0].canonical then rows[0].fromControl
    else CanonicalFromControl(rows[1..], owner)
  }

  /** The instance an address belongs to. */
  function OwnerOf(rows: seq<Address>, pk: nat): Option<nat> {
    var r := Row(rows, pk);
    if r.Some? then Some(r.value.owner) else None
  }

  predicate IsControl(nodes: seq<Node>, x: nat) {
    x < |nodes| && (nodes[x].kind == Control || nodes[x].kind == Hybrid)
  }

  /******* Requests *******/

  /** A port may be left out, null, or a number. */
  datatype PortArg = Absent | Null | Number(n: int)

  /** The fields of a request that concern the mesh. */
  datatype Request = Request(port: PortArg, fromControl: Option<bool>, peers: Option<seq<nat>>)

  /** The number a missing port stands for. */
  const MISSING := -1

  function PortOf(req: Request): PortArg {
    if req.port == Absent then Number(MISSING) else req.port
  }

  predicate IsTruthy(port: Option<int>) {
    port.Some? && port.value != 0
  }

  /******* Checks *******/

  predicate Exist(rows: seq<Address>, value: seq<nat>) {
    forall p | p in value :: Row(rows, p).Some?
  }

  /** No two of the peers belong to one instance. */
  predicate OneEach(rows: seq<Address>, value: seq<nat>) {
    forall i, j :: 0 <= i < j < |value| ==> !SameOwner(rows, value[i], value[j])
  }

  predicate SameOwner(rows: seq<Address>, p: nat, q: nat) {
    OwnerOf(rows, p).Some? && OwnerOf(rows, p) == OwnerOf(rows, q)
  }

  predicate PeersUnchanged(net: Net, x: nat, value: seq<nat>) {
    (forall l | l in net.links && l.0 == x :: l.1 in value) && (forall p | p in value :: (x, p) in net.links)
  }

  /** `p`'s instance peers to an address of `x`. */
  predicate IsPeeredBack(net: Net, x: nat, p: nat) {
    exists l :: l in net.links && OwnerOf(net.rows, l.1) == Some(x) && OwnerOf(net.rows, p) == Some(l.0)
  }

  predicate PeersValid(k8s: bool, net: Net, x: Option<nat>, value: seq<nat>) {
    && Exist(net.rows, value) && OneEach(net.rows, value)
    && (x.Some? && x.value < |net.nodes| ==>
          && (PeersUnchanged(net, x.value, value) || (k8s && !net.nodes[x.value].managed))
          && (forall p | p in value :: OwnerOf(net.rows, p) != x)
          && (forall p | p in value :: !IsPeeredBack(net, x.value, p)))
  }

  predicate PortValid(net: Net, x: nat, port: PortArg)
    requires x < |net.nodes|
  {
    var current := CanonicalPort(net.rows, x);
    && !(port.Number? && port.n != 0 && IsTruthy(current) && current != Some(port.n))
    && (net.nodes[x].managed && port != Absent ==> (if port.Null? then current.None? else current == Some(port.n)))
  }

  predicate FlagValid(net: Net, x: Option<nat>, req: Request)
    requires x.Some? ==> x.value < |net.nodes|
  {
    && (x.Some? && net.nodes[x.value].managed && req.fromControl.Some? ==>
          req.fromControl.value == CanonicalFromControl(net.rows, x.value))
    && (req.fromControl == Some(true) ==>
          && req.port != Null
          && !(PortOf(req) == Number(MISSING) && x.Some? && CanonicalPort(net.rows, x.value).None?))
  }

  predicate Valid(k8s: bool, net: Net, x: Option<nat>, req: Request) {
    && (x.Some? ==> x.value < |net.nodes| && PortValid(net, x.value, req.port))
    && (req.peers.Some? ==> PeersValid(k8s, net, x, req.peers.value))
    && FlagValid(net, x, req)
  }

  /******* Writing *******/

  predicate IsDropped(a: Address, x: nat, address: string) {
    a.owner == x && a.address == address
  }

  function RowsWithout(rows: seq<Address>, x: nat, address: string): seq<Address> {
    if rows == [] then []
    else
      var n := |rows| - 1;
      RowsWithout(rows[..n], x, address) + if IsDropped(rows[n], x, address) then [] else [rows[n]]
  }

  /** Deletes an instance's row at an address, and the links to it. */
  function Delete(net: Net, x: nat, address: string): Net {
    var dropped := RowAt(net.rows, x, address);
    if dropped.None? then net
    else net.(rows := RowsWithout(net.rows, x, address), links := set l | l in net.links && l.1 != dropped.value.pk)
  }

  function SetPeers(net: Net, x: nat, value: seq<nat>): Net {
    net.(links := (set l | l in net.links && l.0 != x) + (set p | p in value :: (x, p)))
  }

  function Controls(nodes: seq<Node>): set<nat> {
    set c: nat | c < |nodes| && IsControl(nodes, c)
  }

  /** Saving an address peers every control node to it, or none. */
  function AddressSaved(net: Net, a: Address): Net {
    var automatic := set c | c in Controls(net.nodes) :: (c, a.pk);
    net.(links := if a.fromControl then net.links + automatic else net.links - automatic)
  }

  function ReplaceRow(rows: seq<Address>, a: Address): seq<Address> {
    if rows == [] then []
    else
      var n := |rows| - 1;
      ReplaceRow(rows[..n], a) + [if rows[n].pk == a.pk then a else rows[n]]
  }

  predicate AddressTaken(rows: seq<Address>, address: string) {
    exists a :: a in rows && a.address == address
  }

  /** The canonical row a save writes, unless the stored constraints forbid it. */
  function Canonical(net: Net, x: nat, host: string, port: PortArg, fromControl: Option<bool>): Option<Address> {
    if port.Null? then None
    else
      var flag := (was: bool) => if fromControl.Some? then fromControl.value else was;
      var number := (was: int) => if port == Number(MISSING) || port == Absent then was else port.n;
      match RowAt(net.rows, x, host)
      case Some(a) => Some(a.(port := number(a.port), fromControl := flag(a.fromControl), canonical := true))
      case None =>
        if AddressTaken(net.rows, host) then None
        else Some(Address(net.nextPk, host, number(DEFAULT_PORT), true, flag(false), x))
  }

  function Store(net: Net, a: Address): Net {
    if Row(net.rows, a.pk).Some? then net.(rows := ReplaceRow(net.rows, a))
    else net.(rows := net.rows + [a], nextPk := a.pk + 1)
  }

  predicate SavesAddress(net: Net, x: nat, req: Request) {
    && ((PortOf(req) != Null && PortOf(req) != Number(MISSING)) || IsTruthy(CanonicalPort(net.rows, x)))
    && (PortOf(req) != Number(MISSING) || req.fromControl.Some?)
  }

  /** What follows once the instance itself has been written; `None` is a failed save. */
  function SaveAddress(net: Net, x: nat, req: Request): Option<Net>
    requires x < |net.nodes|
  {
    if !SavesAddress(net, x, req) then Some(net)
    else
      match Canonical(net, x, net.nodes[x].hostname, PortOf(req), req.fromControl)
      case None => None
      case Some(a) => Some(AddressSaved(Store(net, a), a))
  }

  /** An instance written, its peers replaced if the request names any. */
  function WriteInstance(net: Net, x: nat, req: Request): Net {
    if req.peers.Some? then SetPeers(net, x, req.peers.value) else net
  }

  function Update(net: Net, x: nat, req: Request): Option<Net>
    requires x < |net.nodes|
  {
    var net1 := if req.port.Null? then Delete(net, x, net.nodes[x].hostname) else net;
    SaveAddress(WriteInstance(net1, x, req), x, req)
  }

  predicate HostTaken(nodes: seq<Node>, hostname: string) {
    exists n :: n in nodes && n.hostname == hostname
  }

  function Create(net: Net, node: Node, req: Request): Option<Net> {
    var x := |net.nodes|;
    SaveAddress(WriteInstance(net.(nodes := net.nodes + [node]), x, req), x, req)
  }

  /******* Well-formed states *******/

  predicate RowsApart(a: Address, b: Address) {
    a.pk != b.pk && a.address != b.address
  }

  ghost predicate RowsUnique(rows: seq<Address>) {
    forall i, j :: 0 <= i < j < |rows| ==> RowsApart(rows[i], rows[j])
  }

  /** Keys and addresses are unique, canonical addresses are at their instance's host name, and
      links join what exists. */
  ghost predicate Ok(net: Net) {
    && RowsUnique(net.rows)
    && (forall a | a in net.rows :: RowOk(net, a))
    && (forall l | l in net.links :: l.0 < |net.nodes| && Row(net.rows, l.1).Some?)
  }

  ghost predicate RowOk(net: Net, a: Address) {
    a.pk < net.nextPk && a.owner < |net.nodes| && (a.canonical ==> a.address == net.nodes[a.owner].hostname)
  }

  /** Two links lead back and forth between two instances, or one leads from an instance to itself. */
  predicate IsMutual(rows: seq<Address>, l: (nat, nat), k: (nat, nat)) {
    OwnerOf(rows, l.1) == Some(k.0) && OwnerOf(rows, k.1) == Some(l.0)
  }

  predicate IsDouble(rows: seq<Address>, l: (nat, nat), k: (nat, nat)) {
    l != k && l.0 == k.0 && SameOwner(rows, l.1, k.1)
  }

  /** No instance peers to its own address, no two peer to each other, and none peers to two
      addresses of one instance. */
  ghost predicate Sound(net: Net) {
    forall l, k | l in net.links && k in net.links :: !IsMutual(net.rows, l, k) && !IsDouble(net.rows, l, k)
  }

  /******* Rows *******/

  lemma {:induction false} RowFinds(rows: seq<Address>, a: Address)
    requires a in rows && RowsUnique(rows)
    ensures Row(rows, a.pk) == Some(a)
    decreases |rows|
  {
  }

  lemma {:induction false} RowsWithoutAre(rows: seq<Address>, x: nat, address: string, a: Address)
    ensures a in RowsWithout(rows, x, address) <==> a in rows && !IsDropped(a, x, address)
    decreases |rows|
  {
    if rows != [] {
      var n := |rows| - 1;
      RowsWithoutAre(rows[..n], x, address, a);
      assert rows == rows[..n] + [rows[n]];
    }
  }

  lemma {:induction false} RowsWithoutApart(rows: seq<Address>, x: nat, address: string)
    requires RowsUnique(rows)
    ensures RowsUnique(RowsWithout(rows, x, address))
    decreases |rows|
  {
    if rows != [] {
      var n := |rows| - 1;
      RowsWithoutApart(rows[..n], x, address);
      var kept := RowsWithout(rows[..n], x, address);
      forall i | 0 <= i < |kept|
        ensures RowsApart(kept[i], rows[n])
      {
        assert kept[i] in kept;
        RowsWithoutAre(rows[..n], x, address, kept[i]);
        var k :| 0 <= k < n && rows[k] == kept[i];
        assert RowsApart(rows[k], rows[n]);
      }
    }
  }

  lemma {:induction false} ReplaceRowIs(rows: seq<Address>, a: Address)
    ensures var rows1 := ReplaceRow(rows, a);
            |rows1| == |rows| && forall i | 0 <= i < |rows| :: rows1[i] == if rows[i].pk == a.pk then a else rows[i]
    decreases |rows|
  {
    if rows != [] {
      ReplaceRowIs(rows[..|rows| - 1], a);
    }
  }

  lemma RowLast(rows: seq<Address>, a: Address, pk: nat)
    ensures Row(rows + [a], pk) == if a.pk == pk then Some(a) else Row(rows, pk)
  {
  }

  /** Storing a row changes what its key finds, and nothing else. */
  lemma {:induction false} StoreFinds(rows: seq<Address>, a: Address, pk: nat)
    ensures Row(ReplaceRow(rows, a), pk) == if pk == a.pk && Row(rows, pk).Some? then Some(a) else Row(rows, pk)
    decreases |rows|
  {
    if rows != [] {
      var n := |rows| - 1;
      StoreFinds(rows[..n], a, pk);
      ReplaceRowIs(rows[..n], a);
      RowLast(ReplaceRow(rows[..n], a), if rows[n].pk == a.pk then a else rows[n], pk);
    }
  }
}
