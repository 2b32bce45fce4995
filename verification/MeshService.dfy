/**
 The instance endpoint's save, table by table, as one transaction.
 */
module MeshService {
  import opened Helpers
  import opened Mesh

  class MeshTables {
    var nodes: seq<Node>
    var rows: seq<Address>
    var links: set<(nat, nat)>
    var nextPk: nat

    constructor ()
      ensures State() == Net([], [], {}, 0)
    {
      nodes, rows, links, nextPk := [], [], {}, 0;
    }

    function State(): Net
      reads this
    {
      Net(nodes, rows, links, nextPk)
    }

    /** The checks on a list of peers, in the order they are made. */
    method ValidatePeers(k8s: bool, x: Option<nat>, value: seq<nat>) returns (ok: bool)
      requires x.Some? ==> x.value < |nodes|
      ensures ok <==> PeersValid(k8s, State(), x, value)
    {
      if !Exist(rows, value) || !OneEach(rows, value) {
        return false;
      }
      if x.None? {
        return true;
      }
      if !PeersUnchanged(State(), x.value, value) && (!k8s || nodes[x.value].managed) {
        return false;
      }
      var i := 0;
      while i < |value|
        invariant i <= |value| && forall j :: 0 <= j < i ==> OwnerOf(rows, value[j]) != x
      {
        if OwnerOf(rows, value[i]) == x {
          return false;
        }
        i := i + 1;
      }
      i := 0;
      while i < |value|
        invariant i <= |value| && forall j :: 0 <= j < i ==> !IsPeeredBack(State(), x.value, value[j])
      {
        if IsPeeredBack(State(), x.value, value[i]) {
          return false;
        }
        i := i + 1;
      }
      return true;
    }

    /** Creates an instance or updates one; a save the tables refuse leaves them as they were. */
    method CreateOrUpdate(obj: Option<nat>, node: Node, req: Request) returns (ok: bool)
      requires obj.Some? ==> obj.value < |nodes|
      modifies this
      ensures var done := if obj.Some? then Update(old(State()), obj.value, req) else Create(old(State()), node, req);
              ok == done.Some? && State() == if ok then done.value else old(State())
    {
      var savedNodes, savedRows, savedLinks, savedPk := nodes, rows, links, nextPk;
      var port := if req.port == Absent then Number(MISSING) else req.port;
      var x := if obj.Some? then obj.value else |nodes|;
      if obj.Some? && port == Null {
        DeleteAddress(x, nodes[x].hostname);
      }
      if obj.None? {
        nodes := nodes + [node];
      }
      if req.peers.Some? {
        ReplacePeers(x, req.peers.value);
      }
      ok := true;
      if (port != Null && port != Number(MISSING)) || IsTruthy(CanonicalPort(rows, x)) {
        if port != Number(MISSING) || req.fromControl.Some? {
          ok := UpdateOrCreateAddress(x, nodes[x].hostname, port, req.fromControl);
          if !ok {
            nodes, rows, links, nextPk := savedNodes, savedRows, savedLinks, savedPk;
          }
        }
      }
    }

    method DeleteAddress(x: nat, address: string)
      modifies this`rows, this`links
      ensures State() == Delete(old(State()), x, address)
    {
      var dropped := RowAt(rows, x, address);
      if dropped.Some? {
        var kept := [];
        var i := 0;
        while i < |rows|
          invariant i <= |rows| && kept == RowsWithout(rows[..i], x, address) && rows == old(rows)
          invariant links == old(links)
        {
          assert rows[..i + 1][..i] == rows[..i];
          if !IsDropped(rows[i], x, address) {
            kept := kept + [rows[i]];
          }
          i := i + 1;
        }
        assert rows[..i] == rows;
        rows := kept;
        links := set l | l in links && l.1 != dropped.value.pk;
      }
    }

    method ReplacePeers(x: nat, value: seq<nat>)
      modifies this`links
      ensures State() == SetPeers(old(State()), x, value)
    {
      links := set l | l in links && l.0 != x;
      var i := 0;
      while i < |value|
        invariant i <= |value|
        invariant forall l :: l in links <==> (l in old(links) && l.0 != x) || (l.0 == x && l.1 in value[..i])
      {
        links := links + {(x, value[i])};
        i := i + 1;
      }
      assert value[..i] == value;
    }

    /** Writes an instance's canonical row, making it if it is not there, and lets the control nodes
        peer to it or not. */
    method UpdateOrCreateAddress(x: nat, host: string, port: PortArg, fromControl: Option<bool>) returns (ok: bool)
      modifies this`rows, this`links, this`nextPk
      ensures var a := Canonical(old(State()), x, host, port, fromControl);
              ok == a.Some?
              && State() == if ok then AddressSaved(Store(old(State()), a.value), a.value) else old(State())
    {
      var canonical := Canonical(State(), x, host, port, fromControl);
      if canonical.None? {
        return false;
      }
      var a := canonical.value;
      SaveRow(a);
      ReceptorAddressSaved(a);
      ok := true;
    }

    method SaveRow(a: Address)
      modifies this`rows, this`nextPk
      ensures State() == Store(old(State()), a)
    {
      if Row(rows, a.pk).Some? {
        var i := 0;
        while i < |rows|
          invariant i <= |rows| == |old(rows)| && nextPk == old(nextPk)
          invariant forall k | 0 <= k < |rows| ::
                    rows[k] == if k < i && old(rows)[k].pk == a.pk then a else old(rows)[k]
        {
          if rows[i].pk == a.pk {
            rows := rows[i := a];
          }
          i := i + 1;
        }
        ReplaceRowIs(old(rows), a);
        assert rows == ReplaceRow(old(rows), a);
      } else {
        rows, nextPk := rows + [a], a.pk + 1;
      }
    }

    /** Every control node is peered to a saved address that asks for it, and to no other. */
    method ReceptorAddressSaved(a: Address)
      modifies this`links
      ensures State() == AddressSaved(old(State()), a)
    {
      var c := 0;
      while c < |nodes|
        invariant c <= |nodes|
        invariant forall l :: l in links <==>
                    if l.1 == a.pk && l.0 < c && IsControl(nodes, l.0) then a.fromControl else l in old(links)
      {
        if IsControl(nodes, c) {
          links := if a.fromControl then links + {(c, a.pk)} else links - {(c, a.pk)};
        }
        c := c + 1;
      }
    }
  }
}
