/** The registries as the host keeps them: objects whose fields the handlers and the liveness monitor change. */
module RegistryServer {
  import opened Wrappers
  import R = Registries

  class CapabilityInventory {
    var entries: seq<R.Entry>

    constructor ()
      ensures entries == []
    {
      entries := [];
    }

    method Register(e: R.Entry)
      modifies this
      ensures entries == R.RegisterEntry(old(entries), e)
      ensures forall o :: o in entries <==> o == e || (o in old(entries) && !R.SameSlot(o, e))
      ensures entries != [] && entries[|entries| - 1] == e && R.Subsequence(entries[..|entries| - 1], old(entries))
    {
      forall o: R.Entry ensures o in R.RegisterEntry(entries, e) <==> o == e || (o in entries && !R.SameSlot(o, e)) {
        R.RegisterEntryMember(entries, e, o);
      }
      R.FilterKeepsOrder(entries, (o: R.Entry) => !R.SameSlot(o, e));
      entries := R.Filter(entries, (o: R.Entry) => !R.SameSlot(o, e));
      entries := entries + [e];
    }

    method UnregisterByProvider(kind: string, id: R.Party)
      modifies this
      ensures entries == R.UnregisterByProvider(old(entries), kind, id)
      ensures forall o :: o in entries <==> o in old(entries) && !R.From(o, kind, id)
      ensures R.Subsequence(entries, old(entries))
    {
      var keep := (o: R.Entry) => !R.From(o, kind, id);
      forall o: R.Entry ensures o in R.Filter(entries, keep) <==> o in entries && keep(o) {
        R.FilterMember(entries, keep, o);
      }
      R.FilterKeepsOrder(entries, keep);
      entries := R.Filter(entries, keep);
    }

    /** Every capability of a provider, in order. */
    method RegisterEach(p: R.Provider, ds: seq<R.Descriptor>)
      modifies this
      ensures entries == R.RegisterAll(old(entries), p, ds)
    {
      for i := 0 to |ds|
        invariant entries == R.RegisterAll(old(entries), p, ds[..i])
      {
        assert ds[..i + 1][..i] == ds[..i];
        Register(R.EntryOf(p, ds[i]));
      }
      assert ds[..|ds|] == ds;
    }
  }

  class NodeRegistry {
    var nodes: map<R.Party, R.NodeInfo>

    constructor ()
      ensures nodes == map[]
    {
      nodes := map[];
    }

    method Register(id: R.Party, info: R.NodeInfo)
      modifies this
      ensures nodes == old(nodes)[id := info]
    {
      nodes := nodes[id := info];
    }

    method Unregister(id: R.Party)
      modifies this
      ensures nodes == old(nodes) - {id}
    {
      nodes := nodes - {id};
    }

    method UpdateHeartbeat(id: R.Party, now: nat)
      modifies this
      ensures nodes.Keys == old(nodes).Keys
      ensures forall n :: n in nodes ==> nodes[n] == if n == id then old(nodes)[n].(lastSeen := now) else old(nodes)[n]
    {
      if id in nodes { nodes := nodes[id := nodes[id].(lastSeen := now)]; }
    }

    /** The nodes silent for too long, each once, in some order. */
    method CollectTimedOut(now: nat) returns (ids: seq<R.Party>)
      ensures forall id :: id in ids <==> id in R.Silent(nodes, now)
      ensures forall i, j :: 0 <= i < j < |ids| ==> ids[i] != ids[j]
    {
      ids := [];
      var left := nodes.Keys;
      while left != {}
        invariant left <= nodes.Keys
        invariant forall id :: id in ids <==> id in R.Silent(nodes, now) && id !in left
        invariant forall i, j :: 0 <= i < j < |ids| ==> ids[i] != ids[j]
      {
        var id :| id in left;
        left := left - {id};
        if R.TimedOut(nodes[id], now) { ids := ids + [id]; }
      }
    }
  }

  class Host {
    const config: R.Config
    var peers: map<R.Party, nat>
    var next: nat
    const nodeRegistry: NodeRegistry
    const inventory: CapabilityInventory

    function View(): R.State
      reads this, nodeRegistry, inventory
    {
      R.State(peers, next, nodeRegistry.nodes, inventory.entries)
    }

    constructor (c: R.Config)
      ensures config == c && View() == R.Initial(c) && fresh(nodeRegistry) && fresh(inventory)
    {
      config, peers, next := c, map[], 0;
      nodeRegistry := new NodeRegistry();
      var filled := new CapabilityInventory();
      filled.RegisterEach(R.Provider("host", c.hostId, Some(c.hostName)), c.builtins);
      inventory := filled;
    }

    method Forget(id: R.Party)
      modifies nodeRegistry, inventory
      ensures View() == R.Forget(old(View()), id)
    {
      if id in nodeRegistry.nodes {
        inventory.UnregisterByProvider("node", id);
        nodeRegistry.Unregister(id);
      }
    }

    method HandleNewConnection(id: R.Party, ghost now: nat) returns (conn: nat)
      modifies this, nodeRegistry, inventory
      ensures View() == R.Step(config, old(View()), R.Event(now, R.Connect(id)))
      ensures conn == old(next)
    {
      var existing := id in peers;
      conn := next;
      peers, next := peers[id := conn], next + 1;
      if existing { Forget(id); }
    }

    method HandleRegister(sender: R.Party, nodeId: R.Party, name: string, capabilities: seq<R.Descriptor>, now: nat)
      returns (acknowledged: bool)
      modifies nodeRegistry, inventory
      ensures View() == R.Step(config, old(View()), R.Event(now, R.Register(sender, nodeId, name, capabilities)))
      ensures acknowledged <==> sender in peers && sender in config.allowedNodes && sender == nodeId
    {
      acknowledged := sender in peers && sender in config.allowedNodes && sender == nodeId;
      if acknowledged {
        nodeRegistry.Register(nodeId, R.NodeInfo(name, capabilities, peers[sender], now));
        inventory.RegisterEach(R.NodeProvider(nodeId, name), capabilities);
      }
    }

    method HandleHeartbeat(sender: R.Party, nodeId: R.Party, now: nat)
      modifies nodeRegistry
      ensures View() == R.Step(config, old(View()), R.Event(now, R.Heartbeat(sender, nodeId)))
    {
      if sender in peers && sender in config.allowedNodes && sender == nodeId {
        nodeRegistry.UpdateHeartbeat(nodeId, now);
      }
    }

    method Unlink(id: R.Party, conn: nat)
      modifies this
      ensures View() == R.Unlinked(old(View()), id, conn)
    {
      if id in peers && peers[id] == conn { peers := peers - {id}; }
    }

    /** The end of a connection, which may never have come up. */
    method EndConnection(id: R.Party, conn: nat, connected: bool, ghost now: nat)
      modifies this, nodeRegistry, inventory
      ensures var end := if connected then R.Teardown(id, conn) else R.Abandon(id, conn);
              View() == R.Step(config, old(View()), R.Event(now, end))
    {
      Unlink(id, conn);
      if connected { Forget(id); }
    }

    /** The liveness monitor: whatever order the silent nodes are taken in, they are all forgotten at once. */
    method SweepLiveness(now: nat)
      modifies this, nodeRegistry, inventory
      ensures View() == R.Step(config, old(View()), R.Event(now, R.Sweep))
    {
      var silent := nodeRegistry.CollectTimedOut(now);
      ghost var was := View();
      R.SweptNone(was);
      ghost var done: set<R.Party> := {};
      for i := 0 to |silent|
        invariant View() == R.Swept(was, done)
        invariant forall id :: id in done <==> id in silent[..i]
      {
        R.SweptOneMore(was, done, silent[i]);
        done := done + {silent[i]};
        inventory.UnregisterByProvider("node", silent[i]);
        nodeRegistry.Unregister(silent[i]);
        peers := peers - {silent[i]};
      }
      assert done == R.Silent(was.nodes, now);
    }
  }
}
