/**
 What a step of the registries does to each node, connection and entry, in the terms of the event itself, and what
 that makes of a whole run: who is registered, and when it was last heard.
 */
module RegistryEffects {
  import opened Registries

  /** The event is a registration that the role gate lets through. */
  predicate Registers(c: Config, s: State, e: Event, id: Party) {
    && e.act.Register? && e.act.nodeId == id && e.act.sender == id
    && id in s.peers && id in c.allowedNodes
  }

  /** The event is the node's own heartbeat, and the node is registered. */
  predicate Beats(c: Config, s: State, e: Event, id: Party) {
    && e.act.Heartbeat? && e.act.nodeId == id && e.act.sender == id
    && id in s.peers && id in c.allowedNodes && id in s.nodes
  }

  /** The event ends the node's registration: it connects again, is torn down, or has been silent for a minute. */
  predicate Leaves(s: State, e: Event, id: Party) {
    match e.act
    case Connect(p) => p == id && id in s.peers
    case Teardown(p, _) => p == id
    case Sweep => id in s.nodes && e.now > s.nodes[id].lastSeen + 60_000
    case _ => false
  }

  /** The event takes the node's connection out of the map: only the connection that is in it does. */
  predicate Unlinks(s: State, e: Event, id: Party) {
    match e.act
    case Abandon(p, conn) => p == id && id in s.peers && s.peers[id] == conn
    case Teardown(p, conn) => p == id && id in s.peers && s.peers[id] == conn
    case Sweep => id in s.nodes && e.now > s.nodes[id].lastSeen + 60_000
    case _ => false
  }

  /** A node is registered after a step when the step registers it, or it was and the step does not end that. */
  lemma NodesExactly(c: Config, s: State, e: Event, id: Party)
    ensures id in Step(c, s, e).nodes <==> Registers(c, s, e, id) || (id in s.nodes && !Leaves(s, e, id))
    ensures Registers(c, s, e, id) ==>
              Step(c, s, e).nodes[id] == NodeInfo(e.act.name, e.act.capabilities, s.peers[id], e.now)
    ensures id in s.nodes && id in Step(c, s, e).nodes && !Registers(c, s, e, id) ==>
              Step(c, s, e).nodes[id] == if Beats(c, s, e, id) then s.nodes[id].(lastSeen := e.now) else s.nodes[id]
  {
    hide RegisterAll, Filter;
    match e.act
    case Register(_, _, _, _) =>
    case Heartbeat(_, _) =>
    case _ =>
  }

  /** A connection is in the map after a step when the step puts it there, or it was and the step does not unlink it. */
  lemma PeersExactly(c: Config, s: State, e: Event, id: Party)
    ensures var s' := Step(c, s, e);
            && (id in s'.peers <==> e.act == Connect(id) || (id in s.peers && !Unlinks(s, e, id)))
            && (id in s'.peers ==> s'.peers[id] == if e.act == Connect(id) then s.next else s.peers[id])
            && s'.next == s.next + if e.act.Connect? then 1 else 0
  {
    hide RegisterAll, Filter;
  }

  /**
   Whatever is not a registration removes the entries of exactly the nodes whose registration it ends, and keeps
   the others in order.
   */
  lemma EntriesExactly(c: Config, s: State, e: Event, o: Entry)
    requires Named(s) && !e.act.Register?
    ensures var s' := Step(c, s, e);
            && (o in s'.entries <==>
                  o in s.entries && !(o.provider.kind == "node" && Leaves(s, e, o.provider.providerId)))
            && Subsequence(s'.entries, s.entries)
  {
    hide Filter, Subsequence;
    SubsequenceOfItself(s.entries);
    match e.act
    case Connect(id) => FilteredOut(s.entries, (x: Entry) => !From(x, "node", id), o);
    case Teardown(id, _) => FilteredOut(s.entries, (x: Entry) => !From(x, "node", id), o);
    case Sweep =>
      var silent := Silent(s.nodes, e.now);
      FilteredOut(s.entries, (x: Entry) => !FromAny(x, silent), o);
    case _ =>
  }

  lemma FilteredOut(q: seq<Entry>, keep: Entry -> bool, o: Entry)
    ensures o in Filter(q, keep) <==> o in q && keep(o)
    ensures Subsequence(Filter(q, keep), q)
  {
    FilterMember(q, keep, o);
    FilterKeepsOrder(q, keep);
  }

  lemma {:induction false} SubsequenceOfItself(q: seq<Entry>)
    ensures Subsequence(q, q)
  {
    if q != [] { SubsequenceOfItself(q[..|q| - 1]); }
  }

  /** A registration that is refused changes nothing; one that is accepted gives each capability its last word. */
  lemma RegistrationExactly(c: Config, s: State, e: Event, o: Entry)
    requires e.act.Register?
    ensures var s' := Step(c, s, e);
            var p, ds := NodeProvider(e.act.nodeId, e.act.name), e.act.capabilities;
            if Registers(c, s, e, e.act.nodeId)
            then o in s'.entries <==>
                   || (o.provider == p && o.availability == "available"
                       && exists k :: LastOf(ds, k) && o.descriptor == ds[k])
                   || (o in s.entries && !(o.provider == p && Mentions(ds, o.descriptor.id)))
            else s' == s
  {
    hide RegisterAll, Mentions, LastOf;
    var p, ds := NodeProvider(e.act.nodeId, e.act.name), e.act.capabilities;
    RegisterAllMember(s.entries, p, ds, o);
    LastWordMeaning(p, ds, o);
    LastOfInRange(ds);
  }

  lemma LastOfInRange(ds: seq<Descriptor>)
    ensures forall k :: LastOf(ds, k) ==> 0 <= k < |ds|
  {}

  // ----- Over runs -----

  /** The n-th event of the run registers the node, and no later one ends that registration. */
  predicate RegisteredAt(c: Config, es: seq<Event>, id: Party, n: nat) {
    && n < |es| && Registers(c, Run(c, es[..n]), es[n], id)
    && forall m :: n < m < |es| ==> !Leaves(Run(c, es[..m]), es[m], id)
  }

  lemma RegisteredAtOn(c: Config, es: seq<Event>, id: Party, n: nat)
    requires es != []
    ensures var front := es[..|es| - 1];
            RegisteredAt(c, es, id, n) <==>
              || (n == |front| && Registers(c, Run(c, front), es[n], id))
              || (RegisteredAt(c, front, id, n) && !Leaves(Run(c, front), es[|front|], id))
  {
    hide Run, Registers, Leaves;
    var front := es[..|es| - 1];
    assert forall m :: 0 <= m <= |front| ==> front[..m] == es[..m];
  }

  /** A node is registered exactly when some accepted registration of it has not been ended since. */
  lemma {:induction false} RegisteredExactly(c: Config, es: seq<Event>, id: Party)
    ensures id in Run(c, es).nodes <==> exists n: nat :: RegisteredAt(c, es, id, n)
  {
    hide Step, Registers, Leaves;
    if es != [] {
      var front, e := es[..|es| - 1], es[|es| - 1];
      RegisteredExactly(c, front, id);
      NodesExactly(c, Run(c, front), e, id);
      if n: nat :| RegisteredAt(c, es, id, n) {
        RegisteredAtOn(c, es, id, n);
      }
      if n: nat :| RegisteredAt(c, front, id, n) {
        RegisteredAtOn(c, es, id, n);
      }
      RegisteredAtOn(c, es, id, |front|);
    }
  }

  /** The n-th event of the run is the node's registration or heartbeat, and no later one is. */
  predicate LastHeardAt(c: Config, es: seq<Event>, id: Party, n: nat) {
    && n < |es| && Heard(c, Run(c, es[..n]), es[n], id)
    && forall m :: n < m < |es| ==> !Heard(c, Run(c, es[..m]), es[m], id)
  }

  predicate Heard(c: Config, s: State, e: Event, id: Party) { Registers(c, s, e, id) || Beats(c, s, e, id) }

  lemma LastHeardAtOn(c: Config, es: seq<Event>, id: Party, n: nat)
    requires es != []
    ensures var front := es[..|es| - 1];
            LastHeardAt(c, es, id, n) <==>
              || (n == |front| && Heard(c, Run(c, front), es[n], id))
              || (LastHeardAt(c, front, id, n) && !Heard(c, Run(c, front), es[|front|], id))
  {
    hide Run, Heard;
    var front := es[..|es| - 1];
    assert forall m :: 0 <= m <= |front| ==> front[..m] == es[..m];
  }

  /** What the registry has as the last instant of a node is that of the last event heard from it. */
  lemma {:induction false} LastSeenExactly(c: Config, es: seq<Event>, id: Party)
    requires id in Run(c, es).nodes
    ensures exists n: nat :: LastHeardAt(c, es, id, n) && Run(c, es).nodes[id].lastSeen == es[n].now
  {
    hide Step, Registers, Beats, Leaves;
    var front, e := es[..|es| - 1], es[|es| - 1];
    var s := Run(c, front);
    NodesExactly(c, s, e, id);
    if Heard(c, s, e, id) {
      LastHeardAtOn(c, es, id, |front|);
    } else {
      LastSeenExactly(c, front, id);
      var n: nat :| LastHeardAt(c, front, id, n) && s.nodes[id].lastSeen == front[n].now;
      LastHeardAtOn(c, es, id, n);
      assert es[n] == front[n];
    }
  }
}
