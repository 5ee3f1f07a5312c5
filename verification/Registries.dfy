/**
 The host's registry of nodes and its inventory of capabilities, which registrations, reconnections, disconnections
 and the liveness monitor must keep in agreement.
 */
module Registries {
  import opened Wrappers

  type Party = string

  const LIVENESS_TIMEOUT_MS: nat := 60_000

  /** What a capability says of itself; `details` is everything but its id. */
  datatype Descriptor = Descriptor(id: string, details: string)
  datatype Provider = Provider(kind: string, providerId: Party, displayName: Option<string>)
  datatype Entry = Entry(descriptor: Descriptor, provider: Provider, availability: string)
  datatype NodeInfo = NodeInfo(displayName: string, capabilities: seq<Descriptor>, conn: nat, lastSeen: nat)

  datatype Config = Config(hostId: Party, hostName: string, builtins: seq<Descriptor>, allowedNodes: set<Party>)

  datatype State = State(peers: map<Party, nat>, next: nat, nodes: map<Party, NodeInfo>, entries: seq<Entry>)

  datatype Action =
    | Connect(id: Party)
    | Register(sender: Party, nodeId: Party, name: string, capabilities: seq<Descriptor>)
    | Heartbeat(sender: Party, nodeId: Party)
    | Abandon(id: Party, conn: nat)    // a connection that never came up is given up
    | Teardown(id: Party, conn: nat)   // a connection that was up has ended
    | Sweep                            // the liveness monitor

  datatype Event = Event(now: nat, act: Action)

  // ----- The inventory -----

  function Filter(q: seq<Entry>, keep: Entry -> bool): seq<Entry> {
    if q == [] then []
    else Filter(q[..|q| - 1], keep) + if keep(q[|q| - 1]) then [q[|q| - 1]] else []
  }

  predicate SameSlot(a: Entry, b: Entry) { a.descriptor.id == b.descriptor.id && a.provider == b.provider }

  predicate From(e: Entry, kind: string, id: Party) { e.provider.kind == kind && e.provider.providerId == id }

  predicate FromAny(e: Entry, ids: set<Party>) { e.provider.kind == "node" && e.provider.providerId in ids }

  function RegisterEntry(q: seq<Entry>, e: Entry): seq<Entry> {
    Filter(q, (o: Entry) => !SameSlot(o, e)) + [e]
  }

  function UnregisterByProvider(q: seq<Entry>, kind: string, id: Party): seq<Entry> {
    Filter(q, (o: Entry) => !From(o, kind, id))
  }

  function EntryOf(p: Provider, d: Descriptor): Entry { Entry(d, p, "available") }

  function RegisterAll(q: seq<Entry>, p: Provider, ds: seq<Descriptor>): seq<Entry> {
    if ds == [] then q else RegisterEntry(RegisterAll(q, p, ds[..|ds| - 1]), EntryOf(p, ds[|ds| - 1]))
  }

  function NodeProvider(id: Party, name: string): Provider { Provider("node", id, Some(name)) }

  // ----- Steps -----

  function HostEntries(c: Config): seq<Entry> {
    RegisterAll([], Provider("host", c.hostId, Some(c.hostName)), c.builtins)
  }

  function Initial(c: Config): State { State(map[], 0, map[], HostEntries(c)) }

  function Forget(s: State, id: Party): State {
    if id in s.nodes then s.(nodes := s.nodes - {id}, entries := UnregisterByProvider(s.entries, "node", id)) else s
  }

  /** Silent for more than a minute. */
  predicate TimedOut(n: NodeInfo, now: nat) { now > n.lastSeen + LIVENESS_TIMEOUT_MS }

  function Silent(nodes: map<Party, NodeInfo>, now: nat): set<Party> {
    set id | id in nodes && TimedOut(nodes[id], now)
  }

  function Swept(s: State, ids: set<Party>): State {
    s.(peers := s.peers - ids, nodes := s.nodes - ids, entries := Filter(s.entries, (o: Entry) => !FromAny(o, ids)))
  }

  function Unlinked(s: State, id: Party, conn: nat): State {
    if id in s.peers && s.peers[id] == conn then s.(peers := s.peers - {id}) else s
  }

  /** A registration passes the role gate when its sender is connected as a configured node. */
  predicate MayRegister(c: Config, s: State, a: Action)
    requires a.Register?
  {
    a.sender in s.peers && a.sender in c.allowedNodes && a.sender == a.nodeId
  }

  function Step(c: Config, s: State, e: Event): State {
    match e.act
    case Connect(id) =>
      var s' := s.(peers := s.peers[id := s.next], next := s.next + 1);
      if id in s.peers then Forget(s', id) else s'
    case Register(sender, id, name, capabilities) =>
      if MayRegister(c, s, e.act)
      then s.(nodes := s.nodes[id := NodeInfo(name, capabilities, s.peers[sender], e.now)],
              entries := RegisterAll(s.entries, NodeProvider(id, name), capabilities))
      else s
    case Heartbeat(sender, id) =>
      if sender in s.peers && sender in c.allowedNodes && sender == id && id in s.nodes
      then s.(nodes := s.nodes[id := s.nodes[id].(lastSeen := e.now)]) else s
    case Abandon(id, conn) => Unlinked(s, id, conn)
    case Teardown(id, conn) => Forget(Unlinked(s, id, conn), id)
    case Sweep => Swept(s, Silent(s.nodes, e.now))
  }

  function Run(c: Config, es: seq<Event>): State {
    if es == [] then Initial(c) else Step(c, Run(c, es[..|es| - 1]), es[|es| - 1])
  }

  // ----- Filters -----

  lemma FilterMember(q: seq<Entry>, keep: Entry -> bool, e: Entry)
    ensures e in Filter(q, keep) <==> e in q && keep(e)
  {
    if q != [] { assert q == q[..|q| - 1] + [q[|q| - 1]]; }
  }

  predicate Distinct(q: seq<Entry>) { forall i, j :: 0 <= i < j < |q| ==> !SameSlot(q[i], q[j]) }

  lemma DistinctAppend(q: seq<Entry>, e: Entry)
    requires Distinct(q) && forall o :: o in q ==> !SameSlot(o, e)
    ensures Distinct(q + [e])
  {
    forall i, j | 0 <= i < j < |q| + 1 ensures !SameSlot((q + [e])[i], (q + [e])[j]) {
      if j == |q| { assert q[i] in q; }
    }
  }

  lemma {:induction false} FilterDistinct(q: seq<Entry>, keep: Entry -> bool)
    requires Distinct(q)
    ensures Distinct(Filter(q, keep))
  {
    if q != [] {
      var front, last := q[..|q| - 1], q[|q| - 1];
      FilterDistinct(front, keep);
      forall o | o in Filter(front, keep) ensures !SameSlot(o, last) { FilterMember(front, keep, o); }
      DistinctAppend(Filter(front, keep), last);
      assert Filter(front, keep) + [] == Filter(front, keep);
    }
  }

  lemma {:induction false} FilterAgrees(q: seq<Entry>, f: Entry -> bool, g: Entry -> bool)
    requires forall e :: e in q ==> f(e) == g(e)
    ensures Filter(q, f) == Filter(q, g)
  {
    if q != [] {
      assert q[|q| - 1] in q;
      assert forall e :: e in q[..|q| - 1] ==> e in q;
      FilterAgrees(q[..|q| - 1], f, g);
    }
  }

  /** One list is the other with some elements left out, in the same order. */
  predicate Subsequence(a: seq<Entry>, b: seq<Entry>) {
    a == []
    || (b != [] && (Subsequence(a, b[..|b| - 1])
                    || (a[|a| - 1] == b[|b| - 1] && Subsequence(a[..|a| - 1], b[..|b| - 1]))))
  }

  lemma {:induction false} FilterKeepsOrder(q: seq<Entry>, keep: Entry -> bool)
    ensures Subsequence(Filter(q, keep), q)
  {
    if q != [] {
      var front, last := q[..|q| - 1], q[|q| - 1];
      FilterKeepsOrder(front, keep);
      if keep(last) {
        assert (Filter(front, keep) + [last])[..|Filter(front, keep)|] == Filter(front, keep);
      } else {
        assert Filter(front, keep) + [] == Filter(front, keep);
      }
    }
  }

  lemma FilterAppend(q: seq<Entry>, e: Entry, keep: Entry -> bool)
    ensures Filter(q + [e], keep) == Filter(q, keep) + if keep(e) then [e] else []
  {
    assert (q + [e])[..|q|] == q;
  }

  function Both(f: Entry -> bool, g: Entry -> bool): Entry -> bool { (e: Entry) => f(e) && g(e) }

  lemma {:induction false} FilterTwice(q: seq<Entry>, f: Entry -> bool, g: Entry -> bool)
    ensures Filter(Filter(q, f), g) == Filter(q, Both(f, g))
  {
    if q != [] {
      var front, last := q[..|q| - 1], q[|q| - 1];
      FilterTwice(front, f, g);
      FilterAppend(Filter(front, f), last, g);
      assert Filter(front, f) + [] == Filter(front, f);
    }
  }

  lemma {:induction false} FilterAll(q: seq<Entry>, keep: Entry -> bool)
    requires forall e :: e in q ==> keep(e)
    ensures Filter(q, keep) == q
  {
    if q != [] {
      assert q[|q| - 1] in q;
      assert forall e :: e in q[..|q| - 1] ==> e in q;
      FilterAll(q[..|q| - 1], keep);
      assert q == q[..|q| - 1] + [q[|q| - 1]];
    }
  }

  // ----- What registering a list of capabilities does -----

  lemma RegisterEntryMember(q: seq<Entry>, e: Entry, o: Entry)
    ensures o in RegisterEntry(q, e) <==> o == e || (o in q && !SameSlot(o, e))
  {
    FilterMember(q, (o: Entry) => !SameSlot(o, e), o);
  }

  lemma RegisterEntryDistinct(q: seq<Entry>, e: Entry)
    requires Distinct(q)
    ensures Distinct(RegisterEntry(q, e))
  {
    var rest := Filter(q, (o: Entry) => !SameSlot(o, e));
    FilterDistinct(q, (o: Entry) => !SameSlot(o, e));
    forall o | o in rest ensures !SameSlot(o, e) { FilterMember(q, (o: Entry) => !SameSlot(o, e), o); }
    DistinctAppend(rest, e);
  }

  /** The last description under each id is the one that counts. */
  predicate LastOf(ds: seq<Descriptor>, k: int) {
    0 <= k < |ds| && forall m :: k < m < |ds| ==> ds[m].id != ds[k].id
  }

  predicate Mentions(ds: seq<Descriptor>, id: string) { exists k :: 0 <= k < |ds| && ds[k].id == id }

  /** The entry is what the list says last of its capability. */
  predicate LastWord(p: Provider, ds: seq<Descriptor>, e: Entry) {
    && ds != [] && e.provider == p
    && (e == EntryOf(p, ds[|ds| - 1]) || (ds[|ds| - 1].id != e.descriptor.id && LastWord(p, ds[..|ds| - 1], e)))
  }

  lemma {:induction false} LastWordMeaning(p: Provider, ds: seq<Descriptor>, e: Entry)
    ensures LastWord(p, ds, e) <==> exists k :: 0 <= k < |ds| && LastOf(ds, k) && e == EntryOf(p, ds[k])
  {
    if k :| 0 <= k < |ds| && LastOf(ds, k) && e == EntryOf(p, ds[k]) {
      LastIsLastWord(p, ds, k);
    }
    if LastWord(p, ds, e) {
      var k := LastWordIndex(p, ds, e);
    }
  }

  lemma {:induction false} LastIsLastWord(p: Provider, ds: seq<Descriptor>, k: int)
    requires LastOf(ds, k)
    ensures LastWord(p, ds, EntryOf(p, ds[k]))
  {
    var n := |ds| - 1;
    if k < n {
      assert LastOf(ds[..n], k);
      LastIsLastWord(p, ds[..n], k);
    }
  }

  lemma {:induction false} LastWordIndex(p: Provider, ds: seq<Descriptor>, e: Entry) returns (k: int)
    requires LastWord(p, ds, e)
    ensures LastOf(ds, k) && e == EntryOf(p, ds[k])
  {
    var n := |ds| - 1;
    if e == EntryOf(p, ds[n]) {
      k := n;
    } else {
      k := LastWordIndex(p, ds[..n], e);
    }
  }

  lemma MentionsOn(ds: seq<Descriptor>, id: string)
    requires ds != []
    ensures Mentions(ds, id) <==> Mentions(ds[..|ds| - 1], id) || ds[|ds| - 1].id == id
  {
    if Mentions(ds[..|ds| - 1], id) {
      var k :| 0 <= k < |ds| - 1 && ds[..|ds| - 1][k].id == id;
      assert ds[k].id == id;
    }
    if Mentions(ds, id) && ds[|ds| - 1].id != id {
      var k :| 0 <= k < |ds| && ds[k].id == id;
      assert ds[..|ds| - 1][k].id == id;
    }
  }

  /**
   An entry is there after a list is registered when it is the list's last word, or it was there and the list is
   silent on it.
   */
  lemma {:induction false} RegisterAllMember(q: seq<Entry>, p: Provider, ds: seq<Descriptor>, e: Entry)
    ensures e in RegisterAll(q, p, ds) <==>
              LastWord(p, ds, e) || (e in q && !(e.provider == p && Mentions(ds, e.descriptor.id)))
  {
    if ds != [] {
      hide Mentions, RegisterEntry;
      var front, d := ds[..|ds| - 1], ds[|ds| - 1];
      RegisterAllMember(q, p, front, e);
      RegisterEntryMember(RegisterAll(q, p, front), EntryOf(p, d), e);
      MentionsOn(ds, e.descriptor.id);
    }
  }

  lemma {:induction false} RegisterAllDistinct(q: seq<Entry>, p: Provider, ds: seq<Descriptor>)
    requires Distinct(q)
    ensures Distinct(RegisterAll(q, p, ds))
  {
    if ds != [] {
      RegisterAllDistinct(q, p, ds[..|ds| - 1]);
      RegisterEntryDistinct(RegisterAll(q, p, ds[..|ds| - 1]), EntryOf(p, ds[|ds| - 1]));
    }
  }

  // ----- Entries of the host -----

  function NotOfNode(): Entry -> bool { (e: Entry) => e.provider.kind != "node" }

  function OfHost(q: seq<Entry>): seq<Entry> { Filter(q, NotOfNode()) }

  lemma FilterKeepsHost(q: seq<Entry>, keep: Entry -> bool)
    requires forall e :: e in q && e.provider.kind != "node" ==> keep(e)
    ensures OfHost(Filter(q, keep)) == OfHost(q)
  {
    FilterTwice(q, keep, NotOfNode());
    FilterAgrees(q, Both(keep, NotOfNode()), NotOfNode());
  }

  lemma {:induction false} RegisterAllKeepsHost(q: seq<Entry>, p: Provider, ds: seq<Descriptor>)
    requires p.kind == "node"
    ensures OfHost(RegisterAll(q, p, ds)) == OfHost(q)
  {
    if ds != [] {
      var before, e := RegisterAll(q, p, ds[..|ds| - 1]), EntryOf(p, ds[|ds| - 1]);
      RegisterAllKeepsHost(q, p, ds[..|ds| - 1]);
      FilterKeepsHost(before, (o: Entry) => !SameSlot(o, e));
      FilterAppend(Filter(before, (o: Entry) => !SameSlot(o, e)), e, NotOfNode());
    }
  }

  /** Nodes are swept one after another with the same result as all at once. */
  lemma SweptOneMore(s: State, ids: set<Party>, id: Party)
    ensures var one := Swept(s, ids);
            one.(peers := one.peers - {id}, nodes := one.nodes - {id},
                 entries := UnregisterByProvider(one.entries, "node", id))
            == Swept(s, ids + {id})
  {
    var f, g := (o: Entry) => !FromAny(o, ids), (o: Entry) => !From(o, "node", id);
    var h := (o: Entry) => !FromAny(o, ids + {id});
    FilterTwice(s.entries, f, g);
    FilterAgrees(s.entries, Both(f, g), h);
    assert Filter(Filter(s.entries, f), g) == Filter(s.entries, h);
  }

  lemma SweptNone(s: State)
    ensures Swept(s, {}) == s
  {
    FilterAll(s.entries, (o: Entry) => !FromAny(o, {}));
  }

  // ----- Agreement -----

  /** Every entry of a node names a registered one. */
  predicate Named(s: State) {
    forall e :: e in s.entries && e.provider.kind == "node" ==> e.provider.providerId in s.nodes
  }

  /** What a registered node last said of a capability is in the inventory, under its present name. */
  ghost predicate Advertised(s: State) {
    forall id, k :: id in s.nodes && LastOf(s.nodes[id].capabilities, k) ==>
      EntryOf(NodeProvider(id, s.nodes[id].displayName), s.nodes[id].capabilities[k]) in s.entries
  }

  ghost predicate Agree(c: Config, s: State) {
    Distinct(s.entries) && Named(s) && Advertised(s) && OfHost(s.entries) == HostEntries(c)
  }

  lemma ForgetKeepsAgreement(c: Config, s: State, id: Party)
    requires Agree(c, s)
    ensures Agree(c, Forget(s, id))
  {
    if id in s.nodes {
      var keep := (o: Entry) => !From(o, "node", id);
      FilterDistinct(s.entries, keep);
      FilterKeepsHost(s.entries, keep);
      forall e: Entry ensures e in Filter(s.entries, keep) <==> e in s.entries && keep(e) {
        FilterMember(s.entries, keep, e);
      }
    }
  }

  lemma SweepKeepsAgreement(c: Config, s: State, now: nat)
    requires Agree(c, s)
    ensures Agree(c, Step(c, s, Event(now, Sweep)))
  {
    hide Distinct, OfHost, Filter, TimedOut;
    var silent := Silent(s.nodes, now);
    var keep := (o: Entry) => !FromAny(o, silent);
    FilterDistinct(s.entries, keep);
    FilterKeepsHost(s.entries, keep);
    forall e: Entry ensures e in Filter(s.entries, keep) <==> e in s.entries && keep(e) {
      FilterMember(s.entries, keep, e);
    }
  }

  lemma RegisterKeepsAgreement(c: Config, s: State, now: nat, a: Action)
    requires Agree(c, s) && a.Register?
    ensures Agree(c, Step(c, s, Event(now, a)))
  {
    if MayRegister(c, s, a) {
      var p, ds := NodeProvider(a.nodeId, a.name), a.capabilities;
      var s' := Step(c, s, Event(now, a));
      RegisterAllDistinct(s.entries, p, ds);
      RegisterAllKeepsHost(s.entries, p, ds);
      forall e | e in s'.entries && e.provider.kind == "node" ensures e.provider.providerId in s'.nodes {
        RegisterAllMember(s.entries, p, ds, e);
      }
      forall id, k | id in s'.nodes && LastOf(s'.nodes[id].capabilities, k)
        ensures EntryOf(NodeProvider(id, s'.nodes[id].displayName), s'.nodes[id].capabilities[k]) in s'.entries
      {
        var e := EntryOf(NodeProvider(id, s'.nodes[id].displayName), s'.nodes[id].capabilities[k]);
        LastWordMeaning(p, ds, e);
        RegisterAllMember(s.entries, p, ds, e);
      }
    }
  }

  lemma InitialAgreement(c: Config)
    ensures Agree(c, Initial(c))
  {
    var p := Provider("host", c.hostId, Some(c.hostName));
    RegisterAllDistinct([], p, c.builtins);
    forall e | e in HostEntries(c) ensures e.provider.kind != "node" { RegisterAllMember([], p, c.builtins, e); }
    FilterAll(HostEntries(c), NotOfNode());
  }

  lemma StepKeepsAgreement(c: Config, s: State, e: Event)
    requires Agree(c, s)
    ensures Agree(c, Step(c, s, e))
  {
    hide RegisterAll, Filter, HostEntries, Forget, Distinct, OfHost;
    match e.act
    case Connect(id) =>
      ForgetKeepsAgreement(c, s.(peers := s.peers[id := s.next], next := s.next + 1), id);
    case Register(_, _, _, _) => RegisterKeepsAgreement(c, s, e.now, e.act);
    case Heartbeat(_, _) =>
    case Abandon(_, _) =>
    case Teardown(id, conn) => ForgetKeepsAgreement(c, Unlinked(s, id, conn), id);
    case Sweep => SweepKeepsAgreement(c, s, e.now);
  }

  /**
   In every run the inventory has one entry for each capability and provider, its node entries name registered
   nodes, everything a registered node last said of its capabilities is there, and the host's own entries are what
   they were at the start, in order.
   */
  lemma {:induction false} RegistriesAgree(c: Config, es: seq<Event>)
    ensures Agree(c, Run(c, es))
  {
    hide Step, Agree;
    if es == [] {
      InitialAgreement(c);
    } else {
      RegistriesAgree(c, es[..|es| - 1]);
      StepKeepsAgreement(c, Run(c, es[..|es| - 1]), es[|es| - 1]);
    }
  }

  /** After the monitor has run, every node entry is of a node heard from within the last minute. */
  lemma SweptEntriesAreLive(c: Config, es: seq<Event>, now: nat, e: Entry)
    requires var s := Step(c, Run(c, es), Event(now, Sweep)); e in s.entries && e.provider.kind == "node"
    ensures var s := Step(c, Run(c, es), Event(now, Sweep));
            e.provider.providerId in s.nodes && now <= s.nodes[e.provider.providerId].lastSeen + LIVENESS_TIMEOUT_MS
  {
    RegistriesAgree(c, es);
    StepKeepsAgreement(c, Run(c, es), Event(now, Sweep));
  }

  // ----- Entries that have gone stale -----

  /** The entry is something its node now advertises, under the node's present name. */
  predicate Current(s: State, e: Entry) {
    && e.provider.providerId in s.nodes
    && var n := s.nodes[e.provider.providerId];
       e.provider.displayName == Some(n.displayName) && Mentions(n.capabilities, e.descriptor.id)
  }

  predicate NoStaleEntries(s: State) {
    forall e :: e in s.entries && e.provider.kind == "node" ==> Current(s, e)
  }

  /** A registration of a node that is registered keeps its name and drops no capability that has an entry. */
  predicate Readvertises(s: State, a: Action)
    requires a.Register?
  {
    forall e :: e in s.entries && From(e, "node", a.nodeId) ==>
      e.provider.displayName == Some(a.name) && Mentions(a.capabilities, e.descriptor.id)
  }

  /**
   Registering never removes an entry of an earlier registration unless it replaces it: stale ones stay exactly when
   the node does not advertise them again.
   */
  lemma RegisterStaleExactly(c: Config, s: State, now: nat, a: Action)
    requires NoStaleEntries(s) && a.Register? && MayRegister(c, s, a)
    ensures NoStaleEntries(Step(c, s, Event(now, a))) <==> Readvertises(s, a)
  {
    var p, ds := NodeProvider(a.nodeId, a.name), a.capabilities;
    var s' := Step(c, s, Event(now, a));
    if Readvertises(s, a) {
      forall e | e in s'.entries && e.provider.kind == "node" ensures Current(s', e) {
        RegisterAllMember(s.entries, p, ds, e);
        if !(e in s.entries) {
          LastWordMeaning(p, ds, e);
          var k :| 0 <= k < |ds| && LastOf(ds, k) && e == EntryOf(p, ds[k]);
          assert ds[k].id == e.descriptor.id;
        } else {
          assert Current(s, e);
        }
      }
    }
    if NoStaleEntries(s') {
      forall e | e in s.entries && From(e, "node", a.nodeId)
        ensures e.provider.displayName == Some(a.name) && Mentions(ds, e.descriptor.id)
      {
        RegisterAllMember(s.entries, p, ds, e);
        assert e in s'.entries ==> Current(s', e);
      }
    }
  }

  lemma OtherStepsKeepCurrent(c: Config, s: State, e: Event)
    requires NoStaleEntries(s) && !e.act.Register?
    ensures NoStaleEntries(Step(c, s, e))
  {
    var s' := Step(c, s, e);
    forall o | o in s'.entries && o.provider.kind == "node" ensures Current(s', o) {
      match e.act
      case Connect(id) => FilterMember(s.entries, (o: Entry) => !From(o, "node", id), o);
      case Teardown(id, _) => FilterMember(s.entries, (o: Entry) => !From(o, "node", id), o);
      case Sweep =>
        var silent := Silent(s.nodes, e.now);
        FilterMember(s.entries, (o: Entry) => !FromAny(o, silent), o);
      case Heartbeat(_, _) => assert Current(s, o);
      case Abandon(_, _) => assert Current(s, o);
    }
  }

  /** Every registration up to the end of the run advertises again what the inventory has of its node. */
  predicate NodesKeepTheirWord(c: Config, es: seq<Event>) {
    forall n :: 0 <= n < |es| && es[n].act.Register? && MayRegister(c, Run(c, es[..n]), es[n].act) ==>
      Readvertises(Run(c, es[..n]), es[n].act)
  }

  /** No inventory ever shows a stale entry exactly when no registration drops or renames what it had advertised. */
  lemma {:induction false} NeverStaleExactly(c: Config, es: seq<Event>)
    ensures (forall n :: 0 <= n <= |es| ==> NoStaleEntries(Run(c, es[..n]))) <==> NodesKeepTheirWord(c, es)
  {
    hide Step, NoStaleEntries, MayRegister, Readvertises;
    if es == [] {
      InitialNotStale(c);
      assert es[..0] == [];
    } else {
      var front, e := es[..|es| - 1], es[|es| - 1];
      var s := Run(c, front);
      NeverStaleExactly(c, front);
      assert es[..|es|] == es && front[..|front|] == front;
      assert forall n :: 0 <= n <= |front| ==> front[..n] == es[..n];
      if NoStaleEntries(s) {
        if e.act.Register? && MayRegister(c, s, e.act) {
          RegisterStaleExactly(c, s, e.now, e.act);
        } else if e.act.Register? {
          RefusedRegisterChangesNothing(c, s, e);
        } else {
          OtherStepsKeepCurrent(c, s, e);
        }
      }
    }
  }

  lemma RefusedRegisterChangesNothing(c: Config, s: State, e: Event)
    requires e.act.Register? && !MayRegister(c, s, e.act)
    ensures Step(c, s, e) == s
  {}

  lemma InitialNotStale(c: Config)
    ensures NoStaleEntries(Initial(c))
  {
    forall e | e in HostEntries(c) ensures e.provider.kind != "node" {
      RegisterAllMember([], Provider("host", c.hostId, Some(c.hostName)), c.builtins, e);
    }
  }

  /** A node that registers again with fewer capabilities leaves the dropped one in the inventory. */
  lemma StaleEntryRemains(c: Config, camera: Descriptor)
    requires "n" in c.allowedNodes
    ensures var s1 := Step(c, Initial(c), Event(0, Connect("n")));
            var s2 := Step(c, s1, Event(1, Register("n", "n", "Node", [camera])));
            var s3 := Step(c, s2, Event(2, Register("n", "n", "Node", [])));
            && EntryOf(NodeProvider("n", "Node"), camera) in s3.entries
            && "n" in s3.nodes && s3.nodes["n"].capabilities == []
  {
    var node, e := NodeProvider("n", "Node"), EntryOf(NodeProvider("n", "Node"), camera);
    var first := RegisterAll(Initial(c).entries, node, [camera]);
    assert LastWord(node, [camera], e);
    hide RegisterAll, HostEntries;
    RegisterAllMember(Initial(c).entries, node, [camera], e);
    RegisterAllMember(first, node, [], e);
  }
}
