/**
 The replicated cluster state: what committed entries do to it, and snapshots of it.  The state's
 encoding is foreign code that decodes what it encoded; the engine hands over and takes opaque bytes.
 */
module Cluster {
  import opened Core
  import opened Bytes
  import opened RaftTypes

  datatype NodeInfo = NodeInfo(node: U64, addr: string, isLeader: bool)

  datatype StoredMembership = StoredMembership(logId: Option<LogId>, members: Membership)

  /** The serialized part of the state machine. */
  datatype State = State(
    nodes: map<U64, NodeInfo>,
    collections: map<nat, seq<U64>>,
    clocks: map<U64, U64>,
    lastApplied: Option<LogId>,
    membership: StoredMembership)

  const EMPTY := State(map[], map[], map[], None, StoredMembership(None, []))

  // ---------------------------------------------------------------------------------------------
  // Applying entries
  // ---------------------------------------------------------------------------------------------

  function Elect(nodes: map<U64, NodeInfo>, leader: U64): map<U64, NodeInfo> {
    map n | n in nodes :: nodes[n].(isLeader := nodes[n].node == leader)
  }

  function ApplyOperation(s: State, op: ClusterOperation): State {
    match op
    case AddNode(n, addr) => s.(nodes := s.nodes[n := NodeInfo(n, addr, false)])
    case RemoveNode(n) => s.(nodes := s.nodes - {n})
    case AddCollection(c, owners) => s.(collections := s.collections[c := owners])
    case RemoveCollection(c) => s.(collections := s.collections - {c})
    case TransferLeadership(n) => s.(nodes := Elect(s.nodes, n))
  }

  function ApplyEntry(s: State, e: Entry): State {
    var t := s.(lastApplied := Some(e.logId));
    match e.payload
    case Normal(op) => ApplyOperation(t, op)
    case Members(m) => t.(membership := StoredMembership(Some(e.logId), m))
    case Blank => t
  }

  function ApplyAll(s: State, log: seq<Entry>): State {
    if log == [] then s else ApplyEntry(ApplyAll(s, log[..|log| - 1]), log[|log| - 1])
  }

  lemma {:induction false} ApplyConcat(s: State, a: seq<Entry>, b: seq<Entry>)
    ensures ApplyAll(s, a + b) == ApplyAll(ApplyAll(s, a), b)
  {
    if b == [] {
      assert a + b == a;
    } else {
      assert (a + b)[..|a + b| - 1] == a + b[..|b| - 1];
      ApplyConcat(s, a, b[..|b| - 1]);
    }
  }

  // ---------------------------------------------------------------------------------------------
  // What a log leaves: for each item, the latest entry that names it
  // ---------------------------------------------------------------------------------------------

  /** The entry adds (or adds again) or removes node n. */
  predicate Touches(e: Entry, n: U64) {
    && e.payload.Normal?
    && ((e.payload.op.AddNode? && e.payload.op.node == n) || (e.payload.op.RemoveNode? && e.payload.op.node == n))
  }

  /** The entry assigns or removes collection c. */
  predicate Places(e: Entry, c: nat) {
    && e.payload.Normal?
    && ((e.payload.op.AddCollection? && e.payload.op.collection == c) || (e.payload.op.RemoveCollection? && e.payload.op.collection == c))
  }

  ghost predicate LatestTouch(log: seq<Entry>, n: U64, i: nat) {
    i < |log| && Touches(log[i], n) && forall j :: i < j < |log| ==> !Touches(log[j], n)
  }

  ghost predicate LatestPlace(log: seq<Entry>, c: nat, i: nat) {
    i < |log| && Places(log[i], c) && forall j :: i < j < |log| ==> !Places(log[j], c)
  }

  ghost predicate LatestMembers(log: seq<Entry>, i: nat) {
    i < |log| && log[i].payload.Members? && forall j :: i < j < |log| ==> !log[j].payload.Members?
  }

  lemma NodeStep(s: State, e: Entry, n: U64)
    ensures var t := ApplyEntry(s, e);
            if !Touches(e, n) then
              && (n in t.nodes <==> n in s.nodes)
              && (n in s.nodes ==> t.nodes[n].node == s.nodes[n].node && t.nodes[n].addr == s.nodes[n].addr)
            else if e.payload.op.AddNode? then n in t.nodes && t.nodes[n].node == n && t.nodes[n].addr == e.payload.op.addr
            else n !in t.nodes
  {
  }

  /** A node that no entry of the log adds or removes keeps its id and address. */
  lemma {:induction false} UntouchedNode(s: State, log: seq<Entry>, n: U64)
    requires forall e :: e in log ==> !Touches(e, n)
    ensures var t := ApplyAll(s, log);
            && (n in t.nodes <==> n in s.nodes)
            && (n in s.nodes ==> t.nodes[n].node == s.nodes[n].node && t.nodes[n].addr == s.nodes[n].addr)
  {
    hide ApplyEntry, Touches;
    if log != [] {
      assert log[|log| - 1] in log;
      UntouchedNode(s, log[..|log| - 1], n);
      NodeStep(ApplyAll(s, log[..|log| - 1]), log[|log| - 1], n);
    }
  }

  /** A node is there exactly if the latest entry that names it adds it, under the address given there. */
  lemma {:induction false} NodesAreLatest(s: State, log: seq<Entry>, n: U64, i: nat)
    requires LatestTouch(log, n, i)
    ensures var t := ApplyAll(s, log);
            if log[i].payload.op.AddNode? then n in t.nodes && t.nodes[n].node == n && t.nodes[n].addr == log[i].payload.op.addr
            else n !in t.nodes
    decreases |log|
  {
    hide ApplyEntry;
    if i < |log| - 1 {
      NodesAreLatest(s, log[..|log| - 1], n, i);
    }
    NodeStep(ApplyAll(s, log[..|log| - 1]), log[|log| - 1], n);
  }

  /** A collection that no entry of the log names keeps its owners. */
  lemma {:induction false} UnplacedCollection(s: State, log: seq<Entry>, c: nat)
    requires forall e :: e in log ==> !Places(e, c)
    ensures var t := ApplyAll(s, log);
            (c in t.collections <==> c in s.collections) && (c in s.collections ==> t.collections[c] == s.collections[c])
  {
    if log != [] {
      assert log[|log| - 1] in log;
      UnplacedCollection(s, log[..|log| - 1], c);
    }
  }

  /** A collection is assigned exactly if the latest entry that names it assigns it, to the owners given there. */
  lemma {:induction false} CollectionsAreLatest(s: State, log: seq<Entry>, c: nat, i: nat)
    requires LatestPlace(log, c, i)
    ensures var t := ApplyAll(s, log);
            if log[i].payload.op.AddCollection? then c in t.collections && t.collections[c] == log[i].payload.op.owners
            else c !in t.collections
    decreases |log|
  {
    if i < |log| - 1 {
      CollectionsAreLatest(s, log[..|log| - 1], c, i);
    }
  }

  /** The applied position is that of the last entry, and no entry changes a clock. */
  lemma {:induction false} AppliedIsLast(s: State, log: seq<Entry>)
    ensures ApplyAll(s, log).lastApplied == if log == [] then s.lastApplied else Some(log[|log| - 1].logId)
    ensures ApplyAll(s, log).clocks == s.clocks
    ensures (forall e :: e in log ==> !e.payload.Members?) ==> ApplyAll(s, log).membership == s.membership
  {
    if log != [] {
      assert log[|log| - 1] in log;
      AppliedIsLast(s, log[..|log| - 1]);
    }
  }

  /** The membership is the latest one of the log, with the position it stands at. */
  lemma {:induction false} MembershipIsLatest(s: State, log: seq<Entry>, i: nat)
    requires LatestMembers(log, i)
    ensures ApplyAll(s, log).membership == StoredMembership(Some(log[i].logId), log[i].payload.m)
    decreases |log|
  {
    if i < |log| - 1 {
      MembershipIsLatest(s, log[..|log| - 1], i);
    }
  }

  // ---------------------------------------------------------------------------------------------
  // Leadership
  // ---------------------------------------------------------------------------------------------

  /** Each node is filed under its own id. */
  predicate KeysMatch(s: State) {
    forall n :: n in s.nodes ==> s.nodes[n].node == n
  }

  predicate Leads(s: State, n: U64) {
    n in s.nodes && s.nodes[n].isLeader
  }

  predicate Transfers(e: Entry) {
    e.payload.Normal? && e.payload.op.TransferLeadership?
  }

  /**
   Entry i of the log is the latest transfer, it went to n, n was a member then, and nothing after
   it added or removed n.
   */
  ghost predicate ElectedAt(s: State, log: seq<Entry>, n: U64, i: nat) {
    && i < |log|
    && Transfers(log[i])
    && log[i].payload.op.leader == n
    && n in ApplyAll(s, log[..i]).nodes
    && forall j :: i < j < |log| ==> !Transfers(log[j]) && !Touches(log[j], n)
  }

  lemma {:induction false} KeysStay(s: State, log: seq<Entry>)
    requires KeysMatch(s)
    ensures KeysMatch(ApplyAll(s, log))
  {
    if log != [] {
      KeysStay(s, log[..|log| - 1]);
    }
  }

  /** One more entry that is no transfer: whoever was elected and is not touched stays elected. */
  lemma ElectedStep(s: State, log: seq<Entry>, e: Entry, n: U64)
    requires !Transfers(e)
    ensures forall i :: ElectedAt(s, log + [e], n, i) <==> ElectedAt(s, log, n, i) && !Touches(e, n)
  {
    var g := log + [e];
    forall i: nat
      ensures ElectedAt(s, g, n, i) <==> ElectedAt(s, log, n, i) && !Touches(e, n)
    {
      assert g[|log|] == e;
      if i < |log| {
        assert log[..i] == g[..i] && log[i] == g[i];
        if ElectedAt(s, g, n, i) {
          assert forall j :: i < j < |log| ==> log[j] == g[j];
        }
      }
    }
  }

  lemma LeadsStep(s: State, e: Entry, n: U64)
    requires KeysMatch(s)
    ensures Leads(ApplyEntry(s, e), n) <==>
            if Transfers(e) then e.payload.op.leader == n && n in s.nodes else Leads(s, n) && !Touches(e, n)
  {
  }

  /** After any log, a node leads exactly when the latest transfer elected it and it stayed since. */
  lemma {:induction false} LeaderIff(log: seq<Entry>, n: U64)
    ensures Leads(ApplyAll(EMPTY, log), n) <==> exists i :: ElectedAt(EMPTY, log, n, i)
  {
    if log != [] {
      var last := |log| - 1;
      var init, e := log[..last], log[last];
      LeaderIff(init, n);
      KeysStay(EMPTY, init);
      LeadsStep(ApplyAll(EMPTY, init), e, n);
      assert log == init + [e];
      if Transfers(e) {
        assert ElectedAt(EMPTY, log, n, last) <==> e.payload.op.leader == n && n in ApplyAll(EMPTY, init).nodes;
        assert forall i :: ElectedAt(EMPTY, log, n, i) ==> i == last;
      } else {
        hide ElectedAt;
        ElectedStep(EMPTY, init, e, n);
      }
    }
  }

  /** At every point of every log there is at most one leader. */
  lemma AtMostOneLeader(log: seq<Entry>, m: U64, n: U64)
    requires Leads(ApplyAll(EMPTY, log), m) && Leads(ApplyAll(EMPTY, log), n)
    ensures m == n
  {
    LeaderIff(log, m);
    LeaderIff(log, n);
    var i :| ElectedAt(EMPTY, log, m, i);
    var j :| ElectedAt(EMPTY, log, n, j);
    assert i == j;
  }

  // ---------------------------------------------------------------------------------------------
  // Snapshots
  // ---------------------------------------------------------------------------------------------

  datatype Codec = Codec(encode: State -> seq<Byte>, decode: seq<Byte> -> Option<State>)
  {
    ghost predicate Sound() {
      forall s :: decode(encode(s)) == Some(s)
    }
  }

  datatype Snapshot = Snapshot(lastLogId: Option<LogId>, lastMembership: StoredMembership, data: seq<Byte>)

  datatype InstallError = Undecodable | EngineRefused

  /** Four length bytes (truncated to 32 bits), the cluster state, the engine's bytes. */
  function Combine(cluster: seq<Byte>, engine: seq<Byte>): (b: seq<Byte>)
    ensures |b| == 4 + |cluster| + |engine|
  {
    Le(|cluster|, 4) + cluster + engine
  }

  function Build(c: Codec, s: State, engine: seq<Byte>): Snapshot {
    Snapshot(s.lastApplied, s.membership, Combine(c.encode(s), engine))
  }

  /** The bytes handed to the engine: what follows the cluster state, if anything does. */
  function EngineBytes(data: seq<Byte>): seq<Byte> {
    if |data| < 4 then []
    else
      var len := FromLe(data[..4]);
      if |data| > 4 + len then data[4 + len..] else []
  }

  /** The state after an installation whose engine part is accepted. */
  function Installed(c: Codec, s: State, snap: Snapshot): Result<State, InstallError> {
    if |snap.data| < 4 then Ok(s)
    else
      var len := FromLe(snap.data[..4]);
      var r := if |snap.data| >= 4 + len then c.decode(snap.data[4..4 + len]) else Some(s);
      if r.None? then Err(Undecodable)
      else Ok(r.value.(lastApplied := snap.lastLogId, membership := snap.lastMembership))
  }

  /** A snapshot replaces whatever state it is installed over, and the engine gets its bytes back. */
  lemma InstallRestores(c: Codec, s: State, receiver: State, engine: seq<Byte>)
    requires c.Sound() && |c.encode(s)| < Span(4)
    ensures Installed(c, receiver, Build(c, s, engine)) == Ok(s)
    ensures EngineBytes(Build(c, s, engine).data) == engine
  {
    var cluster := c.encode(s);
    var data := Combine(cluster, engine);
    hide Le, FromLe, Span;
    FromLeOfLe(|cluster|, 4);
    assert data[..4] == Le(|cluster|, 4);
    assert data[4..4 + |cluster|] == cluster;
    assert data[4 + |cluster|..] == engine;
  }

  /** Installing a snapshot taken at any point of the log and applying the rest equals applying it all. */
  lemma SnapshotThenRest(c: Codec, prefix: seq<Entry>, rest: seq<Entry>, receiver: State, engine: seq<Byte>)
    requires c.Sound() && |c.encode(ApplyAll(EMPTY, prefix))| < Span(4)
    ensures var r := Installed(c, receiver, Build(c, ApplyAll(EMPTY, prefix), engine));
            r.Ok? && ApplyAll(r.value, rest) == ApplyAll(EMPTY, prefix + rest)
  {
    InstallRestores(c, ApplyAll(EMPTY, prefix), receiver, engine);
    ApplyConcat(EMPTY, prefix, rest);
  }

  /**
   A snapshot cut off at n bytes is accepted all the same; the receiver ends in the snapshot's
   state exactly when the cluster part arrived whole or the receiver already held it.
   */
  lemma CutSnapshotIff(c: Codec, s: State, receiver: State, engine: seq<Byte>, n: nat)
    requires c.Sound() && |c.encode(s)| < Span(4) && n <= |Build(c, s, engine).data|
    ensures var cut := Build(c, s, engine).(data := Build(c, s, engine).data[..n]);
            var r := Installed(c, receiver, cut);
            && r.Ok?
            && (r == Ok(s) <==>
                n >= 4 + |c.encode(s)| || receiver == s ||
                (n >= 4 && receiver.nodes == s.nodes && receiver.collections == s.collections && receiver.clocks == s.clocks))
  {
    var cluster := c.encode(s);
    var data := Combine(cluster, engine);
    hide Le, FromLe, Span;
    FromLeOfLe(|cluster|, 4);
    assert data[..4] == Le(|cluster|, 4);
    assert data[4..4 + |cluster|] == cluster;
    if n >= 4 {
      assert data[..n][..4] == data[..4];
      if n >= 4 + |cluster| {
        assert data[..n][4..4 + |cluster|] == data[4..4 + |cluster|];
      }
    }
  }

  /** A snapshot of a one-node cluster cut to three bytes installs without an error and changes nothing. */
  lemma CutSnapshotAccepted(c: Codec, id: LogId)
    requires c.Sound() && |c.encode(ApplyAll(EMPTY, [Entry(id, Normal(AddNode(1, "n")))]))| < Span(4)
    ensures var s := ApplyAll(EMPTY, [Entry(id, Normal(AddNode(1, "n")))]);
            var snap := Build(c, s, []);
            && 1 in s.nodes
            && Installed(c, EMPTY, snap.(data := snap.data[..3])) == Ok(EMPTY)
  {
    var log := [Entry(id, Normal(AddNode(1, "n")))];
    assert log[..0] == [];
  }

  // ---------------------------------------------------------------------------------------------
  // The state machine object
  // ---------------------------------------------------------------------------------------------

  datatype Response = Applied(op: ClusterOperation) | MembershipSet(m: Membership) | WasBlank

  /** Each entry is answered in kind, with its own operation or membership. */
  predicate Answers(r: Response, p: Payload) {
    && (p.Normal? <==> r.Applied?) && (p.Normal? ==> r.op == p.op)
    && (p.Members? <==> r.MembershipSet?) && (p.Members? ==> r.m == p.m)
  }

  class ClusterStateMachine {
    var nodes: map<U64, NodeInfo>
    var collections: map<nat, seq<U64>>
    var clocks: map<U64, U64>
    var lastApplied: Option<LogId>
    var membership: StoredMembership
    const hasEngine: bool

    constructor (engine: bool)
      ensures View() == EMPTY && hasEngine == engine
    {
      nodes, collections, clocks := map[], map[], map[];
      lastApplied, membership := None, StoredMembership(None, []);
      hasEngine := engine;
    }

    function View(): State
      reads this
    {
      State(nodes, collections, clocks, lastApplied, membership)
    }

    /** Every node's leader flag is rewritten, in the order the map hands out its keys. */
    method TransferTo(leader: U64, order: seq<U64>)
      requires forall n :: n in order <==> n in nodes
      modifies this`nodes
      ensures nodes == Elect(old(nodes), leader)
    {
      for i := 0 to |order|
        invariant nodes.Keys == old(nodes).Keys
        invariant forall n :: n in nodes ==>
                    nodes[n] == if n in order[..i] then old(nodes)[n].(isLeader := old(nodes)[n].node == leader) else old(nodes)[n]
      {
        var n := order[i];
        assert order[..i + 1] == order[..i] + [n];
        assert n in order;
        nodes := nodes[n := nodes[n].(isLeader := nodes[n].node == leader)];
      }
      assert order[..|order|] == order;
    }

    method ApplyOne(op: ClusterOperation, order: seq<U64>)
      requires forall n :: n in order <==> n in nodes
      modifies this
      ensures View() == ApplyOperation(old(View()), op)
    {
      match op
      case AddNode(n, addr) => nodes := nodes[n := NodeInfo(n, addr, false)];
      case RemoveNode(n) => nodes := nodes - {n};
      case AddCollection(c, owners) => collections := collections[c := owners];
      case RemoveCollection(c) => collections := collections - {c};
      case TransferLeadership(n) => TransferTo(n, order);
    }

    /** `listing` is how the node map hands out its keys. */
    method Apply(entries: seq<Entry>, listing: set<U64> -> seq<U64>) returns (responses: seq<Response>)
      requires forall ns: set<U64>, n: U64 :: n in listing(ns) <==> n in ns
      modifies this
      ensures View() == ApplyAll(old(View()), entries)
      ensures |responses| == |entries|
      ensures forall i :: 0 <= i < |entries| ==> Answers(responses[i], entries[i].payload)
    {
      responses := [];
      for i := 0 to |entries|
        invariant View() == ApplyAll(old(View()), entries[..i]) && |responses| == i
        invariant forall j :: 0 <= j < i ==> Answers(responses[j], entries[j].payload)
      {
        assert entries[..i + 1][..i] == entries[..i];
        var e := entries[i];
        lastApplied := Some(e.logId);
        match e.payload {
          case Normal(op) =>
            ApplyOne(op, listing(nodes.Keys));
            responses := responses + [Applied(op)];
          case Members(m) =>
            membership := StoredMembership(Some(e.logId), m);
            responses := responses + [MembershipSet(m)];
          case Blank =>
            responses := responses + [WasBlank];
        }
      }
      assert entries[..|entries|] == entries;
    }

    /** `engine` is what the engine's own snapshot returns. */
    method BuildSnapshot(c: Codec, engine: Result<seq<Byte>, string>) returns (r: Result<Snapshot, string>)
      ensures r.Err? <==> hasEngine && engine.Err?
      ensures r.Ok? ==> r.value == Build(c, View(), if hasEngine then engine.value else [])
    {
      var clusterData := c.encode(View());
      var engineData: seq<Byte> := [];
      if hasEngine {
        if engine.Err? {
          return Err(engine.error);
        }
        engineData := engine.value;
      }
      r := Ok(Snapshot(lastApplied, membership, Le(|clusterData|, 4) + clusterData + engineData));
    }

    /** `accepts` says whether the engine restores from the bytes; `handed` is what it was given. */
    method InstallSnapshot(c: Codec, snap: Snapshot, accepts: seq<Byte> -> bool)
      returns (r: Result<(), InstallError>, handed: Option<seq<Byte>>)
      modifies this
      ensures handed == if Installed(c, old(View()), snap).Ok? && hasEngine && EngineBytes(snap.data) != []
                        then Some(EngineBytes(snap.data)) else None
      ensures r.Ok? <==> Installed(c, old(View()), snap).Ok? && (handed.Some? ==> accepts(handed.value))
      ensures r.Err? ==> |snap.data| >= 4 && |snap.data| >= 4 + FromLe(snap.data[..4])
      ensures r.Ok? ==> View() == Installed(c, old(View()), snap).value
      ensures r == Err(EngineRefused) ==>
                var len := FromLe(snap.data[..4]); c.decode(snap.data[4..4 + len]) == Some(View())
      ensures Installed(c, old(View()), snap).Err? ==> r == Err(Undecodable) && View() == old(View())
    {
      handed := None;
      var data := snap.data;
      if |data| < 4 {
        return Ok(()), None;
      }
      var len := FromLe(data[..4]);
      if |data| >= 4 + len {
        var d := c.decode(data[4..4 + len]);
        if d.None? {
          return Err(Undecodable), None;
        }
        nodes, collections, clocks := d.value.nodes, d.value.collections, d.value.clocks;
        lastApplied, membership := d.value.lastApplied, d.value.membership;
      }
      if |data| > 4 + len {
        if hasEngine {
          handed := Some(data[4 + len..]);
          if !accepts(data[4 + len..]) {
            return Err(EngineRefused), handed;
          }
        }
      }
      lastApplied, membership := snap.lastLogId, snap.lastMembership;
      r := Ok(());
    }
  }
}
