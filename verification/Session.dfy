/**
 The reconnect protocol between one server and its clients, as a state machine, and what every step keeps
 (apps/web/src/lib/documentClient.ts, apps/server/src/roomManager.ts, apps/server/src/room.ts,
 apps/server/src/persistence).
 */
module Session {
  import opened Ids
  import opened Ops
  import opened Document
  import opened Delivery
  import opened Batches
  import opened Rooms
  import Stores
  import opened Databases
  import ServerProcess
  import opened Histories
  import opened Wire
  import opened Editor
  import opened Clients

  // Edits, sends, batches applied at increasing numbers, broadcasts, appends to the store, acknowledgements in any
  // order, error messages, disconnects, joins answered by a sync or a snapshot, outbox flushes, reloads, snapshots of
  // the server, and crashes after which it is rebuilt from its store. A message of a client that was written to a
  // socket may reach the server at any later time, any number of times, or never; messages of the server arrive in
  // order until the connection breaks.

  datatype Connection = Offline | Opening | Joined

  /**
   A client with its connection and the messages on their way to it. The rest is history: the ops it created, what
   its document was given (`got`), what its stored record shows (`kept`) and what was buffered when the record was
   written (`unkept`), what the snapshot on its way to it shows (`reply`) and what it does not show of what the
   server had been given (`unsent`), up to which number it has every batch (`level`), and what it went without
   since it used a record or a snapshot that does not show it (`missed`).
   */
  datatype Peer = Peer(
    c: ClientState, conn: Connection, inbox: seq<ServerMessage>, created: set<Op>, got: set<Op>,
    kept: set<Op>, unkept: set<Op>, reply: set<Op>, unsent: set<Op>, level: nat, missed: set<Op>)

  /**
   The server process, the batches that it has and who sent them, all ops that it ever applied, the clients by
   name, and all messages sent by clients.
   */
  datatype Net = Net(
    server: ServerProcess.Process, fed: seq<Batch>, senders: seq<string>, applied: set<Op>,
    peers: map<string, Peer>, sent: set<(string, seq<Op>)>)

  datatype Action =
    | Edit(replica: string, edits: seq<Edit>)
    | Apply(replica: string, ops: seq<Op>)
    | Acknowledge(replica: string, index: nat)
    | Refuse(replica: string, code: string, text: string)
    | Connect(replica: string)
    | Join(replica: string)
    | Receive(replica: string)
    | Disconnect(replica: string)
    | Reload(replica: string, listed: seq<Op>)
    | Serve(step: ServerProcess.Action)

  const NEW_PEER := Peer(ClientState(EMPTY, [], 0, NO_RECORD), Offline, [], {}, {}, {}, {}, {}, {}, 0, {})

  function Start(names: set<string>, kind: Kind): Net {
    Net(ServerProcess.Boot(kind), [], [], {}, map r | r in names :: NEW_PEER, {})
  }

  // What a step does to one client

  /** The record is written; what is buffered is not in it. */
  ghost function Recorded(p: Peer): Peer {
    var buffered := PendingOps(p.c.doc.pending);
    p.(kept := p.got - buffered, unkept := buffered)
  }

  ghost function Edited(p: Peer, r: string, edits: seq<Edit>): Peer {
    var made := OpSet(ApplyEdits(p.c.doc, r, edits).ops);
    p.(c := OnEdits(p.c, r, edits), created := p.created + made, got := p.got + made)
  }

  /** A snapshot shows neither what the server has in its buffer nor what it lost when it crashed. */
  ghost function Answered(p: Peer, server: ServerProcess.Process): Peer {
    var buffered := PendingOps(server.room.doc.pending);
    p.(conn := Joined, inbox := [ReplyTo(server.room, p.c.lastAcked)], level := p.c.lastAcked,
       reply := server.shown - buffered, unsent := buffered + (server.durable - server.shown))
  }

  ghost function Received(p: Peer): Peer
    requires p.inbox != []
  {
    var m := p.inbox[0];
    var q := p.(c := OnMessage(p.c, m), inbox := p.inbox[1..]);
    match m
    case SyncMessage(seqNo, ops) => Recorded(q.(got := p.got + OpSet(ops), level := seqNo))
    case SnapshotMessage(seqNo, _) =>
      Recorded(q.(got := p.reply + OpSet(p.c.outbox), level := seqNo, missed := p.unsent))
    case BroadcastMessage(seqNo, ops) => q.(got := p.got + OpSet(ops), level := Max(p.level, seqNo))
    case AckMessage(seqNo, _) => Recorded(q.(level := Max(p.level, seqNo)))
    case ErrorMessage(_, _) => q
  }

  ghost function Restarted(p: Peer, listed: seq<Op>): Peer {
    p.(c := Reloaded(p.c.record, listed), conn := Offline, inbox := [],
       got := p.kept + OpSet(listed), level := p.c.record.lastAckedSeq, missed := p.missed + p.unkept)
  }

  function Cut(p: Peer): Peer {
    p.(conn := Offline, inbox := [])
  }

  // Steps of the net

  /** The outbox as the browser's database lists it: the same ops, in any order. */
  ghost predicate Lists(listed: seq<Op>, outbox: seq<Op>) {
    OnePerKey(listed) && OpSet(listed) == OpSet(outbox)
  }

  /** The batch that the server makes of a message. */
  function NextBatch(n: Net, ops: seq<Op>): Batch {
    Batch(|n.fed| + 1, ops)
  }

  ghost predicate Enabled(n: Net, a: Action) {
    match a
    case Edit(r, edits) => r in n.peers && !ApplyEdits(n.peers[r].c.doc, r, edits).thrown
    case Apply(r, ops) =>
      r in n.peers && (r, ops) in n.sent && ServerProcess.Enabled(n.server, ServerProcess.Accept(NextBatch(n, ops)))
    case Acknowledge(r, i) =>
      && r in n.peers && n.peers[r].conn.Joined?
      && i < |n.fed| == |n.senders| && n.senders[i] == r && n.fed[i] in n.server.saved
    case Refuse(r, _, _) => r in n.peers && n.peers[r].conn.Joined?
    case Connect(r) => r in n.peers && n.peers[r].conn.Offline?
    case Join(r) => r in n.peers && n.peers[r].conn.Opening?
    case Receive(r) => r in n.peers && n.peers[r].inbox != []
    case Disconnect(r) => r in n.peers
    case Reload(r, listed) => r in n.peers && Lists(listed, n.peers[r].c.outbox)
    case Serve(step) => !step.Accept? && ServerProcess.Enabled(n.server, step)
  }

  function Messages(ms: seq<ClientMessage>, r: string): set<(string, seq<Op>)> {
    set m | m in ms && m.OpMessage? :: (r, m.ops)
  }

  /** Everyone who is joined, but for the sender, is sent the batch. */
  function Told(p: Peer, isSender: bool, b: Batch): Peer {
    if isSender || !p.conn.Joined? then p else p.(inbox := p.inbox + [BroadcastMessage(b.seqNo, b.ops)])
  }

  /** All clients after the server applied a batch and told whom it had to. */
  ghost function AllTold(peers: map<string, Peer>, r: string, b: Batch): map<string, Peer> {
    map q | q in peers :: Told(peers[q], q == r, b)
  }

  ghost function AllCut(peers: map<string, Peer>): map<string, Peer> {
    map q | q in peers :: Cut(peers[q])
  }

  ghost function Next(n: Net, a: Action): Net
    requires Enabled(n, a)
  {
    match a
    case Edit(r, edits) =>
      var p := n.peers[r];
      n.(peers := n.peers[r := Edited(p, r, edits)],
         sent := if p.conn.Offline? then n.sent else n.sent + Messages(EditMessages(p.c, r, edits), r))
    case Apply(r, ops) =>
      var b := NextBatch(n, ops);
      Net(ServerProcess.Next(n.server, ServerProcess.Accept(b)), n.fed + [b], n.senders + [r], n.applied + OpSet(ops),
          AllTold(n.peers, r, b), n.sent)
    case Acknowledge(r, i) =>
      var p := n.peers[r];
      n.(peers := n.peers[r := p.(inbox := p.inbox + [AckMessage(n.fed[i].seqNo, IdsOf(n.fed[i].ops))])])
    case Refuse(r, code, text) =>
      var p := n.peers[r];
      n.(peers := n.peers[r := p.(inbox := p.inbox + [ErrorMessage(code, text)])])
    case Connect(r) => n.(peers := n.peers[r := n.peers[r].(conn := Opening)])
    case Join(r) => n.(peers := n.peers[r := Answered(n.peers[r], n.server)])
    case Receive(r) =>
      var p := n.peers[r];
      n.(peers := n.peers[r := Received(p)], sent := n.sent + Messages(Flushed(p.c.outbox, p.inbox[0]), r))
    case Disconnect(r) => n.(peers := n.peers[r := Cut(n.peers[r])])
    case Reload(r, listed) => n.(peers := n.peers[r := Restarted(n.peers[r], listed)])
    case Serve(step) =>
      n.(server := ServerProcess.Next(n.server, step), fed := FedAfter(n.server, n.fed, step),
         peers := if step.Crash? then AllCut(n.peers) else n.peers)
  }

  // The invariant

  /** What clients rely on: the batches the server has, who sent them, what it stored, and all it ever applied. */
  datatype Past = Past(fed: seq<Batch>, senders: seq<string>, durable: set<Op>, applied: set<Op>)

  function PastOf(n: Net): Past {
    Past(n.fed, n.senders, n.server.durable, n.applied)
  }

  /** Every op of the first n batches is in s. */
  ghost predicate Held(fed: seq<Batch>, s: set<Op>, n: nat) {
    n <= |fed| && forall j :: 0 <= j < n ==> OpSet(fed[j].ops) <= s
  }

  /** The batches from n up to m are the client's own or repeat what came before. */
  ghost predicate Behind(h: Past, r: string, n: nat, m: nat) {
    && n <= |h.fed| == |h.senders|
    && forall j :: n <= j < m && j < |h.fed| ==> h.senders[j] == r || OpSet(h.fed[j].ops) <= OpsIn(h.fed[..n])
  }

  /** The ops are what the first m batches have beyond the first n. */
  ghost predicate Brings(h: Past, n: nat, m: nat, ops: set<Op>) {
    && n <= |h.fed| && m <= |h.fed| && ops <= h.applied
    && forall j :: 0 <= j < m ==> OpSet(h.fed[j].ops) <= OpsIn(h.fed[..n]) + ops
  }

  ghost predicate Acknowledges(h: Past, r: string, s: nat, ids: seq<OpId>) {
    && 0 < s <= |h.fed| && s <= |h.senders| && h.senders[s - 1] == r
    && ids == IdsOf(h.fed[s - 1].ops) && OpSet(h.fed[s - 1].ops) <= h.durable
  }

  /** With the first n batches in hand, the messages on their way bring the rest, apart from the client's own. */
  ghost predicate Flow(h: Past, r: string, n: nat, inbox: seq<ServerMessage>)
    decreases |inbox|
  {
    if inbox == [] then Behind(h, r, n, |h.fed|)
    else
      match inbox[0]
      case SyncMessage(s, ops) => Brings(h, n, s, OpSet(ops)) && Flow(h, r, s, inbox[1..])
      case SnapshotMessage(s, _) => s <= |h.fed| && Flow(h, r, s, inbox[1..])
      case BroadcastMessage(s, ops) =>
        0 < s <= |h.fed| && h.fed[s - 1].ops == ops && Behind(h, r, n, s - 1) && Flow(h, r, Max(n, s), inbox[1..])
      case AckMessage(s, ids) =>
        Acknowledges(h, r, s, ids) && Behind(h, r, n, s) && Flow(h, r, Max(n, s), inbox[1..])
      case ErrorMessage(_, _) => Flow(h, r, n, inbox[1..])
  }

  predicate IsReply(m: ServerMessage) {
    m.SyncMessage? || m.SnapshotMessage?
  }

  ghost predicate ReplyOk(h: Past, p: Peer) {
    p.inbox != [] && p.inbox[0].SnapshotMessage? ==>
      var s := p.inbox[0].seqNo;
      && s <= |h.fed| && p.reply <= h.applied
      && p.created <= OpSet(p.c.outbox) + p.reply + p.unsent + Contested(p.created)
      && OpsIn(h.fed[..s]) <= p.reply + p.unsent
  }

  ghost predicate ChannelOk(h: Past, r: string, p: Peer) {
    && (p.conn.Joined? ==> Flow(h, r, p.level, p.inbox))
    && (!p.conn.Joined? ==> p.inbox == [])
    && (forall i :: 0 < i < |p.inbox| ==> !IsReply(p.inbox[i]))
    && ReplyOk(h, p)
  }

  /** What a client may lack: what it missed, and ops of its own that share their key with others of its own. */
  ghost function Excused(p: Peer): set<Op> {
    p.missed + Contested(p.created)
  }

  /** The safety of one client. */
  ghost predicate Safe(h: Past, p: Peer) {
    && OnePerKey(p.c.outbox) && OpSet(p.c.outbox) <= p.created
    && p.created <= OpSet(p.c.outbox) + h.durable + Contested(p.created)
    && p.created <= p.got + Excused(p)
    && p.c.lastAcked <= p.level && Held(h.fed, p.got + Excused(p), p.level)
    && p.got <= p.created + h.applied
  }

  /** The same of what it would be after a reload. */
  ghost predicate SafeOnDisk(h: Past, p: Peer) {
    && p.created <= p.kept + p.unkept + OpSet(p.c.outbox) + Excused(p)
    && Held(h.fed, p.kept + p.unkept + Excused(p), p.c.record.lastAckedSeq)
    && p.kept <= p.created + h.applied
  }

  ghost predicate PeerInv(h: Past, r: string, p: Peer) {
    Safe(h, p) && SafeOnDisk(h, p) && ChannelOk(h, r, p)
  }

  ghost predicate PeersInv(h: Past, peers: map<string, Peer>) {
    forall r {:trigger PeerInv(h, r, peers[r])} :: r in peers ==> PeerInv(h, r, peers[r])
  }

  /** All ops that any client created. */
  ghost function Issued(peers: map<string, Peer>): set<Op> {
    set r, op | r in peers && op in peers[r].created :: op
  }

  /** What a client ever sent, and what the history has of it, it created. */
  ghost predicate MessagesOwned(peers: map<string, Peer>, sent: set<(string, seq<Op>)>) {
    forall m :: m in sent ==> m.0 in peers && OpSet(m.1) <= peers[m.0].created
  }

  ghost predicate HistoryOwned(peers: map<string, Peer>, fed: seq<Batch>, senders: seq<string>) {
    |senders| == |fed| &&
    forall j :: 0 <= j < |fed| ==> senders[j] in peers && OpSet(fed[j].ops) <= peers[senders[j]].created
  }

  /** The server's own books. */
  ghost predicate ServerInv(n: Net) {
    Traced(n.server, n.fed) && n.server.shown + n.server.durable <= n.applied <= Issued(n.peers)
  }

  ghost predicate Inv(n: Net) {
    && ServerInv(n) && PeersInv(PastOf(n), n.peers)
    && MessagesOwned(n.peers, n.sent) && HistoryOwned(n.peers, n.fed, n.senders)
  }

  // The history

  lemma {:induction false} HeldIsPrefix(fed: seq<Batch>, s: set<Op>, n: nat)
    requires Held(fed, s, n)
    ensures OpsIn(fed[..n]) <= s
  {
    forall op | op in OpsIn(fed[..n]) ensures op in s {
      var j := OpsInFrom(fed[..n], op);
      assert op in OpSet(fed[j].ops);
    }
  }

  lemma {:induction false} PrefixIsHeld(fed: seq<Batch>, s: set<Op>, n: nat)
    requires n <= |fed| && OpsIn(fed[..n]) <= s
    ensures Held(fed, s, n)
  {
    forall j | 0 <= j < n ensures OpSet(fed[j].ops) <= s { OpsInAt(fed[..n], j); }
  }

  lemma {:induction false} BehindMore(h: Past, r: string, n: nat, m: nat, k: nat)
    requires Behind(h, r, n, k) && n <= m <= |h.fed|
    ensures Behind(h, r, m, k)
  {
    OpsInPrefix(h.fed, n, m);
  }

  /** The past after one more batch. */
  ghost function Fed(h: Past, q: string, b: Batch): Past {
    Past(h.fed + [b], h.senders + [q], h.durable, h.applied + OpSet(b.ops))
  }

  lemma {:induction false} BehindStays(h: Past, q: string, b: Batch, r: string, n: nat, m: nat)
    requires Behind(h, r, n, m) && (m <= |h.fed| || q == r)
    ensures Behind(Fed(h, q, b), r, n, m)
  {
    assert (h.fed + [b])[..n] == h.fed[..n];
  }

  lemma {:induction false} BringsStays(h: Past, q: string, b: Batch, n: nat, m: nat, ops: set<Op>)
    requires Brings(h, n, m, ops)
    ensures Brings(Fed(h, q, b), n, m, ops)
  {
    assert (h.fed + [b])[..n] == h.fed[..n];
  }

  // The messages on their way

  /** The level of a client after a message. */
  function LevelAfter(n: nat, m: ServerMessage): nat {
    if m.ErrorMessage? then n else if IsReply(m) then m.seqNo else Max(n, m.seqNo)
  }

  /** The head of a channel does not care for new batches. */
  lemma {:induction false} HeadStays(h: Past, q: string, b: Batch, r: string, n: nat, inbox: seq<ServerMessage>)
    requires inbox != [] && Flow(h, r, n, inbox) && Flow(Fed(h, q, b), r, LevelAfter(n, inbox[0]), inbox[1..])
    ensures Flow(Fed(h, q, b), r, n, inbox)
  {
    match inbox[0]
    case SyncMessage(s, ops) => BringsStays(h, q, b, n, s, OpSet(ops));
    case SnapshotMessage(_, _) =>
    case BroadcastMessage(s, _) => BehindStays(h, q, b, r, n, s - 1);
    case AckMessage(s, _) => BehindStays(h, q, b, r, n, s);
    case ErrorMessage(_, _) =>
  }

  /** A new batch of the client's own changes nothing for it. */
  lemma {:induction false} FlowOwnBatch(h: Past, r: string, n: nat, inbox: seq<ServerMessage>, b: Batch)
    requires Flow(h, r, n, inbox)
    ensures Flow(Fed(h, r, b), r, n, inbox)
    decreases |inbox|
  {
    if inbox == [] {
      BehindStays(h, r, b, r, n, |h.fed|);
    } else {
      FlowOwnBatch(h, r, LevelAfter(n, inbox[0]), inbox[1..], b);
      HeadStays(h, r, b, r, n, inbox);
    }
  }

  lemma {:induction false} FlowTail(h: Past, r: string, n: nat, inbox: seq<ServerMessage>, last: ServerMessage)
    requires inbox != [] && Flow(h, r, n, inbox) && Flow(h, r, LevelAfter(n, inbox[0]), inbox[1..] + [last])
    ensures Flow(h, r, n, inbox + [last])
  {
    assert (inbox + [last])[1..] == inbox[1..] + [last];
  }

  /** Another one's batch is announced at the end. */
  lemma {:induction false} FlowBroadcast(h: Past, r: string, n: nat, inbox: seq<ServerMessage>, b: Batch, q: string)
    requires Flow(h, r, n, inbox)
    ensures Flow(Fed(h, q, b), r, n, inbox + [BroadcastMessage(|h.fed| + 1, b.ops)])
    decreases |inbox|
  {
    var last := BroadcastMessage(|h.fed| + 1, b.ops);
    if inbox == [] {
      BehindStays(h, q, b, r, n, |h.fed|);
    } else {
      var m, rest := inbox[0], inbox[1..];
      FlowBroadcast(h, r, LevelAfter(n, m), rest, b, q);
      assert (inbox + [last])[1..] == rest + [last] && (inbox + [last])[0] == m;
      match m
      case SyncMessage(s, ops) => BringsStays(h, q, b, n, s, OpSet(ops));
      case SnapshotMessage(_, _) =>
      case BroadcastMessage(s, _) => BehindStays(h, q, b, r, n, s - 1);
      case AckMessage(s, _) => BehindStays(h, q, b, r, n, s);
      case ErrorMessage(_, _) =>
    }
  }

  lemma {:induction false} FlowAck(h: Past, r: string, n: nat, inbox: seq<ServerMessage>, s: nat, ids: seq<OpId>)
    requires Acknowledges(h, r, s, ids) && Flow(h, r, n, inbox)
    ensures Flow(h, r, n, inbox + [AckMessage(s, ids)])
    decreases |inbox|
  {
    if inbox == [] {
      BehindMore(h, r, n, Max(n, s), |h.fed|);
    } else {
      FlowAck(h, r, LevelAfter(n, inbox[0]), inbox[1..], s, ids);
      FlowTail(h, r, n, inbox, AckMessage(s, ids));
    }
  }

  lemma {:induction false} FlowError(h: Past, r: string, n: nat, inbox: seq<ServerMessage>, code: string, text: string)
    requires Flow(h, r, n, inbox)
    ensures Flow(h, r, n, inbox + [ErrorMessage(code, text)])
    decreases |inbox|
  {
    if inbox == [] {
      assert (inbox + [ErrorMessage(code, text)])[1..] == inbox;
    } else {
      FlowError(h, r, LevelAfter(n, inbox[0]), inbox[1..], code, text);
      FlowTail(h, r, n, inbox, ErrorMessage(code, text));
    }
  }

  /** More becomes durable. */
  lemma {:induction false} FlowDurable(h: Past, r: string, n: nat, inbox: seq<ServerMessage>, durable: set<Op>)
    requires Flow(h, r, n, inbox) && h.durable <= durable
    ensures Flow(h.(durable := durable), r, n, inbox)
    decreases |inbox|
  {
    if inbox != [] { FlowDurable(h, r, LevelAfter(n, inbox[0]), inbox[1..], durable); }
  }

  // Every step keeps a client safe

  lemma {:induction false} DurableInv(h: Past, r: string, p: Peer, durable: set<Op>)
    requires PeerInv(h, r, p) && h.durable <= durable
    ensures PeerInv(h.(durable := durable), r, p)
  {
    if p.conn.Joined? { FlowDurable(h, r, p.level, p.inbox, durable); }
  }

  lemma {:induction false} SafeAsHistoryGrows(h: Past, p: Peer, q: string, b: Batch)
    requires Safe(h, p) && SafeOnDisk(h, p) && ReplyOk(h, p)
    ensures Safe(Fed(h, q, b), p) && SafeOnDisk(Fed(h, q, b), p) && ReplyOk(Fed(h, q, b), p)
  {
    if p.inbox != [] && p.inbox[0].SnapshotMessage? {
      assert (h.fed + [b])[..p.inbox[0].seqNo] == h.fed[..p.inbox[0].seqNo];
    }
  }

  lemma {:induction false} ToldInv(h: Past, r: string, p: Peer, b: Batch, q: string)
    requires PeerInv(h, r, p) && b.seqNo == |h.fed| + 1
    ensures PeerInv(Fed(h, q, b), r, Told(p, q == r, b))
  {
    SafeAsHistoryGrows(h, p, q, b);
    if p.conn.Joined? {
      if q == r { FlowOwnBatch(h, r, p.level, p.inbox, b); } else { FlowBroadcast(h, r, p.level, p.inbox, b, q); }
    }
  }

  /** A crash takes ops from the history and cuts the connection. */
  lemma {:induction false} CrashInv(h: Past, r: string, p: Peer, kept: set<Op>)
    requires PeerInv(h, r, p)
    ensures PeerInv(h.(fed := Surviving(h.fed, kept)), r, Cut(p))
  {
    forall j | 0 <= j < |h.fed| ensures OpSet(Surviving(h.fed, kept)[j].ops) <= OpSet(h.fed[j].ops) {
      OnlyHas(h.fed[j].ops, kept);
    }
  }

  lemma {:induction false} AcknowledgedInv(h: Past, r: string, p: Peer, s: nat, ids: seq<OpId>)
    requires PeerInv(h, r, p) && Acknowledges(h, r, s, ids) && p.conn.Joined?
    ensures PeerInv(h, r, p.(inbox := p.inbox + [AckMessage(s, ids)]))
  {
    FlowAck(h, r, p.level, p.inbox, s, ids);
  }

  /** What an edit takes out of the outbox shares its key with what it puts in. */
  lemma {:induction false} EvictedIsContested(p: Peer, r: string, edits: seq<Edit>)
    requires OnePerKey(p.c.outbox) && OpSet(p.c.outbox) <= p.created && !ApplyEdits(p.c.doc, r, edits).thrown
    ensures var q, made := Edited(p, r, edits), OpSet(ApplyEdits(p.c.doc, r, edits).ops);
      && OnePerKey(q.c.outbox) && OpSet(q.c.outbox) <= q.created
      && OpSet(p.c.outbox) + made <= OpSet(q.c.outbox) + Contested(q.created)
  {
    PutAllIs(p.c.outbox, ApplyEdits(p.c.doc, r, edits).ops);
  }

  lemma {:induction false} EditedInv(h: Past, r: string, p: Peer, edits: seq<Edit>)
    requires PeerInv(h, r, p) && !ApplyEdits(p.c.doc, r, edits).thrown
    ensures PeerInv(h, r, Edited(p, r, edits))
  {
    EvictedIsContested(p, r, edits);
    ContestedGrows(p.created, Edited(p, r, edits).created);
  }

  lemma {:induction false} RestartedInv(h: Past, r: string, p: Peer, listed: seq<Op>)
    requires PeerInv(h, r, p) && Lists(listed, p.c.outbox)
    ensures PeerInv(h, r, Restarted(p, listed))
  {
  }

  lemma {:induction false} DisconnectedInv(h: Past, r: string, p: Peer)
    requires PeerInv(h, r, p)
    ensures PeerInv(h, r, Cut(p))
  {
  }

  /** The answer to a join brings every batch above the number of the client. */
  lemma {:induction false} AnswerFlows(room: RoomState, h: Past, r: string, since: nat)
    requires Answers(room, h.fed) && since <= |h.fed| == |h.senders| && OpsIn(h.fed) <= h.applied
    ensures Flow(h, r, since, [ReplyTo(room, since)])
  {
    NothingAfter(room, h.fed);
    forall j | 0 <= j < |h.fed| ensures OpSet(h.fed[j].ops) <= OpsIn(h.fed) { OpsInAt(h.fed, j); }
    assert [ReplyTo(room, since)][1..] == [];
    if OpsSince(room, since).Some? { AnswerIsComplete(room, h.fed, since); }
  }

  lemma {:induction false} AnsweredInv(server: ServerProcess.Process, h: Past, r: string, p: Peer)
    requires PeerInv(h, r, p) && p.conn.Opening?
    requires Traced(server, h.fed) && |h.senders| == |h.fed| && h.durable == server.durable && server.shown <= h.applied
    ensures PeerInv(h, r, Answered(p, server))
  {
    AnswerFlows(server.room, h, r, p.c.lastAcked);
    OpsInPrefix(h.fed, server.room.seqNo, |h.fed|);
  }

  // Receiving

  /** Writing the record keeps it as safe as the client is. */
  lemma {:induction false} RecordedInv(h: Past, p: Peer)
    requires Safe(h, p)
    ensures Safe(h, Recorded(p).(c := Persisted(p.c))) && SafeOnDisk(h, Recorded(p).(c := Persisted(p.c)))
  {
  }

  /** Everything that the history has of a client, it created. */
  ghost predicate Authored(h: Past, r: string, created: set<Op>) {
    |h.senders| == |h.fed| && forall j :: 0 <= j < |h.fed| && h.senders[j] == r ==> OpSet(h.fed[j].ops) <= created
  }

  lemma {:induction false} HeldMore(h: Past, r: string, s: set<Op>, created: set<Op>, n: nat, m: nat)
    requires Held(h.fed, s, n) && m <= |h.fed| && Behind(h, r, n, m) && created <= s && Authored(h, r, created)
    ensures Held(h.fed, s, Max(n, m))
  {
    HeldIsPrefix(h.fed, s, n);
  }

  /** A received message that comes after the reply leaves a channel without a reply. */
  lemma {:induction false} ChannelAfter(h: Past, r: string, p: Peer, q: Peer)
    requires ChannelOk(h, r, p) && p.inbox != []
    requires q.inbox == p.inbox[1..] && q.conn == p.conn && Flow(h, r, q.level, q.inbox)
    ensures ChannelOk(h, r, q)
  {
    forall i | 0 <= i < |q.inbox| ensures !IsReply(q.inbox[i]) { assert q.inbox[i] == p.inbox[i + 1]; }
  }

  /** A client before it writes the record. */
  ghost function Unrecorded(p: Peer, doc: Doc, outbox: seq<Op>, lastAcked: nat, got: set<Op>, level: nat,
                            missed: set<Op>): Peer
    requires p.inbox != []
  {
    p.(c := p.c.(doc := doc, outbox := outbox, lastAcked := lastAcked), inbox := p.inbox[1..],
       got := got, level := level, missed := missed)
  }

  lemma {:induction false} RecordingInv(h: Past, r: string, p: Peer, q: Peer)
    requires ChannelOk(h, r, p) && p.inbox != []
    requires q.inbox == p.inbox[1..] && q.conn == p.conn && Flow(h, r, q.level, q.inbox)
    requires Safe(h, q)
    ensures PeerInv(h, r, Recorded(q).(c := Persisted(q.c)))
  {
    RecordedInv(h, q);
    ChannelAfter(h, r, p, Recorded(q).(c := Persisted(q.c)));
  }

  lemma {:induction false} SyncInv(h: Past, r: string, p: Peer)
    requires PeerInv(h, r, p) && p.conn.Joined? && p.inbox != [] && p.inbox[0].SyncMessage?
    ensures PeerInv(h, r, Received(p))
  {
    var s, ops := p.inbox[0].seqNo, p.inbox[0].ops;
    var q := Unrecorded(p, ApplyAll(p.c.doc, ops), p.c.outbox, s, p.got + OpSet(ops), s, p.missed);
    HeldIsPrefix(h.fed, p.got + Excused(p), p.level);
    RecordingInv(h, r, p, q);
  }

  lemma {:induction false} SnapshotInv(h: Past, r: string, p: Peer)
    requires PeerInv(h, r, p) && p.conn.Joined? && p.inbox != [] && p.inbox[0].SnapshotMessage?
    ensures PeerInv(h, r, Received(p))
  {
    var s := p.inbox[0].seqNo;
    var q := Unrecorded(p, ApplyAll(FromSnapshot(p.inbox[0].state), p.c.outbox), p.c.outbox, s,
                        p.reply + OpSet(p.c.outbox), s, p.unsent);
    PrefixIsHeld(h.fed, q.got + Excused(q), s);
    RecordingInv(h, r, p, q);
  }

  /** What an acknowledgement takes out of the outbox is durable or shares its key with what is. */
  lemma {:induction false} AckedIsDurable(h: Past, r: string, p: Peer, s: nat, ids: seq<OpId>)
    requires Safe(h, p) && Acknowledges(h, r, s, ids) && Authored(h, r, p.created)
    ensures var outbox := RemoveAll(p.c.outbox, ids);
      && OnePerKey(outbox) && OpSet(outbox) <= OpSet(p.c.outbox)
      && OpSet(p.c.outbox) <= OpSet(outbox) + h.durable + Contested(p.created)
  {
    var ops := h.fed[s - 1].ops;
    RemoveAllIs(p.c.outbox, ids);
    forall op | op in OpSet(p.c.outbox) && OpIdOf(op) in ids ensures op in h.durable + Contested(p.created) {
      var i :| 0 <= i < |ids| && ids[i] == OpIdOf(op);
      assert ops[i] in OpSet(ops) && OpIdOf(ops[i]) == OpIdOf(op);
      if ops[i] != op { assert Clashes(p.created, op); }
    }
  }

  lemma {:induction false} AckInv(h: Past, r: string, p: Peer)
    requires PeerInv(h, r, p) && p.conn.Joined? && p.inbox != [] && p.inbox[0].AckMessage?
    requires Authored(h, r, p.created)
    ensures PeerInv(h, r, Received(p))
  {
    var s, ids := p.inbox[0].seqNo, p.inbox[0].opIds;
    var q := Unrecorded(p, p.c.doc, RemoveAll(p.c.outbox, ids), s, p.got, Max(p.level, s), p.missed);
    AckedIsDurable(h, r, p, s, ids);
    HeldMore(h, r, p.got + Excused(p), p.created, p.level, s);
    RecordingInv(h, r, p, q);
  }

  lemma {:induction false} BroadcastInv(h: Past, r: string, p: Peer)
    requires PeerInv(h, r, p) && p.conn.Joined? && p.inbox != [] && p.inbox[0].BroadcastMessage?
    requires Authored(h, r, p.created) && OpsIn(h.fed) <= h.applied
    ensures PeerInv(h, r, Received(p))
  {
    var s, q := p.inbox[0].seqNo, Received(p);
    OpsInAt(h.fed, s - 1);
    HeldMore(h, r, p.got + Excused(p), p.created, p.level, s - 1);
    ChannelAfter(h, r, p, q);
  }

  lemma {:induction false} ReceivedInv(h: Past, r: string, p: Peer)
    requires PeerInv(h, r, p) && p.inbox != [] && Authored(h, r, p.created) && OpsIn(h.fed) <= h.applied
    ensures PeerInv(h, r, Received(p))
  {
    match p.inbox[0]
    case SyncMessage(_, _) => SyncInv(h, r, p);
    case SnapshotMessage(_, _) => SnapshotInv(h, r, p);
    case BroadcastMessage(_, _) => BroadcastInv(h, r, p);
    case AckMessage(_, _) => AckInv(h, r, p);
    case ErrorMessage(_, _) => ChannelAfter(h, r, p, Received(p));
  }

  // Every step of the net

  lemma {:induction false} StartInv(names: set<string>, kind: Kind)
    ensures Inv(Start(names, kind))
  {
    BootTraced(kind);
    assert OpsIn([]) == {};
    assert OpSet([]) == {};
  }

  lemma {:induction false} IssuedAfter(peers: map<string, Peer>, r: string, q: Peer, made: set<Op>)
    requires r in peers && q.created == peers[r].created + made
    ensures Issued(peers[r := q]) == Issued(peers) + made
  {
    var after := peers[r := q];
    forall op ensures op in Issued(after) <==> op in Issued(peers) + made {
      if op in Issued(peers) {
        var s :| s in peers && op in peers[s].created;
        assert s in after && op in after[s].created;
      }
      if op in made { assert r in after && op in after[r].created; }
    }
  }

  /** Clients that created the same ops as before. */
  lemma {:induction false} IssuedSame(peers: map<string, Peer>, after: map<string, Peer>)
    requires peers.Keys == after.Keys && forall r :: r in peers ==> peers[r].created == after[r].created
    ensures Issued(peers) == Issued(after)
  {
  }

  /** A step that changes one client, which may create ops, and adds only messages with its own ops. */
  lemma {:induction false} OnePeerInv(n: Net, r: string, q: Peer, made: set<Op>, sent: set<(string, seq<Op>)>)
    requires Inv(n) && r in n.peers && PeerInv(PastOf(n), r, q) && q.created == n.peers[r].created + made
    requires forall m :: m in sent ==> m in n.sent || (m.0 == r && OpSet(m.1) <= q.created)
    ensures Inv(n.(peers := n.peers[r := q], sent := sent))
  {
    IssuedAfter(n.peers, r, q, made);
  }

  lemma {:induction false} AllToldInv(n: Net, r: string, b: Batch)
    requires Inv(n) && b.seqNo == |n.fed| + 1
    ensures PeersInv(Fed(PastOf(n), r, b), AllTold(n.peers, r, b))
  {
    forall q | q in n.peers ensures PeerInv(Fed(PastOf(n), r, b), q, AllTold(n.peers, r, b)[q]) {
      ToldInv(PastOf(n), q, n.peers[q], b, r);
    }
  }

  lemma {:induction false} OwnershipStays(n: Net, r: string, b: Batch)
    requires Inv(n) && r in n.peers && OpSet(b.ops) <= n.peers[r].created
    ensures var peers := AllTold(n.peers, r, b);
      && MessagesOwned(peers, n.sent) && HistoryOwned(peers, n.fed + [b], n.senders + [r])
      && n.applied + OpSet(b.ops) <= Issued(peers)
  {
    IssuedSame(n.peers, AllTold(n.peers, r, b));
    forall op | op in OpSet(b.ops) ensures op in Issued(n.peers) { assert op in n.peers[r].created; }
  }

  lemma {:induction false} AppliedInv(n: Net, r: string, ops: seq<Op>)
    requires Inv(n) && Enabled(n, Apply(r, ops))
    ensures Inv(Next(n, Apply(r, ops)))
  {
    var b := NextBatch(n, ops);
    AcceptTraced(n.server, n.fed, b);
    AllToldInv(n, r, b);
    assert (r, ops) in n.sent;
    OwnershipStays(n, r, b);
  }

  lemma {:induction false} EditStepInv(n: Net, r: string, edits: seq<Edit>)
    requires Inv(n) && Enabled(n, Edit(r, edits))
    ensures Inv(Next(n, Edit(r, edits)))
  {
    EditedInv(PastOf(n), r, n.peers[r], edits);
    OnePeerInv(n, r, Edited(n.peers[r], r, edits), OpSet(ApplyEdits(n.peers[r].c.doc, r, edits).ops),
               Next(n, Edit(r, edits)).sent);
  }

  lemma {:induction false} FlushedIsOwn(p: Peer, r: string)
    requires p.inbox != [] && OpSet(p.c.outbox) <= p.created
    ensures forall m :: m in Messages(Flushed(p.c.outbox, p.inbox[0]), r) ==>
      m.0 == r && OpSet(m.1) <= Received(p).created
  {
  }

  lemma {:induction false} ReadingInv(n: Net, r: string)
    requires Inv(n) && r in n.peers && n.peers[r].inbox != []
    ensures PeerInv(PastOf(n), r, Received(n.peers[r])) && Received(n.peers[r]).created == n.peers[r].created + {}
  {
    assert PeerInv(PastOf(n), r, n.peers[r]);
    ReceivedInv(PastOf(n), r, n.peers[r]);
  }

  lemma {:induction false} ReceiveStepInv(n: Net, r: string)
    requires Inv(n) && Enabled(n, Action.Receive(r))
    ensures Inv(Next(n, Action.Receive(r)))
  {
    var p := n.peers[r];
    assert PeerInv(PastOf(n), r, p);
    ReadingInv(n, r);
    FlushedIsOwn(p, r);
    OnePeerInv(n, r, Received(p), {}, n.sent + Messages(Flushed(p.c.outbox, p.inbox[0]), r));
  }

  /** A step of a client that creates and sends nothing. */
  lemma {:induction false} SilentStepInv(n: Net, r: string, q: Peer)
    requires Inv(n) && r in n.peers && PeerInv(PastOf(n), r, q) && q.created == n.peers[r].created
    ensures Inv(n.(peers := n.peers[r := q]))
  {
    assert q.created == n.peers[r].created + {};
    OnePeerInv(n, r, q, {}, n.sent);
    assert n.(peers := n.peers[r := q], sent := n.sent) == n.(peers := n.peers[r := q]);
  }

  /** Only what was stored is acknowledged. */
  lemma {:induction false} SavedIsDurable(n: Net, r: string, i: nat)
    requires Inv(n) && Enabled(n, Acknowledge(r, i))
    ensures n.fed[i].seqNo == i + 1 && Acknowledges(PastOf(n), r, i + 1, IdsOf(n.fed[i].ops))
  {
  }

  lemma {:induction false} AcknowledgeStepInv(n: Net, r: string, i: nat)
    requires Inv(n) && Enabled(n, Acknowledge(r, i))
    ensures Inv(Next(n, Acknowledge(r, i)))
  {
    var p, ids := n.peers[r], IdsOf(n.fed[i].ops);
    assert PeerInv(PastOf(n), r, p);
    SavedIsDurable(n, r, i);
    AcknowledgedInv(PastOf(n), r, p, i + 1, ids);
    SilentStepInv(n, r, p.(inbox := p.inbox + [AckMessage(i + 1, ids)]));
  }

  lemma {:induction false} RefuseStepInv(n: Net, r: string, code: string, text: string)
    requires Inv(n) && Enabled(n, Refuse(r, code, text))
    ensures Inv(Next(n, Refuse(r, code, text)))
  {
    var p := n.peers[r];
    assert PeerInv(PastOf(n), r, p);
    FlowError(PastOf(n), r, p.level, p.inbox, code, text);
    SilentStepInv(n, r, p.(inbox := p.inbox + [ErrorMessage(code, text)]));
  }

  lemma {:induction false} JoinStepInv(n: Net, r: string)
    requires Inv(n) && Enabled(n, Join(r))
    ensures Inv(Next(n, Join(r)))
  {
    assert PeerInv(PastOf(n), r, n.peers[r]);
    AnsweredInv(n.server, PastOf(n), r, n.peers[r]);
    SilentStepInv(n, r, Answered(n.peers[r], n.server));
  }

  lemma {:induction false} ConnectStepInv(n: Net, r: string)
    requires Inv(n) && Enabled(n, Connect(r))
    ensures Inv(Next(n, Connect(r)))
  {
    assert PeerInv(PastOf(n), r, n.peers[r]);
    SilentStepInv(n, r, n.peers[r].(conn := Opening));
  }

  lemma {:induction false} DisconnectStepInv(n: Net, r: string)
    requires Inv(n) && Enabled(n, Disconnect(r))
    ensures Inv(Next(n, Disconnect(r)))
  {
    assert PeerInv(PastOf(n), r, n.peers[r]);
    DisconnectedInv(PastOf(n), r, n.peers[r]);
    SilentStepInv(n, r, Cut(n.peers[r]));
  }

  lemma {:induction false} ReloadStepInv(n: Net, r: string, listed: seq<Op>)
    requires Inv(n) && Enabled(n, Reload(r, listed))
    ensures Inv(Next(n, Reload(r, listed)))
  {
    assert PeerInv(PastOf(n), r, n.peers[r]);
    RestartedInv(PastOf(n), r, n.peers[r], listed);
    SilentStepInv(n, r, Restarted(n.peers[r], listed));
  }

  lemma {:induction false} AllCutInv(h: Past, peers: map<string, Peer>, kept: set<Op>)
    requires PeersInv(h, peers)
    ensures PeersInv(h.(fed := Surviving(h.fed, kept)), AllCut(peers))
  {
    forall r | r in peers ensures PeerInv(h.(fed := Surviving(h.fed, kept)), r, AllCut(peers)[r]) {
      CrashInv(h, r, peers[r], kept);
    }
  }

  lemma {:induction false} CutOwnership(peers: map<string, Peer>, sent: set<(string, seq<Op>)>, fed: seq<Batch>,
                                        senders: seq<string>, kept: set<Op>)
    requires MessagesOwned(peers, sent) && HistoryOwned(peers, fed, senders)
    ensures MessagesOwned(AllCut(peers), sent) && HistoryOwned(AllCut(peers), Surviving(fed, kept), senders)
  {
    forall j | 0 <= j < |fed| ensures OpSet(Surviving(fed, kept)[j].ops) <= OpSet(fed[j].ops) {
      OnlyHas(fed[j].ops, kept);
    }
  }

  lemma {:induction false} CutIssued(peers: map<string, Peer>)
    ensures Issued(AllCut(peers)) == Issued(peers)
  {
    IssuedSame(peers, AllCut(peers));
  }

  /** The net after a crash. */
  lemma {:induction false} CrashNet(n: Net, loaded: Stores.Loaded)
    requires Enabled(n, Serve(ServerProcess.Crash(loaded)))
    ensures var m := Next(n, Serve(ServerProcess.Crash(loaded)));
      && m.server == ServerProcess.Next(n.server, ServerProcess.Crash(loaded)) && m.applied == n.applied
      && m.peers == AllCut(n.peers) && m.sent == n.sent && m.senders == n.senders && m.fed == PastOf(m).fed
      && PastOf(m) == PastOf(n).(fed := Surviving(n.fed, ServerProcess.Recoverable(n.server)))
  {
  }

  lemma {:induction false} CrashServerInv(n: Net, loaded: Stores.Loaded)
    requires Inv(n) && Enabled(n, Serve(ServerProcess.Crash(loaded)))
    ensures ServerInv(Next(n, Serve(ServerProcess.Crash(loaded))))
  {
    CrashTraced(n.server, n.fed, loaded);
    CrashNet(n, loaded);
    CutIssued(n.peers);
  }

  lemma {:induction false} CrashStepInv(n: Net, loaded: Stores.Loaded)
    requires Inv(n) && Enabled(n, Serve(ServerProcess.Crash(loaded)))
    ensures Inv(Next(n, Serve(ServerProcess.Crash(loaded))))
  {
    var kept := ServerProcess.Recoverable(n.server);
    CrashServerInv(n, loaded);
    CrashNet(n, loaded);
    AllCutInv(PastOf(n), n.peers, kept);
    CutOwnership(n.peers, n.sent, n.fed, n.senders, kept);
  }

  lemma {:induction false} ServeInv(n: Net, a: ServerProcess.Action)
    requires Inv(n) && Enabled(n, Serve(a)) && !a.Crash?
    ensures Inv(Next(n, Serve(a)))
  {
    var m := Next(n, Serve(a));
    ServerTraced(n.server, n.fed, a);
    forall r | r in n.peers ensures PeerInv(PastOf(m), r, n.peers[r]) {
      assert PeerInv(PastOf(n), r, n.peers[r]);
      DurableInv(PastOf(n), r, n.peers[r], m.server.durable);
    }
  }

  lemma {:induction false} NextInv(n: Net, a: Action)
    requires Inv(n) && Enabled(n, a)
    ensures Inv(Next(n, a))
  {
    match a
    case Edit(r, edits) => EditStepInv(n, r, edits);
    case Apply(r, ops) => AppliedInv(n, r, ops);
    case Acknowledge(r, i) => AcknowledgeStepInv(n, r, i);
    case Refuse(r, code, text) => RefuseStepInv(n, r, code, text);
    case Connect(r) => ConnectStepInv(n, r);
    case Join(r) => JoinStepInv(n, r);
    case Receive(r) => ReceiveStepInv(n, r);
    case Disconnect(r) => DisconnectStepInv(n, r);
    case Reload(r, listed) => ReloadStepInv(n, r, listed);
    case Serve(step) => if step.Crash? { CrashStepInv(n, step.loaded); } else { ServeInv(n, step); }
  }
}
