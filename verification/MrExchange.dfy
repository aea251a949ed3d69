/**
 The memory-region exchange of 02_read-write: both peers run the same completion handler over two counters; the
 client alone sends its region unprompted, and each peer acts when its counters reach an exact pair.
 */
module MrExchange {

  datatype Mode = WriteMode | ReadMode

  datatype MsgType = MrMsg | DoneMsg

  datatype Message = Message(kind: MsgType, mr: nat)

  /** Requests a handler posts, in order; Disconnect ends the exchange. */
  datatype Work = PostRecv | Send | Rdma | Disconnect

  const SS_INIT := 0
  const SS_MR_SENT := 1
  const SS_DONE_SENT := 3
  const RS_MR_RECV := 1
  const RS_DONE_RECV := 2

  /** The fields of struct connection that the handler reads or writes. */
  datatype Conn = Conn(sendState: nat, recvState: nat, peerMr: nat, recvMsg: Message, sendMsg: Message)

  /** Message handling: a region message is stored and answered unless the own region was already sent. */
  function OnRecv(c: Conn, key: nat): (Conn, seq<Work>) {
    var r := c.(recvState := c.recvState + 1);
    if c.recvMsg.kind == MrMsg then
      var s := r.(peerMr := c.recvMsg.mr);
      if c.sendState == SS_INIT then (s.(sendMsg := Message(MrMsg, key)), [PostRecv, Send]) else (s, [PostRecv])
    else (r, [])
  }

  function React(c: Conn, key: nat, isRecv: bool): (Conn, seq<Work>) {
    var (d, work) := if isRecv then OnRecv(c, key) else (c.(sendState := c.sendState + 1), []);
    if d.sendState == SS_MR_SENT && d.recvState == RS_MR_RECV then
      (d.(sendMsg := d.sendMsg.(kind := DoneMsg)), work + [Rdma, Send])
    else if d.sendState == SS_DONE_SENT && d.recvState == RS_DONE_RECV then (d, work + [Disconnect])
    else (d, work)
  }

  class Connection {
    const key: nat
    var sendState: nat
    var recvState: nat
    var peerMr: nat
    var recvMsg: Message
    var sendMsg: Message

    ghost function State(): Conn reads this {
      Conn(sendState, recvState, peerMr, recvMsg, sendMsg)
    }

    method SendMr() returns (work: seq<Work>)
      modifies this`sendMsg
      ensures sendMsg == Message(MrMsg, key) && work == [Send]
    {
      sendMsg := Message(MrMsg, key);
      work := [Send];
    }

    method OnCompletion(isRecv: bool) returns (work: seq<Work>)
      modifies this
      ensures (State(), work) == React(old(State()), key, isRecv)
    {
      work := [];
      if isRecv {
        recvState := recvState + 1;
        if recvMsg.kind == MrMsg {
          peerMr := recvMsg.mr;
          work := [PostRecv];
          if sendState == SS_INIT {
            var sent := SendMr();
            work := [PostRecv, sent[0]];
          }
        }
      } else {
        sendState := sendState + 1;
      }
      if sendState == SS_MR_SENT && recvState == RS_MR_RECV {
        sendMsg := sendMsg.(kind := DoneMsg);
        work := work + [Rdma, Send];
      } else if sendState == SS_DONE_SENT && recvState == RS_DONE_RECV {
        work := work + [Disconnect];
      }
    }
  }

  // ---------------------------------------------------------------------------------------------
  // Two peers
  // ---------------------------------------------------------------------------------------------

  /** A posted request; a send carries how many of the other peer's messages had been handled when it was posted. */
  datatype Req = SendReq(seen: nat) | RdmaReq

  /** One peer: its connection, regions, pending work, send queue with the number of executed requests, posted
      receives, and the unpolled receive completions (each with the `seen` of its message). */
  datatype Peer = Peer(conn: Conn, local: string, remote: string, connected: bool, todo: seq<Work>,
                       sq: seq<Req>, executed: nat, recvs: nat, rcq: seq<nat>, finished: bool)

  datatype State = State(client: Peer, server: Peer)

  /** Mode of both programs, region keys and the texts the peers put in their message regions. */
  datatype Setup = Setup(mode: Mode, clientKey: nat, serverKey: nat, clientText: string, serverText: string)

  datatype Action = Establish | DoWork | Execute | PollSend | PollRecv

  datatype Step = Step(byClient: bool, action: Action)

  /** get_local_message_region at start-up: the own text goes to the region the mode selects. */
  predicate TextPlaced(u: Setup, p: Peer, text: string) {
    if u.mode.WriteMode? then p.local == text else p.remote == text
  }

  predicate IsInit(u: Setup, st: State) {
    && st.client.conn.sendState == 0 && st.client.conn.recvState == 0
    && st.client.conn.sendMsg == Message(MrMsg, u.clientKey)
    && st.client.connected && st.client.todo == [Send]
    && st.server.conn.sendState == 0 && st.server.conn.recvState == 0
    && !st.server.connected && st.server.todo == []
    && TextPlaced(u, st.client, u.clientText) && TextPlaced(u, st.server, u.serverText)
    && st.client.sq == st.server.sq == [] && st.client.executed == st.server.executed == 0
    && st.client.recvs == st.server.recvs == 1 && st.client.rcq == st.server.rcq == []
    && !st.client.finished && !st.server.finished
  }

  /** Sends of `p` whose completion has been polled. */
  function SendsPolled(p: Peer): nat {
    CountSends(p.sq[..if p.conn.sendState <= |p.sq| then p.conn.sendState else |p.sq|])
  }

  function CountSends(sq: seq<Req>): nat {
    if sq == [] then 0 else (if sq[0].SendReq? then 1 else 0) + CountSends(sq[1..])
  }

  /** A send needs the connection to be established; a request is executed in queue order at the other peer. */
  predicate CanAct(me: Peer, other: Peer, otherKey: nat, a: Action) {
    match a
    case Establish => !me.connected
    case DoWork => me.todo != [] && (me.todo[0] == Send ==> me.connected)
    case Execute =>
      && me.executed < |me.sq|
      && if me.sq[me.executed].SendReq? then other.recvs > 0 else me.conn.peerMr == otherKey
    case PollSend => me.todo == [] && !me.finished && me.conn.sendState < me.executed
    case PollRecv => me.todo == [] && !me.finished && me.rcq != []
  }

  /** The completion-order assumption: a receive completion is polled only after the completions of the sends that
      its message causally follows. */
  predicate Ordered(me: Peer, a: Action) {
    a.PollRecv? && me.rcq != [] ==> me.rcq[0] <= SendsPolled(me)
  }

  function Work1(me: Peer): Peer
    requires me.todo != []
  {
    var v := me.(todo := me.todo[1..]);
    match me.todo[0]
    case PostRecv => v.(recvs := me.recvs + 1)
    case Send => v.(sq := me.sq + [SendReq(me.conn.recvState)])
    case Rdma => v.(sq := me.sq + [RdmaReq])
    case Disconnect => v.(finished := true)
  }

  function Act(u: Setup, key: nat, otherKey: nat, me: Peer, other: Peer, a: Action): (Peer, Peer)
    requires CanAct(me, other, otherKey, a)
  {
    match a
    case Establish => (me.(connected := true), other)
    case DoWork => (Work1(me), other)
    case Execute =>
      var v := me.(executed := me.executed + 1);
      (match me.sq[me.executed]
       case SendReq(seen) =>
         (v, other.(conn := other.conn.(recvMsg := me.conn.sendMsg), recvs := other.recvs - 1,
                     rcq := other.rcq + [seen]))
       case RdmaReq =>
         if u.mode.WriteMode? then (v, other.(remote := me.local)) else (v.(local := other.remote), other))
    case PollSend =>
      var (c, work) := React(me.conn, key, false);
      (me.(conn := c, todo := work), other)
    case PollRecv =>
      var (c, work) := React(me.conn, key, true);
      (me.(conn := c, todo := work, rcq := me.rcq[1..]), other)
  }

  predicate Enabled(u: Setup, st: State, s: Step) {
    if s.byClient then CanAct(st.client, st.server, u.serverKey, s.action)
    else CanAct(st.server, st.client, u.clientKey, s.action)
  }

  predicate InOrder(st: State, s: Step) {
    Ordered(if s.byClient then st.client else st.server, s.action)
  }

  function Next(u: Setup, st: State, s: Step): State
    requires Enabled(u, st, s)
  {
    if s.byClient then
      var (me, other) := Act(u, u.clientKey, u.serverKey, st.client, st.server, s.action);
      State(me, other)
    else
      var (me, other) := Act(u, u.serverKey, u.clientKey, st.server, st.client, s.action);
      State(other, me)
  }

  /** The states `trace` visits when the steps of `run` are taken from an initial state. */
  ghost predicate IsTrace(u: Setup, trace: seq<State>, run: seq<Step>) {
    && |trace| == |run| + 1
    && IsInit(u, trace[0])
    && forall i :: 0 <= i < |run| ==> Enabled(u, trace[i], run[i]) && trace[i + 1] == Next(u, trace[i], run[i])
  }

  // ---------------------------------------------------------------------------------------------
  // Runs that keep the completion order
  // ---------------------------------------------------------------------------------------------

  /** The requests of a peer, posted and still to be posted. */
  function Plan(p: Peer): seq<Work> {
    Ops(p.sq) + Posts(p.todo)
  }

  function Ops(sq: seq<Req>): seq<Work> {
    if sq == [] then [] else [if sq[0].SendReq? then Send else Rdma] + Ops(sq[1..])
  }

  function Posts(todo: seq<Work>): seq<Work> {
    if todo == [] then []
    else (if todo[0] == Send || todo[0] == Rdma then [todo[0]] else []) + Posts(todo[1..])
  }

  /** The requests a peer posts in an orderly run; the stamps tell what each message causally follows. */
  function FullQueue(isClient: bool): seq<Req> {
    [SendReq(if isClient then 0 else 1), RdmaReq, SendReq(1)]
  }

  predicate Acted(p: Peer) { p.conn.sendState >= SS_MR_SENT && p.conn.recvState >= RS_MR_RECV }

  /** Program position of one peer: counters, pending work and posted requests fit together. */
  predicate PositionInv(isClient: bool, p: Peer) {
    var ss, rs, n := p.conn.sendState, p.conn.recvState, |p.sq|;
    && n <= 3 && p.sq == FullQueue(isClient)[..n]
    && ss <= p.executed <= n && rs <= 2
    && (ss == SS_DONE_SENT && rs == RS_DONE_RECV <==> p.finished || p.todo == [Disconnect])
    && (p.finished ==> p.todo == [])
    && (isClient || n > 0 ==> p.connected)
    && if Acted(p) then
         && n >= 1
         && (n == 1 ==> (p.todo == [Rdma, Send] || p.todo == [PostRecv, Rdma, Send]) && rs == 1 && ss == 1)
         && (n == 2 ==> p.todo == [Send] && rs == 1 && ss == 1)
         && (n == 3 ==> p.todo == [] || p.todo == [Disconnect])
       else if isClient then
         rs == 0 && n <= 1 && p.todo == (if n == 0 then [Send] else [])
       else
         && rs <= 1 && ss == 0 && n <= rs
         && (if rs == 0 || n == 1 then p.todo == [] else p.todo == [PostRecv, Send] || p.todo == [Send])
  }

  function SendsExecuted(p: Peer): nat {
    (if p.executed >= 1 then 1 else 0) + (if p.executed >= 3 then 1 else 0)
  }

  /** What travels from `other` to `me`: receives, messages, stamps and stored keys. */
  predicate MessageInv(isClient: bool, key: nat, otherKey: nat, me: Peer, other: Peer) {
    var rs := me.conn.recvState;
    && me.recvs + |me.rcq| + (if me.todo != [] && me.todo[0] == PostRecv then 1 else 0) == (if rs <= 1 then 1 else 0)
    && rs + |me.rcq| == SendsExecuted(other)
    && (|me.rcq| == 1 ==>
          && me.rcq[0] == (if rs == 0 && !isClient then 0 else 1)
          && (rs == 0 ==> me.conn.recvMsg == Message(MrMsg, otherKey))
          && (rs == 1 ==> me.conn.recvMsg.kind == DoneMsg))
    && (rs >= 1 ==> me.conn.peerMr == otherKey)
    && (Acted(me) ==> me.conn.sendMsg.kind == DoneMsg)
    && (!Acted(me) && (isClient || rs == 1) ==> me.conn.sendMsg == Message(MrMsg, key))
  }

  /** Where the texts are: once a peer's one-sided operation has executed, its effect is in place. */
  predicate RegionInv(u: Setup, me: Peer, myText: string, other: Peer, otherText: string) {
    && TextPlaced(u, me, myText)
    && (me.executed >= 2 ==>
          if u.mode.WriteMode? then other.remote == myText else me.local == otherText)
  }

  predicate Inv(u: Setup, st: State) {
    && PositionInv(true, st.client) && PositionInv(false, st.server)
    && MessageInv(true, u.clientKey, u.serverKey, st.client, st.server)
    && MessageInv(false, u.serverKey, u.clientKey, st.server, st.client)
    && RegionInv(u, st.client, u.clientText, st.server, u.serverText)
    && RegionInv(u, st.server, u.serverText, st.client, u.clientText)
  }

  lemma InitInv(u: Setup, st: State)
    requires IsInit(u, st)
    ensures Inv(u, st)
  {
  }

  lemma OrderedMeansPolled(isClient: bool, p: Peer)
    requires PositionInv(isClient, p)
    ensures SendsPolled(p) >= 1 <==> p.conn.sendState >= 1
  {
  }

  /** The invariant seen from one side. */
  predicate PairInv(u: Setup, isClient: bool, me: Peer, other: Peer) {
    var key, otherKey := if isClient then u.clientKey else u.serverKey, if isClient then u.serverKey else u.clientKey;
    var text := if isClient then u.clientText else u.serverText;
    var otherText := if isClient then u.serverText else u.clientText;
    && PositionInv(isClient, me) && PositionInv(!isClient, other)
    && MessageInv(isClient, key, otherKey, me, other) && MessageInv(!isClient, otherKey, key, other, me)
    && RegionInv(u, me, text, other, otherText) && RegionInv(u, other, otherText, me, text)
  }

  lemma WorkPosition(isClient: bool, me: Peer)
    requires PositionInv(isClient, me) && me.todo != [] && (me.todo[0] == Send ==> me.connected)
    ensures PositionInv(isClient, Work1(me))
  {
    match me.todo[0]
    case PostRecv =>
    case Send =>
    case Rdma =>
    case Disconnect =>
  }

  lemma WorkMessages(isClient: bool, key: nat, otherKey: nat, me: Peer, other: Peer)
    requires PositionInv(isClient, me) && me.todo != []
    requires MessageInv(isClient, key, otherKey, me, other) && MessageInv(!isClient, otherKey, key, other, me)
    ensures MessageInv(isClient, key, otherKey, Work1(me), other)
    ensures MessageInv(!isClient, otherKey, key, other, Work1(me))
  {
    match me.todo[0]
    case PostRecv =>
    case Send =>
    case Rdma =>
    case Disconnect =>
  }

  lemma WorkInv(u: Setup, isClient: bool, me: Peer, other: Peer, otherKey: nat)
    requires PairInv(u, isClient, me, other) && CanAct(me, other, otherKey, DoWork)
    ensures PairInv(u, isClient, Work1(me), other)
  {
    WorkPosition(isClient, me);
    WorkMessages(isClient, if isClient then u.clientKey else u.serverKey,
                 if isClient then u.serverKey else u.clientKey, me, other);
  }

  lemma ExecuteInv(u: Setup, isClient: bool, key: nat, otherKey: nat, me: Peer, other: Peer)
    requires PairInv(u, isClient, me, other) && CanAct(me, other, otherKey, Execute)
    ensures var (me', other') := Act(u, key, otherKey, me, other, Execute); PairInv(u, isClient, me', other')
  {
  }

  lemma PollInv(u: Setup, isClient: bool, key: nat, otherKey: nat, me: Peer, other: Peer, a: Action)
    requires PairInv(u, isClient, me, other) && CanAct(me, other, otherKey, a) && Ordered(me, a)
    requires key == (if isClient then u.clientKey else u.serverKey)
    requires a.PollSend? || a.PollRecv?
    ensures var (me', other') := Act(u, key, otherKey, me, other, a); PairInv(u, isClient, me', other')
  {
    OrderedMeansPolled(isClient, me);
  }

  lemma ActInv(u: Setup, isClient: bool, key: nat, otherKey: nat, me: Peer, other: Peer, a: Action)
    requires PairInv(u, isClient, me, other) && CanAct(me, other, otherKey, a) && Ordered(me, a)
    requires key == (if isClient then u.clientKey else u.serverKey)
    ensures var (me', other') := Act(u, key, otherKey, me, other, a); PairInv(u, isClient, me', other')
  {
    match a
    case Establish =>
    case DoWork => WorkInv(u, isClient, me, other, otherKey);
    case Execute => ExecuteInv(u, isClient, key, otherKey, me, other);
    case PollSend => PollInv(u, isClient, key, otherKey, me, other, a);
    case PollRecv => PollInv(u, isClient, key, otherKey, me, other, a);
  }

  lemma StepInv(u: Setup, st: State, s: Step)
    requires Inv(u, st) && Enabled(u, st, s) && InOrder(st, s)
    ensures Inv(u, Next(u, st, s))
  {
    if s.byClient {
      ActInv(u, true, u.clientKey, u.serverKey, st.client, st.server, s.action);
    } else {
      ActInv(u, false, u.serverKey, u.clientKey, st.server, st.client, s.action);
    }
  }

  ghost predicate OrderKept(trace: seq<State>, run: seq<Step>, k: nat)
    requires |trace| == |run| + 1
  {
    forall i :: 0 <= i < |run| && i < k ==> InOrder(trace[i], run[i])
  }

  lemma {:induction false} TraceInv(u: Setup, trace: seq<State>, run: seq<Step>, k: nat)
    requires IsTrace(u, trace, run) && k < |trace| && OrderKept(trace, run, k)
    ensures Inv(u, trace[k])
  {
    if k == 0 {
      InitInv(u, trace[0]);
    } else {
      TraceInv(u, trace, run, k - 1);
      StepInv(u, trace[k - 1], run[k - 1]);
    }
  }

  /** get_peer_message_region. */
  function PeerMessage(u: Setup, p: Peer): string {
    if u.mode.WriteMode? then p.remote else p.local
  }

  /** Whenever a peer is at (SS_DONE_SENT, RS_DONE_RECV), the region it prints is the other peer's text. */
  lemma PrintsPeerText(u: Setup, trace: seq<State>, run: seq<Step>, k: nat)
    requires IsTrace(u, trace, run) && k < |trace| && OrderKept(trace, run, k)
    ensures trace[k].client.todo == [Disconnect] || trace[k].client.finished ==>
              PeerMessage(u, trace[k].client) == u.serverText
    ensures trace[k].server.todo == [Disconnect] || trace[k].server.finished ==>
              PeerMessage(u, trace[k].server) == u.clientText
  {
    TraceInv(u, trace, run, k);
  }

  lemma SideProgress(u: Setup, isClient: bool, otherKey: nat, me: Peer, other: Peer) returns (a: Action)
    requires PairInv(u, isClient, me, other)
    requires otherKey == if isClient then u.serverKey else u.clientKey
    ensures a.PollRecv? ==> CanAct(me, other, otherKey, a) && Ordered(me, a)
    ensures !a.PollRecv? && CanAct(me, other, otherKey, a) ==> Ordered(me, a)
    ensures !CanAct(me, other, otherKey, a) ==>
              && me.todo == [] && me.connected && (me.finished || me.conn.sendState == me.executed)
              && (me.finished || me.rcq == [])
              && (me.executed < |me.sq| ==> me.sq[me.executed].SendReq? && other.recvs == 0)
  {
    OrderedMeansPolled(isClient, me);
    if !me.connected {
      return Establish;
    } else if me.todo != [] {
      return DoWork;
    } else if CanAct(me, other, otherKey, Execute) {
      return Execute;
    } else if CanAct(me, other, otherKey, PollSend) {
      return PollSend;
    } else if CanAct(me, other, otherKey, PollRecv) {
      return PollRecv;
    }
    return Execute;
  }

  /** Until both peers have finished, a step that keeps the order is enabled. */
  lemma Progress(u: Setup, st: State) returns (s: Step)
    requires Inv(u, st) && !(st.client.finished && st.server.finished)
    ensures Enabled(u, st, s) && InOrder(st, s)
  {
    var a := SideProgress(u, true, u.serverKey, st.client, st.server);
    if CanAct(st.client, st.server, u.serverKey, a) {
      return Step(true, a);
    }
    var b := SideProgress(u, false, u.clientKey, st.server, st.client);
    return Step(false, b);
  }

  function PeerMeasure(p: Peer): int {
    4 * (5 - p.conn.sendState - p.conn.recvState) + (3 - p.executed) + |p.todo| + if p.connected then 0 else 1
  }

  function Measure(st: State): int { PeerMeasure(st.client) + PeerMeasure(st.server) }

  lemma ReactDecreases(c: Conn, key: nat, isRecv: bool)
    ensures var (d, work) := React(c, key, isRecv);
            d.sendState + d.recvState == c.sendState + c.recvState + 1 && |work| <= 3
  {
  }

  lemma ActDecreases(u: Setup, key: nat, otherKey: nat, me: Peer, other: Peer, a: Action)
    requires CanAct(me, other, otherKey, a)
    ensures var (me', other') := Act(u, key, otherKey, me, other, a);
            PeerMeasure(me') + PeerMeasure(other') < PeerMeasure(me) + PeerMeasure(other)
  {
    match a
    case Establish =>
    case DoWork =>
    case Execute =>
    case PollSend => ReactDecreases(me.conn, key, false);
    case PollRecv => ReactDecreases(me.conn, key, true);
  }

  lemma StepDecreases(u: Setup, st: State, s: Step)
    requires Enabled(u, st, s)
    ensures Measure(Next(u, st, s)) < Measure(st)
  {
    if s.byClient {
      ActDecreases(u, u.clientKey, u.serverKey, st.client, st.server, s.action);
    } else {
      ActDecreases(u, u.serverKey, u.clientKey, st.server, st.client, s.action);
    }
  }

  lemma InitMeasure(u: Setup, st: State)
    requires IsInit(u, st)
    ensures Measure(st) <= 48
  {
  }

  lemma {:induction false} TraceBound(u: Setup, trace: seq<State>, run: seq<Step>, k: nat)
    requires IsTrace(u, trace, run) && k < |trace|
    ensures Measure(trace[k]) <= 48 - k
  {
    if k == 0 {
      InitMeasure(u, trace[0]);
    } else {
      TraceBound(u, trace, run, k - 1);
      assert Enabled(u, trace[k - 1], run[k - 1]) && trace[k] == Next(u, trace[k - 1], run[k - 1]);
      StepDecreases(u, trace[k - 1], run[k - 1]);
    }
  }

  /** One region message, one one-sided operation and one DONE, in that order, and the final counter pair. */
  predicate ExactlyOnce(p: Peer) {
    && p.finished && Ops(p.sq) == [Send, Rdma, Send]
    && p.conn.sendState == SS_DONE_SENT && p.conn.recvState == RS_DONE_RECV
  }

  lemma OrderedRunCompletes(u: Setup, trace: seq<State>, run: seq<Step>)
    requires IsTrace(u, trace, run) && OrderKept(trace, run, |run|)
    ensures |run| <= 48
    ensures (forall s :: !(Enabled(u, trace[|run|], s) && InOrder(trace[|run|], s))) ==>
              ExactlyOnce(trace[|run|].client) && ExactlyOnce(trace[|run|].server)
  {
    TraceBound(u, trace, run, |run|);
    TraceInv(u, trace, run, |run|);
    var st := trace[|run|];
    if !(st.client.finished && st.server.finished) {
      var s := Progress(u, st);
    }
    FinishedMeansOnce(true, st.client);
    FinishedMeansOnce(false, st.server);
  }

  lemma FinishedMeansOnce(isClient: bool, p: Peer)
    requires PositionInv(isClient, p)
    ensures p.finished ==> ExactlyOnce(p)
  {
    var q := FullQueue(isClient);
    assert p.finished ==> p.sq == q[..3] == q;
    assert q[1..] == [RdmaReq, SendReq(1)];
    assert q[1..][1..] == [SendReq(1)];
    assert q[1..][1..][1..] == [];
    assert Ops(q[1..][1..]) == [Send];
    assert Ops(q[1..]) == [Rdma] + Ops(q[1..][1..]);
  }

  // ---------------------------------------------------------------------------------------------
  // Runs that break the completion order
  // ---------------------------------------------------------------------------------------------

  /** Beyond repair: a second region message is planned, or the second message came before any operation was planned. */
  predicate Bad(p: Peer) {
    || (|Plan(p)| >= 2 && Plan(p)[1] == Send)
    || (p.conn.recvState >= RS_DONE_RECV && Rdma !in Plan(p))
  }

  lemma {:induction false} OpsAppend(sq: seq<Req>, r: Req)
    ensures Ops(sq + [r]) == Ops(sq) + [if r.SendReq? then Send else Rdma]
  {
    if sq != [] {
      assert (sq + [r])[1..] == sq[1..] + [r];
      OpsAppend(sq[1..], r);
    }
  }

  lemma SentKeepsPlan(p: Peer, r: Req)
    requires p.todo != [] && p.todo[0] == (if r.SendReq? then Send else Rdma)
    ensures Plan(p.(todo := p.todo[1..], sq := p.sq + [r])) == Plan(p)
  {
    OpsAppend(p.sq, r);
    assert Ops(p.sq) + [p.todo[0]] + Posts(p.todo[1..]) == Ops(p.sq) + ([p.todo[0]] + Posts(p.todo[1..]));
  }

  lemma WorkKeepsPlan(p: Peer)
    requires p.todo != []
    ensures Plan(Work1(p)) == Plan(p)
  {
    match p.todo[0]
    case Send => SentKeepsPlan(p, SendReq(p.conn.recvState));
    case Rdma => SentKeepsPlan(p, RdmaReq);
    case PostRecv => assert [] + Posts(p.todo[1..]) == Posts(p.todo[1..]);
    case Disconnect => assert [] + Posts(p.todo[1..]) == Posts(p.todo[1..]);
  }

  /** Handling a completion appends to the plan, and never an operation once two messages were received. */
  lemma ReactKeepsBad(p: Peer, key: nat, isRecv: bool)
    requires Bad(p) && p.todo == []
    ensures var (c, work) := React(p.conn, key, isRecv); Bad(p.(conn := c, todo := work))
  {
    var (c, work) := React(p.conn, key, isRecv);
    assert Plan(p) == Ops(p.sq);
    assert Plan(p.(conn := c, todo := work)) == Ops(p.sq) + Posts(work);
    if p.conn.recvState >= RS_DONE_RECV {
      assert Rdma !in work;
      NoRdma(work);
    }
  }

  lemma {:induction false} NoRdma(work: seq<Work>)
    requires Rdma !in work
    ensures Rdma !in Posts(work)
  {
    if work != [] {
      NoRdma(work[1..]);
    }
  }

  /** Badness depends on the queue, the pending work and the receive counter only. */
  lemma SameBad(p: Peer, q: Peer)
    requires q.sq == p.sq && q.todo == p.todo && q.conn.recvState == p.conn.recvState
    ensures Bad(p) ==> Bad(q)
  {
  }

  lemma WorkKeepsBad(p: Peer)
    requires p.todo != [] && Bad(p)
    ensures Bad(Work1(p))
  {
    WorkKeepsPlan(p);
    assert Work1(p).conn == p.conn;
  }

  lemma ActKeepsBad(u: Setup, key: nat, otherKey: nat, me: Peer, other: Peer, a: Action)
    requires CanAct(me, other, otherKey, a) && Bad(me)
    ensures Bad(Act(u, key, otherKey, me, other, a).0)
  {
    var me' := Act(u, key, otherKey, me, other, a).0;
    match a
    case Establish => SameBad(me, me');
    case DoWork => WorkKeepsBad(me);
    case Execute => SameBad(me, me');
    case PollSend =>
      ReactKeepsBad(me, key, false);
    case PollRecv =>
      var (c, work) := React(me.conn, key, true);
      ReactKeepsBad(me, key, true);
      SameBad(me.(conn := c, todo := work), me');
  }

  lemma ActKeepsOtherBad(u: Setup, key: nat, otherKey: nat, me: Peer, other: Peer, a: Action)
    requires CanAct(me, other, otherKey, a)
    ensures Bad(other) ==> Bad(Act(u, key, otherKey, me, other, a).1)
  {
    SameBad(other, Act(u, key, otherKey, me, other, a).1);
  }

  predicate SomeBad(st: State) { Bad(st.client) || Bad(st.server) }

  lemma StepKeepsBad(u: Setup, st: State, s: Step)
    requires Enabled(u, st, s) && SomeBad(st)
    ensures SomeBad(Next(u, st, s))
  {
    if s.byClient {
      if Bad(st.client) {
        ActKeepsBad(u, u.clientKey, u.serverKey, st.client, st.server, s.action);
      }
      ActKeepsOtherBad(u, u.clientKey, u.serverKey, st.client, st.server, s.action);
    } else {
      if Bad(st.server) {
        ActKeepsBad(u, u.serverKey, u.clientKey, st.server, st.client, s.action);
      }
      ActKeepsOtherBad(u, u.serverKey, u.clientKey, st.server, st.client, s.action);
    }
  }

  lemma ViolationIsBad(u: Setup, isClient: bool, key: nat, otherKey: nat, me: Peer, other: Peer)
    requires PairInv(u, isClient, me, other) && CanAct(me, other, otherKey, PollRecv) && !Ordered(me, PollRecv)
    ensures Bad(Act(u, key, otherKey, me, other, PollRecv).0)
  {
    OrderedMeansPolled(isClient, me);
    assert |me.sq| <= 1;
    assert Ops(me.sq) == if |me.sq| == 0 then [] else [Send];
  }

  lemma DisorderIsBad(u: Setup, st: State, s: Step)
    requires Inv(u, st) && Enabled(u, st, s) && !InOrder(st, s)
    ensures SomeBad(Next(u, st, s))
  {
    if s.byClient {
      ViolationIsBad(u, true, u.clientKey, u.serverKey, st.client, st.server);
    } else {
      ViolationIsBad(u, false, u.serverKey, u.clientKey, st.server, st.client);
    }
  }

  lemma {:induction false} GoodOrBad(u: Setup, trace: seq<State>, run: seq<Step>, k: nat)
    requires IsTrace(u, trace, run) && k < |trace|
    ensures OrderKept(trace, run, k) ==> Inv(u, trace[k])
    ensures !OrderKept(trace, run, k) ==> SomeBad(trace[k])
  {
    if k == 0 {
      InitInv(u, trace[0]);
    } else {
      GoodOrBad(u, trace, run, k - 1);
      var st, s := trace[k - 1], run[k - 1];
      if !OrderKept(trace, run, k - 1) {
        StepKeepsBad(u, st, s);
      } else if InOrder(st, s) {
        StepInv(u, st, s);
      } else {
        DisorderIsBad(u, st, s);
      }
    }
  }

  /** For runs that cannot continue, in any polling order: both peers act exactly once and finish if and only if
      every receive completion was polled after the completions of the sends its message follows. */
  lemma ExactlyOnceIffOrdered(u: Setup, trace: seq<State>, run: seq<Step>)
    requires IsTrace(u, trace, run)
    requires forall s :: !Enabled(u, trace[|run|], s)
    ensures ExactlyOnce(trace[|run|].client) && ExactlyOnce(trace[|run|].server) <==> OrderKept(trace, run, |run|)
  {
    if OrderKept(trace, run, |run|) {
      OrderedRunCompletes(u, trace, run);
    } else {
      GoodOrBad(u, trace, run, |run|);
    }
  }

  lemma Take(u: Setup, trace: seq<State>, run: seq<Step>, s: Step) returns (trace': seq<State>, run': seq<Step>)
    requires IsTrace(u, trace, run) && Enabled(u, trace[|run|], s)
    ensures IsTrace(u, trace', run') && |run'| == |run| + 1 && trace'[0] == trace[0]
    ensures trace'[|run'|] == Next(u, trace[|run|], s)
  {
    trace', run' := trace + [Next(u, trace[|run|], s)], run + [s];
  }

  /** The server's region message has reached the client; its send completion is never polled below. */
  predicate Answered(u: Setup, st: State) {
    var c, d := st.client, st.server;
    && c.conn.sendState == 0 && c.conn.recvState == 0 && c.conn.recvMsg == Message(MrMsg, u.serverKey)
    && c.todo == [] && c.sq == [SendReq(0)] && c.executed == 1 && c.recvs == 0 && c.rcq == [1]
    && c.connected && !c.finished
    && d.conn.sendState == 0 && d.conn.recvState == 1
    && d.todo == [] && d.sq == [SendReq(1)] && d.executed == 1 && d.recvs == 1 && d.rcq == []
    && d.connected && !d.finished
  }

  /** The client has acted and its DONE has reached the server. */
  predicate ClientActed(st: State) {
    var c, d := st.client, st.server;
    && c.conn.sendState == 1 && c.conn.recvState == 1
    && c.todo == [] && c.sq == FullQueue(true) && c.executed == 3 && c.recvs == 1 && c.rcq == []
    && c.connected && !c.finished
    && d.conn.sendState == 0 && d.conn.recvState == 1 && d.conn.recvMsg.kind == DoneMsg
    && d.todo == [] && d.sq == [SendReq(1)] && d.executed == 1 && d.recvs == 0 && d.rcq == [1]
    && d.connected && !d.finished
  }

  lemma RunToAnswer(u: Setup, init: State) returns (trace: seq<State>, run: seq<Step>)
    requires IsInit(u, init)
    ensures IsTrace(u, trace, run) && trace[0] == init && Answered(u, trace[|run|])
  {
    trace, run := [init], [];
    trace, run := Take(u, trace, run, Step(true, DoWork));
    trace, run := Take(u, trace, run, Step(true, Execute));
    trace, run := Take(u, trace, run, Step(false, Establish));
    trace, run := Take(u, trace, run, Step(false, PollRecv));
    trace, run := Take(u, trace, run, Step(false, DoWork));
    trace, run := Take(u, trace, run, Step(false, DoWork));
    trace, run := Take(u, trace, run, Step(false, Execute));
  }

  lemma RunToAct(u: Setup, trace0: seq<State>, run0: seq<Step>) returns (trace: seq<State>, run: seq<Step>)
    requires IsTrace(u, trace0, run0) && Answered(u, trace0[|run0|])
    ensures IsTrace(u, trace, run) && trace[0] == trace0[0] && ClientActed(trace[|run|])
  {
    trace, run := trace0, run0;
    trace, run := Take(u, trace, run, Step(true, PollSend));
    trace, run := Take(u, trace, run, Step(true, PollRecv));
    trace, run := Take(u, trace, run, Step(true, DoWork));
    trace, run := Take(u, trace, run, Step(true, DoWork));
    trace, run := Take(u, trace, run, Step(true, DoWork));
    trace, run := Take(u, trace, run, Step(true, Execute));
    trace, run := Take(u, trace, run, Step(true, Execute));
  }

  /** From every initial state, in write or read mode, there is a run in which the server polls DONE before the
      completion of its own region message: its counters go (0, 1), (0, 2), (1, 2), it never acts, and nothing more
      can happen. */
  lemma SkippedPairGetsStuck(u: Setup, init: State) returns (trace: seq<State>, run: seq<Step>)
    requires IsInit(u, init)
    ensures IsTrace(u, trace, run) && trace[0] == init
    ensures forall s :: !Enabled(u, trace[|run|], s)
    ensures var last := trace[|run|];
            && !last.client.finished && !last.server.finished
            && last.server.conn.sendState == SS_MR_SENT && last.server.conn.recvState == RS_DONE_RECV
            && Ops(last.server.sq) == [Send]
  {
    trace, run := RunToAnswer(u, init);
    trace, run := RunToAct(u, trace, run);
    trace, run := Take(u, trace, run, Step(false, PollRecv));
    trace, run := Take(u, trace, run, Step(false, PollSend));
    trace, run := Take(u, trace, run, Step(true, PollSend));
    trace, run := Take(u, trace, run, Step(true, PollSend));
  }
}
