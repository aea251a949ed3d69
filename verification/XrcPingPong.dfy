/**
 XRC ping-pong (xsrq_pingpong.c): a server bounces one message with each of several clients, choosing its send
 queue pairs round robin and signalling only the last send to each client.
 */
module XrcPingPong {
  import opened Counting
  import opened Modular

  /** A posted send: the queue pair used and whether it is signalled. */
  datatype Post = Post(qp: nat, signaled: bool)

  /** The send queue pair for a destination that was sent `cnt` messages before. */
  function SendQp(numClients: nat, index: nat, cnt: int): nat
    requires numClients > 0
  {
    (index + cnt) % numClients
  }

  /** pp_post_send for a destination that was sent `cnt` messages before. */
  function SendPost(numClients: nat, numTests: nat, index: nat, cnt: nat): Post
    requires numClients > 0
  {
    Post(SendQp(numClients, index, cnt), cnt + 1 >= numTests)
  }

  class XrcContext {
    const numClients: nat
    const numTests: nat
    const ppCnt: array<nat>
    var cnt: nat

    ghost predicate Valid() {
      numClients > 0 && ppCnt.Length == numClients
    }

    method PostSend(index: nat) returns (p: Post)
      requires Valid() && index < numClients
      modifies ppCnt
      ensures p == SendPost(numClients, numTests, index, old(ppCnt[index]))
      ensures ppCnt[..] == old(ppCnt[..])[index := old(ppCnt[index]) + 1]
    {
      var qpi := (index + ppCnt[index]) % numClients;
      ppCnt[index] := ppCnt[index] + 1;
      p := Post(qpi, ppCnt[index] >= numTests);
    }

    /** The server's opening loop: one send to each client. */
    method PostFirst() returns (posts: seq<Post>)
      requires Valid() && forall i :: 0 <= i < numClients ==> ppCnt[i] == 0
      modifies ppCnt
      ensures |posts| == numClients
      ensures forall i :: 0 <= i < numClients ==> ppCnt[i] == 1 && posts[i] == SendPost(numClients, numTests, i, 0)
    {
      posts := [];
      var i := 0;
      while i < numClients
        invariant 0 <= i <= numClients && |posts| == i
        invariant forall k :: 0 <= k < i ==> ppCnt[k] == 1 && posts[k] == SendPost(numClients, numTests, k, 0)
        invariant forall k :: i <= k < numClients ==> ppCnt[k] == 0
      {
        ghost var before := ppCnt[..];
        var p := PostSend(i);
        assert forall k :: 0 <= k < numClients ==> ppCnt[k] == before[i := 1][k];
        posts := posts + [p];
        i := i + 1;
      }
    }

    /** One receive completion: the receive is reposted and, unless the quota is met, the message is returned. */
    method OnReceive(qpi: nat) returns (posts: seq<Post>)
      requires Valid() && qpi < numClients
      modifies this`cnt, ppCnt
      ensures cnt == old(cnt) + 1
      ensures old(ppCnt[qpi]) < numTests ==>
                && posts == [SendPost(numClients, numTests, qpi, old(ppCnt[qpi]))]
                && ppCnt[..] == old(ppCnt[..])[qpi := old(ppCnt[qpi]) + 1]
      ensures old(ppCnt[qpi]) >= numTests ==> posts == [] && ppCnt[..] == old(ppCnt[..])
    {
      posts := [];
      if ppCnt[qpi] < numTests {
        var p := PostSend(qpi);
        posts := [p];
      }
      cnt := cnt + 1;
    }
  }

  // ---------------------------------------------------------------------------------------------
  // Round robin over the send queue pairs
  // ---------------------------------------------------------------------------------------------

  /** How many of the first k sends to client `index` use queue pair q. */
  function Uses(n: nat, index: nat, q: nat, k: nat): nat
    requires n > 0
  {
    if k == 0 then 0 else Uses(n, index, q, k - 1) + if SendQp(n, index, k - 1) == q then 1 else 0
  }

  /** The order of the round robin: the first send to client i uses queue pair i, each later one the next queue pair,
      after the last the first. */
  lemma RoundRobinOrder(n: nat, tests: nat, index: nat, cnt: nat)
    requires index < n
    ensures SendPost(n, tests, index, 0).qp == index
    ensures var q := SendPost(n, tests, index, cnt).qp;
            SendPost(n, tests, index, cnt + 1).qp == if q + 1 < n then q + 1 else 0
  {
    ModOf(index, n, 0, index);
    NextQuotient(index + cnt, n);
  }

  lemma {:induction false} UsesAdd(n: nat, index: nat, q: nat, k: nat, t: nat)
    requires n > 0
    ensures Uses(n, index, q, k + t) == Uses(n, index, q, k) + Uses(n, index + k, q, t)
  {
    if t > 0 {
      UsesAdd(n, index, q, k, t - 1);
      assert SendQp(n, index, k + t - 1) == SendQp(n, index + k, t - 1);
    }
  }

  /** Send t from the first uses queue pair q exactly when t is the distance of q from the first. */
  lemma UsedAt(n: nat, index: nat, q: nat, t: nat)
    requires q < n && t < n
    ensures SendQp(n, index, t) == q <==> (q - index) % n == t
  {
    var d := (q - index) % n;
    assert q - index == n * ((q - index) / n) + d;
    ModOf(index + d, n, -((q - index) / n), q);
    if t < d {
      ModDistinct(index + t, index + d, n);
    } else if d < t {
      ModDistinct(index + d, index + t, n);
    }
  }

  /** Within t <= n consecutive sends a queue pair is used once if its distance from the first is less than t. */
  lemma {:induction false} UsesWithin(n: nat, index: nat, q: nat, t: nat)
    requires n > 0 && q < n && t <= n
    ensures Uses(n, index, q, t) == if (q - index) % n < t then 1 else 0
  {
    if t > 0 {
      UsesWithin(n, index, q, t - 1);
      UsedAt(n, index, q, t - 1);
    }
  }

  /** Any n consecutive sends to a client use each send queue pair exactly once. */
  lemma RoundRobin(n: nat, index: nat, q: nat, k: nat)
    requires n > 0 && q < n
    ensures Uses(n, index, q, k + n) == Uses(n, index, q, k) + 1
  {
    UsesAdd(n, index, q, k, n);
    UsesWithin(n, index + k, q, n);
  }

  /** The load of a queue pair from one client's k sends is k / n, rounded down or up. */
  lemma {:induction false} UsesBalanced(n: nat, index: nat, q: nat, k: nat)
    requires n > 0 && q < n
    ensures k / n <= Uses(n, index, q, k) <= k / n + if k % n > 0 then 1 else 0
  {
    if k < n {
      ModOf(k, n, 0, k);
      UsesWithin(n, index, q, k);
    } else {
      UsesBalanced(n, index, q, k - n);
      RoundRobin(n, index, q, k - n);
      AddModulus(k - n, n);
    }
  }

  // ---------------------------------------------------------------------------------------------
  // A server and its clients
  // ---------------------------------------------------------------------------------------------

  /** One side's view of a client relation: messages posted, messages in flight (with their signalled flag), receive
      completions at the other side, unpolled send completions and polled ones. */
  datatype Half = Half(sent: nat, fly: seq<bool>, cqe: nat, ack: nat, drained: nat)

  /** What the server and one client share: server to client, client to server, the messages each has received, the
      client's free receives, and whether the client has left its receive loop. */
  datatype Lane = Lane(down: Half, up: Half, clientGot: nat, serverGot: nat, clientSrq: int, clientLeft: bool)

  /** `queues` holds, for each send queue pair of the server, the clients of its undelivered messages in posting
      order; `cnt` is the server's receive counter, `srq` its free receives. A client has one queue pair, so what it
      sends is in order by itself. */
  datatype State = State(lanes: seq<Lane>, queues: seq<seq<nat>>, cnt: nat, srq: int, serverLeft: bool)

  datatype Action =
    | DeliverDown | DeliverUp | ClientRecv | ServerRecv | ClientLeave | ServerLeave | ClientDrain | ServerDrain

  /** An action of or for client i; DeliverDown instead names the send queue pair whose first message arrives. */
  datatype Step = Step(action: Action, i: nat)

  predicate GoodCounts(n: nat, tests: nat) { n > 0 && tests > 0 }

  function Posted(p: Post, h: Half): Half {
    h.(sent := h.sent + 1, fly := h.fly + [p.signaled])
  }

  /** The server's next send to client i. */
  function DownPost(n: nat, tests: nat, i: nat, h: Half): Post
    requires n > 0
  {
    SendPost(n, tests, i, h.sent)
  }

  /** A client's next send; to it the server is its only destination. */
  function UpPost(tests: nat, h: Half): Post { SendPost(1, tests, 0, h.sent) }

  function Delivered(h: Half): Half
    requires h.fly != []
  {
    h.(fly := h.fly[1..], cqe := h.cqe + 1, ack := h.ack + if h.fly[0] then 1 else 0)
  }

  const IDLE := Half(0, [], 0, 0, 0)

  /** After pp_post_recv on both sides and the server's opening sends. */
  function Init(n: nat, tests: nat): State
    requires n > 0
  {
    State(seq(n, i requires 0 <= i < n => Lane(Posted(DownPost(n, tests, i, IDLE), IDLE), IDLE, 0, 0, 1, false)),
          seq(n, q requires 0 <= q < n => [q]), 0, n, false)
  }

  function Drained(l: Lane): int { l.down.drained }

  /** The client a step concerns. */
  function Target(st: State, s: Step): nat
    requires s.action.DeliverDown? ==> s.i < |st.queues| && st.queues[s.i] != []
  {
    if s.action.DeliverDown? then st.queues[s.i][0] else s.i
  }

  predicate Enabled(n: nat, tests: nat, st: State, s: Step) {
    && n == |st.queues| > 0
    && (s.action.DeliverDown? ==> s.i < |st.queues| && st.queues[s.i] != [])
    && Target(st, s) < |st.lanes|
    && var l := st.lanes[Target(st, s)];
       match s.action
       case DeliverDown => l.down.fly != [] && l.clientSrq > 0
       case DeliverUp => l.up.fly != [] && st.srq > 0
       case ClientRecv => l.down.cqe > 0 && !l.clientLeft
       case ServerRecv => l.up.cqe > 0 && !st.serverLeft
       case ClientLeave => !l.clientLeft && l.clientGot >= tests
       case ServerLeave => !st.serverLeft && st.cnt >= n * tests
       case ClientDrain => l.clientLeft && l.up.drained < 1 && l.up.ack > 0
       case ServerDrain => st.serverLeft && Total(st.lanes, Drained) < n && l.down.ack > 0
  }

  function LaneNext(n: nat, tests: nat, i: nat, l: Lane, a: Action): Lane
    requires n > 0
    requires a.DeliverDown? ==> l.down.fly != []
    requires a.DeliverUp? ==> l.up.fly != []
    requires a.ClientRecv? ==> l.down.cqe > 0
    requires a.ServerRecv? ==> l.up.cqe > 0
    requires a.ClientDrain? ==> l.up.ack > 0
    requires a.ServerDrain? ==> l.down.ack > 0
  {
    match a
    case DeliverDown => l.(down := Delivered(l.down), clientSrq := l.clientSrq - 1)
    case DeliverUp => l.(up := Delivered(l.up))
    case ClientRecv =>
      l.(down := l.down.(cqe := l.down.cqe - 1), clientGot := l.clientGot + 1, clientSrq := l.clientSrq + 1,
         up := if l.up.sent < tests then Posted(UpPost(tests, l.up), l.up) else l.up)
    case ServerRecv =>
      l.(up := l.up.(cqe := l.up.cqe - 1), serverGot := l.serverGot + 1,
         down := if l.down.sent < tests then Posted(DownPost(n, tests, i, l.down), l.down) else l.down)
    case ClientLeave => l.(clientLeft := true)
    case ServerLeave => l
    case ClientDrain => l.(up := l.up.(ack := l.up.ack - 1, drained := l.up.drained + 1))
    case ServerDrain => l.(down := l.down.(ack := l.down.ack - 1, drained := l.down.drained + 1))
  }

  /** The server's send queues: a delivery takes the first message, a send appends to the chosen queue. */
  function QueuesNext(n: nat, tests: nat, st: State, s: Step): seq<seq<nat>>
    requires Enabled(n, tests, st, s)
  {
    match s.action
    case DeliverDown => st.queues[s.i := st.queues[s.i][1..]]
    case ServerRecv =>
      var l := st.lanes[s.i];
      var q := DownPost(n, tests, s.i, l.down).qp;
      if l.down.sent < tests then st.queues[q := st.queues[q] + [s.i]] else st.queues
    case _ => st.queues
  }

  function Next(n: nat, tests: nat, st: State, s: Step): State
    requires Enabled(n, tests, st, s)
  {
    var i := Target(st, s);
    var v := st.(lanes := st.lanes[i := LaneNext(n, tests, i, st.lanes[i], s.action)],
                 queues := QueuesNext(n, tests, st, s));
    match s.action
    case DeliverUp => v.(srq := st.srq - 1)
    case ServerRecv => v.(srq := st.srq + 1, cnt := st.cnt + 1)
    case ServerLeave => v.(serverLeft := true)
    case _ => v
  }

  /** The states `trace` visits when the steps of `run` are taken from the start. */
  ghost predicate IsTrace(n: nat, tests: nat, trace: seq<State>, run: seq<Step>) {
    && n > 0 && |trace| == |run| + 1
    && trace[0] == Init(n, tests)
    && forall i :: 0 <= i < |run| ==>
         Enabled(n, tests, trace[i], run[i]) && trace[i + 1] == Next(n, tests, trace[i], run[i])
  }

  /** The one message of a half that is in flight or not yet received. */
  function Pending(h: Half): nat { |h.fly| + h.cqe }

  /** Only the last of `tests` sends is signalled, and its completion appears once it is delivered. */
  predicate HalfInv(tests: nat, h: Half) {
    && h.sent <= tests
    && (h.fly != [] ==> h.fly == [h.sent == tests])
    && h.ack + h.drained == (if h.sent == tests && h.fly == [] then 1 else 0)
  }

  predicate LaneInv(tests: nat, l: Lane) {
    && HalfInv(tests, l.down) && HalfInv(tests, l.up)
    && Pending(l.down) + Pending(l.up) <= 1
    && l.down.sent == l.up.sent + Pending(l.down)
    && (Pending(l.down) + Pending(l.up) == 0 ==> l.down.sent == tests)
    && l.clientGot + Pending(l.down) == l.down.sent
    && l.serverGot + Pending(l.up) == l.up.sent
    && l.clientSrq + l.down.cqe == 1
    && (l.clientLeft ==> l.clientGot == tests)
    && (l.up.drained > 0 ==> l.clientLeft)
  }

  function Got(l: Lane): int { l.serverGot }
  function UpCqe(l: Lane): int { l.up.cqe }
  function UpFly(l: Lane): int { |l.up.fly| }
  function UpPending(l: Lane): int { Pending(l.up) }
  function DownAck(l: Lane): int { l.down.ack }

  /** A queued message: it is client i's one message under way, on the queue pair its send was posted on. */
  predicate EntryOk(n: nat, lanes: seq<Lane>, q: nat, i: nat)
    requires n > 0
  {
    i < |lanes| && lanes[i].down.fly != [] && q == SendQp(n, i, lanes[i].down.sent - 1)
  }

  predicate QueueInv(n: nat, lanes: seq<Lane>, queues: seq<seq<nat>>)
    requires n > 0
  {
    && |queues| == n
    && (forall q, k :: 0 <= q < n && 0 <= k < |queues[q]| ==> EntryOk(n, lanes, q, queues[q][k]))
    && (forall q, j, k :: 0 <= q < n && 0 <= j < k < |queues[q]| ==> queues[q][j] != queues[q][k])
    && (forall i :: 0 <= i < |lanes| && lanes[i].down.fly != [] ==>
          i in queues[SendQp(n, i, lanes[i].down.sent - 1)])
  }

  ghost predicate Inv(n: nat, tests: nat, st: State) {
    && n > 0 && |st.lanes| == n
    && (forall i :: 0 <= i < n ==> LaneInv(tests, st.lanes[i]))
    && QueueInv(n, st.lanes, st.queues)
    && st.cnt == Total(st.lanes, Got)
    && st.srq + Total(st.lanes, UpCqe) == n
    && (st.serverLeft ==> st.cnt >= n * tests)
    && (!st.serverLeft ==> Total(st.lanes, Drained) == 0)
  }

  lemma LaneStep(n: nat, tests: nat, i: nat, l: Lane, a: Action)
    requires n > 0 && LaneInv(tests, l)
    requires a.DeliverDown? ==> l.down.fly != [] && l.clientSrq > 0
    requires a.DeliverUp? ==> l.up.fly != []
    requires a.ClientRecv? ==> l.down.cqe > 0 && !l.clientLeft
    requires a.ServerRecv? ==> l.up.cqe > 0
    requires a.ClientLeave? ==> l.clientGot >= tests
    requires a.ClientDrain? ==> l.clientLeft && l.up.ack > 0
    requires a.ServerDrain? ==> l.down.ack > 0
    ensures LaneInv(tests, LaneNext(n, tests, i, l, a))
  {
  }

  /** Changing a lane without touching its message to the client. */
  lemma QueueUntouched(n: nat, lanes: seq<Lane>, queues: seq<seq<nat>>, i: nat, l: Lane)
    requires n > 0 && QueueInv(n, lanes, queues) && i < |lanes|
    requires l.down.fly == lanes[i].down.fly && l.down.sent == lanes[i].down.sent
    ensures QueueInv(n, lanes[i := l], queues)
  {
    forall q, k | 0 <= q < n && 0 <= k < |queues[q]| ensures EntryOk(n, lanes[i := l], q, queues[q][k]) {
      assert EntryOk(n, lanes, q, queues[q][k]);
    }
  }

  /** The first message of a queue is delivered. */
  lemma QueuePop(n: nat, lanes: seq<Lane>, queues: seq<seq<nat>>, q: nat, l: Lane)
    requires n > 0 && QueueInv(n, lanes, queues) && q < n && queues[q] != [] && l.down.fly == []
    ensures queues[q][0] < |lanes| && QueueInv(n, lanes[queues[q][0] := l], queues[q := queues[q][1..]])
  {
    var i, popped := queues[q][0], queues[q := queues[q][1..]];
    assert EntryOk(n, lanes, q, i);
    var lanes' := lanes[i := l];
    forall r, k | 0 <= r < n && 0 <= k < |popped[r]| ensures EntryOk(n, lanes', r, popped[r][k]) {
      var k' := if r == q then k + 1 else k;
      assert popped[r][k] == queues[r][k'] && EntryOk(n, lanes, r, queues[r][k']);
      assert queues[r][k'] != i;
    }
    forall j | 0 <= j < |lanes'| && lanes'[j].down.fly != []
      ensures j in popped[SendQp(n, j, lanes'[j].down.sent - 1)]
    {
      var r := SendQp(n, j, lanes[j].down.sent - 1);
      assert j != i && j in queues[r];
      assert r == q ==> queues[q] == [i] + queues[q][1..];
    }
  }

  /** A message to a client that has none under way is posted. */
  lemma QueuePush(n: nat, lanes: seq<Lane>, queues: seq<seq<nat>>, i: nat, l: Lane)
    requires n > 0 && QueueInv(n, lanes, queues) && i < |lanes| && lanes[i].down.fly == []
    requires l.down.fly != [] && l.down.sent == lanes[i].down.sent + 1
    ensures var q := SendQp(n, i, lanes[i].down.sent);
            QueueInv(n, lanes[i := l], queues[q := queues[q] + [i]])
  {
    var q := SendQp(n, i, lanes[i].down.sent);
    var lanes', pushed := lanes[i := l], queues[q := queues[q] + [i]];
    forall r, k | 0 <= r < n && 0 <= k < |queues[r]| ensures queues[r][k] != i && EntryOk(n, lanes', r, queues[r][k]) {
      assert EntryOk(n, lanes, r, queues[r][k]);
    }
    forall r, k | 0 <= r < n && 0 <= k < |pushed[r]| ensures EntryOk(n, lanes', r, pushed[r][k]) {
      assert k < |queues[r]| ==> pushed[r][k] == queues[r][k];
    }
  }

  lemma StepQueues(n: nat, tests: nat, st: State, s: Step)
    requires Inv(n, tests, st) && Enabled(n, tests, st, s)
    ensures QueueInv(n, Next(n, tests, st, s).lanes, Next(n, tests, st, s).queues)
  {
    var i := Target(st, s);
    var l := st.lanes[i];
    var l' := LaneNext(n, tests, i, l, s.action);
    assert LaneInv(tests, l);
    if s.action.DeliverDown? {
      QueuePop(n, st.lanes, st.queues, s.i, l');
    } else if s.action.ServerRecv? && l.down.sent < tests {
      QueuePush(n, st.lanes, st.queues, i, l');
    } else {
      QueueUntouched(n, st.lanes, st.queues, i, l');
    }
  }

  /** What a step adds to the counted fields of its lane. */
  lemma LaneSums(n: nat, tests: nat, st: State, s: Step)
    requires Enabled(n, tests, st, s)
    ensures var i, a := Target(st, s), s.action;
            var l, l' := st.lanes[i], LaneNext(n, tests, i, st.lanes[i], a);
            && Got(l') == Got(l) + (if a.ServerRecv? then 1 else 0)
            && UpCqe(l') == UpCqe(l) + (if a.DeliverUp? then 1 else if a.ServerRecv? then -1 else 0)
            && Drained(l') == Drained(l) + (if a.ServerDrain? then 1 else 0)
  {
  }

  lemma StepSums(n: nat, tests: nat, st: State, s: Step)
    requires Enabled(n, tests, st, s)
    ensures var st', a := Next(n, tests, st, s), s.action;
            && Total(st'.lanes, Got) == Total(st.lanes, Got) + (if a.ServerRecv? then 1 else 0)
            && Total(st'.lanes, UpCqe)
                 == Total(st.lanes, UpCqe) + (if a.DeliverUp? then 1 else if a.ServerRecv? then -1 else 0)
            && Total(st'.lanes, Drained) == Total(st.lanes, Drained) + (if a.ServerDrain? then 1 else 0)
  {
    var i := Target(st, s);
    var l' := LaneNext(n, tests, i, st.lanes[i], s.action);
    LaneSums(n, tests, st, s);
    TotalUpdate(st.lanes, i, l', Got);
    TotalUpdate(st.lanes, i, l', UpCqe);
    TotalUpdate(st.lanes, i, l', Drained);
    assert Next(n, tests, st, s).lanes == st.lanes[i := l'];
  }

  lemma StepLanes(n: nat, tests: nat, st: State, s: Step)
    requires Inv(n, tests, st) && Enabled(n, tests, st, s)
    ensures |Next(n, tests, st, s).lanes| == n
    ensures forall j :: 0 <= j < n ==> LaneInv(tests, Next(n, tests, st, s).lanes[j])
  {
    var i := Target(st, s);
    assert LaneInv(tests, st.lanes[i]);
    LaneStep(n, tests, i, st.lanes[i], s.action);
  }

  lemma StepInv(n: nat, tests: nat, st: State, s: Step)
    requires Inv(n, tests, st) && Enabled(n, tests, st, s)
    ensures Inv(n, tests, Next(n, tests, st, s))
  {
    StepLanes(n, tests, st, s);
    StepQueues(n, tests, st, s);
    StepSums(n, tests, st, s);
  }

  lemma InitQueues(n: nat, tests: nat)
    requires GoodCounts(n, tests)
    ensures QueueInv(n, Init(n, tests).lanes, Init(n, tests).queues)
  {
    var st := Init(n, tests);
    forall i | 0 <= i < n ensures SendQp(n, i, 0) == i && EntryOk(n, st.lanes, i, i) && i in st.queues[i] {
      ModOf(i, n, 0, i);
      assert st.queues[i][0] == i;
    }
  }

  lemma InitInv(n: nat, tests: nat)
    requires GoodCounts(n, tests)
    ensures Inv(n, tests, Init(n, tests))
  {
    var st := Init(n, tests);
    InitQueues(n, tests);
    TotalConst(st.lanes, Got, 0);
    TotalConst(st.lanes, UpCqe, 0);
    TotalConst(st.lanes, Drained, 0);
  }

  lemma {:induction false} TraceInv(n: nat, tests: nat, trace: seq<State>, run: seq<Step>, k: nat)
    requires GoodCounts(n, tests) && IsTrace(n, tests, trace, run) && k < |trace|
    ensures Inv(n, tests, trace[k])
  {
    if k == 0 {
      InitInv(n, tests);
    } else {
      TraceInv(n, tests, trace, run, k - 1);
      StepInv(n, tests, trace[k - 1], run[k - 1]);
    }
  }

  // ---------------------------------------------------------------------------------------------
  // Main results
  // ---------------------------------------------------------------------------------------------

  /** In any reachable state no receive queue underruns and no completion queue overruns: the server's have room for
      n completions each, a client's for one. */
  lemma Safety(n: nat, tests: nat, trace: seq<State>, run: seq<Step>, k: nat)
    requires GoodCounts(n, tests) && IsTrace(n, tests, trace, run) && k < |trace|
    ensures var st := trace[k];
            && |st.lanes| == n
            && Total(st.lanes, UpFly) <= st.srq <= n
            && Total(st.lanes, UpCqe) <= n && Total(st.lanes, DownAck) <= n
            && (forall i :: 0 <= i < n ==>
                  && st.lanes[i].down.sent <= tests && st.lanes[i].up.sent <= tests
                  && |st.lanes[i].down.fly| <= st.lanes[i].clientSrq <= 1
                  && st.lanes[i].down.cqe <= 1 && st.lanes[i].up.ack <= 1)
  {
    TraceInv(n, tests, trace, run, k);
    UpBounds(n, tests, trace[k]);
    forall i | 0 <= i < n
      ensures var l := trace[k].lanes[i];
              && l.down.sent <= tests && l.up.sent <= tests && 0 <= DownAck(l) <= 1
              && |l.down.fly| <= l.clientSrq <= 1 && l.down.cqe <= 1 && l.up.ack <= 1
    {
      assert LaneInv(tests, trace[k].lanes[i]);
    }
    TotalBounds(trace[k].lanes, DownAck, 0, 1);
  }

  lemma UpBounds(n: nat, tests: nat, st: State)
    requires Inv(n, tests, st)
    ensures Total(st.lanes, UpFly) <= st.srq <= n && 0 <= Total(st.lanes, UpCqe) <= n
    ensures Total(st.lanes, UpFly) >= 0
  {
    forall i | 0 <= i < n ensures 0 <= UpPending(st.lanes[i]) <= 1 {
      assert LaneInv(tests, st.lanes[i]);
    }
    TotalBounds(st.lanes, UpPending, 0, 1);
    TotalSum(st.lanes, UpPending, UpFly, UpCqe);
    TotalNonneg(st.lanes, UpCqe);
    TotalNonneg(st.lanes, UpFly);
  }

  predicate ServerDone(n: nat, st: State) { st.serverLeft && Total(st.lanes, Drained) >= n }

  predicate ClientDone(l: Lane) { l.clientLeft && l.up.drained >= 1 }

  /** Until the server and every client have finished both loops, a step is enabled. */
  lemma Progress(n: nat, tests: nat, st: State) returns (s: Step)
    requires GoodCounts(n, tests) && Inv(n, tests, st)
    requires !(ServerDone(n, st) && forall i :: 0 <= i < n ==> ClientDone(st.lanes[i]))
    ensures Enabled(n, tests, st, s)
  {
    if i: nat :| i < n && !Resting(st.lanes[i]) {
      s := LaneProgress(n, tests, st, i);
      return;
    }
    forall i | 0 <= i < n
      ensures Got(st.lanes[i]) == tests && Drained(st.lanes[i]) + st.lanes[i].down.ack == 1
      ensures st.lanes[i].clientGot == tests && st.lanes[i].up.ack + st.lanes[i].up.drained == 1
    {
      assert LaneInv(tests, st.lanes[i]) && Resting(st.lanes[i]);
    }
    if !st.serverLeft {
      TotalConst(st.lanes, Got, tests);
      return Step(ServerLeave, 0);
    } else if !ServerDone(n, st) {
      var i := FirstUndrained(n, st);
      return Step(ServerDrain, i);
    }
    var i :| 0 <= i < n && !ClientDone(st.lanes[i]);
    return Step(if st.lanes[i].clientLeft then ClientDrain else ClientLeave, i);
  }

  /** No message of the lane is under way. */
  predicate Resting(l: Lane) { Pending(l.down) + Pending(l.up) == 0 }

  lemma LaneProgress(n: nat, tests: nat, st: State, i: nat) returns (s: Step)
    requires GoodCounts(n, tests) && Inv(n, tests, st) && i < n && !Resting(st.lanes[i])
    ensures Enabled(n, tests, st, s)
  {
    var l := st.lanes[i];
    assert LaneInv(tests, l);
    if l.down.fly != [] {
      var q := SendQp(n, i, l.down.sent - 1);
      var first := st.queues[q][0];
      assert EntryOk(n, st.lanes, q, first) && LaneInv(tests, st.lanes[first]);
      return Step(DeliverDown, q);
    } else if l.up.fly != [] {
      UpBounds(n, tests, st);
      TotalAtLeast(st.lanes, UpFly, i);
      return Step(DeliverUp, i);
    } else if l.down.cqe > 0 {
      return Step(ClientRecv, i);
    }
    forall k | 0 <= k < n ensures Got(st.lanes[k]) <= tests {
      assert LaneInv(tests, st.lanes[k]);
    }
    TotalBelow(st.lanes, tests, i);
    return Step(ServerRecv, i);
  }

  lemma {:induction false} TotalBelow(lanes: seq<Lane>, tests: nat, i: nat)
    requires i < |lanes| && Got(lanes[i]) < tests
    requires forall k :: 0 <= k < |lanes| ==> Got(lanes[k]) <= tests
    ensures Total(lanes, Got) < |lanes| * tests
  {
    var t := lanes[1..];
    assert forall k :: 0 <= k < |t| ==> t[k] == lanes[k + 1];
    assert |lanes| * tests == |t| * tests + tests;
    if i == 0 {
      TotalBounds(t, Got, 0, tests);
      assert |t| * tests == tests * |t|;
    } else {
      TotalBelow(t, tests, i - 1);
    }
  }

  lemma FirstUndrained(n: nat, st: State) returns (i: nat)
    requires |st.lanes| == n && Total(st.lanes, Drained) < n
    requires forall i :: 0 <= i < n ==> Drained(st.lanes[i]) + st.lanes[i].down.ack == 1
    ensures i < n && st.lanes[i].down.ack > 0
  {
    if forall i :: 0 <= i < n ==> Drained(st.lanes[i]) == 1 {
      TotalConst(st.lanes, Drained, 1);
    }
    var j :| 0 <= j < n && Drained(st.lanes[j]) != 1;
    i := j;
  }

  function HalfWeight(tests: nat, h: Half): int { 5 * (tests - h.sent) + 4 * |h.fly| + h.cqe + 2 * h.ack }

  function LaneWeight(tests: nat): Lane -> int {
    (l: Lane) => HalfWeight(tests, l.down) + HalfWeight(tests, l.up) + if l.clientLeft then 0 else 1
  }

  function Measure(tests: nat, st: State): int {
    Total(st.lanes, LaneWeight(tests)) + if st.serverLeft then 0 else 1
  }

  lemma LaneDecreases(n: nat, tests: nat, st: State, s: Step)
    requires Enabled(n, tests, st, s) && LaneInv(tests, st.lanes[Target(st, s)])
    ensures LaneWeight(tests)(LaneNext(n, tests, Target(st, s), st.lanes[Target(st, s)], s.action))
          < LaneWeight(tests)(st.lanes[Target(st, s)]) + if s.action.ServerLeave? then 1 else 0
  {
  }

  lemma StepDecreases(n: nat, tests: nat, st: State, s: Step)
    requires Inv(n, tests, st) && Enabled(n, tests, st, s)
    ensures Measure(tests, Next(n, tests, st, s)) < Measure(tests, st)
  {
    var i := Target(st, s);
    assert LaneInv(tests, st.lanes[i]);
    LaneDecreases(n, tests, st, s);
    TotalUpdate(st.lanes, i, LaneNext(n, tests, i, st.lanes[i], s.action), LaneWeight(tests));
  }

  lemma {:induction false} TraceBound(n: nat, tests: nat, trace: seq<State>, run: seq<Step>, k: nat)
    requires GoodCounts(n, tests) && IsTrace(n, tests, trace, run) && k < |trace|
    ensures Measure(tests, trace[k]) <= 10 * tests * n + 1 - k
  {
    if k == 0 {
      TotalConst(Init(n, tests).lanes, LaneWeight(tests), 10 * tests);
    } else {
      TraceBound(n, tests, trace, run, k - 1);
      TraceInv(n, tests, trace, run, k - 1);
      StepDecreases(n, tests, trace[k - 1], run[k - 1]);
    }
  }

  /** Both loops of both ends are over and every count is exact. */
  predicate LaneExact(tests: nat, l: Lane) {
    && ClientDone(l) && l.down.sent == tests && l.up.sent == tests
    && l.clientGot == tests && l.serverGot == tests
    && l.down.ack + l.down.drained == 1 && l.up.ack + l.up.drained == 1
  }

  lemma RestingLane(tests: nat, l: Lane)
    requires tests > 0 && LaneInv(tests, l) && Resting(l) && ClientDone(l)
    ensures LaneExact(tests, l)
  {
  }

  ghost predicate Stuck(n: nat, tests: nat, st: State) { forall s :: !Enabled(n, tests, st, s) }

  lemma StuckIsDone(n: nat, tests: nat, st: State)
    requires GoodCounts(n, tests) && Inv(n, tests, st) && Stuck(n, tests, st)
    ensures ServerDone(n, st) && forall i :: 0 <= i < n ==> ClientDone(st.lanes[i]) && Resting(st.lanes[i])
  {
    if !(ServerDone(n, st) && forall i :: 0 <= i < n ==> ClientDone(st.lanes[i])) {
      var s := Progress(n, tests, st);
    }
    forall i | 0 <= i < n ensures Resting(st.lanes[i]) {
      if !Resting(st.lanes[i]) {
        var s := LaneProgress(n, tests, st, i);
      }
    }
  }

  lemma StuckIsExact(n: nat, tests: nat, st: State)
    requires GoodCounts(n, tests) && Inv(n, tests, st) && Stuck(n, tests, st)
    ensures ServerDone(n, st) && st.cnt == n * tests
    ensures forall l :: l in st.lanes ==> LaneExact(tests, l)
  {
    StuckIsDone(n, tests, st);
    forall i | 0 <= i < n ensures LaneExact(tests, st.lanes[i]) && Got(st.lanes[i]) == tests {
      assert LaneInv(tests, st.lanes[i]);
      RestingLane(tests, st.lanes[i]);
    }
    TotalConst(st.lanes, Got, tests);
  }

  lemma MeasureNonneg(n: nat, tests: nat, st: State)
    requires Inv(n, tests, st)
    ensures Measure(tests, st) >= 0
  {
    forall i | 0 <= i < n ensures LaneWeight(tests)(st.lanes[i]) >= 0 {
      assert LaneInv(tests, st.lanes[i]);
    }
    TotalNonneg(st.lanes, LaneWeight(tests));
  }

  /** Every run ends; where it cannot continue the server and all clients have left both their loops, each side has
      sent and received exactly `tests` messages per client, and one send each way was signalled and reaped. */
  lemma EveryRunIsExact(n: nat, tests: nat, trace: seq<State>, run: seq<Step>)
    requires GoodCounts(n, tests) && IsTrace(n, tests, trace, run)
    ensures |run| <= 10 * tests * n + 1
    ensures Stuck(n, tests, trace[|run|]) ==>
              && ServerDone(n, trace[|run|]) && trace[|run|].cnt == n * tests
              && forall l :: l in trace[|run|].lanes ==> LaneExact(tests, l)
  {
    TraceBound(n, tests, trace, run, |run|);
    TraceInv(n, tests, trace, run, |run|);
    MeasureNonneg(n, tests, trace[|run|]);
    if Stuck(n, tests, trace[|run|]) {
      StuckIsExact(n, tests, trace[|run|]);
    }
  }

  lemma {:induction false} UsesAtMost(n: nat, index: nat, q: nat, k: nat)
    requires n > 0
    ensures Uses(n, index, q, k) <= k
  {
    if k > 0 {
      UsesAtMost(n, index, q, k - 1);
    }
  }

  /** Sends the server has posted on queue pair q for the clients from `first` on. */
  function Load(n: nat, lanes: seq<Lane>, first: nat, q: nat): nat
    requires n > 0
  {
    if lanes == [] then 0 else Uses(n, first, q, lanes[0].down.sent) + Load(n, lanes[1..], first + 1, q)
  }

  lemma {:induction false} LoadBound(n: nat, tests: nat, lanes: seq<Lane>, first: nat, q: nat)
    requires n > 0 && forall i :: 0 <= i < |lanes| ==> lanes[i].down.sent <= tests
    ensures Load(n, lanes, first, q) <= |lanes| * tests
  {
    if lanes != [] {
      UsesAtMost(n, first, q, lanes[0].down.sent);
      LoadBound(n, tests, lanes[1..], first + 1, q);
      assert |lanes| * tests == |lanes[1..]| * tests + tests;
    }
  }

  /** A send queue of depth num_clients * num_tests takes every send ever posted on it. */
  lemma SendQueueFits(n: nat, tests: nat, trace: seq<State>, run: seq<Step>, k: nat, q: nat)
    requires GoodCounts(n, tests) && IsTrace(n, tests, trace, run) && k < |trace|
    ensures Load(n, trace[k].lanes, 0, q) <= n * tests
  {
    Safety(n, tests, trace, run, k);
    LoadBound(n, tests, trace[k].lanes, 0, q);
  }
}
