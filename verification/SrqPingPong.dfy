/**
 Shared-receive-queue ping-pong (srq_pingpong.c): one token per queue pair bounces between a client
 and a server, while the loop of each side only watches two global counters.
 */
module SrqPingPong {
  import opened Counting
  import opened Modular

  /** The two work-request identifiers; the source uses them as bits of `pending[qp]`. */
  datatype WrId = Recv | Send

  datatype Pending = Pending(recv: bool, send: bool) {
    function Clear(w: WrId): Pending {
      if w.Recv? then this.(recv := false) else this.(send := false)
    }

    predicate Idle() { !recv && !send }
  }

  const BOTH := Pending(true, true)

  /** The local variables of one side's completion loop. */
  datatype Party = Party(scnt: nat, rcnt: nat, routs: int, pending: seq<Pending>)

  /** What handling one completion does: the new variables, the receives posted, and whether a send is posted. */
  datatype Reaction = Reaction(party: Party, refill: int, post: bool)

  function React(numQp: nat, iters: int, rxDepth: nat, p: Party, qp: nat, w: WrId): Reaction
    requires qp < |p.pending|
  {
    var refill := if w.Recv? && p.routs - 1 <= numQp then rxDepth - (p.routs - 1) else 0;
    var counted :=
      if w.Send? then p.(scnt := p.scnt + 1)
      else p.(rcnt := p.rcnt + 1, routs := p.routs - 1 + refill);
    var left := p.pending[qp].Clear(w);
    var post := counted.scnt < iters && left.Idle();
    Reaction(counted.(pending := p.pending[qp := if post then BOTH else left]), refill, post)
  }

  /** Receives are refilled in whole batches: after every rx - numQp of them, when numQp are left (with one receive per
      queue pair, after each). */
  predicate RefillLaw(numQp: nat, rx: nat, p: Party) {
    if rx > numQp then p.routs == rx - p.rcnt % (rx - numQp) else p.routs == rx
  }

  /** The receives posted on the completion that makes the count `rcnt`. */
  function RefillAt(numQp: nat, rx: nat, rcnt: nat): int {
    if rx <= numQp then 1 else if rcnt % (rx - numQp) == 0 then rx - numQp else 0
  }

  lemma ReactRefill(numQp: nat, iters: int, rx: nat, p: Party, qp: nat, w: WrId)
    requires qp < |p.pending| && numQp <= rx && RefillLaw(numQp, rx, p)
    ensures var r := React(numQp, iters, rx, p, qp, w);
            && RefillLaw(numQp, rx, r.party)
            && r.refill == if w.Recv? then RefillAt(numQp, rx, r.party.rcnt) else 0
  {
    if rx > numQp {
      NextQuotient(p.rcnt, rx - numQp);
    }
  }

  /** A completion as polled from the queue. */
  datatype Wc = Wc(qp: nat, wrId: WrId)

  /** The effect of a polled batch on the variables, and the queue pairs a send was posted on, in order. */
  function ReactAll(numQp: nat, iters: int, rxDepth: nat, p: Party, wcs: seq<Wc>): (r: (Party, seq<nat>))
    requires forall i :: 0 <= i < |wcs| ==> wcs[i].qp < |p.pending|
    ensures |r.0.pending| == |p.pending|
    decreases |wcs|
  {
    if wcs == [] then (p, [])
    else
      var (before, posted) := ReactAll(numQp, iters, rxDepth, p, wcs[..|wcs| - 1]);
      var wc := wcs[|wcs| - 1];
      var r := React(numQp, iters, rxDepth, before, wc.qp, wc.wrId);
      (r.party, if r.post then posted + [wc.qp] else posted)
  }

  function Kinds(wcs: seq<Wc>): seq<WrId> { seq(|wcs|, i requires 0 <= i < |wcs| => wcs[i].wrId) }

  /** A batch counts its completions and keeps the refill law. */
  lemma {:induction false} BatchCounts(numQp: nat, iters: int, rx: nat, p: Party, wcs: seq<Wc>)
    requires forall i :: 0 <= i < |wcs| ==> wcs[i].qp < |p.pending|
    ensures var q := ReactAll(numQp, iters, rx, p, wcs).0;
            && q.rcnt == p.rcnt + multiset(Kinds(wcs))[Recv]
            && q.scnt == p.scnt + multiset(Kinds(wcs))[Send]
            && (numQp <= rx && RefillLaw(numQp, rx, p) ==> RefillLaw(numQp, rx, q))
    decreases |wcs|
  {
    if wcs != [] {
      var init, wc := wcs[..|wcs| - 1], wcs[|wcs| - 1];
      BatchCounts(numQp, iters, rx, p, init);
      assert Kinds(wcs) == Kinds(init) + [wc.wrId];
      var q := ReactAll(numQp, iters, rx, p, init).0;
      if numQp <= rx && RefillLaw(numQp, rx, p) {
        ReactRefill(numQp, iters, rx, q, wc.qp, wc.wrId);
      }
    }
  }

  const RECV_WRID: bv8 := 1
  const SEND_WRID: bv8 := 2

  function FromBits(b: bv8): Pending {
    Pending(b & RECV_WRID != 0, b & SEND_WRID != 0)
  }

  function WrBits(w: WrId): bv8 { if w.Recv? then RECV_WRID else SEND_WRID }

  /** The linear search that maps a completion's queue-pair number to the index used by `pending`. */
  method FindQp(qpNums: seq<int>, qpn: int) returns (index: int)
    ensures -1 <= index < |qpNums|
    ensures index >= 0 ==> qpNums[index] == qpn && qpn !in qpNums[..index]
    ensures index < 0 ==> qpn !in qpNums
  {
    var i := 0;
    while i < |qpNums|
      invariant 0 <= i <= |qpNums|
      invariant qpn !in qpNums[..i]
    {
      if qpNums[i] == qpn {
        return i;
      }
      i := i + 1;
    }
    return -1;
  }

  /** The completion loop's context: counters and the bit masks, updated in place. */
  class PingPong {
    const numQp: nat
    const rxDepth: nat
    const iters: int
    var scnt: nat
    var rcnt: nat
    var routs: int
    const pending: array<bv8>

    ghost predicate Valid() reads this, pending {
      pending.Length == numQp && forall i :: 0 <= i < numQp ==> pending[i] <= 3
    }

    ghost function Vars(): Party reads this, pending {
      Party(scnt, rcnt, routs,
            seq(pending.Length, i requires 0 <= i < pending.Length reads pending => FromBits(pending[i])))
    }

    constructor (numQp: nat, rxDepth: nat, iters: int, isClient: bool)
      ensures Valid() && fresh(pending)
      ensures this.numQp == numQp && this.rxDepth == rxDepth && this.iters == iters
      ensures Vars() == Started(numQp, rxDepth, isClient)
      ensures RefillLaw(numQp, rxDepth, Vars())
    {
      this.numQp, this.rxDepth, this.iters := numQp, rxDepth, iters;
      scnt, rcnt, routs := 0, 0, rxDepth;
      var start: bv8 := if isClient then SEND_WRID | RECV_WRID else RECV_WRID;
      pending := new bv8[numQp](_ => start);
    }

    /** One iteration of the batch loop. */
    method OnCompletion(qp: nat, w: WrId) returns (posted: bool, refill: int)
      requires Valid() && qp < numQp
      modifies this, pending
      ensures Valid()
      ensures var r := React(numQp, iters, rxDepth, old(Vars()), qp, w);
              Vars() == r.party && posted == r.post && refill == r.refill
      ensures numQp <= rxDepth && old(RefillLaw(numQp, rxDepth, Vars())) ==>
                && RefillLaw(numQp, rxDepth, Vars())
                && refill == if w.Recv? then RefillAt(numQp, rxDepth, rcnt) else 0
    {
      if numQp <= rxDepth && RefillLaw(numQp, rxDepth, Vars()) {
        ReactRefill(numQp, iters, rxDepth, Vars(), qp, w);
      }
      refill := 0;
      match w {
        case Send =>
          scnt := scnt + 1;
        case Recv =>
          routs := routs - 1;
          if routs <= numQp {
            refill := rxDepth - routs;
            routs := routs + refill;
          }
          rcnt := rcnt + 1;
      }
      assert FromBits(pending[qp] & !WrBits(w)) == FromBits(pending[qp]).Clear(w);
      assert (pending[qp] & !WrBits(w) == 0) == FromBits(pending[qp] & !WrBits(w)).Idle();
      pending[qp] := pending[qp] & !WrBits(w);
      posted := scnt < iters && pending[qp] == 0;
      if posted {
        pending[qp] := RECV_WRID | SEND_WRID;
      }
    }

    /** The loop over a polled batch. In a run of both sides whose polls name the same completions in the same order,
        it leaves this side's variables, and posts on the queue pairs on which this side sent. */
    method OnBatch(wcs: seq<Wc>, ghost c: Config, ghost byClient: bool, ghost states: seq<State>)
      returns (posted: seq<nat>)
      requires Valid() && forall i :: 0 <= i < |wcs| ==> wcs[i].qp < numQp
      modifies this, pending
      ensures Valid()
      ensures rcnt == old(rcnt) + multiset(Kinds(wcs))[Recv] && scnt == old(scnt) + multiset(Kinds(wcs))[Send]
      ensures numQp <= rxDepth && old(RefillLaw(numQp, rxDepth, Vars())) ==> RefillLaw(numQp, rxDepth, Vars())
      ensures (Vars(), posted) == ReactAll(numQp, iters, rxDepth, old(Vars()), wcs)
      ensures numQp == c.numQp && iters == c.iters && rxDepth == Depth(c, byClient) && IsBatch(c, byClient, states, wcs)
              && old(Vars()) == Side(states[0], byClient).party ==>
                Vars() == Side(states[|wcs|], byClient).party && posted == Grown(byClient, states, wcs, |wcs|)
    {
      ghost var start := Vars();
      posted := [];
      var i := 0;
      while i < |wcs|
        invariant 0 <= i <= |wcs|
        invariant Valid()
        invariant (Vars(), posted) == ReactAll(numQp, iters, rxDepth, start, wcs[..i])
      {
        var post, _ := OnCompletion(wcs[i].qp, wcs[i].wrId);
        if post {
          posted := posted + [wcs[i].qp];
        }
        assert wcs[..i + 1][..i] == wcs[..i];
        i := i + 1;
      }
      assert wcs[..|wcs|] == wcs;
      BatchCounts(numQp, iters, rxDepth, start, wcs);
      if numQp == c.numQp && iters == c.iters && rxDepth == Depth(c, byClient) && IsBatch(c, byClient, states, wcs)
         && start == Side(states[0], byClient).party {
        BatchIsSteps(c, byClient, states, wcs, |wcs|);
      }
    }
  }

  /** The variables after the initial posts: the client has sent on every queue pair, the server awaits. */
  function Started(numQp: nat, rxDepth: nat, isClient: bool): Party {
    Party(0, 0, rxDepth, seq(numQp, _ => if isClient then BOTH else Pending(true, false)))
  }

  // ---------------------------------------------------------------------------------------------
  // The two sides and the fabric between them
  // ---------------------------------------------------------------------------------------------

  /** One direction of one queue pair: messages posted ever, still in flight, delivered but not yet polled
      by the receiver, and delivered but with the send completion not yet polled by the sender. */
  datatype Link = Link(sent: nat, fly: nat, cqe: nat, ack: nat)

  function Sent(l: Link): int { l.sent }
  function Outstanding(l: Link): int { l.fly + l.ack }
  function Unread(l: Link): int { l.fly + l.cqe }
  function Fly(l: Link): int { l.fly }
  function Cqe(l: Link): int { l.cqe }
  function Ack(l: Link): int { l.ack }
  function Weight(l: Link): int { 3 * l.fly + l.cqe + l.ack }

  /** One side: its variables, the receives free in its shared receive queue, and its outgoing links. */
  datatype End = End(party: Party, srq: int, exited: bool, out: seq<Link>)

  datatype Config = Config(numQp: nat, iters: int, rxClient: nat, rxServer: nat)

  predicate Accepted(c: Config) {
    1 <= c.iters && 1 <= c.numQp <= c.rxClient && c.numQp <= c.rxServer
  }

  datatype State = State(client: End, server: End)

  datatype Action = Deliver | PollSend | PollRecv | Exit

  datatype Step = Step(byClient: bool, action: Action, qp: nat)

  function Init(c: Config): State {
    State(End(Started(c.numQp, c.rxClient, true), c.rxClient, false, seq(c.numQp, _ => Link(1, 1, 0, 0))),
          End(Started(c.numQp, c.rxServer, false), c.rxServer, false, seq(c.numQp, _ => Link(0, 0, 0, 0))))
  }

  predicate Done(c: Config, e: End) {
    e.party.rcnt >= c.iters && e.party.scnt >= c.iters
  }

  /** Whether side `me` can take the action; a delivery needs a free receive at the other side. */
  predicate CanAct(c: Config, me: End, other: End, a: Action, qp: nat) {
    && qp < c.numQp == |me.out| == |other.out| == |me.party.pending|
    && match a
       case Deliver => me.out[qp].fly > 0 && other.srq > 0
       case PollSend => !me.exited && me.out[qp].ack > 0
       case PollRecv => !me.exited && other.out[qp].cqe > 0
       case Exit => !me.exited && Done(c, me)
  }

  function PostOn(l: Link, post: bool): Link {
    if post then l.(sent := l.sent + 1, fly := l.fly + 1) else l
  }

  function Act(c: Config, rx: nat, me: End, other: End, a: Action, qp: nat): (End, End)
    requires CanAct(c, me, other, a, qp)
  {
    match a
    case Deliver =>
      var l := me.out[qp];
      (me.(out := me.out[qp := l.(fly := l.fly - 1, cqe := l.cqe + 1, ack := l.ack + 1)]),
       other.(srq := other.srq - 1))
    case PollSend =>
      var r := React(c.numQp, c.iters, rx, me.party, qp, Send);
      var l := me.out[qp];
      (me.(party := r.party, out := me.out[qp := PostOn(l.(ack := l.ack - 1), r.post)]), other)
    case PollRecv =>
      var r := React(c.numQp, c.iters, rx, me.party, qp, Recv);
      var l := other.out[qp];
      (me.(party := r.party, srq := me.srq + r.refill, out := me.out[qp := PostOn(me.out[qp], r.post)]),
       other.(out := other.out[qp := l.(cqe := l.cqe - 1)]))
    case Exit =>
      (me.(exited := true), other)
  }

  predicate Enabled(c: Config, st: State, s: Step) {
    if s.byClient then CanAct(c, st.client, st.server, s.action, s.qp)
    else CanAct(c, st.server, st.client, s.action, s.qp)
  }

  function Next(c: Config, st: State, s: Step): State
    requires Enabled(c, st, s)
  {
    if s.byClient then
      var (me, other) := Act(c, c.rxClient, st.client, st.server, s.action, s.qp);
      State(me, other)
    else
      var (me, other) := Act(c, c.rxServer, st.server, st.client, s.action, s.qp);
      State(other, me)
  }

  /** The states `trace` visits when the steps of `run` are taken from the initial state. */
  ghost predicate IsTrace(c: Config, trace: seq<State>, run: seq<Step>) {
    && |trace| == |run| + 1
    && trace[0] == Init(c)
    && forall i :: 0 <= i < |run| ==> Enabled(c, trace[i], run[i]) && trace[i + 1] == Next(c, trace[i], run[i])
  }

  // ---------------------------------------------------------------------------------------------
  // Batches
  // ---------------------------------------------------------------------------------------------

  function Side(st: State, byClient: bool): End { if byClient then st.client else st.server }

  function Depth(c: Config, byClient: bool): nat { if byClient then c.rxClient else c.rxServer }

  function PollOf(byClient: bool, wc: Wc): Step {
    Step(byClient, if wc.wrId.Send? then PollSend else PollRecv, wc.qp)
  }

  /** The states visited when one side polls the completions of a batch one after the other. */
  ghost predicate IsBatch(c: Config, byClient: bool, states: seq<State>, wcs: seq<Wc>) {
    && |states| == |wcs| + 1
    && forall i :: 0 <= i < |wcs| ==>
         && Enabled(c, states[i], PollOf(byClient, wcs[i]))
         && states[i + 1] == Next(c, states[i], PollOf(byClient, wcs[i]))
  }

  predicate SentMore(before: End, after: End, qp: nat) {
    qp < |before.out| && qp < |after.out| && after.out[qp].sent > before.out[qp].sent
  }

  /** In order, the queue pairs of the first k polls on which the polling side sent a message. */
  function Grown(byClient: bool, states: seq<State>, wcs: seq<Wc>, k: nat): seq<nat>
    requires k <= |wcs| < |states|
  {
    if k == 0 then []
    else
      var sent := SentMore(Side(states[k - 1], byClient), Side(states[k], byClient), wcs[k - 1].qp);
      Grown(byClient, states, wcs, k - 1) + if sent then [wcs[k - 1].qp] else []
  }

  /** One poll has the effect of one completion, and sends exactly when that posts. */
  lemma OnePoll(c: Config, st: State, byClient: bool, wc: Wc)
    requires Enabled(c, st, PollOf(byClient, wc))
    ensures var me, me' := Side(st, byClient), Side(Next(c, st, PollOf(byClient, wc)), byClient);
            var r := React(c.numQp, c.iters, Depth(c, byClient), me.party, wc.qp, wc.wrId);
            me'.party == r.party && (SentMore(me, me', wc.qp) <==> r.post)
  {
  }

  lemma ReactAllStep(numQp: nat, iters: int, rx: nat, p: Party, wcs: seq<Wc>, wc: Wc)
    requires wc.qp < |p.pending| && forall i :: 0 <= i < |wcs| ==> wcs[i].qp < |p.pending|
    ensures var (q, posted) := ReactAll(numQp, iters, rx, p, wcs);
            var r := React(numQp, iters, rx, q, wc.qp, wc.wrId);
            ReactAll(numQp, iters, rx, p, wcs + [wc]) == (r.party, posted + if r.post then [wc.qp] else [])
  {
    var all := wcs + [wc];
    assert all[..|all| - 1] == wcs && all[|all| - 1] == wc;
    assert ReactAll(numQp, iters, rx, p, wcs).1 + [] == ReactAll(numQp, iters, rx, p, wcs).1;
  }

  /** The first k polls have the effect of the first k completions. */
  ghost predicate BatchSoFar(c: Config, byClient: bool, states: seq<State>, wcs: seq<Wc>, k: nat)
    requires k <= |wcs| < |states|
    requires forall i :: 0 <= i < |wcs| ==> wcs[i].qp < |Side(states[0], byClient).party.pending|
  {
    (Side(states[k], byClient).party, Grown(byClient, states, wcs, k))
      == ReactAll(c.numQp, c.iters, Depth(c, byClient), Side(states[0], byClient).party, wcs[..k])
  }

  lemma BatchStep(c: Config, byClient: bool, states: seq<State>, wcs: seq<Wc>, k: nat)
    requires IsBatch(c, byClient, states, wcs) && k < |wcs|
    requires forall i :: 0 <= i < |wcs| ==> wcs[i].qp < |Side(states[0], byClient).party.pending|
    requires BatchSoFar(c, byClient, states, wcs, k)
    ensures BatchSoFar(c, byClient, states, wcs, k + 1)
  {
    OnePoll(c, states[k], byClient, wcs[k]);
    assert wcs[..k + 1] == wcs[..k] + [wcs[k]];
    ReactAllStep(c.numQp, c.iters, Depth(c, byClient), Side(states[0], byClient).party, wcs[..k], wcs[k]);
  }

  /** The batch loop is these polls: variables and sends are the same. */
  lemma {:induction false} BatchIsSteps(c: Config, byClient: bool, states: seq<State>, wcs: seq<Wc>, k: nat)
    requires IsBatch(c, byClient, states, wcs) && k <= |wcs|
    requires forall i :: 0 <= i < |wcs| ==> wcs[i].qp < |Side(states[0], byClient).party.pending|
    ensures BatchSoFar(c, byClient, states, wcs, k)
  {
    if k > 0 {
      BatchIsSteps(c, byClient, states, wcs, k - 1);
      BatchStep(c, byClient, states, wcs, k - 1);
    }
  }

  /** Completions that the queue of one side holds. */
  ghost predicate Pollable(c: Config, st: State, byClient: bool, wcs: seq<Wc>) {
    var me, other := Side(st, byClient), Side(st, !byClient);
    && |me.out| == |other.out| == |me.party.pending| == c.numQp && !me.exited
    && (forall wc :: wc in wcs ==> wc.qp < c.numQp)
    && forall qp :: 0 <= qp < c.numQp ==>
         multiset(wcs)[Wc(qp, Send)] <= me.out[qp].ack && multiset(wcs)[Wc(qp, Recv)] <= other.out[qp].cqe
  }

  lemma PollCounts(c: Config, st: State, byClient: bool, wc: Wc, qp: nat)
    requires Enabled(c, st, PollOf(byClient, wc)) && qp < c.numQp
    ensures var st' := Next(c, st, PollOf(byClient, wc));
            var me, other := Side(st, byClient), Side(st, !byClient);
            var me', other' := Side(st', byClient), Side(st', !byClient);
            && |me'.out| == |other'.out| == |me'.party.pending| == c.numQp && me'.exited == me.exited
            && me'.out[qp].ack == me.out[qp].ack - (if wc == Wc(qp, Send) then 1 else 0)
            && other'.out[qp].cqe == other.out[qp].cqe - (if wc == Wc(qp, Recv) then 1 else 0)
  {
  }

  lemma PollFirst(c: Config, st: State, byClient: bool, wcs: seq<Wc>)
    requires wcs != [] && Pollable(c, st, byClient, wcs)
    ensures Enabled(c, st, PollOf(byClient, wcs[0]))
    ensures Pollable(c, Next(c, st, PollOf(byClient, wcs[0])), byClient, wcs[1..])
  {
    var wc, rest := wcs[0], wcs[1..];
    assert wcs == [wc] + rest;
    assert multiset(wcs) == multiset{wc} + multiset(rest);
    assert multiset(wcs)[wc] >= 1;
    var st' := Next(c, st, PollOf(byClient, wc));
    PollCounts(c, st, byClient, wc, wc.qp);
    forall qp | 0 <= qp < c.numQp
      ensures multiset(rest)[Wc(qp, Send)] <= Side(st', byClient).out[qp].ack
      ensures multiset(rest)[Wc(qp, Recv)] <= Side(st', !byClient).out[qp].cqe
    {
      PollCounts(c, st, byClient, wc, qp);
    }
  }

  lemma ConsBatch(c: Config, byClient: bool, st: State, wc: Wc, states: seq<State>, wcs: seq<Wc>)
    requires Enabled(c, st, PollOf(byClient, wc)) && IsBatch(c, byClient, states, wcs)
    requires states[0] == Next(c, st, PollOf(byClient, wc))
    ensures IsBatch(c, byClient, [st] + states, [wc] + wcs)
  {
    var all, allWcs := [st] + states, [wc] + wcs;
    forall i | 0 <= i < |allWcs|
      ensures Enabled(c, all[i], PollOf(byClient, allWcs[i]))
      ensures all[i + 1] == Next(c, all[i], PollOf(byClient, allWcs[i]))
    {
      if i > 0 {
        assert all[i] == states[i - 1] && all[i + 1] == states[i] && allWcs[i] == wcs[i - 1];
      }
    }
  }

  /** Whatever batch of its completions a side is given, polling them one by one is a run of the two sides. */
  lemma {:induction false} EveryBatchRuns(c: Config, st: State, byClient: bool, wcs: seq<Wc>)
    returns (states: seq<State>)
    requires Pollable(c, st, byClient, wcs)
    ensures IsBatch(c, byClient, states, wcs) && states[0] == st
    decreases |wcs|
  {
    if wcs == [] {
      states := [st];
    } else {
      PollFirst(c, st, byClient, wcs);
      var rest := EveryBatchRuns(c, Next(c, st, PollOf(byClient, wcs[0])), byClient, wcs[1..]);
      ConsBatch(c, byClient, st, wcs[0], rest, wcs[1..]);
      assert [wcs[0]] + wcs[1..] == wcs;
      states := [st] + rest;
    }
  }

  // ---------------------------------------------------------------------------------------------
  // The invariant
  // ---------------------------------------------------------------------------------------------

  /** Both sides of queue pair i, seen from `me`: at most one message travels, the SEND bit tells whether a send
      is outstanding, and whoever holds the token without an outstanding send has met its quota. */
  predicate QpInv(c: Config, me: End, other: End, i: nat)
    requires i < |me.out| == |other.out| == |me.party.pending| == |other.party.pending|
  {
    var l, m, p, q := me.out[i], other.out[i], me.party.pending[i], other.party.pending[i];
    && l.fly + l.ack == (if p.send then 1 else 0)
    && l.fly + l.cqe + m.fly + m.cqe == (if p.recv && q.recv then 1 else 0)
    && (p.recv || q.recv)
    && l.sent >= l.fly + l.ack && l.sent >= l.fly + l.cqe
    && (p.Idle() ==> me.party.scnt >= c.iters)
  }

  /** The token law on the links and the server's RECV bit of one queue pair. */
  predicate Token(l: Link, m: Link, serverRecv: bool) {
    l.sent == m.sent + (if l.fly + l.cqe == 1 || !serverRecv then 1 else 0)
  }

  /** The client is one message ahead on queue pair i exactly when the token is on the server's half. */
  predicate TokenInv(st: State, i: nat)
    requires i < |st.client.out| == |st.server.out| == |st.client.party.pending| == |st.server.party.pending|
  {
    Token(st.client.out[i], st.server.out[i], st.server.party.pending[i].recv)
  }

  /** The global counters account for every message. */
  predicate SumInv(c: Config, rx: nat, me: End, other: End) {
    && me.party.scnt + Total(me.out, Outstanding) == Total(me.out, Sent)
    && me.party.rcnt + Total(other.out, Unread) == Total(other.out, Sent)
    && Total(me.out, Sent) <= c.iters - 1 + c.numQp
    && c.numQp <= me.party.routs <= rx
    && me.srq + Total(other.out, Cqe) == me.party.routs
    && (me.exited ==> Done(c, me))
  }

  predicate EndInv(c: Config, rx: nat, me: End, other: End) {
    && |me.out| == |other.out| == |me.party.pending| == |other.party.pending| == c.numQp
    && (forall i :: 0 <= i < c.numQp ==> QpInv(c, me, other, i))
    && SumInv(c, rx, me, other)
  }

  predicate Inv(c: Config, st: State) {
    && EndInv(c, c.rxClient, st.client, st.server)
    && EndInv(c, c.rxServer, st.server, st.client)
    && (forall i :: 0 <= i < c.numQp ==> TokenInv(st, i))
  }

  /** Sums over the links of a side that has sent one message on each queue pair (`lead`) or none. */
  /** A side at the start: it has sent one message on each queue pair (`lead`) or none. */
  predicate AtStart(c: Config, rx: nat, e: End, lead: bool) {
    && |e.out| == |e.party.pending| == c.numQp && e.party.scnt == e.party.rcnt == 0
    && e.party.routs == e.srq == rx && !e.exited
    && forall i :: 0 <= i < c.numQp ==>
         && e.out[i] == (if lead then Link(1, 1, 0, 0) else Link(0, 0, 0, 0))
         && e.party.pending[i] == (if lead then BOTH else Pending(true, false))
  }

  lemma InitAtStart(c: Config)
    ensures AtStart(c, c.rxClient, Init(c).client, true) && AtStart(c, c.rxServer, Init(c).server, false)
  {
  }

  lemma StartTotals(c: Config, rx: nat, e: End, lead: bool)
    requires AtStart(c, rx, e, lead)
    ensures Total(e.out, Sent) == Total(e.out, Outstanding) == Total(e.out, Unread) == (if lead then c.numQp else 0)
    ensures Total(e.out, Cqe) == 0
  {
    if lead {
      TotalConst(e.out, Sent, 1);
      TotalConst(e.out, Outstanding, 1);
      TotalConst(e.out, Unread, 1);
    } else {
      TotalConst(e.out, Sent, 0);
      TotalConst(e.out, Outstanding, 0);
      TotalConst(e.out, Unread, 0);
    }
    TotalConst(e.out, Cqe, 0);
  }

  lemma StartSums(c: Config, rx: nat, me: End, other: End, lead: bool)
    requires Accepted(c) && me.party.scnt == me.party.rcnt == 0 && me.party.routs == me.srq == rx && c.numQp <= rx
    requires !me.exited
    requires Total(me.out, Sent) == Total(me.out, Outstanding) == (if lead then c.numQp else 0)
    requires Total(other.out, Sent) == Total(other.out, Unread) && Total(other.out, Cqe) == 0
    ensures SumInv(c, rx, me, other)
  {
  }

  lemma StartQps(c: Config, rx: nat, ry: nat, me: End, other: End, lead: bool)
    requires AtStart(c, rx, me, lead) && AtStart(c, ry, other, !lead)
    ensures forall i :: 0 <= i < c.numQp ==> QpInv(c, me, other, i)
  {
  }

  lemma StartEnd(c: Config, rx: nat, ry: nat, me: End, other: End, lead: bool)
    requires Accepted(c) && AtStart(c, rx, me, lead) && AtStart(c, ry, other, !lead) && c.numQp <= rx
    ensures EndInv(c, rx, me, other)
  {
    StartQps(c, rx, ry, me, other, lead);
    StartTotals(c, rx, me, lead);
    StartTotals(c, ry, other, !lead);
    StartSums(c, rx, me, other, lead);
  }

  lemma StartTokens(c: Config, st: State)
    requires AtStart(c, c.rxClient, st.client, true) && AtStart(c, c.rxServer, st.server, false)
    ensures forall i :: 0 <= i < c.numQp ==> TokenInv(st, i)
  {
  }

  lemma InitInv(c: Config)
    requires Accepted(c)
    ensures Inv(c, Init(c))
  {
    var st := Init(c);
    InitAtStart(c);
    StartEnd(c, c.rxClient, c.rxServer, st.client, st.server, true);
    StartEnd(c, c.rxServer, c.rxClient, st.server, st.client, false);
    StartTokens(c, st);
  }

  lemma LinkTotals(out: seq<Link>, i: nat, l: Link)
    requires i < |out|
    ensures Total(out[i := l], Sent) == Total(out, Sent) - out[i].sent + l.sent
    ensures Total(out[i := l], Outstanding) == Total(out, Outstanding) - Outstanding(out[i]) + Outstanding(l)
    ensures Total(out[i := l], Unread) == Total(out, Unread) - Unread(out[i]) + Unread(l)
    ensures Total(out[i := l], Cqe) == Total(out, Cqe) - out[i].cqe + l.cqe
    ensures Total(out[i := l], Weight) == Total(out, Weight) - Weight(out[i]) + Weight(l)
  {
    TotalUpdate(out, i, l, Sent);
    TotalUpdate(out, i, l, Outstanding);
    TotalUpdate(out, i, l, Unread);
    TotalUpdate(out, i, l, Cqe);
    TotalUpdate(out, i, l, Weight);
  }

  lemma OtherQpInv(c: Config, rx: nat, me: End, other: End, a: Action, qp: nat, i: nat)
    requires CanAct(c, me, other, a, qp) && i < c.numQp && i != qp
    requires |other.party.pending| == c.numQp && QpInv(c, me, other, i) && QpInv(c, other, me, i)
    ensures var (me', other') := Act(c, rx, me, other, a, qp);
            && |me'.out| == |other'.out| == |me'.party.pending| == |other'.party.pending| == c.numQp
            && QpInv(c, me', other', i) && QpInv(c, other', me', i)
  {
    var (me', other') := Act(c, rx, me, other, a, qp);
    assert me'.out[i] == me.out[i] && other'.out[i] == other.out[i];
    assert me'.party.pending[i] == me.party.pending[i] && other'.party == other.party;
    assert me'.party.scnt >= me.party.scnt;
  }

  lemma OwnQpInv(c: Config, rx: nat, me: End, other: End, a: Action, qp: nat)
    requires CanAct(c, me, other, a, qp)
    requires |other.party.pending| == c.numQp && QpInv(c, me, other, qp) && QpInv(c, other, me, qp)
    ensures var (me', other') := Act(c, rx, me, other, a, qp);
            && |me'.out| == |other'.out| == |me'.party.pending| == |other'.party.pending| == c.numQp
            && QpInv(c, me', other', qp) && QpInv(c, other', me', qp)
  {
    match a
    case Deliver =>
    case PollSend =>
    case PollRecv =>
    case Exit =>
  }

  lemma ActQpInv(c: Config, rx: nat, ry: nat, me: End, other: End, a: Action, qp: nat, i: nat)
    requires EndInv(c, rx, me, other) && EndInv(c, ry, other, me)
    requires CanAct(c, me, other, a, qp) && i < c.numQp
    ensures var (me', other') := Act(c, rx, me, other, a, qp);
            && |me'.out| == |other'.out| == |me'.party.pending| == |other'.party.pending| == c.numQp
            && QpInv(c, me', other', i) && QpInv(c, other', me', i)
  {
    assert QpInv(c, me, other, i) && QpInv(c, other, me, i);
    if i == qp {
      OwnQpInv(c, rx, me, other, a, qp);
    } else {
      OtherQpInv(c, rx, me, other, a, qp, i);
    }
  }

  /** How an action moves the acting side's link of its queue pair. */
  predicate MyLink(a: Action, l: Link, l': Link) {
    var post := l'.sent - l.sent;
    && 0 <= post
    && Outstanding(l') == Outstanding(l) + post - (if a.PollSend? then 1 else 0)
    && Unread(l') == Unread(l) + post && l'.cqe == l.cqe + (if a.Deliver? then 1 else 0)
    && Weight(l') - 4 * l'.sent <= Weight(l) - 4 * l.sent - (if a.Deliver? || a.PollSend? then 1 else 0)
  }

  predicate OtherLink(a: Action, l: Link, l': Link) {
    var read := if a.PollRecv? then 1 else 0;
    && l'.sent == l.sent && Outstanding(l') == Outstanding(l) && Unread(l') == Unread(l) - read
    && l'.cqe == l.cqe - read && Weight(l') == Weight(l) - read
  }

  /** No other link changes. */
  lemma ActLinks(c: Config, rx: nat, me: End, other: End, a: Action, qp: nat)
    requires CanAct(c, me, other, a, qp)
    ensures var (me', other') := Act(c, rx, me, other, a, qp);
            && me'.out == me.out[qp := me'.out[qp]] && other'.out == other.out[qp := other'.out[qp]]
            && MyLink(a, me.out[qp], me'.out[qp]) && OtherLink(a, other.out[qp], other'.out[qp])
  {
    match a
    case Deliver =>
    case PollSend =>
    case PollRecv =>
    case Exit =>
  }

  /** How an action moves the sums of both sides. */
  lemma ActTotals(c: Config, rx: nat, me: End, other: End, a: Action, qp: nat)
    requires CanAct(c, me, other, a, qp)
    ensures var (me', other') := Act(c, rx, me, other, a, qp);
            var post := me'.out[qp].sent - me.out[qp].sent;
            && 0 <= post
            && Total(me'.out, Sent) == Total(me.out, Sent) + post
            && Total(me'.out, Outstanding) == Total(me.out, Outstanding) + post - (if a.PollSend? then 1 else 0)
            && Total(me'.out, Unread) == Total(me.out, Unread) + post
            && Total(me'.out, Cqe) == Total(me.out, Cqe) + (if a.Deliver? then 1 else 0)
            && Total(other'.out, Sent) == Total(other.out, Sent)
            && Total(other'.out, Outstanding) == Total(other.out, Outstanding)
            && Total(other'.out, Unread) == Total(other.out, Unread) - (if a.PollRecv? then 1 else 0)
            && Total(other'.out, Cqe) == Total(other.out, Cqe) - (if a.PollRecv? then 1 else 0)
  {
    var (me', other') := Act(c, rx, me, other, a, qp);
    ActLinks(c, rx, me, other, a, qp);
    LinkTotals(me.out, qp, me'.out[qp]);
    LinkTotals(other.out, qp, other'.out[qp]);
  }

  lemma ActSumInv(c: Config, rx: nat, ry: nat, me: End, other: End, a: Action, qp: nat)
    requires SumInv(c, rx, me, other) && SumInv(c, ry, other, me) && CanAct(c, me, other, a, qp)
    requires c.numQp <= rx
    requires Total(Act(c, rx, me, other, a, qp).0.out, Outstanding) <= c.numQp
    ensures var (me', other') := Act(c, rx, me, other, a, qp);
            SumInv(c, rx, me', other') && SumInv(c, ry, other', me')
  {
    ActTotals(c, rx, me, other, a, qp);
  }

  /** Every action of one side keeps the invariant of both sides. */
  lemma ActInv(c: Config, rx: nat, ry: nat, me: End, other: End, a: Action, qp: nat)
    requires EndInv(c, rx, me, other) && EndInv(c, ry, other, me)
    requires CanAct(c, me, other, a, qp)
    ensures var (me', other') := Act(c, rx, me, other, a, qp);
            EndInv(c, rx, me', other') && EndInv(c, ry, other', me')
  {
    var (me', other') := Act(c, rx, me, other, a, qp);
    forall i | 0 <= i < c.numQp
      ensures QpInv(c, me', other', i) && QpInv(c, other', me', i) && 0 <= Outstanding(me'.out[i]) <= 1
    {
      ActQpInv(c, rx, ry, me, other, a, qp, i);
    }
    TotalBounds(me'.out, Outstanding, 0, 1);
    ActSumInv(c, rx, ry, me, other, a, qp);
  }

  lemma ClientKeepsToken(c: Config, me: End, other: End, a: Action, qp: nat)
    requires CanAct(c, me, other, a, qp) && |other.party.pending| == c.numQp
    requires QpInv(c, me, other, qp) && QpInv(c, other, me, qp)
    requires Token(me.out[qp], other.out[qp], other.party.pending[qp].recv)
    ensures var (me', other') := Act(c, c.rxClient, me, other, a, qp);
            Token(me'.out[qp], other'.out[qp], other.party.pending[qp].recv)
  {
    match a
    case Deliver =>
    case PollSend =>
    case PollRecv =>
    case Exit =>
  }

  lemma ServerKeepsToken(c: Config, me: End, other: End, a: Action, qp: nat)
    requires CanAct(c, me, other, a, qp) && |other.party.pending| == c.numQp
    requires QpInv(c, me, other, qp) && QpInv(c, other, me, qp)
    requires Token(other.out[qp], me.out[qp], me.party.pending[qp].recv)
    ensures var (me', other') := Act(c, c.rxServer, me, other, a, qp);
            |me'.party.pending| == c.numQp && Token(other'.out[qp], me'.out[qp], me'.party.pending[qp].recv)
  {
    match a
    case Deliver =>
    case PollSend =>
    case PollRecv =>
    case Exit =>
  }

  lemma ActTokenInv(c: Config, st: State, s: Step, i: nat)
    requires Inv(c, st) && Enabled(c, st, s) && i < c.numQp
    requires var st' := Next(c, st, s);
             |st'.client.out| == |st'.server.out| == |st'.client.party.pending| == |st'.server.party.pending| == c.numQp
    ensures TokenInv(Next(c, st, s), i)
  {
    assert TokenInv(st, i) && QpInv(c, st.client, st.server, i) && QpInv(c, st.server, st.client, i);
    if i == s.qp {
      if s.byClient {
        ClientKeepsToken(c, st.client, st.server, s.action, i);
      } else {
        ServerKeepsToken(c, st.server, st.client, s.action, i);
      }
    }
  }

  lemma StepInv(c: Config, st: State, s: Step)
    requires Inv(c, st) && Enabled(c, st, s)
    ensures Inv(c, Next(c, st, s))
  {
    if s.byClient {
      ActInv(c, c.rxClient, c.rxServer, st.client, st.server, s.action, s.qp);
    } else {
      ActInv(c, c.rxServer, c.rxClient, st.server, st.client, s.action, s.qp);
    }
    forall i | 0 <= i < c.numQp ensures TokenInv(Next(c, st, s), i) {
      ActTokenInv(c, st, s, i);
    }
  }

  lemma {:induction false} TraceInv(c: Config, trace: seq<State>, run: seq<Step>, k: nat)
    requires Accepted(c) && IsTrace(c, trace, run) && k < |trace|
    ensures Inv(c, trace[k])
  {
    if k == 0 {
      InitInv(c);
    } else {
      TraceInv(c, trace, run, k - 1);
      StepInv(c, trace[k - 1], run[k - 1]);
    }
  }

  // ---------------------------------------------------------------------------------------------
  // Main results
  // ---------------------------------------------------------------------------------------------

  /** Resource bounds of one side: counters, send queue (depth 1), shared receive queue, completion queue
      (depth rx + numQp), and the window the refill threshold keeps `routs` in. */
  ghost predicate Bounded(c: Config, rx: nat, me: End, other: End) {
    && me.party.scnt <= c.iters + c.numQp - 1
    && me.party.rcnt <= c.iters + c.numQp - 1
    && (forall i :: 0 <= i < |me.out| ==> Outstanding(me.out[i]) <= 1 && Unread(me.out[i]) <= 1)
    && Total(me.out, Unread) <= c.numQp
    && c.numQp <= me.party.routs <= rx
    && 0 <= Total(other.out, Fly) <= me.srq <= rx
    && Total(other.out, Cqe) + Total(me.out, Ack) <= rx + c.numQp
  }

  lemma EndBounds(c: Config, rx: nat, ry: nat, me: End, other: End)
    requires EndInv(c, rx, me, other) && EndInv(c, ry, other, me)
    ensures Bounded(c, rx, me, other)
  {
    forall i | 0 <= i < c.numQp
      ensures Outstanding(me.out[i]) <= 1 && Unread(me.out[i]) <= 1 && Unread(other.out[i]) <= 1
    {
      assert QpInv(c, me, other, i);
    }
    TotalNonneg(me.out, Outstanding);
    TotalNonneg(other.out, Unread);
    TotalNonneg(other.out, Cqe);
    TotalNonneg(other.out, Fly);
    TotalNonneg(me.out, Fly);
    TotalBounds(me.out, Unread, 0, 1);
    TotalBounds(other.out, Unread, 0, 1);
    TotalBounds(me.out, Outstanding, 0, 1);
    TotalSum(other.out, Unread, Fly, Cqe);
    TotalSum(me.out, Outstanding, Fly, Ack);
  }

  /** No reachable state overruns a counter or a queue, and no receive queue is ever too short for what is in flight. */
  lemma Safety(c: Config, trace: seq<State>, run: seq<Step>, k: nat)
    requires Accepted(c) && IsTrace(c, trace, run) && k < |trace|
    ensures Bounded(c, c.rxClient, trace[k].client, trace[k].server)
    ensures Bounded(c, c.rxServer, trace[k].server, trace[k].client)
  {
    TraceInv(c, trace, run, k);
    EndBounds(c, c.rxClient, c.rxServer, trace[k].client, trace[k].server);
    EndBounds(c, c.rxServer, c.rxClient, trace[k].server, trace[k].client);
  }

  lemma ActRefill(c: Config, rx: nat, me: End, other: End, a: Action, qp: nat)
    requires CanAct(c, me, other, a, qp) && c.numQp <= rx && RefillLaw(c.numQp, rx, me.party)
    ensures var (me', other') := Act(c, rx, me, other, a, qp);
            && RefillLaw(c.numQp, rx, me'.party) && other'.party == other.party
            && me'.srq == me.srq + if a.PollRecv? then RefillAt(c.numQp, rx, me'.party.rcnt) else 0
  {
    if a.PollRecv? {
      ReactRefill(c.numQp, c.iters, rx, me.party, qp, Recv);
    } else if a.PollSend? {
      ReactRefill(c.numQp, c.iters, rx, me.party, qp, Send);
    }
  }

  predicate Refilled(c: Config, st: State) {
    RefillLaw(c.numQp, c.rxClient, st.client.party) && RefillLaw(c.numQp, c.rxServer, st.server.party)
  }

  lemma StepRefills(c: Config, st: State, s: Step)
    requires Accepted(c) && Enabled(c, st, s) && Refilled(c, st)
    ensures Refilled(c, Next(c, st, s))
  {
    if s.byClient {
      ActRefill(c, c.rxClient, st.client, st.server, s.action, s.qp);
    } else {
      ActRefill(c, c.rxServer, st.server, st.client, s.action, s.qp);
    }
  }

  /** In every reachable state both sides have refilled their receives in whole batches, just when numQp were left. */
  lemma {:induction false} RefillsAreBatched(c: Config, trace: seq<State>, run: seq<Step>, k: nat)
    requires Accepted(c) && IsTrace(c, trace, run) && k < |trace|
    ensures Refilled(c, trace[k])
  {
    if k == 0 {
      assert trace[0].client.party.rcnt == trace[0].server.party.rcnt == 0;
    } else {
      RefillsAreBatched(c, trace, run, k - 1);
      StepRefills(c, trace[k - 1], run[k - 1]);
    }
  }

  /** A step the programs are bound to take: the loop polls only while its own counters fall short. */
  ghost predicate Due(c: Config, st: State, s: Step) {
    && Enabled(c, st, s)
    && (s.action.PollSend? || s.action.PollRecv? ==> !Done(c, if s.byClient then st.client else st.server))
  }

  lemma DeliverDue(c: Config, st: State, byClient: bool) returns (s: Step)
    requires Inv(c, st)
    requires Total(if byClient then st.client.out else st.server.out, Fly) > 0
    ensures Due(c, st, s)
  {
    EndBounds(c, c.rxClient, c.rxServer, st.client, st.server);
    EndBounds(c, c.rxServer, c.rxClient, st.server, st.client);
    var qp := TotalWitness(if byClient then st.client.out else st.server.out, Fly);
    s := Step(byClient, Deliver, qp);
  }

  /** A side has sent and received all that the other side did, and nothing is under way. */
  predicate Drained(c: Config, me: End, other: End)
    requires |me.out| == |other.out| == c.numQp
  {
    && me.party.scnt == Total(me.out, Sent) && me.party.rcnt == Total(other.out, Sent)
    && forall i :: 0 <= i < c.numQp ==>
         me.out[i].fly == 0 && other.out[i].fly == 0 && me.out[i].ack == 0 && other.out[i].cqe == 0
  }

  lemma NothingToPoll(c: Config, rx: nat, me: End, other: End)
    requires EndInv(c, rx, me, other)
    requires Total(me.out, Fly) == 0 && Total(other.out, Fly) == 0
    requires forall i :: 0 <= i < c.numQp ==> me.out[i].ack == 0 && other.out[i].cqe == 0
    ensures Drained(c, me, other)
  {
    TotalSum(me.out, Outstanding, Fly, Ack);
    TotalSum(other.out, Unread, Fly, Cqe);
    TotalConst(me.out, Ack, 0);
    TotalConst(other.out, Cqe, 0);
    TotalZero(me.out, Fly);
    TotalZero(other.out, Fly);
  }

  lemma DrainedQp(c: Config, st: State, i: nat)
    requires Inv(c, st) && i < c.numQp
    requires Weight(st.client.out[i]) == Weight(st.server.out[i]) == 0
    ensures st.client.party.pending[i].Idle() || st.server.party.pending[i].Idle()
    ensures st.client.out[i].sent == st.server.out[i].sent + (if st.server.party.pending[i].Idle() then 1 else 0)
    ensures st.client.party.pending[i].Idle() ==> st.client.party.scnt >= c.iters
    ensures st.server.party.pending[i].Idle() ==> st.server.party.scnt >= c.iters
  {
    assert QpInv(c, st.client, st.server, i) && QpInv(c, st.server, st.client, i) && TokenInv(st, i);
  }

  /** The token argument: with nothing in flight and nothing to poll, both sides have met their quota. */
  lemma QuiescentIsDone(c: Config, st: State)
    requires Accepted(c) && Inv(c, st)
    requires forall i :: 0 <= i < c.numQp ==> Weight(st.client.out[i]) == Weight(st.server.out[i]) == 0
    ensures Done(c, st.client) && Done(c, st.server)
  {
    var l, m := st.client.out, st.server.out;
    TotalConst(l, Fly, 0);
    TotalConst(m, Fly, 0);
    NothingToPoll(c, c.rxClient, st.client, st.server);
    NothingToPoll(c, c.rxServer, st.server, st.client);
    forall i | 0 <= i < c.numQp
      ensures st.client.party.pending[i].Idle() || st.server.party.pending[i].Idle()
      ensures l[i].sent == m[i].sent + (if st.server.party.pending[i].Idle() then 1 else 0)
      ensures st.client.party.pending[i].Idle() ==> st.client.party.scnt >= c.iters
      ensures st.server.party.pending[i].Idle() ==> st.server.party.scnt >= c.iters
    {
      DrainedQp(c, st, i);
    }
    assert st.client.party.pending[0].Idle() || st.server.party.pending[0].Idle();
    if st.server.party.scnt < c.iters {
      TotalShift(l, m, Sent, Sent, 0);
    } else if st.client.party.scnt < c.iters {
      TotalShift(l, m, Sent, Sent, 1);
    }
  }

  /** No side is left waiting when nothing is in flight and no side in its loop has anything to poll. */
  lemma NobodyWaits(c: Config, st: State)
    requires Accepted(c) && Inv(c, st)
    requires !st.client.exited ==> !Done(c, st.client) && Drained(c, st.client, st.server)
    requires !st.server.exited ==> !Done(c, st.server) && Drained(c, st.server, st.client)
    ensures st.client.exited && st.server.exited
  {
    TotalNonneg(st.client.out, Unread);
    TotalNonneg(st.server.out, Unread);
    TotalNonneg(st.client.out, Outstanding);
    TotalNonneg(st.server.out, Outstanding);
    if !st.client.exited && !st.server.exited {
      QuiescentIsDone(c, st);
    }
  }

  /** A side still in its loop finds a completion to poll or there is none for it. */
  lemma FindPoll(c: Config, st: State, byClient: bool) returns (found: bool, s: Step)
    requires Inv(c, st)
    requires var me := if byClient then st.client else st.server; !me.exited && !Done(c, me)
    ensures found ==> Due(c, st, s)
    ensures var me, other := if byClient then st.client else st.server, if byClient then st.server else st.client;
            !found ==> forall i :: 0 <= i < c.numQp ==> me.out[i].ack == 0 && other.out[i].cqe == 0
  {
    var me, other := if byClient then st.client else st.server, if byClient then st.server else st.client;
    if i :| 0 <= i < c.numQp && me.out[i].ack > 0 {
      return true, Step(byClient, PollSend, i);
    } else if i :| 0 <= i < c.numQp && other.out[i].cqe > 0 {
      return true, Step(byClient, PollRecv, i);
    }
    return false, Step(byClient, Exit, 0);
  }

  /** With nothing in flight and no side ready to leave, some side has a completion to poll. */
  lemma SomePoll(c: Config, st: State) returns (s: Step)
    requires Accepted(c) && Inv(c, st) && !(st.client.exited && st.server.exited)
    requires Total(st.client.out, Fly) == 0 && Total(st.server.out, Fly) == 0
    requires !st.client.exited ==> !Done(c, st.client)
    requires !st.server.exited ==> !Done(c, st.server)
    ensures Due(c, st, s)
  {
    var found := false;
    if !st.client.exited {
      found, s := FindPoll(c, st, true);
      if found { return; }
      NothingToPoll(c, c.rxClient, st.client, st.server);
    }
    if !st.server.exited {
      found, s := FindPoll(c, st, false);
      if found { return; }
      NothingToPoll(c, c.rxServer, st.server, st.client);
    }
    NobodyWaits(c, st);
  }

  /** Deadlock freedom: unless both sides have left their loop, some due step is enabled. */
  lemma Progress(c: Config, st: State) returns (s: Step)
    requires Accepted(c) && Inv(c, st) && !(st.client.exited && st.server.exited)
    ensures Due(c, st, s)
  {
    if !st.client.exited && Done(c, st.client) {
      return Step(true, Exit, 0);
    } else if !st.server.exited && Done(c, st.server) {
      return Step(false, Exit, 0);
    } else if Total(st.client.out, Fly) > 0 {
      s := DeliverDue(c, st, true);
    } else if Total(st.server.out, Fly) > 0 {
      s := DeliverDue(c, st, false);
    } else {
      TotalNonneg(st.client.out, Fly);
      TotalNonneg(st.server.out, Fly);
      s := SomePoll(c, st);
    }
  }

  /** What is left to do: unposted sends weigh four, messages in flight three, completions one. */
  function Measure(c: Config, st: State): int {
    8 * (c.iters - 1 + c.numQp) + EndMeasure(st.client) + EndMeasure(st.server)
  }

  function EndMeasure(e: End): int {
    Total(e.out, Weight) - 4 * Total(e.out, Sent) + if e.exited then 0 else 1
  }

  lemma ActDecreases(c: Config, rx: nat, me: End, other: End, a: Action, qp: nat)
    requires CanAct(c, me, other, a, qp)
    ensures var (me', other') := Act(c, rx, me, other, a, qp);
            EndMeasure(me') + EndMeasure(other') < EndMeasure(me) + EndMeasure(other)
  {
    var (me', other') := Act(c, rx, me, other, a, qp);
    ActLinks(c, rx, me, other, a, qp);
    LinkTotals(me.out, qp, me'.out[qp]);
    LinkTotals(other.out, qp, other'.out[qp]);
  }

  lemma MeasureNonneg(c: Config, st: State)
    requires Inv(c, st)
    ensures Measure(c, st) >= 0
  {
    TotalNonneg(st.client.out, Weight);
    TotalNonneg(st.server.out, Weight);
  }

  lemma {:induction false} TraceBound(c: Config, trace: seq<State>, run: seq<Step>, k: nat)
    requires Accepted(c) && IsTrace(c, trace, run) && k < |trace|
    ensures k + Measure(c, trace[k]) <= 8 * (c.iters - 1) + 7 * c.numQp + 2
    ensures Measure(c, trace[k]) >= 0
  {
    if k == 0 {
      var st := Init(c);
      TotalConst(st.client.out, Sent, 1);
      TotalConst(st.server.out, Sent, 0);
      TotalConst(st.client.out, Weight, 3);
      TotalConst(st.server.out, Weight, 0);
    } else {
      TraceBound(c, trace, run, k - 1);
      TraceInv(c, trace, run, k);
      MeasureNonneg(c, trace[k]);
      var st, s := trace[k - 1], run[k - 1];
      if s.byClient {
        ActDecreases(c, c.rxClient, st.client, st.server, s.action, s.qp);
      } else {
        ActDecreases(c, c.rxServer, st.server, st.client, s.action, s.qp);
      }
    }
  }

  /** Under every interleaving the exchange ends: runs are bounded, and a run that cannot be continued by a due
      step has both sides out of their loops with counters between iters and iters + numQp - 1. */
  lemma EveryRunCompletes(c: Config, trace: seq<State>, run: seq<Step>)
    requires Accepted(c) && IsTrace(c, trace, run)
    ensures |run| <= 8 * (c.iters - 1) + 7 * c.numQp + 2
    ensures var st := trace[|run|];
            (forall s :: !Due(c, st, s)) ==>
              && st.client.exited && st.server.exited
              && c.iters <= st.client.party.scnt <= c.iters + c.numQp - 1
              && c.iters <= st.client.party.rcnt <= c.iters + c.numQp - 1
              && c.iters <= st.server.party.scnt <= c.iters + c.numQp - 1
              && c.iters <= st.server.party.rcnt <= c.iters + c.numQp - 1
  {
    TraceBound(c, trace, run, |run|);
    TraceInv(c, trace, run, |run|);
    Safety(c, trace, run, |run|);
    var st := trace[|run|];
    if !(st.client.exited && st.server.exited) {
      var s := Progress(c, st);
    }
  }
}
