/**
 The file server with several connections: all completions share one queue, a single poller takes them from the front,
 finds the connection by the request identifier and runs its handler to the end before it takes the next.
 */
module FileServer {
  import opened Common
  import opened Counting
  import opened FileTransfer

  /** A completion of a client's write: the connection its request identifier names, and the announced size. */
  datatype Wc = Wc(id: nat, size: nat)

  /** The connections, the shared completion queue, and the connection whose handler the poller called last (beyond
      all connections before the first call). A connection's own `serverCq` is unused. */
  datatype World = World(conns: seq<State>, cq: seq<Wc>, current: nat)

  /** A step of or for one connection. */
  datatype Move = Move(conn: nat, step: Step)

  predicate IsStart(jobs: seq<Job>, w: World) {
    && |w.conns| == |jobs| == w.current && w.cq == []
    && forall i :: 0 <= i < |jobs| ==> IsInit(jobs[i], w.conns[i])
  }

  /** The handler called last has done all its work. */
  predicate PollerIdle(w: World) { w.current < |w.conns| ==> w.conns[w.current].serverWork == [] }

  predicate CanMove(jobs: seq<Job>, w: World, m: Move) {
    && m.conn < |jobs| == |w.conns|
    && if m.step.ServerPoll? then
         && PollerIdle(w) && w.cq != [] && w.cq[0].id == m.conn
         && Sizes(w.conns[m.conn]) && w.cq[0].size <= BUFFER_SIZE
       else Enabled(jobs[m.conn], w.conns[m.conn], m.step)
  }

  function Moved(jobs: seq<Job>, w: World, m: Move): World
    requires CanMove(jobs, w, m)
  {
    var st := w.conns[m.conn];
    if m.step.ServerPoll? then
      var (v, work) := ServerHandle(st.server, w.cq[0].size);
      World(w.conns[m.conn := st.(server := v, serverWork := work)], w.cq[1..], m.conn)
    else
      var st' := Next(jobs[m.conn], st, m.step).(serverCq := st.serverCq);
      w.(conns := w.conns[m.conn := st'],
         cq := if m.step.DeliverWrite? then w.cq + [Wc(m.conn, st.writes[0].len)] else w.cq)
  }

  /** The worlds `trace` visits when the moves of `run` are made from a start. */
  ghost predicate IsServerTrace(jobs: seq<Job>, trace: seq<World>, run: seq<Move>) {
    && |trace| == |run| + 1
    && IsStart(jobs, trace[0])
    && forall k :: 0 <= k < |run| ==> CanMove(jobs, trace[k], run[k]) && trace[k + 1] == Moved(jobs, trace[k], run[k])
  }

  predicate GoodJobs(jobs: seq<Job>) { forall i :: 0 <= i < |jobs| ==> GoodJob(jobs[i]) }

  // ---------------------------------------------------------------------------------------------
  // What one connection sees
  // ---------------------------------------------------------------------------------------------

  /** The sizes of connection i's completions in the shared queue. */
  function Mine(cq: seq<Wc>, i: nat): seq<nat> {
    if cq == [] then [] else (if cq[0].id == i then [cq[0].size] else []) + Mine(cq[1..], i)
  }

  lemma {:induction false} MineAppend(cq: seq<Wc>, c: Wc, i: nat)
    ensures Mine(cq + [c], i) == Mine(cq, i) + if c.id == i then [c.size] else []
  {
    if cq != [] {
      MineAppend(cq[1..], c, i);
      assert (cq + [c])[1..] == cq[1..] + [c];
    } else {
      assert cq + [c] == [c] && [c][1..] == [];
    }
  }

  /** Connection i as if it had a completion queue of its own. */
  function View(w: World, i: nat): State
    requires i < |w.conns|
  {
    w.conns[i].(serverCq := Mine(w.cq, i))
  }

  lemma ViewPoll(jobs: seq<Job>, w: World, m: Move)
    requires CanMove(jobs, w, m) && m.step.ServerPoll? && w.conns[m.conn].serverWork == []
    ensures Enabled(jobs[m.conn], View(w, m.conn), ServerPoll) || |jobs[m.conn].name| >= BUFFER_SIZE
    ensures Enabled(jobs[m.conn], View(w, m.conn), ServerPoll) ==>
              View(Moved(jobs, w, m), m.conn) == Next(jobs[m.conn], View(w, m.conn), ServerPoll)
  {
    assert Mine(w.cq, m.conn) == [w.cq[0].size] + Mine(w.cq[1..], m.conn);
  }

  lemma ViewDeliver(jobs: seq<Job>, w: World, m: Move)
    requires CanMove(jobs, w, m) && m.step.DeliverWrite?
    ensures Enabled(jobs[m.conn], View(w, m.conn), DeliverWrite)
    ensures View(Moved(jobs, w, m), m.conn) == Next(jobs[m.conn], View(w, m.conn), DeliverWrite)
  {
    MineAppend(w.cq, Wc(m.conn, w.conns[m.conn].writes[0].len), m.conn);
  }

  // Steps that do not look at the completion queue.

  lemma LocalClientWork(j: Job, st: State, cq: seq<nat>)
    requires Enabled(j, st, ClientWork)
    ensures Enabled(j, st.(serverCq := cq), ClientWork)
    ensures Next(j, st.(serverCq := cq), ClientWork) == Next(j, st, ClientWork).(serverCq := cq)
  {
  }

  lemma LocalServerWork(j: Job, st: State, cq: seq<nat>)
    requires Enabled(j, st, ServerWork)
    ensures Enabled(j, st.(serverCq := cq), ServerWork)
    ensures Next(j, st.(serverCq := cq), ServerWork) == Next(j, st, ServerWork).(serverCq := cq)
  {
  }

  lemma LocalDeliverMsg(j: Job, st: State, cq: seq<nat>)
    requires Enabled(j, st, DeliverMsg)
    ensures Enabled(j, st.(serverCq := cq), DeliverMsg)
    ensures Next(j, st.(serverCq := cq), DeliverMsg) == Next(j, st, DeliverMsg).(serverCq := cq)
  {
  }

  lemma LocalClientPoll(j: Job, st: State, cq: seq<nat>, n: nat)
    requires Enabled(j, st, ClientPoll(n))
    ensures Enabled(j, st.(serverCq := cq), ClientPoll(n))
    ensures Next(j, st.(serverCq := cq), ClientPoll(n)) == Next(j, st, ClientPoll(n)).(serverCq := cq)
  {
  }

  lemma ViewLocal(jobs: seq<Job>, w: World, m: Move)
    requires CanMove(jobs, w, m) && !m.step.DeliverWrite? && !m.step.ServerPoll?
    ensures Enabled(jobs[m.conn], View(w, m.conn), m.step)
    ensures View(Moved(jobs, w, m), m.conn) == Next(jobs[m.conn], View(w, m.conn), m.step)
  {
    var j, st, cq := jobs[m.conn], w.conns[m.conn], Mine(w.cq, m.conn);
    match m.step
    case ClientWork => LocalClientWork(j, st, cq);
    case ServerWork => LocalServerWork(j, st, cq);
    case DeliverMsg => LocalDeliverMsg(j, st, cq);
    case ClientPoll(n) => LocalClientPoll(j, st, cq, n);
  }

  /** A move is a step of its connection as that connection sees it. */
  lemma ViewOwn(jobs: seq<Job>, w: World, m: Move)
    requires CanMove(jobs, w, m) && GoodJob(jobs[m.conn]) && Inv(jobs[m.conn], View(w, m.conn))
    ensures Enabled(jobs[m.conn], View(w, m.conn), m.step)
    ensures View(Moved(jobs, w, m), m.conn) == Next(jobs[m.conn], View(w, m.conn), m.step)
  {
    if m.step.ServerPoll? {
      assert Mine(w.cq, m.conn) != [];
      ViewPoll(jobs, w, m);
    } else if m.step.DeliverWrite? {
      ViewDeliver(jobs, w, m);
    } else {
      ViewLocal(jobs, w, m);
    }
  }

  /** No other connection sees it. */
  lemma ViewOther(jobs: seq<Job>, w: World, m: Move, i: nat)
    requires CanMove(jobs, w, m) && i < |w.conns| && i != m.conn
    ensures View(Moved(jobs, w, m), i) == View(w, i)
  {
    if m.step.DeliverWrite? {
      MineAppend(w.cq, Wc(m.conn, w.conns[m.conn].writes[0].len), i);
    }
  }

  // ---------------------------------------------------------------------------------------------
  // Projection
  // ---------------------------------------------------------------------------------------------

  /** The first k moves of a run as connection i sees them: its states and its own steps. */
  ghost function Projected(trace: seq<World>, run: seq<Move>, i: nat, k: nat): (seq<State>, seq<Step>)
    requires k <= |run| < |trace| && forall j :: 0 <= j < |trace| ==> i < |trace[j].conns|
  {
    if k == 0 then ([View(trace[0], i)], [])
    else
      var (states, steps) := Projected(trace, run, i, k - 1);
      if run[k - 1].conn == i then (states + [View(trace[k], i)], steps + [run[k - 1].step]) else (states, steps)
  }

  lemma {:induction false} ConnsKept(jobs: seq<Job>, trace: seq<World>, run: seq<Move>, k: nat)
    requires IsServerTrace(jobs, trace, run) && k < |trace|
    ensures |trace[k].conns| == |jobs|
  {
    if k > 0 {
      ConnsKept(jobs, trace, run, k - 1);
      assert CanMove(jobs, trace[k - 1], run[k - 1]);
    }
  }

  lemma AllConnsKept(jobs: seq<Job>, trace: seq<World>, run: seq<Move>)
    requires IsServerTrace(jobs, trace, run)
    ensures forall j :: 0 <= j < |trace| ==> |trace[j].conns| == |jobs|
  {
    forall j | 0 <= j < |trace| ensures |trace[j].conns| == |jobs| {
      ConnsKept(jobs, trace, run, j);
    }
  }

  lemma ExtendTrace(j: Job, states: seq<State>, steps: seq<Step>, s: Step)
    requires IsTrace(j, states, steps) && Enabled(j, states[|steps|], s)
    ensures IsTrace(j, states + [Next(j, states[|steps|], s)], steps + [s])
  {
  }

  /** A run of one connection that ends in st. */
  ghost predicate Reaches(j: Job, states: seq<State>, steps: seq<Step>, st: State) {
    IsTrace(j, states, steps) && states[|steps|] == st
  }

  lemma ProjectOwn(jobs: seq<Job>, w: World, m: Move, states: seq<State>, steps: seq<Step>)
    requires CanMove(jobs, w, m) && GoodJob(jobs[m.conn]) && Reaches(jobs[m.conn], states, steps, View(w, m.conn))
    ensures var st := View(Moved(jobs, w, m), m.conn);
            Reaches(jobs[m.conn], states + [st], steps + [m.step], st)
  {
    TraceInv(jobs[m.conn], states, steps, |steps|);
    ViewOwn(jobs, w, m);
    ExtendTrace(jobs[m.conn], states, steps, m.step);
  }

  lemma ProjectMove(jobs: seq<Job>, trace: seq<World>, run: seq<Move>, i: nat, k: nat,
                    states: seq<State>, steps: seq<Step>)
    requires GoodJobs(jobs) && IsServerTrace(jobs, trace, run) && i < |jobs| && k < |run|
    requires |trace[k].conns| == |trace[k + 1].conns| == |jobs|
    requires Reaches(jobs[i], states, steps, View(trace[k], i))
    ensures if run[k].conn == i then
              Reaches(jobs[i], states + [View(trace[k + 1], i)], steps + [run[k].step], View(trace[k + 1], i))
            else
              Reaches(jobs[i], states, steps, View(trace[k + 1], i))
  {
    if run[k].conn == i {
      ProjectOwn(jobs, trace[k], run[k], states, steps);
    } else {
      ViewOther(jobs, trace[k], run[k], i);
    }
  }

  /** However the connections interleave on the shared queue and the single poller, what each of them goes through is
      a run of that connection by itself. */
  lemma {:induction false} Projection(jobs: seq<Job>, trace: seq<World>, run: seq<Move>, i: nat, k: nat)
    requires GoodJobs(jobs) && IsServerTrace(jobs, trace, run) && i < |jobs| && k <= |run|
    requires forall j :: 0 <= j < |trace| ==> |trace[j].conns| == |jobs|
    ensures var (states, steps) := Projected(trace, run, i, k); Reaches(jobs[i], states, steps, View(trace[k], i))
  {
    if k == 0 {
      assert View(trace[0], i) == trace[0].conns[i];
    } else {
      Projection(jobs, trace, run, i, k - 1);
      var (states, steps) := Projected(trace, run, i, k - 1);
      ProjectMove(jobs, trace, run, i, k - 1, states, steps);
    }
  }

  ghost predicate ViewsOk(jobs: seq<Job>, w: World) {
    |w.conns| == |jobs| && forall i :: 0 <= i < |jobs| ==> Inv(jobs[i], View(w, i))
  }

  /** The single connection's invariant and theorems, for each connection of a server run. */
  lemma ServerInv(jobs: seq<Job>, trace: seq<World>, run: seq<Move>, k: nat)
    requires GoodJobs(jobs) && IsServerTrace(jobs, trace, run) && k <= |run|
    ensures ViewsOk(jobs, trace[k])
  {
    AllConnsKept(jobs, trace, run);
    forall i | 0 <= i < |jobs| ensures Inv(jobs[i], View(trace[k], i)) {
      Projection(jobs, trace, run, i, k);
      var (states, steps) := Projected(trace, run, i, k);
      TraceInv(jobs[i], states, steps, |steps|);
    }
  }

  lemma ServerContentIsPrefix(jobs: seq<Job>, trace: seq<World>, run: seq<Move>, i: nat, k: nat)
    requires GoodJobs(jobs) && IsServerTrace(jobs, trace, run) && i < |jobs| && k <= |run|
    ensures |trace[k].conns| == |jobs|
    ensures var st := View(trace[k], i);
            && st.client.pos <= |jobs[i].file|
            && st.server.file + InTransit(st) == jobs[i].file[..st.client.pos]
  {
    AllConnsKept(jobs, trace, run);
    Projection(jobs, trace, run, i, k);
    var (states, steps) := Projected(trace, run, i, k);
    ContentIsPrefix(jobs[i], states, steps, |steps|);
  }

  lemma ServerDoneMeansEqual(jobs: seq<Job>, trace: seq<World>, run: seq<Move>, i: nat, k: nat)
    requires GoodJobs(jobs) && IsServerTrace(jobs, trace, run) && i < |jobs| && k <= |run|
    ensures |trace[k].conns| == |jobs|
    ensures var st := trace[k].conns[i];
            st.disconnected || (st.clientCq > 0 && st.client.msg.id == Done) ==>
              && st.server.file == jobs[i].file
              && CStr(st.server.name, 0) == jobs[i].name[..Min(|jobs[i].name|, MAX_FILE_NAME - 1)]
  {
    AllConnsKept(jobs, trace, run);
    Projection(jobs, trace, run, i, k);
    var (states, steps) := Projected(trace, run, i, k);
    var st := trace[k].conns[i];
    if st.disconnected || (st.clientCq > 0 && st.client.msg.id == Done) {
      DoneMeansEqual(jobs[i], states, steps, |steps|);
    }
  }

  /** No move overwrites a buffer of its connection while it is needed; a write's data buffer is needed as long as its
      completion waits in the shared queue. Each client write finds a posted receive and the registered region. */
  lemma ServerBuffersAreSafe(jobs: seq<Job>, trace: seq<World>, run: seq<Move>, k: nat, m: Move)
    requires GoodJobs(jobs) && IsServerTrace(jobs, trace, run) && k <= |run| && m.conn < |jobs|
    ensures |trace[k].conns| == |jobs|
    ensures CanMove(jobs, trace[k], m) ==> !Overwrites(View(trace[k], m.conn), m.step)
    ensures trace[k].conns[m.conn].writes != [] ==> CanMove(jobs, trace[k], Move(m.conn, DeliverWrite))
  {
    AllConnsKept(jobs, trace, run);
    Projection(jobs, trace, run, m.conn, k);
    var (states, steps) := Projected(trace, run, m.conn, k);
    BuffersAreSafe(jobs[m.conn], states, steps, |steps|, m.step);
    ServerInv(jobs, trace, run, k);
    if CanMove(jobs, trace[k], m) {
      ViewOwn(jobs, trace[k], m);
    }
  }

  // ---------------------------------------------------------------------------------------------
  // Progress and termination
  // ---------------------------------------------------------------------------------------------

  predicate Addressed(jobs: seq<Job>, cq: seq<Wc>) { forall k :: 0 <= k < |cq| ==> cq[k].id < |jobs| }

  lemma {:induction false} CompletionsAddressed(jobs: seq<Job>, trace: seq<World>, run: seq<Move>, k: nat)
    requires IsServerTrace(jobs, trace, run) && k <= |run|
    ensures Addressed(jobs, trace[k].cq)
  {
    if k > 0 {
      CompletionsAddressed(jobs, trace, run, k - 1);
      assert CanMove(jobs, trace[k - 1], run[k - 1]);
    }
  }

  /** The first completion of an idle poller can be handled. */
  lemma PollFirst(jobs: seq<Job>, w: World) returns (m: Move)
    requires ViewsOk(jobs, w) && Addressed(jobs, w.cq) && w.cq != [] && PollerIdle(w)
    ensures CanMove(jobs, w, m)
  {
    var i := w.cq[0].id;
    assert Inv(jobs[i], View(w, i)) && Mine(w.cq, i)[0] == w.cq[0].size;
    m := Move(i, ServerPoll);
  }

  /** Until every client has disconnected some move is possible: one connection never blocks another for good. */
  lemma ServerProgress(jobs: seq<Job>, w: World) returns (m: Move)
    requires GoodJobs(jobs) && ViewsOk(jobs, w) && Addressed(jobs, w.cq)
    requires exists i :: 0 <= i < |jobs| && !w.conns[i].disconnected
    ensures CanMove(jobs, w, m)
  {
    if i :| 0 <= i < |jobs| && w.conns[i].serverWork != [] {
      assert Inv(jobs[i], View(w, i)) && GoodJob(jobs[i]);
      m := Move(i, ServerWork);
    } else if w.cq != [] {
      m := PollFirst(jobs, w);
    } else {
      var i :| 0 <= i < |jobs| && !w.conns[i].disconnected;
      assert Inv(jobs[i], View(w, i)) && GoodJob(jobs[i]);
      var s := Progress(jobs[i], View(w, i));
      m := Move(i, s);
    }
  }

  function Identity(x: int): int { x }

  function Measures(jobs: seq<Job>, w: World): seq<int>
    requires |w.conns| == |jobs|
  {
    seq(|jobs|, i requires 0 <= i < |jobs| => Measure(jobs[i], View(w, i)))
  }

  /** What is left to do on all connections. */
  function Left(jobs: seq<Job>, w: World): int {
    if |w.conns| == |jobs| then Total(Measures(jobs, w), Identity) else 0
  }

  function Budgets(jobs: seq<Job>): seq<int> {
    seq(|jobs|, i requires 0 <= i < |jobs| => 12 * |jobs[i].file| + 32)
  }

  lemma MoveDecreases(jobs: seq<Job>, w: World, m: Move)
    requires GoodJobs(jobs) && CanMove(jobs, w, m) && ViewsOk(jobs, w)
    ensures Left(jobs, Moved(jobs, w, m)) < Left(jobs, w)
  {
    var w' := Moved(jobs, w, m);
    var before, after := Measures(jobs, w), Measures(jobs, w');
    assert GoodJob(jobs[m.conn]);
    ViewOwn(jobs, w, m);
    StepDecreases(jobs[m.conn], View(w, m.conn), m.step);
    forall i | 0 <= i < |jobs| && i != m.conn ensures after[i] == before[i] {
      ViewOther(jobs, w, m, i);
    }
    assert after == before[m.conn := after[m.conn]];
    TotalUpdate(before, m.conn, after[m.conn], Identity);
  }

  lemma {:induction false} TotalMonotone(a: seq<int>, b: seq<int>)
    requires |a| == |b| && forall i :: 0 <= i < |a| ==> a[i] <= b[i]
    ensures Total(a, Identity) <= Total(b, Identity)
  {
    if a != [] {
      var c, d := a[1..], b[1..];
      assert forall i :: 0 <= i < |c| ==> c[i] == a[i + 1] && d[i] == b[i + 1];
      TotalMonotone(c, d);
    }
  }

  lemma StartMeasure(jobs: seq<Job>, w: World)
    requires GoodJobs(jobs) && IsStart(jobs, w)
    ensures Left(jobs, w) <= Total(Budgets(jobs), Identity)
  {
    forall i | 0 <= i < |jobs| ensures Measures(jobs, w)[i] <= Budgets(jobs)[i] {
      assert View(w, i) == w.conns[i] && GoodJob(jobs[i]);
      TraceBound(jobs[i], [View(w, i)], [], 0);
    }
    TotalMonotone(Measures(jobs, w), Budgets(jobs));
  }

  lemma ServerStepDecreases(jobs: seq<Job>, trace: seq<World>, run: seq<Move>, k: nat)
    requires GoodJobs(jobs) && IsServerTrace(jobs, trace, run) && k < |run|
    ensures Left(jobs, trace[k + 1]) < Left(jobs, trace[k])
  {
    ServerInv(jobs, trace, run, k);
    MoveDecreases(jobs, trace[k], run[k]);
  }

  lemma {:induction false} Descends(values: seq<int>, k: nat)
    requires k < |values| && forall i :: 0 <= i < |values| - 1 ==> values[i + 1] < values[i]
    ensures values[k] <= values[0] - k
  {
    if k > 0 {
      Descends(values, k - 1);
    }
  }

  lemma ServerTraceBound(jobs: seq<Job>, trace: seq<World>, run: seq<Move>)
    requires GoodJobs(jobs) && IsServerTrace(jobs, trace, run)
    ensures Left(jobs, trace[|run|]) <= Left(jobs, trace[0]) - |run|
  {
    var values := seq(|trace|, i requires 0 <= i < |trace| => Left(jobs, trace[i]));
    forall i | 0 <= i < |run| ensures values[i + 1] < values[i] {
      ServerStepDecreases(jobs, trace, run, i);
    }
    Descends(values, |run|);
  }

  lemma LeftNonneg(jobs: seq<Job>, w: World)
    requires ViewsOk(jobs, w)
    ensures Left(jobs, w) >= 0
  {
    forall i | 0 <= i < |jobs| ensures Measures(jobs, w)[i] >= 0 {
      MeasureNonneg(jobs[i], View(w, i));
    }
    TotalNonneg(Measures(jobs, w), Identity);
  }

  /** All transfers end: the length of a server run is bounded by the files' lengths, and where it cannot continue
      every client has disconnected and every file has arrived. */
  lemma AllTransfersComplete(jobs: seq<Job>, trace: seq<World>, run: seq<Move>)
    requires GoodJobs(jobs) && IsServerTrace(jobs, trace, run)
    ensures |run| <= Total(Budgets(jobs), Identity)
    ensures |trace[|run|].conns| == |jobs|
    ensures (forall m :: !CanMove(jobs, trace[|run|], m)) ==>
              forall i :: 0 <= i < |jobs| ==>
                trace[|run|].conns[i].disconnected && trace[|run|].conns[i].server.file == jobs[i].file
  {
    var w := trace[|run|];
    StartMeasure(jobs, trace[0]);
    ServerTraceBound(jobs, trace, run);
    ServerInv(jobs, trace, run, |run|);
    CompletionsAddressed(jobs, trace, run, |run|);
    LeftNonneg(jobs, w);
    if exists i :: 0 <= i < |jobs| && !w.conns[i].disconnected {
      var m := ServerProgress(jobs, w);
    } else {
      forall i | 0 <= i < |jobs| ensures w.conns[i].server.file == jobs[i].file {
        ServerDoneMeansEqual(jobs, trace, run, i, |run|);
      }
    }
  }
}
