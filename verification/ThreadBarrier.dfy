/**
 The start and finish barriers of run_threads and __thread_wrap (intf.c): threads are created one by one, wait on
 one semaphore before sending, and signal another when they leave; main releases the first and drains the second.
 */
module ThreadBarrier {
  import opened Counting

  /** A thread's program point; `took` records whether it passed the start semaphore. */
  datatype Thread = Absent | Starting | Waiting | Sending | Leaving(took: bool) | Signalled(took: bool)

  /** Main's program point; `made` counts the created threads, `failed` marks the clean-up path. */
  datatype Main =
    | Creating(made: nat)
    | Releasing(made: nat, posted: nat, failed: bool)
    | Joining(made: nat, joined: nat, failed: bool)
    | Finished(made: nat, failed: bool)

  datatype State = State(main: Main, start: nat, done: nat, threads: seq<Thread>)

  datatype Step = Create | CreateFails | MainStep | ThreadStep(t: nat) | AffinityFails(t: nat)

  function Init(n: nat): State {
    State(Creating(0), 0, 0, seq(n, _ => Absent))
  }

  predicate ThreadEnabled(st: State, t: nat) {
    && t < |st.threads|
    && match st.threads[t]
       case Absent => false
       case Waiting => st.start > 0
       case Signalled(_) => false
       case _ => true
  }

  predicate Enabled(st: State, s: Step) {
    match s
    case Create => st.main.Creating? && st.main.made < |st.threads|
    case CreateFails => st.main.Creating? && st.main.made < |st.threads|
    case MainStep =>
      (match st.main
       case Creating(made) => made >= |st.threads|
       case Releasing(_, _, _) => true
       case Joining(made, joined, _) => joined < made ==> st.done > 0
       case Finished(_, _) => false)
    case ThreadStep(t) => ThreadEnabled(st, t)
    case AffinityFails(t) => t < |st.threads| && st.threads[t].Starting?
  }

  function Next(st: State, s: Step): State
    requires Enabled(st, s)
  {
    match s
    case Create =>
      st.(main := Creating(st.main.made + 1), threads := st.threads[st.main.made := Starting])
    case CreateFails =>
      st.(main := Releasing(st.main.made, 0, true))
    case MainStep =>
      (match st.main
       case Creating(made) => st.(main := Releasing(made, 0, false))
       case Releasing(made, posted, failed) =>
         if posted < made then st.(main := Releasing(made, posted + 1, failed), start := st.start + 1)
         else st.(main := Joining(made, 0, failed))
       case Joining(made, joined, failed) =>
         if joined < made then st.(main := Joining(made, joined + 1, failed), done := st.done - 1)
         else st.(main := Finished(made, failed))
       case Finished(_, _) => st)
    case AffinityFails(t) => st.(threads := st.threads[t := Leaving(false)])
    case ThreadStep(t) =>
      (match st.threads[t]
       case Starting => st.(threads := st.threads[t := Waiting])
       case Waiting => st.(threads := st.threads[t := Sending], start := st.start - 1)
       case Sending => st.(threads := st.threads[t := Leaving(true)])
       case Leaving(took) => st.(threads := st.threads[t := Signalled(took)], done := st.done + 1)
       case _ => st)
  }

  /** The states `trace` visits when the steps of `run` are taken from the start with n threads. */
  ghost predicate IsTrace(n: nat, trace: seq<State>, run: seq<Step>) {
    && |trace| == |run| + 1
    && trace[0] == Init(n)
    && forall i :: 0 <= i < |run| ==> Enabled(trace[i], run[i]) && trace[i + 1] == Next(trace[i], run[i])
  }

  function Took(t: Thread): int {
    match t
    case Sending => 1
    case Leaving(took) => if took then 1 else 0
    case Signalled(took) => if took then 1 else 0
    case _ => 0
  }

  function IsSignalled(t: Thread): int { if t.Signalled? then 1 else 0 }

  function Posted(m: Main): nat {
    match m
    case Creating(_) => 0
    case Releasing(_, posted, _) => posted
    case _ => m.made
  }

  function Joined(m: Main): nat {
    match m
    case Joining(_, joined, _) => joined
    case Finished(made, _) => made
    case _ => 0
  }

  ghost predicate Inv(n: nat, st: State) {
    && |st.threads| == n && st.main.made <= n
    && Posted(st.main) <= st.main.made && Joined(st.main) <= st.main.made
    && (!st.main.Creating? && !st.main.failed ==> st.main.made == n)
    && (forall t :: 0 <= t < n ==> (st.threads[t].Absent? <==> t >= st.main.made))
    && st.start + Total(st.threads, Took) == Posted(st.main)
    && st.done + Joined(st.main) == Total(st.threads, IsSignalled)
  }

  lemma MainInv(n: nat, st: State, s: Step)
    requires Inv(n, st) && Enabled(st, s) && (s.MainStep? || s.CreateFails?)
    ensures Inv(n, Next(st, s))
  {
  }

  lemma CreateInv(n: nat, st: State)
    requires Inv(n, st) && Enabled(st, Create)
    ensures Inv(n, Next(st, Create))
  {
    TotalUpdate(st.threads, st.main.made, Starting, Took);
    TotalUpdate(st.threads, st.main.made, Starting, IsSignalled);
  }

  lemma ThreadInv(n: nat, st: State, s: Step)
    requires Inv(n, st) && Enabled(st, s) && (s.ThreadStep? || s.AffinityFails?)
    ensures Inv(n, Next(st, s))
  {
    var st' := Next(st, s);
    var th := st'.threads[s.t];
    assert st'.threads == st.threads[s.t := th];
    TotalUpdate(st.threads, s.t, th, Took);
    TotalUpdate(st.threads, s.t, th, IsSignalled);
  }

  lemma StepInv(n: nat, st: State, s: Step)
    requires Inv(n, st) && Enabled(st, s)
    ensures Inv(n, Next(st, s))
  {
    match s
    case Create => CreateInv(n, st);
    case CreateFails => MainInv(n, st, s);
    case MainStep => MainInv(n, st, s);
    case ThreadStep(_) => ThreadInv(n, st, s);
    case AffinityFails(_) => ThreadInv(n, st, s);
  }

  lemma {:induction false} TraceInv(n: nat, trace: seq<State>, run: seq<Step>, k: nat)
    requires IsTrace(n, trace, run) && k < |trace|
    ensures Inv(n, trace[k])
  {
    if k == 0 {
      TotalConst(Init(n).threads, Took, 0);
      TotalConst(Init(n).threads, IsSignalled, 0);
    } else {
      TraceInv(n, trace, run, k - 1);
      StepInv(n, trace[k - 1], run[k - 1]);
    }
  }

  /** The number of elements of a prefix counted by an indicator bounds the sum, with equality only if all count. */
  lemma {:induction false} FullCount(s: seq<Thread>, m: nat, f: Thread -> int)
    requires m <= |s|
    requires forall i :: 0 <= i < |s| ==> 0 <= f(s[i]) <= if i < m then 1 else 0
    ensures Total(s, f) <= m
    ensures Total(s, f) == m ==> forall i :: 0 <= i < m ==> f(s[i]) == 1
  {
    if s != [] {
      var t := s[1..];
      assert forall i :: 0 <= i < |t| ==> t[i] == s[i + 1];
      FullCount(t, if m > 0 then m - 1 else 0, f);
      assert Total(s, f) == m ==> forall i :: 1 <= i < m ==> f(s[i]) == f(t[i - 1]);
    }
  }

  /** No thread is past the start barrier while threads are still being created, and main is past its last wait
      only after every created thread has signalled; both also on the path of a failed creation. */
  lemma BarrierSafety(n: nat, trace: seq<State>, run: seq<Step>, k: nat)
    requires IsTrace(n, trace, run) && k < |trace|
    ensures var st := trace[k];
            && |st.threads| == n
            && (st.main.Creating? ==> forall t :: 0 <= t < n ==> Took(st.threads[t]) == 0)
            && (Joined(st.main) == st.main.made && !st.main.Creating? && !st.main.Releasing? ==>
                  forall t :: 0 <= t < n ==>
                    if t < st.main.made then st.threads[t].Signalled? else st.threads[t].Absent?)
  {
    TraceInv(n, trace, run, k);
    var st := trace[k];
    if st.main.Creating? {
      TotalNonneg(st.threads, Took);
      TotalZero(st.threads, Took);
    }
    FullCount(st.threads, st.main.made, IsSignalled);
    if Joined(st.main) == st.main.made {
      assert Total(st.threads, IsSignalled) == st.main.made;
      forall t | 0 <= t < st.main.made ensures st.threads[t].Signalled? {
        assert IsSignalled(st.threads[t]) == 1;
      }
    }
  }

  /** No reachable state deadlocks: a step is enabled until main has finished and every created thread has signalled. */
  lemma Progress(n: nat, st: State) returns (s: Step)
    requires Inv(n, st)
    requires !st.main.Finished? || exists t :: 0 <= t < n && !st.threads[t].Absent? && !st.threads[t].Signalled?
    ensures Enabled(st, s)
  {
    if Enabled(st, MainStep) {
      return MainStep;
    } else if Enabled(st, Create) {
      return Create;
    }
    FullCount(st.threads, st.main.made, IsSignalled);
    var t := SomeActive(n, st);
    if st.threads[t].Waiting? {
      FullCount(st.threads, st.main.made, Took);
      assert Took(st.threads[t]) == 0;
    }
    return ThreadStep(t);
  }

  lemma SomeActive(n: nat, st: State) returns (t: nat)
    requires Inv(n, st)
    requires Total(st.threads, IsSignalled) < st.main.made
          || exists t :: 0 <= t < n && !st.threads[t].Absent? && !st.threads[t].Signalled?
    ensures t < n && !st.threads[t].Absent? && !st.threads[t].Signalled?
  {
    if forall t :: 0 <= t < st.main.made ==> IsSignalled(st.threads[t]) == 1 {
      AllCounted(st.threads, st.main.made, IsSignalled);
    }
    var u :| 0 <= u < n && !st.threads[u].Absent? && !st.threads[u].Signalled?;
    t := u;
  }

  lemma {:induction false} AllCounted(s: seq<Thread>, m: nat, f: Thread -> int)
    requires m <= |s|
    requires forall i :: 0 <= i < |s| ==> f(s[i]) >= 0
    requires forall i :: 0 <= i < m ==> f(s[i]) == 1
    ensures Total(s, f) >= m
  {
    if m == 0 {
      TotalNonneg(s, f);
    } else {
      var t := s[1..];
      assert forall i :: 0 <= i < |t| ==> t[i] == s[i + 1];
      AllCounted(t, m - 1, f);
    }
  }

  function Rank(t: Thread): int {
    match t
    case Absent => 5
    case Starting => 4
    case Waiting => 3
    case Sending => 2
    case Leaving(_) => 1
    case Signalled(_) => 0
  }

  function MainRank(n: nat, m: Main): int {
    match m
    case Creating(made) => 3 * n - made + 3
    case Releasing(made, posted, _) => 2 * made - posted + 2
    case Joining(made, joined, _) => made - joined + 1
    case Finished(_, _) => 0
  }

  function Measure(n: nat, st: State): int { MainRank(n, st.main) + Total(st.threads, Rank) }

  lemma StepDecreases(n: nat, st: State, s: Step)
    requires Inv(n, st) && Enabled(st, s)
    ensures Measure(n, Next(st, s)) < Measure(n, st)
  {
    var st' := Next(st, s);
    if s.Create? || s.ThreadStep? || s.AffinityFails? {
      var t := if s.Create? then st.main.made else s.t;
      TotalUpdate(st.threads, t, st'.threads[t], Rank);
      assert st'.threads == st.threads[t := st'.threads[t]];
    }
  }

  lemma {:induction false} TraceBound(n: nat, trace: seq<State>, run: seq<Step>, k: nat)
    requires IsTrace(n, trace, run) && k < |trace|
    ensures Measure(n, trace[k]) <= 8 * n + 3 - k
  {
    if k == 0 {
      TotalConst(Init(n).threads, Rank, 5);
    } else {
      TraceBound(n, trace, run, k - 1);
      TraceInv(n, trace, run, k - 1);
      StepDecreases(n, trace[k - 1], run[k - 1]);
    }
  }

  /** Every run is finite, and where it stops main has finished and every created thread has signalled. */
  lemma EveryRunJoins(n: nat, trace: seq<State>, run: seq<Step>)
    requires IsTrace(n, trace, run)
    ensures |run| <= 8 * n + 3
    ensures (forall s :: !Enabled(trace[|run|], s)) ==>
              && trace[|run|].main.Finished?
              && forall th :: th in trace[|run|].threads ==> th.Absent? || th.Signalled?
  {
    TraceBound(n, trace, run, |run|);
    TraceInv(n, trace, run, |run|);
    var st := trace[|run|];
    TotalNonneg(st.threads, Rank);
    if !st.main.Finished? || exists t :: 0 <= t < n && !st.threads[t].Absent? && !st.threads[t].Signalled? {
      var s := Progress(n, st);
    }
  }

  // ---------------------------------------------------------------------------------------------
  // After a failed creation
  // ---------------------------------------------------------------------------------------------

  /** Creation has failed after m threads were created. */
  predicate CreationFailed(st: State, m: nat) { !st.main.Creating? && st.main.failed && st.main.made == m }

  /** The first k of m created threads are sending, the others are at their start. */
  predicate Lineup(st: State, m: nat, k: nat) {
    forall t :: 0 <= t < |st.threads| ==>
      st.threads[t] == if t < k then Sending else if t < m then Starting else Absent
  }

  lemma Take(n: nat, trace: seq<State>, run: seq<Step>, s: Step) returns (trace': seq<State>, run': seq<Step>)
    requires IsTrace(n, trace, run) && Enabled(trace[|run|], s)
    ensures IsTrace(n, trace', run') && |run'| == |run| + 1 && trace'[|run'|] == Next(trace[|run|], s)
  {
    trace', run' := trace + [Next(trace[|run|], s)], run + [s];
  }

  lemma {:induction false} RunToCreated(n: nat, m: nat) returns (trace: seq<State>, run: seq<Step>)
    requires m <= n
    ensures IsTrace(n, trace, run)
    ensures var st := trace[|run|];
            st.main == Creating(m) && st.start == 0 && |st.threads| == n && Lineup(st, m, 0)
  {
    if m == 0 {
      trace, run := [Init(n)], [];
    } else {
      trace, run := RunToCreated(n, m - 1);
      trace, run := Take(n, trace, run, Create);
    }
  }

  lemma {:induction false} RunToReleased(n: nat, m: nat, posted: nat) returns (trace: seq<State>, run: seq<Step>)
    requires posted <= m < n
    ensures IsTrace(n, trace, run)
    ensures var st := trace[|run|];
            st.main == Releasing(m, posted, true) && st.start == posted && |st.threads| == n && Lineup(st, m, 0)
  {
    if posted == 0 {
      trace, run := RunToCreated(n, m);
      trace, run := Take(n, trace, run, CreateFails);
    } else {
      trace, run := RunToReleased(n, m, posted - 1);
      trace, run := Take(n, trace, run, MainStep);
    }
  }

  /** Creation fails after m threads, and the first k of them send all the same. */
  lemma {:induction false} RunToSending(n: nat, m: nat, k: nat) returns (trace: seq<State>, run: seq<Step>)
    requires k <= m < n
    ensures IsTrace(n, trace, run)
    ensures var st := trace[|run|];
            CreationFailed(st, m) && st.start == m - k && |st.threads| == n && Lineup(st, m, k)
  {
    if k == 0 {
      trace, run := RunToReleased(n, m, m);
    } else {
      trace, run := RunToSending(n, m, k - 1);
      trace, run := Take(n, trace, run, ThreadStep(k - 1));
      trace, run := Take(n, trace, run, ThreadStep(k - 1));
    }
  }

  /** Some run in which creation failed after m threads has a number of threads sending. */
  ghost predicate SendAfterFailure(n: nat, m: nat, count: nat) {
    exists trace: seq<State>, run: seq<Step> ::
      IsTrace(n, trace, run) && CreationFailed(trace[|run|], m) && Total(trace[|run|].threads, Active) == count
  }

  function Active(t: Thread): int { if t.Sending? then 1 else 0 }

  lemma {:induction false} LineupCount(threads: seq<Thread>, k: nat)
    requires k <= |threads| && forall t :: 0 <= t < |threads| ==> (threads[t].Sending? <==> t < k)
    ensures Total(threads, Active) == k
  {
    if threads != [] {
      var rest := threads[1..];
      assert forall t :: 0 <= t < |rest| ==> rest[t] == threads[t + 1];
      LineupCount(rest, if k > 0 then k - 1 else 0);
    }
  }

  lemma ActiveIsCreated(n: nat, st: State)
    requires Inv(n, st)
    ensures Total(st.threads, Active) <= st.main.made
  {
    FullCount(st.threads, st.main.made, Active);
  }

  /** A failed creation does not keep threads from sending: after m of n threads were created, `count` of them can be
      sending at once if and only if count is at most m. In particular some thread sends if and only if m >= 1. */
  lemma SendAfterFailureIff(n: nat, m: nat, count: nat)
    requires m < n
    ensures SendAfterFailure(n, m, count) <==> count <= m
  {
    if count <= m {
      var trace, run := RunToSending(n, m, count);
      LineupCount(trace[|run|].threads, count);
      assert IsTrace(n, trace, run);
    }
    forall trace: seq<State>, run: seq<Step> | IsTrace(n, trace, run) && CreationFailed(trace[|run|], m)
      ensures Total(trace[|run|].threads, Active) <= m
    {
      TraceInv(n, trace, run, |run|);
      ActiveIsCreated(n, trace[|run|]);
    }
  }
}
