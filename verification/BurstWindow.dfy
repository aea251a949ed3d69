/**
 The burst engine of intf.c: a credit counter over a ring of prepared work requests, filled in bursts and
 drained by polls that return at most one burst each.
 */
module BurstWindow {
  import opened Common
  import opened Modular

  // ---------------------------------------------------------------------------------------------
  // Settings
  // ---------------------------------------------------------------------------------------------

  datatype Config = Config(burst: int, maxWrs: int, numMsgs: int)

  datatype Verdict = Ok | TooSmall | NotMultiple | DivisionByZero

  /** The queue checks of the input parser, in the order it makes them, for a burst option in 0..65535. */
  function CheckQueue(burst: nat, maxWrs: int): Verdict {
    if burst * 2 >= maxWrs then TooSmall
    else if burst == 0 then DivisionByZero
    else if maxWrs % burst != 0 then NotMultiple
    else Ok
  }

  predicate Accepted(c: Config) {
    c.burst >= 0 && CheckQueue(c.burst, c.maxWrs) == Ok
  }

  /** What the checks let through: a ring of a whole number of bursts, more than two of them. */
  lemma AcceptedIff(c: Config)
    ensures Accepted(c) <==> 0 < c.burst && 2 * c.burst < c.maxWrs && c.maxWrs % c.burst == 0
  {
  }

  /** The verdict in each case; only an empty queue option shadows the division by a zero burst. */
  lemma CheckQueueVerdict(burst: nat, maxWrs: int)
    ensures CheckQueue(burst, maxWrs) == TooSmall <==> maxWrs <= 2 * burst
    ensures CheckQueue(burst, maxWrs) == DivisionByZero <==> burst == 0 < maxWrs
    ensures CheckQueue(burst, maxWrs) == NotMultiple <==> 0 < 2 * burst < maxWrs && maxWrs % burst != 0
  {
  }

  /** The credit the engine starts with. */
  function Credit(c: Config): int { Min(c.maxWrs, c.numMsgs) }

  function RoundUp(n: int, b: int): int
    requires b > 0
  {
    if n <= 0 then 0 else b * ((n + b - 1) / b)
  }

  // ---------------------------------------------------------------------------------------------
  // The loop as steps
  // ---------------------------------------------------------------------------------------------

  datatype Pc = Fill | Poll | Returned(code: int)

  /** msg and free_wrs of the source, plus the number of completions polled so far. */
  datatype Window = Window(msg: int, free: int, consumed: int, pc: Pc)

  function Start(c: Config): Window {
    Window(0, Credit(c), 0, if 0 < c.numMsgs then Fill else Returned(0))
  }

  /** One test of the inner fill loop: post a burst, or fall through to polling. */
  function FillStep(c: Config, w: Window): Window {
    if w.free >= c.burst then w.(msg := w.msg + c.burst, free := w.free - c.burst) else w.(pc := Poll)
  }

  /** An answer of the completion queue: a count (negative is an error) and the verdict of the data check. */
  datatype Polled = Polled(count: int, valid: bool)

  function PollStep(c: Config, w: Window, p: Polled): Window {
    if p.count < 0 then w.(pc := Returned(1))
    else
      var v := w.(free := w.free + p.count, consumed := w.consumed + p.count);
      if p.count > 0 && !p.valid then v.(pc := Returned(1))
      else if v.msg < c.numMsgs then (if v.free < c.burst then v else v.(pc := Fill))
      else v.(pc := Returned(0))
  }

  /** The loop run on a script of poll answers, until it returns or the script is used up. */
  function Run(c: Config, w: Window, polls: seq<Polled>): Window
    requires c.burst > 0
    decreases |polls|, if w.pc.Fill? then 1 + (if w.free > 0 then w.free else 0) else 0
  {
    match w.pc
    case Returned(_) => w
    case Fill => Run(c, FillStep(c, w), polls)
    case Poll => if polls == [] then w else Run(c, PollStep(c, w, polls[0]), polls[1..])
  }

  /** A burst handed to the device: the ring slot of its first request, and the completions consumed by then. */
  datatype Posting = Posting(slot: int, consumed: int)

  /** The bursts posted from w on. */
  function Posts(c: Config, w: Window, polls: seq<Polled>): seq<Posting>
    requires c.burst > 0 && c.maxWrs > 0
    decreases |polls|, if w.pc.Fill? then 1 + (if w.free > 0 then w.free else 0) else 0
  {
    match w.pc
    case Returned(_) => []
    case Fill =>
      (if w.free >= c.burst then [Posting(w.msg % c.maxWrs, w.consumed)] else []) + Posts(c, FillStep(c, w), polls)
    case Poll => if polls == [] then [] else Posts(c, PollStep(c, w, polls[0]), polls[1..])
  }

  /** The i-th burst starts where the i bursts before it end, modulo the ring. */
  predicate InRingOrder(c: Config, posted: seq<Posting>)
    requires c.maxWrs > 0
  {
    forall i :: 0 <= i < |posted| ==> posted[i].slot == (c.burst * i) % c.maxWrs
  }

  /** A burst's slots stay inside the ring, and none is that of a message posted before and not consumed by then. */
  predicate Unshared(c: Config, p: Posting, msg: int)
    requires c.maxWrs > 0
  {
    && 0 <= p.slot && p.slot + c.burst <= c.maxWrs
    && forall m :: p.consumed <= m < msg ==> !(p.slot <= Slot(c, m) < p.slot + c.burst)
  }

  /** The nested loops of send_recv, with the completion queue's answers as a script. */
  method SendRecv(c: Config, polls: seq<Polled>) returns (w: Window, posted: seq<Posting>)
    requires c.burst > 0 && c.maxWrs > 0
    ensures w == Run(c, Start(c), polls)
    ensures c.burst * |posted| == w.msg
    ensures InRingOrder(c, posted)
    ensures Accepted(c) && HonestRun(c, Start(c), polls) ==>
              forall i :: 0 <= i < |posted| ==> Unshared(c, posted[i], c.burst * i)
  {
    w, posted := SendRecvLoop(c, polls);
    PostsShape(c, Start(c), polls);
    if Accepted(c) && HonestRun(c, Start(c), polls) {
      StartInv(c);
      PostsUnshared(c, Start(c), polls);
    }
  }

  method SendRecvLoop(c: Config, polls: seq<Polled>) returns (w: Window, posted: seq<Posting>)
    requires c.burst > 0 && c.maxWrs > 0
    ensures w == Run(c, Start(c), polls) && posted == Posts(c, Start(c), polls)
  {
    var msg, free, consumed := 0, Min(c.maxWrs, c.numMsgs), 0;
    var k := 0;
    posted := [];
    while msg < c.numMsgs
      invariant 0 <= k <= |polls|
      invariant LoopInv(c, polls, posted,
        Window(msg, free, consumed, if msg < c.numMsgs then Fill else Returned(0)), polls[k..])
      decreases |polls| - k
    {
      ghost var before := k;
      while free >= c.burst
        invariant LoopInv(c, polls, posted, Window(msg, free, consumed, Fill), polls[k..])
        decreases free
      {
        LoopPost(c, polls, posted, Window(msg, free, consumed, Fill), polls[k..]);
        posted := posted + [Posting(msg % c.maxWrs, consumed)];
        msg := msg + c.burst;
        free := free - c.burst;
      }
      var again := true;
      while again
        invariant before <= k <= |polls|
        invariant again || before < k
        invariant LoopInv(c, polls, posted, Window(msg, free, consumed,
          if again then Poll else if msg < c.numMsgs then Fill else Returned(0)), polls[k..])
        decreases |polls| - k, again
      {
        if k == |polls| {
          LoopEnd(c, polls, posted, Window(msg, free, consumed, Poll), polls[k..]);
          return Window(msg, free, consumed, Poll), posted;
        }
        var p := polls[k];
        LoopPoll(c, polls, posted, Window(msg, free, consumed, Poll), k);
        k := k + 1;
        if p.count > 0 {
          free := free + p.count;
          consumed := consumed + p.count;
          if !p.valid {
            LoopEnd(c, polls, posted, Window(msg, free, consumed, Returned(1)), polls[k..]);
            return Window(msg, free, consumed, Returned(1)), posted;
          }
        } else if p.count < 0 {
          LoopEnd(c, polls, posted, Window(msg, free, consumed, Returned(1)), polls[k..]);
          return Window(msg, free, consumed, Returned(1)), posted;
        }
        again := free < c.burst && msg < c.numMsgs;
      }
    }
    w := Window(msg, free, consumed, Returned(0));
    LoopEnd(c, polls, posted, w, polls[k..]);
  }

  /** What has been done and what is left to do from w make up the whole run. */
  ghost predicate LoopInv(c: Config, polls: seq<Polled>, posted: seq<Posting>, w: Window, rest: seq<Polled>)
    requires c.burst > 0 && c.maxWrs > 0
  {
    Run(c, Start(c), polls) == Run(c, w, rest) && Posts(c, Start(c), polls) == posted + Posts(c, w, rest)
  }

  lemma LoopPost(c: Config, polls: seq<Polled>, posted: seq<Posting>, w: Window, rest: seq<Polled>)
    requires c.burst > 0 && c.maxWrs > 0 && w.pc.Fill? && w.free >= c.burst && LoopInv(c, polls, posted, w, rest)
    ensures LoopInv(c, polls, posted + [Posting(w.msg % c.maxWrs, w.consumed)], FillStep(c, w), rest)
  {
  }

  lemma LoopPoll(c: Config, polls: seq<Polled>, posted: seq<Posting>, w: Window, k: nat)
    requires c.burst > 0 && c.maxWrs > 0 && w.pc.Poll? && k < |polls| && LoopInv(c, polls, posted, w, polls[k..])
    ensures LoopInv(c, polls, posted, PollStep(c, w, polls[k]), polls[k + 1..])
  {
    assert polls[k..][1..] == polls[k + 1..];
  }

  lemma LoopEnd(c: Config, polls: seq<Polled>, posted: seq<Posting>, w: Window, rest: seq<Polled>)
    requires c.burst > 0 && c.maxWrs > 0 && LoopInv(c, polls, posted, w, rest)
    requires w.pc.Returned? || (w.pc.Poll? && rest == [])
    ensures w == Run(c, Start(c), polls) && posted == Posts(c, Start(c), polls)
  {
    assert posted + [] == posted;
  }

  // ---------------------------------------------------------------------------------------------
  // The window invariant
  // ---------------------------------------------------------------------------------------------

  lemma RoundUpFacts(n: int, b: int)
    requires b > 0
    ensures RoundUp(n, b) % b == 0 && RoundUp(n, b) >= 0
    ensures n > 0 ==> n <= RoundUp(n, b) < n + b
  {
    if n > 0 {
      ModOf(RoundUp(n, b), b, (n + b - 1) / b, 0);
    }
  }

  /** Settings whose loop can run dry-free: at least one burst fits the message count, or there is nothing to do. */
  predicate Feasible(c: Config) { Accepted(c) && (c.numMsgs <= 0 || c.numMsgs >= c.burst) }

  ghost predicate WindowInv(c: Config, w: Window)
    requires Accepted(c)
  {
    && w.free + (w.msg - w.consumed) == Credit(c)
    && 0 <= w.consumed <= w.msg && (c.numMsgs > 0 ==> 0 <= w.free)
    && w.msg % c.burst == 0
    && w.msg <= RoundUp(c.numMsgs, c.burst)
    && match w.pc
       case Fill =>
         && c.numMsgs > 0 && (w.free >= c.burst ==> w.msg < c.numMsgs)
         && (w.consumed > 0 ==> w.free < 2 * c.burst)
       case Poll => c.numMsgs > 0 && w.free < c.burst
       case Returned(code) => code == 0 && w.msg == RoundUp(c.numMsgs, c.burst) && w.free < 2 * c.burst
  }

  /** A poll returns at most one burst, and no more than what is outstanding. */
  ghost predicate Honest(c: Config, w: Window, p: Polled) {
    0 <= p.count <= Min(c.burst, w.msg - w.consumed) && p.valid
  }

  lemma StartInv(c: Config)
    requires Accepted(c)
    ensures WindowInv(c, Start(c))
  {
    RoundUpFacts(c.numMsgs, c.burst);
  }

  lemma FillStepInv(c: Config, w: Window)
    requires Accepted(c) && WindowInv(c, w) && w.pc.Fill?
    ensures WindowInv(c, FillStep(c, w))
  {
    if w.free >= c.burst {
      RoundUpFacts(c.numMsgs, c.burst);
      MultipleStep(w.msg, c.burst);
      MultipleGap(w.msg, RoundUp(c.numMsgs, c.burst), c.burst);
    }
  }

  lemma PollStepInv(c: Config, w: Window, p: Polled)
    requires Accepted(c) && WindowInv(c, w) && w.pc.Poll? && Honest(c, w, p)
    ensures WindowInv(c, PollStep(c, w, p))
  {
    RoundUpFacts(c.numMsgs, c.burst);
    if w.msg >= c.numMsgs && w.msg < RoundUp(c.numMsgs, c.burst) {
      MultipleGap(w.msg, RoundUp(c.numMsgs, c.burst), c.burst);
    }
  }

  /** The ring slot of message m. */
  function Slot(c: Config, m: int): nat
    requires c.maxWrs > 0
  {
    m % c.maxWrs
  }

  /** Each burst stays inside the ring, and none of its slots belongs to an outstanding request. */
  lemma BurstIsSafe(c: Config, w: Window)
    requires Accepted(c) && WindowInv(c, w) && w.pc.Fill? && w.free >= c.burst
    ensures Slot(c, w.msg) + c.burst <= c.maxWrs
    ensures forall m :: w.msg <= m < w.msg + c.burst ==> Slot(c, m) == Slot(c, w.msg) + (m - w.msg)
    ensures forall m, j :: w.msg <= m < w.msg + c.burst && w.consumed <= j < w.msg ==> Slot(c, m) != Slot(c, j)
  {
    ModModMultiple(w.msg, c.maxWrs, c.burst);
    MultipleGap(Slot(c, w.msg), c.maxWrs, c.burst);
    forall m | w.msg <= m < w.msg + c.burst ensures Slot(c, m) == Slot(c, w.msg) + (m - w.msg) {
      ModStep(w.msg, c.maxWrs, m - w.msg);
    }
    forall m, j | w.msg <= m < w.msg + c.burst && w.consumed <= j < w.msg ensures Slot(c, m) != Slot(c, j) {
      ModDistinct(j, m, c.maxWrs);
    }
  }

  /** Polls of a script are honest all along the run. */
  ghost predicate HonestRun(c: Config, w: Window, polls: seq<Polled>)
    requires c.burst > 0
    decreases |polls|, if w.pc.Fill? then 1 + (if w.free > 0 then w.free else 0) else 0
  {
    match w.pc
    case Returned(_) => true
    case Fill => HonestRun(c, FillStep(c, w), polls)
    case Poll => polls == [] || (Honest(c, w, polls[0]) && HonestRun(c, PollStep(c, w, polls[0]), polls[1..]))
  }

  /** A burst posted within the window shares no slot. */
  lemma WindowUnshared(c: Config, p: Posting, msg: int)
    requires Accepted(c) && msg >= 0 && msg % c.burst == 0 && p.slot == msg % c.maxWrs
    requires 0 <= p.consumed <= msg && msg + c.burst - p.consumed <= c.maxWrs
    ensures Unshared(c, p, msg)
  {
    ModModMultiple(msg, c.maxWrs, c.burst);
    MultipleGap(p.slot, c.maxWrs, c.burst);
    forall m | p.consumed <= m < msg ensures !(p.slot <= Slot(c, m) < p.slot + c.burst) {
      var t := Slot(c, m) - p.slot;
      if 0 <= t < c.burst {
        ModStep(msg, c.maxWrs, t);
        ModDistinct(m, msg + t, c.maxWrs);
      }
    }
  }

  lemma {:induction false} PostsShape(c: Config, w: Window, polls: seq<Polled>)
    requires c.burst > 0 && c.maxWrs > 0
    ensures c.burst * |Posts(c, w, polls)| == Run(c, w, polls).msg - w.msg
    ensures forall i :: 0 <= i < |Posts(c, w, polls)| ==>
              Posts(c, w, polls)[i].slot == (w.msg + c.burst * i) % c.maxWrs
    decreases |polls|, if w.pc.Fill? then 1 + (if w.free > 0 then w.free else 0) else 0
  {
    if w.pc.Fill? {
      var rest := Posts(c, FillStep(c, w), polls);
      PostsShape(c, FillStep(c, w), polls);
      if w.free >= c.burst {
        assert c.burst * (|rest| + 1) == c.burst * |rest| + c.burst;
        forall i | 0 < i <= |rest| ensures Posts(c, w, polls)[i].slot == (w.msg + c.burst * i) % c.maxWrs {
          assert c.burst * (i - 1) + c.burst == c.burst * i;
        }
      }
    } else if w.pc.Poll? && polls != [] {
      PostsShape(c, PollStep(c, w, polls[0]), polls[1..]);
    }
  }

  lemma {:induction false} PostsUnshared(c: Config, w: Window, polls: seq<Polled>)
    requires Accepted(c) && WindowInv(c, w) && HonestRun(c, w, polls)
    ensures forall i :: 0 <= i < |Posts(c, w, polls)| ==> Unshared(c, Posts(c, w, polls)[i], w.msg + c.burst * i)
    decreases |polls|, if w.pc.Fill? then 1 + (if w.free > 0 then w.free else 0) else 0
  {
    if w.pc.Fill? {
      FillStepInv(c, w);
      var rest := Posts(c, FillStep(c, w), polls);
      PostsUnshared(c, FillStep(c, w), polls);
      if w.free >= c.burst {
        WindowUnshared(c, Posting(w.msg % c.maxWrs, w.consumed), w.msg);
        forall i | 0 < i <= |rest| ensures Unshared(c, Posts(c, w, polls)[i], w.msg + c.burst * i) {
          assert c.burst * (i - 1) + c.burst == c.burst * i;
          assert Posts(c, w, polls)[i] == rest[i - 1];
        }
      }
    } else if w.pc.Poll? && polls != [] {
      PollStepInv(c, w, polls[0]);
      PostsUnshared(c, PollStep(c, w, polls[0]), polls[1..]);
    }
  }

  /** Whatever the batching, the invariant holds at the end of every script; in particular the loop returns 0 with
      the message count rounded up to whole bursts, or waits for a completion. */
  lemma {:induction false} RunInv(c: Config, w: Window, polls: seq<Polled>)
    requires Accepted(c) && WindowInv(c, w) && HonestRun(c, w, polls)
    ensures WindowInv(c, Run(c, w, polls)) && !Run(c, w, polls).pc.Fill?
    decreases |polls|, if w.pc.Fill? then 1 + (if w.free > 0 then w.free else 0) else 0
  {
    match w.pc
    case Returned(_) =>
    case Fill =>
      FillStepInv(c, w);
      RunInv(c, FillStep(c, w), polls);
    case Poll =>
      if polls != [] {
        PollStepInv(c, w, polls[0]);
        RunInv(c, PollStep(c, w, polls[0]), polls[1..]);
      }
  }

  /** An answer that ends the call: a failed poll, or completions whose data check fails. */
  predicate Bad(p: Polled) { p.count < 0 || (p.count > 0 && !p.valid) }

  lemma {:induction false} RunStopsAtPoll(c: Config, w: Window)
    requires c.burst > 0
    ensures Run(c, w, []).pc == if w.pc.Returned? then w.pc else Poll
    decreases if w.pc.Fill? then 1 + (if w.free > 0 then w.free else 0) else 0
  {
    if w.pc.Fill? {
      RunStopsAtPoll(c, FillStep(c, w));
    }
  }

  /** A script may be run in two parts. */
  lemma {:induction false} RunAppend(c: Config, w: Window, a: seq<Polled>, b: seq<Polled>)
    requires c.burst > 0
    ensures Run(c, w, a + b) == Run(c, Run(c, w, a), b)
    decreases |a|, if w.pc.Fill? then 1 + (if w.free > 0 then w.free else 0) else 0
  {
    if w.pc.Fill? {
      RunAppend(c, FillStep(c, w), a, b);
    } else if w.pc.Poll? {
      if a == [] {
        assert a + b == b;
      } else {
        assert (a + b)[1..] == a[1..] + b;
        RunAppend(c, PollStep(c, w, a[0]), a[1..], b);
      }
    }
  }

  /** The answer after the first k is polled and ends the call. */
  ghost predicate FailsAt(c: Config, polls: seq<Polled>, k: nat)
    requires c.burst > 0
  {
    k < |polls| && Run(c, Start(c), polls[..k]).pc == Poll && Bad(polls[k])
  }

  lemma FailEndsCall(c: Config, polls: seq<Polled>, k: nat)
    requires c.burst > 0 && FailsAt(c, polls, k)
    ensures Run(c, Start(c), polls).pc == Returned(1)
  {
    var w := Run(c, Start(c), polls[..k]);
    assert polls[..k] + polls[k..] == polls;
    RunAppend(c, Start(c), polls[..k], polls[k..]);
    assert PollStep(c, w, polls[k]).pc == Returned(1);
    assert Run(c, w, polls[k..]) == Run(c, PollStep(c, w, polls[k]), polls[k..][1..]);
  }

  lemma {:induction false} FailureHasCause(c: Config, polls: seq<Polled>) returns (k: nat)
    requires c.burst > 0 && Run(c, Start(c), polls).pc == Returned(1)
    ensures FailsAt(c, polls, k)
    decreases |polls|
  {
    if polls == [] {
      RunStopsAtPoll(c, Start(c));
      assert false;
    }
    var n := |polls| - 1;
    var w := Run(c, Start(c), polls[..n]);
    assert polls[..n] + [polls[n]] == polls;
    RunAppend(c, Start(c), polls[..n], [polls[n]]);
    RunAppend(c, Start(c), polls[..n], []);
    assert polls[..n] + [] == polls[..n];
    if w.pc == Returned(1) {
      k := FailureHasCause(c, polls[..n]);
      assert polls[..n][..k] == polls[..k];
    } else {
      RunStopsAtPoll(c, w);
      var v := PollStep(c, w, polls[n]);
      assert [polls[n]][1..] == [];
      RunStopsAtPoll(c, v);
      k := n;
    }
  }

  /** The call ends with code 1 exactly when an answer it polls is a failed poll or fails the data check; every other
      call ends with code 0 or is still polling. */
  lemma FailsIff(c: Config, polls: seq<Polled>)
    requires c.burst > 0
    ensures Run(c, Start(c), polls).pc == Returned(1) <==> exists k: nat :: FailsAt(c, polls, k)
  {
    if Run(c, Start(c), polls).pc == Returned(1) {
      var k := FailureHasCause(c, polls);
    } else if k: nat :| FailsAt(c, polls, k) {
      FailEndsCall(c, polls, k);
    }
  }

  lemma SendRecvResult(c: Config, polls: seq<Polled>)
    requires Accepted(c) && HonestRun(c, Start(c), polls)
    ensures var w := Run(c, Start(c), polls);
            && w.free + (w.msg - w.consumed) == Credit(c)
            && (w.pc == Returned(0) ==> w.msg == RoundUp(c.numMsgs, c.burst))
            && (w.pc == Returned(0) || w.pc == Poll)
  {
    StartInv(c);
    RunInv(c, Start(c), polls);
  }

  /** While the loop must wait for credit, something is outstanding: exactly when the settings are feasible. */
  lemma WaitsOnlyForOutstanding(c: Config)
    requires Accepted(c)
    ensures Feasible(c) <==>
            (forall polls :: HonestRun(c, Start(c), polls) ==>
               var w := Run(c, Start(c), polls);
               w.pc == Poll && w.msg < c.numMsgs ==> w.msg > w.consumed)
  {
    if Feasible(c) {
      forall polls | HonestRun(c, Start(c), polls)
        ensures var w := Run(c, Start(c), polls); w.pc == Poll && w.msg < c.numMsgs ==> w.msg > w.consumed
      {
        SendRecvResult(c, polls);
        StartInv(c);
        RunInv(c, Start(c), polls);
      }
    } else {
      InfeasibleHangs(c, []);
      assert HonestRun(c, FillStep(c, Start(c)), []);
      assert HonestRun(c, Start(c), []);
    }
  }

  /** The converse case in full: with fewer messages than a burst nothing is ever posted and no script ends the wait. */
  lemma {:induction false} InfeasibleHangs(c: Config, polls: seq<Polled>)
    requires Accepted(c) && 0 < c.numMsgs < c.burst && HonestRun(c, Start(c), polls)
    ensures Run(c, Start(c), polls) == Window(0, c.numMsgs, 0, Poll)
  {
    var w := Window(0, c.numMsgs, 0, Poll);
    assert FillStep(c, Start(c)) == w;
    if polls != [] {
      assert Honest(c, w, polls[0]);
      assert PollStep(c, w, polls[0]) == w;
      assert Run(c, w, polls) == Run(c, w, polls[1..]);
      assert HonestRun(c, Start(c), polls[1..]) == HonestRun(c, w, polls[1..]);
      InfeasibleHangs(c, polls[1..]);
    }
  }

  // ---------------------------------------------------------------------------------------------
  // What a successful return leaves outstanding
  // ---------------------------------------------------------------------------------------------

  function Final(c: Config, polls: seq<Polled>): Window
    requires c.burst > 0
  {
    Run(c, Start(c), polls)
  }

  /** A successful call, with the answers its completion queue gave. */
  ghost predicate Succeeds(c: Config, polls: seq<Polled>)
    requires c.burst > 0
  {
    HonestRun(c, Start(c), polls) && Final(c, polls).pc == Returned(0)
  }

  /** Every successful call leaves all but less than two bursts of its credit outstanding; with two bursts of messages
      or more it never returns with all requests done. */
  lemma ReturnLeavesOutstanding(c: Config, polls: seq<Polled>)
    requires Accepted(c) && c.numMsgs > 0 && Succeeds(c, polls)
    ensures Final(c, polls).msg - Final(c, polls).consumed > Credit(c) - 2 * c.burst
    ensures c.numMsgs >= 2 * c.burst ==> Final(c, polls).consumed < Final(c, polls).msg
  {
    StartInv(c);
    RunInv(c, Start(c), polls);
  }

  /** After the fill loop. */
  function Filled(c: Config, w: Window): Window
    requires c.burst > 0
  {
    w.(msg := w.msg + w.free - w.free % c.burst, free := w.free % c.burst, pc := Poll)
  }

  lemma {:induction false} FillAll(c: Config, w: Window, polls: seq<Polled>)
    requires c.burst > 0 && w.pc.Fill? && w.free >= 0
    ensures Run(c, w, polls) == Run(c, Filled(c, w), polls)
    ensures HonestRun(c, w, polls) == HonestRun(c, Filled(c, w), polls)
    decreases w.free
  {
    if w.free >= c.burst {
      ModOf(w.free - c.burst, c.burst, w.free / c.burst - 1, w.free % c.burst);
      FillAll(c, FillStep(c, w), polls);
    } else {
      ModOf(w.free, c.burst, 0, w.free);
    }
  }

  lemma {:induction false} ConsumedGrows(c: Config, w: Window, polls: seq<Polled>)
    requires c.burst > 0 && HonestRun(c, w, polls)
    ensures Run(c, w, polls).consumed >= w.consumed
    decreases |polls|, if w.pc.Fill? then 1 + (if w.free > 0 then w.free else 0) else 0
  {
    if w.pc.Fill? {
      ConsumedGrows(c, FillStep(c, w), polls);
    } else if w.pc.Poll? && polls != [] {
      ConsumedGrows(c, PollStep(c, w, polls[0]), polls[1..]);
    }
  }

  /** A call that must wait for credit does not end without a completion. */
  lemma {:induction false} SilenceWaits(c: Config, w: Window, polls: seq<Polled>)
    requires c.burst > 0 && HonestRun(c, w, polls)
    requires w.pc.Poll? && w.msg < c.numMsgs && w.free < c.burst
    ensures Run(c, w, polls).consumed == w.consumed ==> Run(c, w, polls).pc == Poll
  {
    if polls != [] {
      var v := PollStep(c, w, polls[0]);
      if polls[0].count == 0 {
        SilenceWaits(c, v, polls[1..]);
      } else {
        ConsumedGrows(c, v, polls[1..]);
      }
    }
  }

  lemma OneEmptyPoll(c: Config)
    requires Accepted(c) && 0 < c.numMsgs <= c.maxWrs && c.numMsgs % c.burst == 0
    ensures Succeeds(c, [Polled(0, true)]) && Final(c, [Polled(0, true)]).consumed == 0
  {
    var polls := [Polled(0, true)];
    var v := Filled(c, Start(c));
    FillAll(c, Start(c), polls);
    assert PollStep(c, v, polls[0]).pc == Returned(0);
    assert Run(c, PollStep(c, v, polls[0]), polls[1..]) == PollStep(c, v, polls[0]);
  }

  /** Some successful call returns with nothing completed exactly when there is nothing to do or the ring takes all
      messages in whole bursts. */
  lemma UntouchedReturnIff(c: Config)
    requires Accepted(c)
    ensures (exists polls :: Succeeds(c, polls) && Final(c, polls).consumed == 0)
       <==> c.numMsgs <= 0 || (c.numMsgs <= c.maxWrs && c.numMsgs % c.burst == 0)
  {
    if c.numMsgs <= 0 {
      assert Succeeds(c, []) && Final(c, []).consumed == 0;
    } else if c.numMsgs <= c.maxWrs && c.numMsgs % c.burst == 0 {
      OneEmptyPoll(c);
    } else {
      forall polls | Succeeds(c, polls) ensures Final(c, polls).consumed != 0 {
        FillAll(c, Start(c), polls);
        SilenceWaits(c, Filled(c, Start(c)), polls);
      }
    }
  }

  /** Between one and two bursts of messages, whole bursts of completions end the call with everything done. */
  lemma FinishedReturn(c: Config) returns (polls: seq<Polled>)
    requires Accepted(c) && c.burst <= c.numMsgs < 2 * c.burst
    ensures Succeeds(c, polls) && Final(c, polls).consumed == Final(c, polls).msg
  {
    var whole := Polled(c.burst, true);
    ModOf(c.numMsgs, c.burst, 1, c.numMsgs - c.burst);
    var v := Filled(c, Start(c));
    var w := PollStep(c, v, whole);
    if c.numMsgs == c.burst {
      polls := [whole];
    } else {
      polls := [whole, whole];
      FillAll(c, w, [whole]);
      var x := PollStep(c, Filled(c, w), whole);
      assert Run(c, Filled(c, w), [whole]) == Run(c, x, []) == x;
      assert HonestRun(c, Filled(c, w), [whole]);
    }
    FillAll(c, Start(c), polls);
    assert Run(c, v, polls) == Run(c, w, polls[1..]);
    assert HonestRun(c, v, polls) == HonestRun(c, w, polls[1..]);
  }

  /** Some successful call returns with everything completed exactly when there is nothing to do or the messages make
      at least one burst and less than two. */
  lemma FinishedReturnIff(c: Config)
    requires Accepted(c)
    ensures (exists polls :: Succeeds(c, polls) && Final(c, polls).consumed == Final(c, polls).msg)
       <==> c.numMsgs <= 0 || c.burst <= c.numMsgs < 2 * c.burst
  {
    if c.numMsgs <= 0 {
      assert Succeeds(c, []) && Final(c, []).consumed == Final(c, []).msg;
    } else if c.numMsgs < c.burst {
      forall polls | HonestRun(c, Start(c), polls) ensures !Succeeds(c, polls) {
        InfeasibleHangs(c, polls);
      }
    } else if c.numMsgs < 2 * c.burst {
      var polls := FinishedReturn(c);
    } else {
      forall polls | Succeeds(c, polls) ensures Final(c, polls).consumed != Final(c, polls).msg {
        ReturnLeavesOutstanding(c, polls);
      }
    }
  }

  /** Single completions while the call must go on, then one empty poll: it returns with requests outstanding. */
  lemma UnfinishedReturn(c: Config, w: Window) returns (polls: seq<Polled>)
    requires Feasible(c) && c.numMsgs > 0 && WindowInv(c, w) && !w.pc.Returned?
    ensures HonestRun(c, w, polls)
    ensures Run(c, w, polls).pc == Returned(0) && Run(c, w, polls).consumed < Run(c, w, polls).msg
    decreases 2 * RoundUp(c.numMsgs, c.burst) - w.msg - w.consumed, if w.pc.Fill? then 1 else 0
  {
    if w.pc.Fill? {
      FillStepInv(c, w);
      polls := UnfinishedReturn(c, FillStep(c, w));
    } else {
      var p := Polled(if w.msg < c.numMsgs then 1 else 0, true);
      var v := PollStep(c, w, p);
      var rest := [];
      if w.msg < c.numMsgs {
        PollStepInv(c, w, p);
        rest := UnfinishedReturn(c, v);
      }
      polls := [p] + rest;
      assert polls[1..] == rest;
    }
  }

  /** Every successful call returns with everything completed exactly when there is less than a burst of messages,
      and then there is nothing to do or it never returns. */
  lemma AlwaysFinishedIff(c: Config)
    requires Accepted(c)
    ensures (forall polls :: Succeeds(c, polls) ==> Final(c, polls).consumed == Final(c, polls).msg)
       <==> c.numMsgs < c.burst
  {
    if c.numMsgs >= c.burst {
      StartInv(c);
      var polls := UnfinishedReturn(c, Start(c));
      assert Succeeds(c, polls);
    } else if c.numMsgs > 0 {
      forall polls | HonestRun(c, Start(c), polls) ensures !Succeeds(c, polls) {
        InfeasibleHangs(c, polls);
      }
    }
  }

  // ---------------------------------------------------------------------------------------------
  // Ring contents and the received-data check
  // ---------------------------------------------------------------------------------------------

  /** A nibble of the slot index and a nibble of the queue-pair index, as one byte. */
  function MsgData(slot: nat, qp: nat): nat {
    slot % 16 + 16 * (qp % 16)
  }

  /** The byte's low nibble is the slot's, its high nibble the queue pair's; no other byte has these. */
  lemma MsgDataNibbles(slot: nat, qp: nat, b: nat)
    ensures b == MsgData(slot, qp) <==> b < 256 && b % 16 == slot % 16 && b / 16 == qp % 16
  {
  }

  /** End of a burst in the prepared chain of requests. */
  const NULL := -1

  function NextInChain(j: nat, burst: nat): int
    requires burst > 0
  {
    if j % burst != burst - 1 then j + 1 else NULL
  }

  /** The requests handed to the device when the one in slot j is posted. */
  function Chain(next: seq<int>, j: nat): seq<int>
    requires forall k :: 0 <= k < |next| ==> next[k] == NULL || k < next[k] < |next|
    requires j < |next|
    decreases |next| - j
  {
    if next[j] == NULL then [j] else [j] + Chain(next, next[j])
  }

  /** The preparation loop of create_qp: message bytes (sender only) and the `next` links of the ring. */
  method Prepare(isSend: bool, burst: nat, qp: nat, buf: array2<nat>, next: array<int>)
    requires burst > 0 && buf.Length0 == next.Length
    modifies buf, next
    ensures forall j :: 0 <= j < next.Length ==> next[j] == NextInChain(j, burst)
    ensures forall j, i :: 0 <= j < buf.Length0 && 0 <= i < buf.Length1
              ==> buf[j, i] == if isSend then MsgData(j, qp) else old(buf[j, i])
    ensures forall j, i :: isSend && 0 <= j < buf.Length0 && 0 <= i < buf.Length1
              ==> buf[j, i] < 256 && buf[j, i] % 16 == j % 16 && buf[j, i] / 16 == qp % 16
  {
    var j := 0;
    while j < next.Length
      invariant 0 <= j <= next.Length
      invariant forall k :: 0 <= k < j ==> next[k] == NextInChain(k, burst)
      invariant forall k, i :: 0 <= k < buf.Length0 && 0 <= i < buf.Length1
                  ==> buf[k, i] == if isSend && k < j then MsgData(k, qp) else old(buf[k, i])
    {
      if isSend {
        var i := 0;
        while i < buf.Length1
          modifies buf
          invariant 0 <= i <= buf.Length1
          invariant forall k, l :: 0 <= k < buf.Length0 && 0 <= l < buf.Length1
                      ==> buf[k, l] == if k < j || (k == j && l < i) then MsgData(k, qp) else old(buf[k, l])
        {
          buf[j, i] := MsgData(j, qp);
          i := i + 1;
        }
      }
      next[j] := if j % burst != burst - 1 then j + 1 else NULL;
      j := j + 1;
    }
    forall j, i | isSend && 0 <= j < buf.Length0 && 0 <= i < buf.Length1
      ensures buf[j, i] < 256 && buf[j, i] % 16 == j % 16 && buf[j, i] / 16 == qp % 16
    {
      MsgDataNibbles(j, qp, buf[j, i]);
    }
  }

  /** Posting the prepared request of a burst's first slot posts exactly the slots of that burst. */
  lemma {:induction false} ChainIsBurst(next: seq<int>, burst: nat, j: nat, t: nat)
    requires burst > 0 && t < burst && j % burst == t && j - t + burst <= |next|
    requires forall k :: 0 <= k < |next| ==> next[k] == NextInChain(k, burst)
    requires forall k :: 0 <= k < |next| ==> next[k] == NULL || k < next[k] < |next|
    ensures Chain(next, j) == seq(burst - t, i => j + i)
    decreases burst - t
  {
    if t < burst - 1 {
      ModStep(j, burst, 1);
      ChainIsBurst(next, burst, j + 1, t + 1);
    }
  }

  /** The data check on one byte of one of the newly consumed messages; both picks are the caller's random numbers. */
  method IsDataValid(buf: array2<nat>, curr: nat, consumed: nat, qp: nat, pickWr: nat, pickByte: nat)
    returns (valid: bool, curr': nat)
    requires consumed > 0 && buf.Length0 > 0 && buf.Length1 > 0
    ensures var slot := (curr + pickWr % consumed) % buf.Length0;
            var b := buf[slot, pickByte % buf.Length1];
            && valid == (b == MsgData(slot, qp))
            && (valid <==> b < 256 && b % 16 == slot % 16 && b / 16 == qp % 16)
    ensures curr' == if valid then curr + consumed else curr
  {
    var slot := (curr + pickWr % consumed) % buf.Length0;
    MsgDataNibbles(slot, qp, buf[slot, pickByte % buf.Length1]);
    if buf[slot, pickByte % buf.Length1] != MsgData(slot, qp) {
      return false, curr;
    }
    return true, curr + consumed;
  }

  /** What the receiver's check expects of message k against what the sender's ring holds for it. */
  predicate Agrees(maxS: nat, qpS: nat, maxR: nat, qpR: nat, k: nat)
    requires maxS > 0 && maxR > 0
  {
    MsgData(k % maxS, qpS) == MsgData(k % maxR, qpR)
  }

  lemma DataEqual(slot: nat, qp: nat, slot': nat, qp': nat)
    ensures MsgData(slot, qp) == MsgData(slot', qp') <==> slot % 16 == slot' % 16 && qp % 16 == qp' % 16
  {
  }

  /** Exactly when the check cannot misfire over n messages: equal queue nibbles and equal rings, or no ring wraps,
      or the rings that wrap have a size the 16-value pattern divides. */
  lemma CheckNeverMisfires(maxS: nat, qpS: nat, maxR: nat, qpR: nat, n: nat)
    requires maxS > 0 && maxR > 0 && n > 0
    ensures (forall k: nat :: k < n ==> Agrees(maxS, qpS, maxR, qpR, k)) <==>
            && qpS % 16 == qpR % 16
            && (maxS == maxR || ((n <= maxS || maxS % 16 == 0) && (n <= maxR || maxR % 16 == 0)))
  {
    var all := forall k: nat :: k < n ==> Agrees(maxS, qpS, maxR, qpR, k);
    if all {
      assert Agrees(maxS, qpS, maxR, qpR, 0);
      DataEqual(0, qpS, 0, qpR);
      if maxS < maxR {
        Unwrapped(maxS, qpS, maxR, qpR, n);
      } else if maxR < maxS {
        assert forall k: nat :: k < n ==> Agrees(maxS, qpS, maxR, qpR, k) ==> Agrees(maxR, qpR, maxS, qpS, k);
        Unwrapped(maxR, qpR, maxS, qpS, n);
      }
    }
    if qpS % 16 == qpR % 16 && (maxS == maxR || ((n <= maxS || maxS % 16 == 0) && (n <= maxR || maxR % 16 == 0))) {
      forall k: nat | k < n ensures Agrees(maxS, qpS, maxR, qpR, k) {
        SixteenPattern(maxS, n, k);
        SixteenPattern(maxR, n, k);
        DataEqual(k % maxS, qpS, k % maxR, qpR);
      }
    }
  }

  lemma SixteenPattern(max: nat, n: nat, k: nat)
    requires max > 0 && k < n
    ensures n <= max || max % 16 == 0 ==> (k % max) % 16 == k % 16
  {
    if max % 16 == 0 {
      ModModMultiple(k, max, 16);
    } else if n <= max {
      ModOf(k, max, 0, k);
    }
  }

  lemma Unwrapped(lo: nat, qpLo: nat, hi: nat, qpHi: nat, n: nat)
    requires 0 < lo < hi
    requires forall k: nat :: k < n ==> Agrees(lo, qpLo, hi, qpHi, k)
    ensures (n <= lo || lo % 16 == 0) && (n <= hi || hi % 16 == 0)
  {
    if n > lo {
      assert Agrees(lo, qpLo, hi, qpHi, lo);
      ModOf(lo, lo, 1, 0);
      ModOf(lo, hi, 0, lo);
      DataEqual(lo % lo, qpLo, lo % hi, qpHi);
      if n > hi {
        assert Agrees(lo, qpLo, hi, qpHi, hi);
        ModOf(hi, hi, 1, 0);
        ModModMultiple(hi, lo, 16);
        DataEqual(hi % lo, qpLo, hi % hi, qpHi);
      }
    }
  }

  // ---------------------------------------------------------------------------------------------
  // A sender and a receiver on one queue pair
  // ---------------------------------------------------------------------------------------------

  /** Both engines, the messages delivered so far, and the receiver's ring: for each slot the sender's slot whose
      content it holds (a message is copied from the sender's ring when it is delivered). */
  datatype Pair = Pair(s: Window, r: Window, delivered: nat, ring: map<nat, nat>)

  datatype Setup = Setup(send: Config, recv: Config)

  /** Accepted settings on both sides, the same message count, and at least a burst of messages. */
  predicate Matching(u: Setup) {
    Accepted(u.send) && Accepted(u.recv) && Feasible(u.send) && Feasible(u.recv) && u.send.numMsgs == u.recv.numMsgs
  }

  datatype Step = Tick(sender: bool) | Drain(sender: bool, count: nat) | Deliver

  function InitPair(u: Setup): Pair {
    Pair(Start(u.send), Start(u.recv), 0, map[])
  }

  predicate CanDrain(c: Config, w: Window, delivered: nat, count: nat) {
    w.pc.Poll? && count <= c.burst && w.consumed + count <= delivered
  }

  /** A delivery takes the next posted send and the next posted receive. */
  predicate Enabled(u: Setup, p: Pair, s: Step) {
    match s
    case Tick(sender) => if sender then p.s.pc.Fill? else p.r.pc.Fill?
    case Drain(sender, count) =>
      if sender then CanDrain(u.send, p.s, p.delivered, count) else CanDrain(u.recv, p.r, p.delivered, count)
    case Deliver => p.delivered < p.s.msg && p.delivered < p.r.msg
  }

  function Next(u: Setup, p: Pair, s: Step): Pair
    requires u.send.maxWrs > 0 && u.recv.maxWrs > 0
  {
    match s
    case Tick(sender) => if sender then p.(s := FillStep(u.send, p.s)) else p.(r := FillStep(u.recv, p.r))
    case Drain(sender, count) =>
      if sender then p.(s := PollStep(u.send, p.s, Polled(count, true)))
      else p.(r := PollStep(u.recv, p.r, Polled(count, true)))
    case Deliver =>
      p.(delivered := p.delivered + 1,
         ring := p.ring[Slot(u.recv, p.delivered) := Slot(u.send, p.delivered)])
  }

  ghost predicate PairInv(u: Setup, p: Pair)
    requires Matching(u)
  {
    && WindowInv(u.send, p.s) && WindowInv(u.recv, p.r)
    && p.s.consumed <= p.delivered && p.r.consumed <= p.delivered
    && p.delivered <= p.s.msg && p.delivered <= p.r.msg
    && (forall k :: p.r.consumed <= k < p.delivered ==>
          Slot(u.recv, k) in p.ring && p.ring[Slot(u.recv, k)] == Slot(u.send, k))
  }

  lemma InitPairInv(u: Setup)
    requires Matching(u)
    ensures PairInv(u, InitPair(u))
  {
    StartInv(u.send);
    StartInv(u.recv);
  }

  lemma DeliverInv(u: Setup, p: Pair)
    requires Matching(u) && PairInv(u, p) && Enabled(u, p, Deliver)
    ensures PairInv(u, Next(u, p, Deliver))
  {
    var k := p.delivered;
    forall j | p.r.consumed <= j < k ensures Slot(u.recv, j) != Slot(u.recv, k) {
      ModDistinct(j, k, u.recv.maxWrs);
    }
  }

  lemma TickInv(u: Setup, p: Pair, sender: bool)
    requires Matching(u) && PairInv(u, p) && Enabled(u, p, Tick(sender))
    ensures PairInv(u, Next(u, p, Tick(sender)))
  {
    if sender { FillStepInv(u.send, p.s); } else { FillStepInv(u.recv, p.r); }
  }

  lemma DrainInv(u: Setup, p: Pair, sender: bool, count: nat)
    requires Matching(u) && PairInv(u, p) && Enabled(u, p, Drain(sender, count))
    ensures PairInv(u, Next(u, p, Drain(sender, count)))
  {
    if sender {
      PollStepInv(u.send, p.s, Polled(count, true));
    } else {
      PollStepInv(u.recv, p.r, Polled(count, true));
    }
  }

  lemma StepInv(u: Setup, p: Pair, s: Step)
    requires Matching(u) && PairInv(u, p) && Enabled(u, p, s)
    ensures PairInv(u, Next(u, p, s))
  {
    match s
    case Tick(sender) => TickInv(u, p, sender);
    case Drain(sender, count) => DrainInv(u, p, sender, count);
    case Deliver => DeliverInv(u, p);
  }

  /** The states `trace` visits when the steps of `run` are taken from the start. */
  ghost predicate IsTrace(u: Setup, trace: seq<Pair>, run: seq<Step>)
    requires Matching(u)
  {
    && |trace| == |run| + 1
    && trace[0] == InitPair(u)
    && forall i :: 0 <= i < |run| ==> Enabled(u, trace[i], run[i]) && trace[i + 1] == Next(u, trace[i], run[i])
  }

  lemma {:induction false} TraceInv(u: Setup, trace: seq<Pair>, run: seq<Step>, k: nat)
    requires Matching(u) && IsTrace(u, trace, run) && k < |trace|
    ensures PairInv(u, trace[k])
  {
    if k == 0 {
      InitPairInv(u);
    } else {
      TraceInv(u, trace, run, k - 1);
      StepInv(u, trace[k - 1], run[k - 1]);
    }
  }

  /** On each message a poll newly consumes, the bytes in the receiver's ring match the check's expectation exactly
      when the two rings agree on that message; CheckNeverMisfires says which settings make them agree. */
  lemma CheckAnswers(u: Setup, qpS: nat, qpR: nat, trace: seq<Pair>, run: seq<Step>, i: nat, k: nat)
    requires Matching(u) && IsTrace(u, trace, run)
    requires i < |run| && run[i].Drain? && !run[i].sender && k < run[i].count
    ensures var m := trace[i].r.consumed + k;
            var slot := Slot(u.recv, m);
            && m >= 0 && slot in trace[i].ring
            && (MsgData(trace[i].ring[slot], qpS) == MsgData(slot, qpR)
                <==> Agrees(u.send.maxWrs, qpS, u.recv.maxWrs, qpR, m))
  {
    TraceInv(u, trace, run, i);
    assert Enabled(u, trace[i], run[i]);
  }

  /** With equal rings and queue-pair indices the check never reports a false error: whatever the batching, whichever
      newly consumed message is picked, the receiver's slot holds the byte the check expects. */
  lemma NoFalseError(u: Setup, qp: nat, trace: seq<Pair>, run: seq<Step>, i: nat, pick: nat)
    requires Matching(u) && IsTrace(u, trace, run) && u.send.maxWrs == u.recv.maxWrs
    requires i < |run| && run[i].Drain? && !run[i].sender && run[i].count > 0
    ensures var slot := Slot(u.recv, trace[i].r.consumed + pick % run[i].count);
            slot in trace[i].ring && MsgData(trace[i].ring[slot], qp) == MsgData(slot, qp)
  {
    CheckAnswers(u, qp, qp, trace, run, i, pick % run[i].count);
  }

  /** The receiver's buffer holds, in each slot of `ring`, the bytes the sender prepared for its slot. */
  ghost predicate HoldsRing(buf: array2<nat>, ring: map<nat, nat>, qpS: nat)
    reads buf
  {
    forall slot, i :: slot in ring && slot < buf.Length0 && 0 <= i < buf.Length1 ==>
      buf[slot, i] == MsgData(ring[slot], qpS)
  }

  /** A message lands: the sender's slot, as Prepare left it, is copied into the receiver's. */
  method Land(src: array2<nat>, from: nat, dst: array2<nat>, to: nat, ghost qpS: nat, ghost ring: map<nat, nat>)
    requires src != dst && src.Length1 == dst.Length1 && from < src.Length0 && to < dst.Length0
    requires forall i :: 0 <= i < src.Length1 ==> src[from, i] == MsgData(from, qpS)
    requires HoldsRing(dst, ring, qpS)
    modifies dst
    ensures HoldsRing(dst, ring[to := from], qpS)
  {
    var i := 0;
    while i < dst.Length1
      invariant 0 <= i <= dst.Length1
      invariant forall k :: 0 <= k < i ==> dst[to, k] == MsgData(from, qpS)
      invariant forall j, k :: 0 <= j < dst.Length0 && 0 <= k < dst.Length1 && j != to ==> dst[j, k] == old(dst[j, k])
    {
      dst[to, i] := src[from, i];
      i := i + 1;
    }
  }

  /** The check as the receiver runs it on a poll of a run: with the position where the call has consumed so far, its
      verdict on any picked byte is whether the two rings agree on the picked message, and a passed check leaves the
      position where the next poll starts. */
  method CheckPolled(buf: array2<nat>, curr: nat, consumed: nat, qpR: nat, pickWr: nat, pickByte: nat,
                     ghost u: Setup, ghost qpS: nat, ghost trace: seq<Pair>, ghost run: seq<Step>, ghost i: nat)
    returns (valid: bool, curr': nat)
    requires Matching(u) && IsTrace(u, trace, run) && i < |run| && run[i] == Drain(false, consumed) && consumed > 0
    requires buf.Length0 == u.recv.maxWrs && buf.Length1 > 0 && HoldsRing(buf, trace[i].ring, qpS)
    requires curr == trace[i].r.consumed
    ensures valid <==> Agrees(u.send.maxWrs, qpS, u.recv.maxWrs, qpR, curr + pickWr % consumed)
    ensures valid ==> curr' == trace[i + 1].r.consumed
    ensures u.send.maxWrs == u.recv.maxWrs && qpS == qpR ==> valid
  {
    CheckAnswers(u, qpS, qpR, trace, run, i, pickWr % consumed);
    valid, curr' := IsDataValid(buf, curr, consumed, qpR, pickWr, pickByte);
    assert trace[i + 1] == Next(u, trace[i], run[i]);
  }

  /** A step that is not a poll coming back empty while the loop must go on. */
  ghost predicate Useful(u: Setup, p: Pair, s: Step) {
    && Enabled(u, p, s)
    && (s.Drain? ==> s.count > 0 || (if s.sender then p.s.msg >= u.send.numMsgs else p.r.msg >= u.recv.numMsgs))
  }

  /** No deadlock: unless both engines have returned, a useful step is enabled. */
  lemma Progress(u: Setup, p: Pair) returns (s: Step)
    requires Matching(u) && PairInv(u, p) && !(p.s.pc.Returned? && p.r.pc.Returned?)
    ensures Useful(u, p, s)
  {
    if p.s.pc.Fill? {
      return Tick(true);
    } else if p.r.pc.Fill? {
      return Tick(false);
    } else if p.delivered < p.s.msg && p.delivered < p.r.msg {
      return Deliver;
    } else if p.s.pc.Poll? && p.s.msg >= u.send.numMsgs {
      return Drain(true, 0);
    } else if p.r.pc.Poll? && p.r.msg >= u.recv.numMsgs {
      return Drain(false, 0);
    } else if p.s.pc.Poll? && p.s.consumed < p.delivered {
      return Drain(true, 1);
    } else if p.r.pc.Poll? && p.r.consumed < p.delivered {
      return Drain(false, 1);
    }
    RoundUpFacts(u.send.numMsgs, u.send.burst);
    RoundUpFacts(u.recv.numMsgs, u.recv.burst);
    assert false;
  }

  function Rank(w: Window): int {
    match w.pc case Fill => 2 case Poll => 1 case Returned(_) => 0
  }

  function Left(c: Config, w: Window): int
    requires c.burst > 0
  {
    4 * RoundUp(c.numMsgs, c.burst) - 2 * w.msg - 2 * w.consumed + Rank(w)
  }

  function Measure(u: Setup, p: Pair): int
    requires u.send.burst > 0 && u.recv.burst > 0
  {
    Left(u.send, p.s) + Left(u.recv, p.r) + RoundUp(u.send.numMsgs, u.send.burst) - p.delivered
  }

  lemma StepDecreases(u: Setup, p: Pair, s: Step)
    requires Matching(u) && PairInv(u, p) && Useful(u, p, s)
    ensures Measure(u, Next(u, p, s)) < Measure(u, p)
  {
  }

  lemma {:induction false} TraceBound(u: Setup, trace: seq<Pair>, run: seq<Step>, k: nat)
    requires Matching(u) && IsTrace(u, trace, run) && k < |trace|
    requires forall i :: 0 <= i < |run| ==> Useful(u, trace[i], run[i])
    ensures Measure(u, trace[k]) <= Measure(u, InitPair(u)) - k
  {
    if k > 0 {
      TraceBound(u, trace, run, k - 1);
      TraceInv(u, trace, run, k - 1);
      StepDecreases(u, trace[k - 1], run[k - 1]);
    }
  }

  /** Every run of useful steps is bounded; one that cannot be extended has both engines returned with code 0 and
      their message counts rounded up to whole bursts. */
  lemma BothComplete(u: Setup, trace: seq<Pair>, run: seq<Step>)
    requires Matching(u) && IsTrace(u, trace, run)
    requires forall i :: 0 <= i < |run| ==> Useful(u, trace[i], run[i])
    ensures |run| <= 5 * RoundUp(u.send.numMsgs, u.send.burst) + 4 * RoundUp(u.recv.numMsgs, u.recv.burst) + 4
    ensures (forall s :: !Useful(u, trace[|run|], s)) ==>
              && trace[|run|].s.pc == Returned(0) && trace[|run|].s.msg == RoundUp(u.send.numMsgs, u.send.burst)
              && trace[|run|].r.pc == Returned(0) && trace[|run|].r.msg == RoundUp(u.recv.numMsgs, u.recv.burst)
  {
    TraceBound(u, trace, run, |run|);
    TraceInv(u, trace, run, |run|);
    var p := trace[|run|];
    if !(p.s.pc.Returned? && p.r.pc.Returned?) {
      var s := Progress(u, p);
    }
  }
}
