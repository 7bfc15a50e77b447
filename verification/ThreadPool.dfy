/**
 * The worker pool of the asynchronous logger as interleaved steps: producers that wait for room
 * or push out the oldest message, workers that take and handle messages, and the destructor,
 * which posts one terminate message per worker and then joins the workers in turn.
 */
module ThreadPool {
  import opened RingQueue

  datatype Kind = Log | Flush | Terminate

  datatype Msg = Msg(kind: Kind, id: nat)

  datatype Worker = Idle | Busy(msg: Msg) | Exited

  /** How far the destructor has come; it is through when it has joined every worker. */
  datatype Owner = Working | Posting(posted: nat) | Joining(joined: nat)

  const NOBODY := -1

  /** A message that has left the queue: taken by a worker, or pushed out by a newer one. */
  datatype Gone = Gone(msg: Msg, taker: int)

  datatype Pool = Pool(
    capacity: nat,
    queue: seq<Msg>,
    workers: seq<Worker>,
    owner: Owner,
    overrun: nat,
    posted: seq<Msg>,
    gone: seq<Gone>)

  datatype Step =
    | Enqueue(m: Msg)
    | EnqueueNowait(m: Msg)
    | Destroy
    | PostTerminate(id: nat)
    | BeginJoin
    | Join
    | Dequeue(w: nat)
    | Timeout(w: nat)
    | Handle(w: nat)

  // ---- The steps ----

  function Start(capacity: nat, threads: nat): Pool {
    Pool(capacity, [], seq(threads, i => Idle), Working, 0, [], [])
  }

  predicate Enabled(p: Pool, step: Step) {
    match step
    case Enqueue(m) => p.owner == Working && m.kind != Terminate && |p.queue| < p.capacity
    case EnqueueNowait(m) => p.owner == Working && m.kind != Terminate
    case Destroy => p.owner == Working
    case PostTerminate(_) => p.owner.Posting? && p.owner.posted < |p.workers| && |p.queue| < p.capacity
    case BeginJoin => p.owner == Posting(|p.workers|)
    case Join => p.owner.Joining? && p.owner.joined < |p.workers| && p.workers[p.owner.joined] == Exited
    case Dequeue(w) => w < |p.workers| && p.workers[w] == Idle && p.queue != []
    case Timeout(w) => w < |p.workers| && p.workers[w] == Idle && p.queue == []
    case Handle(w) => w < |p.workers| && p.workers[w].Busy?
  }

  function Post(p: Pool, m: Msg): Pool {
    var q := Pushed(p.queue, m, p.capacity);
    if |p.queue| < p.capacity then p.(queue := q, posted := p.posted + [m])
    else p.(queue := q, posted := p.posted + [m], overrun := p.overrun + 1,
            gone := p.gone + [Gone((p.queue + [m])[0], NOBODY)])
  }

  function Next(p: Pool, step: Step): Pool
    requires Enabled(p, step)
  {
    match step
    case Enqueue(m) => Post(p, m)
    case EnqueueNowait(m) => Post(p, m)
    case Destroy => p.(owner := Posting(0))
    case PostTerminate(id) => Post(p, Msg(Terminate, id)).(owner := Posting(p.owner.posted + 1))
    case BeginJoin => p.(owner := Joining(0))
    case Join => p.(owner := Joining(p.owner.joined + 1))
    case Dequeue(w) => p.(queue := p.queue[1..], workers := p.workers[w := Busy(p.queue[0])],
                          gone := p.gone + [Gone(p.queue[0], w)])
    case Timeout(_) => p
    case Handle(w) => p.(workers := p.workers[w := if p.workers[w].msg.kind == Terminate then Exited else Idle])
  }

  /** The pools an interleaving can lead to. */
  ghost predicate Reaches(p: Pool, steps: seq<Step>, q: Pool)
    decreases |steps|
  {
    if steps == [] then p == q
    else Enabled(p, steps[0]) && Reaches(Next(p, steps[0]), steps[1..], q)
  }

  // ---- What is counted ----

  function Msgs(gone: seq<Gone>): seq<Msg> {
    if gone == [] then [] else Msgs(gone[..|gone| - 1]) + [gone[|gone| - 1].msg]
  }

  /** The messages worker w has taken, in order; with NOBODY, those that were pushed out. */
  function Taken(gone: seq<Gone>, w: int): seq<Msg> {
    if gone == [] then []
    else
      var g := gone[|gone| - 1];
      var before := Taken(gone[..|gone| - 1], w);
      if g.taker == w then before + [g.msg] else before
  }

  function Terminates(s: seq<Msg>): nat {
    if s == [] then 0 else Terminates(s[..|s| - 1]) + if s[|s| - 1].kind == Terminate then 1 else 0
  }

  predicate Stopping(w: Worker) {
    w == Exited || (w.Busy? && w.msg.kind == Terminate)
  }

  function CountStopping(ws: seq<Worker>): nat {
    if ws == [] then 0 else CountStopping(ws[..|ws| - 1]) + if Stopping(ws[|ws| - 1]) then 1 else 0
  }

  /** How many terminate messages the destructor has posted. */
  function Requested(p: Pool): nat {
    match p.owner
    case Working => 0
    case Posting(k) => k
    case Joining(_) => |p.workers|
  }

  // ---- The invariant ----

  /** First in, first out: whatever has been posted has left in order or still waits in order. */
  ghost predicate Conserved(p: Pool) {
    && p.posted == Msgs(p.gone) + p.queue
    && |p.queue| <= p.capacity
    && |Taken(p.gone, NOBODY)| == p.overrun
  }

  /** Terminate messages come last, one per request, and only workers take them. */
  ghost predicate Requests(p: Pool) {
    && Requested(p) <= |p.posted| && Requested(p) <= |p.workers|
    && (forall i :: 0 <= i < |p.posted| ==> (p.posted[i].kind == Terminate <==> |p.posted| - Requested(p) <= i))
    && Terminates(Taken(p.gone, NOBODY)) == 0
    && CountStopping(p.workers) + Terminates(p.queue) == Requested(p)
  }

  /** A worker's phase tells what it took last; it takes nothing after a terminate message. */
  ghost predicate WorkerOk(p: Pool, w: nat)
    requires w < |p.workers|
  {
    var taken := Taken(p.gone, w);
    && Terminates(taken) == (if Stopping(p.workers[w]) then 1 else 0)
    && (p.workers[w] != Idle ==> taken != [])
    && (p.workers[w].Busy? ==> taken[|taken| - 1] == p.workers[w].msg)
    && (p.workers[w] == Exited ==> taken[|taken| - 1].kind == Terminate)
  }

  ghost predicate Inv(p: Pool) {
    && Conserved(p)
    && Requests(p)
    && (forall w :: 0 <= w < |p.workers| ==> WorkerOk(p, w))
    && (forall i :: 0 <= i < |p.gone| ==> NOBODY <= p.gone[i].taker < |p.workers|)
    && (p.owner.Joining? ==>
          p.owner.joined <= |p.workers| && forall w :: 0 <= w < p.owner.joined ==> p.workers[w] == Exited)
  }

  // ---- Counting lemmas ----

  lemma OneMoreGone(gone: seq<Gone>, g: Gone)
    ensures Msgs(gone + [g]) == Msgs(gone) + [g.msg]
    ensures forall w :: Taken(gone + [g], w) == if g.taker == w then Taken(gone, w) + [g.msg] else Taken(gone, w)
  {
  }

  lemma OneMoreMsg(s: seq<Msg>, m: Msg)
    ensures Terminates(s + [m]) == Terminates(s) + if m.kind == Terminate then 1 else 0
  {
  }

  lemma {:induction false} FirstMsg(s: seq<Msg>)
    requires s != []
    ensures Terminates(s) == (if s[0].kind == Terminate then 1 else 0) + Terminates(s[1..])
  {
    if |s| > 1 {
      FirstMsg(s[..|s| - 1]);
      assert s[1..][..|s| - 2] == s[..|s| - 1][1..];
    }
  }

  lemma {:induction false} NoTerminates(s: seq<Msg>)
    requires NoneTerminate(s)
    ensures Terminates(s) == 0
  {
    if s != [] {
      NoTerminates(s[..|s| - 1]);
    }
  }

  lemma {:induction false} OneWorkerChanged(ws: seq<Worker>, w: nat, x: Worker)
    requires w < |ws|
    ensures CountStopping(ws[w := x]) + (if Stopping(ws[w]) then 1 else 0) ==
            CountStopping(ws) + if Stopping(x) then 1 else 0
  {
    var n := |ws| - 1;
    if w == n {
      assert ws[w := x][..n] == ws[..n];
    } else {
      OneWorkerChanged(ws[..n], w, x);
      assert ws[w := x][..n] == ws[..n][w := x];
    }
  }

  lemma {:induction false} NoneStopping(ws: seq<Worker>)
    requires forall w :: 0 <= w < |ws| ==> ws[w] == Idle
    ensures CountStopping(ws) == 0
  {
    if ws != [] {
      NoneStopping(ws[..|ws| - 1]);
    }
  }

  // ---- Every step keeps the invariant ----

  lemma PostKeepsConserved(p: Pool, m: Msg)
    requires Conserved(p)
    ensures Conserved(Post(p, m))
    ensures |p.queue| >= p.capacity ==> (p.queue + [m])[0] in p.posted + [m]
  {
  }

  predicate NoneTerminate(s: seq<Msg>) {
    forall i :: 0 <= i < |s| ==> s[i].kind != Terminate
  }

  lemma QueueClean(p: Pool)
    requires Conserved(p) && NoneTerminate(p.posted)
    ensures NoneTerminate(p.queue)
  {
    assert forall i :: 0 <= i < |p.queue| ==> p.queue[i] == p.posted[|Msgs(p.gone)| + i];
  }

  lemma PushedOut(gone: seq<Gone>, m: Msg)
    requires m.kind != Terminate && Terminates(Taken(gone, NOBODY)) == 0
    ensures Terminates(Taken(gone + [Gone(m, NOBODY)], NOBODY)) == 0
  {
  }

  lemma PostKeepsRequests(p: Pool, m: Msg)
    requires Conserved(p) && Requests(p) && p.owner == Working && m.kind != Terminate
    ensures Requests(Post(p, m))
  {
    hide Conserved, Terminates, Taken, CountStopping;
    var q := Post(p, m);
    assert NoneTerminate(p.posted);
    QueueClean(p);
    var s := p.queue + [m];
    assert NoneTerminate(s);
    assert NoneTerminate(q.queue);
    assert NoneTerminate(q.posted);
    NoTerminates(p.queue);
    NoTerminates(q.queue);
    PushedOut(p.gone, s[0]);
  }

  lemma PostKeepsWorkers(p: Pool, m: Msg)
    requires forall w :: 0 <= w < |p.workers| ==> WorkerOk(p, w)
    ensures forall w :: 0 <= w < |p.workers| ==> WorkerOk(Post(p, m), w)
  {
    var q := Post(p, m);
    if |p.queue| >= p.capacity {
      OneMoreGone(p.gone, Gone((p.queue + [m])[0], NOBODY));
    }
    forall w | 0 <= w < |p.workers|
      ensures WorkerOk(q, w)
    {
      assert WorkerOk(p, w) && Taken(q.gone, w) == Taken(p.gone, w);
    }
  }

  lemma PostKeeps(p: Pool, m: Msg)
    requires Inv(p) && p.owner == Working && m.kind != Terminate
    ensures Inv(Post(p, m))
  {
    hide Conserved, Requests, WorkerOk;
    PostKeepsConserved(p, m);
    PostKeepsRequests(p, m);
    PostKeepsWorkers(p, m);
  }

  lemma TerminateKeeps(p: Pool, id: nat)
    requires Inv(p) && Enabled(p, PostTerminate(id))
    ensures Inv(Next(p, PostTerminate(id)))
  {
    hide Conserved, WorkerOk;
    var m := Msg(Terminate, id);
    var q := Next(p, PostTerminate(id));
    PostKeepsConserved(p, m);
    PostKeepsWorkers(p, m);
    SameLists(Post(p, m), q);
    OneMoreMsg(p.queue, m);
  }

  /** Conservation and the workers' account look at nothing but the lists. */
  lemma SameLists(p: Pool, q: Pool)
    requires p.capacity == q.capacity && p.queue == q.queue && p.posted == q.posted && p.gone == q.gone
    requires p.overrun == q.overrun && p.workers == q.workers
    ensures Conserved(p) == Conserved(q)
    ensures forall w :: 0 <= w < |p.workers| ==> WorkerOk(p, w) == WorkerOk(q, w)
  {
  }

  lemma DequeueKeepsConserved(p: Pool, w: nat)
    requires Conserved(p) && Enabled(p, Dequeue(w))
    ensures Conserved(Next(p, Dequeue(w)))
  {
  }

  lemma DequeueKeepsRequests(p: Pool, w: nat)
    requires Requests(p) && Enabled(p, Dequeue(w))
    ensures Requests(Next(p, Dequeue(w)))
  {
    OneMoreGone(p.gone, Gone(p.queue[0], w));
    FirstMsg(p.queue);
    OneWorkerChanged(p.workers, w, Busy(p.queue[0]));
  }

  lemma DequeueKeepsWorkers(p: Pool, w: nat)
    requires Enabled(p, Dequeue(w)) && forall x :: 0 <= x < |p.workers| ==> WorkerOk(p, x)
    ensures forall x :: 0 <= x < |p.workers| ==> WorkerOk(Next(p, Dequeue(w)), x)
  {
    var q := Next(p, Dequeue(w));
    OneMoreGone(p.gone, Gone(p.queue[0], w));
    OneMoreMsg(Taken(p.gone, w), p.queue[0]);
    forall x | 0 <= x < |p.workers|
      ensures WorkerOk(q, x)
    {
      assert WorkerOk(p, x);
    }
  }

  lemma DequeueKeeps(p: Pool, w: nat)
    requires Inv(p) && Enabled(p, Dequeue(w))
    ensures Inv(Next(p, Dequeue(w)))
  {
    hide Conserved, Requests, WorkerOk;
    DequeueKeepsConserved(p, w);
    DequeueKeepsRequests(p, w);
    DequeueKeepsWorkers(p, w);
  }

  lemma HandleKeeps(p: Pool, w: nat)
    requires Inv(p) && Enabled(p, Handle(w))
    ensures Inv(Next(p, Handle(w)))
  {
    var q := Next(p, Handle(w));
    OneWorkerChanged(p.workers, w, q.workers[w]);
    forall x | 0 <= x < |q.workers|
      ensures WorkerOk(q, x)
    {
      assert WorkerOk(p, x);
    }
  }

  lemma StepKeepsInv(p: Pool, step: Step)
    requires Inv(p) && Enabled(p, step)
    ensures Inv(Next(p, step))
  {
    match step
    case Enqueue(m) => PostKeeps(p, m);
    case EnqueueNowait(m) => PostKeeps(p, m);
    case PostTerminate(id) => TerminateKeeps(p, id);
    case Dequeue(w) => DequeueKeeps(p, w);
    case Handle(w) => HandleKeeps(p, w);
    case _ =>
      var q := Next(p, step);
      assert forall w :: 0 <= w < |p.workers| ==> WorkerOk(p, w) ==> WorkerOk(q, w);
  }

  lemma StartInv(capacity: nat, threads: nat)
    ensures Inv(Start(capacity, threads))
  {
    NoneStopping(Start(capacity, threads).workers);
  }

  /** The invariant holds in every reachable pool, whatever the interleaving. */
  lemma {:induction false} RunKeepsInv(p: Pool, steps: seq<Step>, q: Pool)
    requires Inv(p) && Reaches(p, steps, q)
    ensures Inv(q)
    decreases |steps|
  {
    if steps != [] {
      StepKeepsInv(p, steps[0]);
      RunKeepsInv(Next(p, steps[0]), steps[1..], q);
    }
  }

  // ---- First in, first out ----

  /** The messages the workers took, in the order in which they left the queue. */
  function Popped(gone: seq<Gone>): seq<Msg> {
    if gone == [] then []
    else
      var before := Popped(gone[..|gone| - 1]);
      if gone[|gone| - 1].taker == NOBODY then before else before + [gone[|gone| - 1].msg]
  }

  lemma {:induction false} PoppedOrOverrun(gone: seq<Gone>)
    ensures |Popped(gone)| + |Taken(gone, NOBODY)| == |Msgs(gone)|
    ensures Taken(gone, NOBODY) == [] ==> Popped(gone) == Msgs(gone)
  {
    if gone != [] {
      PoppedOrOverrun(gone[..|gone| - 1]);
    }
  }

  /**
   * In every interleaving: every posted message has been popped, waits, or is counted as
   * overrun; and as long as nothing was overrun, what was popped followed by what waits is what
   * was posted, in that order.
   */
  lemma NothingIsLost(capacity: nat, threads: nat, steps: seq<Step>, p: Pool)
    requires Reaches(Start(capacity, threads), steps, p)
    ensures |p.posted| == |Popped(p.gone)| + |p.queue| + p.overrun
    ensures p.posted == Msgs(p.gone) + p.queue
    ensures p.overrun == 0 ==> p.posted == Popped(p.gone) + p.queue
  {
    StartInv(capacity, threads);
    RunKeepsInv(Start(capacity, threads), steps, p);
    PoppedOrOverrun(p.gone);
  }

  /** Producers that wait for room never push anything out. */
  lemma {:induction false} BlockingLosesNothing(p: Pool, steps: seq<Step>, q: Pool)
    requires Reaches(p, steps, q) && forall i :: 0 <= i < |steps| ==> !steps[i].EnqueueNowait?
    ensures q.overrun == p.overrun
    decreases |steps|
  {
    if steps != [] {
      assert !steps[0].EnqueueNowait?;
      BlockingLosesNothing(Next(p, steps[0]), steps[1..], q);
    }
  }

  // ---- How much the queue holds ----

  function Posts(ms: seq<Msg>, nowait: bool): (steps: seq<Step>)
    ensures |steps| == |ms|
    ensures forall i :: 0 <= i < |ms| ==> steps[i] == if nowait then EnqueueNowait(ms[i]) else Enqueue(ms[i])
  {
    seq(|ms|, i requires 0 <= i < |ms| => if nowait then EnqueueNowait(ms[i]) else Enqueue(ms[i]))
  }

  lemma PostsFirst(ms: seq<Msg>, nowait: bool)
    requires ms != []
    ensures Posts(ms, nowait)[1..] == Posts(ms[1..], nowait)
    ensures Posts(ms, nowait)[0] == if nowait then EnqueueNowait(ms[0]) else Enqueue(ms[0])
  {
  }

  ghost predicate NoTerminate(ms: seq<Msg>) {
    forall m :: m in ms ==> m.kind != Terminate
  }

  lemma OneStep(p: Pool, steps: seq<Step>, q: Pool)
    requires steps != [] && Enabled(p, steps[0]) && Reaches(Next(p, steps[0]), steps[1..], q)
    ensures Reaches(p, steps, q)
  {
  }

  lemma NoStep(p: Pool)
    ensures Reaches(p, [], p)
  {
  }

  /** Producers that wait can fill the queue to the last place. */
  lemma {:induction false} QueueFillsUp(p: Pool, ms: seq<Msg>)
    requires p.owner == Working && NoTerminate(ms) && |p.queue| + |ms| <= p.capacity
    ensures Reaches(p, Posts(ms, false), p.(queue := p.queue + ms, posted := p.posted + ms))
    decreases |ms|
  {
    hide Reaches, Posts;
    if ms == [] {
      NoStep(p);
      assert p.queue + ms == p.queue && p.posted + ms == p.posted && Posts(ms, false) == [];
    } else {
      var p' := Next(p, Enqueue(ms[0]));
      QueueFillsUp(p', ms[1..]);
      PostsFirst(ms, false);
      assert p'.queue + ms[1..] == p.queue + ms && p'.posted + ms[1..] == p.posted + ms;
      assert p'.(queue := p.queue + ms, posted := p.posted + ms) == p.(queue := p.queue + ms, posted := p.posted + ms);
      OneStep(p, Posts(ms, false), p.(queue := p.queue + ms, posted := p.posted + ms));
    }
  }

  /** The newest messages that the queue has room for. */
  function Newest(s: seq<Msg>, capacity: nat): seq<Msg> {
    if |s| <= capacity then s else s[|s| - capacity..]
  }

  lemma NewestOfFew(s: seq<Msg>, capacity: nat)
    requires |s| <= capacity
    ensures Newest(s, capacity) == s
  {
  }

  lemma NewestNext(s: seq<Msg>, m: Msg, t: seq<Msg>, capacity: nat)
    requires |s| <= capacity
    ensures Newest(Pushed(s, m, capacity) + t, capacity) == Newest(s + ([m] + t), capacity)
  {
    if |s| == capacity {
      assert Pushed(s, m, capacity) + t == (s + ([m] + t))[1..];
    } else {
      assert Pushed(s, m, capacity) + t == s + ([m] + t);
    }
  }

  lemma PostedNowait(p: Pool, m: Msg)
    requires |p.queue| <= p.capacity
    ensures var p' := Post(p, m);
            && p'.queue == Pushed(p.queue, m, p.capacity) && p'.posted == p.posted + [m] && p'.capacity == p.capacity
            && p'.overrun + |p'.queue| == p.overrun + |p.queue| + 1 && p'.owner == p.owner
            && |p'.queue| <= p.capacity
  {
  }

  /** Producers that do not wait leave the newest messages in the queue; all others are counted as overrun. */
  lemma {:induction false} NewestStay(p: Pool, ms: seq<Msg>) returns (q: Pool)
    requires p.owner == Working && NoTerminate(ms) && |p.queue| <= p.capacity
    ensures Reaches(p, Posts(ms, true), q)
    ensures q.queue == Newest(p.queue + ms, p.capacity) && q.posted == p.posted + ms
    ensures q.overrun + |q.queue| == p.overrun + |p.queue| + |ms|
    decreases |ms|
  {
    hide Reaches, Posts, Post, Newest;
    if ms == [] {
      q := p;
      NoStep(p);
      assert p.queue + ms == p.queue && p.posted + ms == p.posted && Posts(ms, true) == [];
      NewestOfFew(p.queue, p.capacity);
    } else {
      var p' := Next(p, EnqueueNowait(ms[0]));
      PostedNowait(p, ms[0]);
      q := NewestStay(p', ms[1..]);
      PostsFirst(ms, true);
      OneStep(p, Posts(ms, true), q);
      assert ms == [ms[0]] + ms[1..];
      NewestNext(p.queue, ms[0], ms[1..], p.capacity);
      assert p'.posted + ms[1..] == p.posted + ms;
    }
  }

  // ---- Shutdown ----

  /** The destructor has joined every worker. */
  predicate Through(p: Pool) {
    p.owner == Joining(|p.workers|)
  }

  predicate Progress(step: Step) {
    !step.Timeout?
  }

  lemma {:induction false} StoppingBound(ws: seq<Worker>)
    ensures CountStopping(ws) <= |ws|
    ensures CountStopping(ws) == |ws| <==> forall w :: 0 <= w < |ws| ==> Stopping(ws[w])
  {
    if ws != [] {
      var front := ws[..|ws| - 1];
      StoppingBound(front);
      assert forall w :: 0 <= w < |front| ==> front[w] == ws[w];
    }
  }

  /** A worker that has not stopped can go on, provided there is something to take. */
  lemma SomebodyCanGoOn(p: Pool, w: nat)
    requires w < |p.workers| && p.workers[w] != Exited && (p.workers[w] == Idle ==> p.queue != [])
    ensures exists step :: Enabled(p, step) && Progress(step)
  {
    if p.workers[w] == Idle {
      assert Enabled(p, Dequeue(w));
    } else {
      assert Enabled(p, Handle(w));
    }
  }

  /** Once shutdown has begun, some step other than a worker's timeout is possible until every worker is joined. */
  lemma NoDeadlock(p: Pool)
    requires Inv(p) && p.capacity > 0 && p.owner != Working && !Through(p)
    ensures exists step :: Enabled(p, step) && Progress(step)
  {
    hide WorkerOk;
    StoppingBound(p.workers);
    match p.owner
    case Posting(k) =>
      if k == |p.workers| {
        assert Enabled(p, BeginJoin);
      } else if |p.queue| < p.capacity {
        assert Enabled(p, PostTerminate(0));
      } else {
        var w :| 0 <= w < |p.workers| && !Stopping(p.workers[w]);
        SomebodyCanGoOn(p, w);
      }
    case Joining(j) =>
      if p.workers[j] == Exited {
        assert Enabled(p, Join);
      } else {
        SomebodyCanGoOn(p, j);
      }
  }

  function CountBusy(ws: seq<Worker>): nat {
    if ws == [] then 0 else CountBusy(ws[..|ws| - 1]) + if ws[|ws| - 1].Busy? then 1 else 0
  }

  lemma {:induction false} BusyChanged(ws: seq<Worker>, w: nat, x: Worker)
    requires w < |ws|
    ensures CountBusy(ws[w := x]) + (if ws[w].Busy? then 1 else 0) == CountBusy(ws) + if x.Busy? then 1 else 0
  {
    var n := |ws| - 1;
    if w == n {
      assert ws[w := x][..n] == ws[..n];
    } else {
      BusyChanged(ws[..n], w, x);
      assert ws[w := x][..n] == ws[..n][w := x];
    }
  }

  /** What is left to do from here to the end of the shutdown. */
  function Remaining(p: Pool): int {
    var n := |p.workers|;
    3 * (n - Requested(p)) + 2 * |p.queue| + CountBusy(p.workers) +
    match p.owner
    case Joining(j) => n - j
    case _ => n + 1
  }

  lemma RemainingDrops(p: Pool, step: Step)
    requires Enabled(p, step) && p.owner != Working && Progress(step)
    ensures Remaining(Next(p, step)) < Remaining(p) && Next(p, step).owner != Working
  {
    match step
    case Dequeue(w) => BusyChanged(p.workers, w, Busy(p.queue[0]));
    case Handle(w) => BusyChanged(p.workers, w, Next(p, step).workers[w]);
    case _ =>
  }

  /** However the steps interleave, a shutdown takes only so many of them. */
  lemma {:induction false} ShutdownIsBounded(p: Pool, steps: seq<Step>, q: Pool)
    requires Inv(p) && p.owner != Working && Reaches(p, steps, q)
    requires forall i :: 0 <= i < |steps| ==> Progress(steps[i])
    ensures |steps| <= Remaining(p)
    decreases |steps|
  {
    hide WorkerOk, Conserved, CountStopping, Terminates;
    if steps != [] {
      assert Progress(steps[0]);
      RemainingDrops(p, steps[0]);
      StepKeepsInv(p, steps[0]);
      ShutdownIsBounded(Next(p, steps[0]), steps[1..], q);
    }
  }

  /** A shutdown that can go no further has joined every worker. */
  lemma ShutdownEndsJoined(capacity: nat, threads: nat, steps: seq<Step>, p: Pool)
    requires capacity > 0 && Reaches(Start(capacity, threads), steps, p) && p.owner != Working
    requires forall step :: Enabled(p, step) ==> !Progress(step)
    ensures Through(p)
  {
    StartInv(capacity, threads);
    RunKeepsInv(Start(capacity, threads), steps, p);
    CapacityConstant(Start(capacity, threads), steps, p);
    if !Through(p) {
      NoDeadlock(p);
    }
  }

  lemma {:induction false} CapacityConstant(p: Pool, steps: seq<Step>, q: Pool)
    requires Reaches(p, steps, q)
    ensures q.capacity == p.capacity && |q.workers| == |p.workers|
    decreases |steps|
  {
    if steps != [] {
      CapacityConstant(Next(p, steps[0]), steps[1..], q);
    }
  }

  lemma QueueTail(p: Pool)
    requires Conserved(p) && p.queue != []
    ensures p.queue[|p.queue| - 1] == p.posted[|p.posted| - 1]
  {
  }

  lemma LastIsCounted(s: seq<Msg>)
    requires s != [] && s[|s| - 1].kind == Terminate
    ensures Terminates(s) > 0
  {
  }

  /**
   * When the destructor returns, the queue is empty, every message ever posted was taken and
   * handled by a worker or counted as overrun, and every worker took one terminate message,
   * its last.
   */
  lemma JoinedMeansDone(p: Pool)
    requires Inv(p) && Through(p) && |p.workers| > 0
    ensures p.queue == [] && p.posted == Msgs(p.gone) && |p.posted| == |Popped(p.gone)| + p.overrun
    ensures forall w :: 0 <= w < |p.workers| ==>
              && p.workers[w] == Exited
              && Taken(p.gone, w) != []
              && Taken(p.gone, w)[|Taken(p.gone, w)| - 1].kind == Terminate
              && Terminates(Taken(p.gone, w)) == 1
    ensures Terminates(Taken(p.gone, NOBODY)) == 0
  {
    StoppingBound(p.workers);
    PoppedOrOverrun(p.gone);
    if p.queue != [] {
      QueueTail(p);
      LastIsCounted(p.queue);
    }
    forall w | 0 <= w < |p.workers|
      ensures p.workers[w] == Exited && Terminates(Taken(p.gone, w)) == 1
      ensures Taken(p.gone, w) != [] && Taken(p.gone, w)[|Taken(p.gone, w)| - 1].kind == Terminate
    {
      assert WorkerOk(p, w);
    }
  }

  /** With a queue of no capacity, which is always full, the destructor waits for room for ever. */
  lemma {:induction false} NoRoomNoShutdown(p: Pool, steps: seq<Step>, q: Pool)
    requires p.capacity == 0 && |p.workers| > 0 && p.owner == Posting(0) && Reaches(p, steps, q)
    ensures q.owner == Posting(0) && !Through(q)
    decreases |steps|
  {
    if steps != [] {
      NoRoomNoShutdown(Next(p, steps[0]), steps[1..], q);
    }
  }
}
