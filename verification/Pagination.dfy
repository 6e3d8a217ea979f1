/** Concurrent pagination of Kapacitor tasks (kapacitor/kapa_client.go).

    `ListTasks` starts a generator, four fetching workers and a gatherer, joined by an
    unbuffered option channel, a bounded task channel, a `done` channel and two wait groups.
    The module is a transition system whose steps are the atomic actions of those goroutines;
    the theorems hold for every interleaving, every outcome of every fetch, every task
    collection on the server and every positive fetch rate. */
module Pagination {

  const LIST_TASK_WORKERS: nat := 4

  datatype Task = Task(id: string)

  /** What does not change during a call: the server's tasks and the client's page size. */
  datatype Client = Client(server: seq<Task>, fetchRate: nat)

  datatype Worker =
    | Receiving                  // at `range optChan`
    | Fetching(offset: nat)      // option received, request in flight
    | Closing                    // an empty page came back, about to run closer.Do
    | Sending(resp: seq<Task>)   // at `taskChan <- resp`
    | Returning                  // about to run the deferred wg.Done
    | Exited

  datatype Caller = AtWait | AtClose | AtGatherWait | Returned

  datatype State = State(
    offset: nat,                 // opts.Offset of the generator
    optClosed: bool,             // optChan closed, generator returned
    doneClosed: bool,
    once: bool,                  // the sync.Once has run
    workers: seq<Worker>,
    wg: nat,
    taskChan: seq<seq<Task>>,
    taskClosed: bool,
    gathering: bool,             // the gatherer has not left its loop
    gatherWg: nat,
    caller: Caller,
    allTasks: seq<Task>,
    panicked: bool,              // send on or close of a closed channel, negative wait group
    lost: multiset<Task>,        // history: tasks of pages whose fetch failed
    failures: nat)               // history: number of failed fetches

  datatype Step =
    | Offer(w: nat)              // the generator hands its options to worker w
    | SeeDone                    // the generator sees `done`, closes optChan and returns
    | SeeClosed(w: nat)          // worker w finds optChan closed
    | Fetch(w: nat)              // the request of worker w succeeds
    | Fail(w: nat)               // the request of worker w fails
    | CloseDone(w: nat)
    | Send(w: nat)
    | WorkerDone(w: nat)
    | WaitWorkers                // wg.Wait returns
    | CloseTasks
    | Gather
    | GatherDone
    | WaitGatherer               // gatherWg.Wait returns

  function Page(c: Client, offset: nat): seq<Task> {
    var n := |c.server|;
    if offset >= n then []
    else if offset + c.fetchRate >= n then c.server[offset..]
    else c.server[offset..offset + c.fetchRate]
  }

  /** The tasks of all pages below an offset. */
  function Issued(c: Client, offset: nat): seq<Task> {
    if offset >= |c.server| then c.server else c.server[..offset]
  }

  function Init(): State {
    State(0, false, false, false, seq(LIST_TASK_WORKERS, _ => Receiving), LIST_TASK_WORKERS,
          [], false, true, 1, AtWait, [], false, multiset{}, 0)
  }

  predicate Enabled(s: State, step: Step) {
    !s.panicked &&
    match step
    case Offer(w) => !s.optClosed && w < |s.workers| && s.workers[w].Receiving?
    case SeeDone => !s.optClosed && s.doneClosed
    case SeeClosed(w) => s.optClosed && w < |s.workers| && s.workers[w].Receiving?
    case Fetch(w) => w < |s.workers| && s.workers[w].Fetching?
    case Fail(w) => w < |s.workers| && s.workers[w].Fetching?
    case CloseDone(w) => w < |s.workers| && s.workers[w].Closing?
    case Send(w) => w < |s.workers| && s.workers[w].Sending? && (s.taskClosed || |s.taskChan| < LIST_TASK_WORKERS)
    case WorkerDone(w) => w < |s.workers| && s.workers[w].Returning?
    case WaitWorkers => s.caller == AtWait && s.wg == 0
    case CloseTasks => s.caller == AtClose
    case Gather => s.gathering && s.taskChan != []
    case GatherDone => s.gathering && s.taskChan == [] && s.taskClosed
    case WaitGatherer => s.caller == AtGatherWait && s.gatherWg == 0
  }

  /** An empty page makes the worker close `done`; any other page goes to the gatherer. */
  function Fetched(resp: seq<Task>): Worker {
    if |resp| == 0 then Closing else Sending(resp)
  }

  function Do(c: Client, s: State, step: Step): State
    requires Enabled(s, step)
  {
    match step
    case Offer(w) =>
      s.(workers := s.workers[w := Fetching(s.offset)], offset := c.fetchRate + s.offset)
    case SeeDone => s.(optClosed := true)
    case SeeClosed(w) => s.(workers := s.workers[w := Returning])
    case Fetch(w) =>
      s.(workers := s.workers[w := Fetched(Page(c, s.workers[w].offset))])
    case Fail(w) =>
      s.(workers := s.workers[w := Returning],
         lost := s.lost + multiset(Page(c, s.workers[w].offset)), failures := s.failures + 1)
    case CloseDone(w) =>
      var s' := s.(workers := s.workers[w := Returning], once := true);
      if s.once then s' else s'.(doneClosed := true, panicked := s.doneClosed)
    case Send(w) =>
      if s.taskClosed then s.(panicked := true)
      else s.(workers := s.workers[w := Receiving], taskChan := s.taskChan + [s.workers[w].resp])
    case WorkerDone(w) =>
      if s.wg == 0 then s.(panicked := true)
      else s.(workers := s.workers[w := Exited], wg := s.wg - 1)
    case WaitWorkers => s.(caller := AtClose)
    case CloseTasks => s.(caller := AtGatherWait, taskClosed := true, panicked := s.taskClosed)
    case Gather => s.(taskChan := s.taskChan[1..], allTasks := s.allTasks + s.taskChan[0])
    case GatherDone =>
      if s.gatherWg == 0 then s.(panicked := true)
      else s.(gathering := false, gatherWg := s.gatherWg - 1)
    case WaitGatherer => s.(caller := Returned)
  }

  /** A run: every prefix of an interleaving, with the states it passes through. */
  ghost predicate Run(c: Client, steps: seq<Step>, states: seq<State>) {
    && |states| == |steps| + 1
    && states[0] == Init()
    && forall i :: 0 <= i < |steps| ==>
         Enabled(states[i], steps[i]) && states[i + 1] == Do(c, states[i], steps[i])
  }

  // ---------------------------------------------------------------- conservation

  /** Tasks a worker is answerable for: handed to it and not yet passed on. */
  function Held(c: Client, w: Worker): multiset<Task> {
    match w
    case Fetching(offset) => multiset(Page(c, offset))
    case Sending(resp) => multiset(resp)
    case _ => multiset{}
  }

  function HeldByAll(c: Client, ws: seq<Worker>): multiset<Task> {
    if ws == [] then multiset{} else Held(c, ws[0]) + HeldByAll(c, ws[1..])
  }

  function Queued(q: seq<seq<Task>>): multiset<Task> {
    if q == [] then multiset{} else multiset(q[0]) + Queued(q[1..])
  }

  function Alive(ws: seq<Worker>): nat {
    if ws == [] then 0 else (if ws[0].Exited? then 0 else 1) + Alive(ws[1..])
  }

  lemma Shift(h: multiset<Task>, t: multiset<Task>, t': multiset<Task>, a: multiset<Task>, b: multiset<Task>)
    requires t' + a == t + b
    ensures (h + t') + a == (h + t) + b
  {
    assert (h + t') + a == h + (t' + a);
  }

  lemma {:induction false} HeldAfterUpdate(c: Client, ws: seq<Worker>, i: nat, w: Worker)
    requires i < |ws|
    ensures HeldByAll(c, ws[i := w]) + Held(c, ws[i]) == HeldByAll(c, ws) + Held(c, w)
  {
    var ws' := ws[i := w];
    if i == 0 {
      assert ws'[1..] == ws[1..];
    } else {
      assert ws'[1..] == ws[1..][i - 1 := w];
      HeldAfterUpdate(c, ws[1..], i - 1, w);
      Shift(Held(c, ws[0]), HeldByAll(c, ws[1..]), HeldByAll(c, ws'[1..]), Held(c, ws[i]), Held(c, w));
    }
  }

  lemma {:induction false} AliveAfterUpdate(ws: seq<Worker>, i: nat, w: Worker)
    requires i < |ws|
    ensures Alive(ws[i := w]) + (if ws[i].Exited? then 0 else 1) == Alive(ws) + (if w.Exited? then 0 else 1)
  {
    if i == 0 {
      assert ws[i := w][1..] == ws[1..];
    } else {
      assert ws[i := w][1..] == ws[1..][i - 1 := w];
      AliveAfterUpdate(ws[1..], i - 1, w);
    }
  }

  lemma {:induction false} NoneAlive(ws: seq<Worker>)
    ensures Alive(ws) == 0 <==> forall i :: 0 <= i < |ws| ==> ws[i].Exited?
  {
    if ws != [] {
      NoneAlive(ws[1..]);
      assert forall i :: 1 <= i < |ws| ==> ws[i] == ws[1..][i - 1];
    }
  }

  lemma {:induction false} NothingHeld(c: Client, ws: seq<Worker>)
    requires forall i :: 0 <= i < |ws| ==> ws[i].Exited?
    ensures HeldByAll(c, ws) == multiset{}
  {
    if ws != [] { NothingHeld(c, ws[1..]); }
  }

  lemma {:induction false} QueuedAppend(q: seq<seq<Task>>, page: seq<Task>)
    ensures Queued(q + [page]) == Queued(q) + multiset(page)
  {
    if q != [] {
      assert (q + [page])[1..] == q[1..] + [page];
      QueuedAppend(q[1..], page);
    }
  }

  lemma NextPage(c: Client, offset: nat)
    ensures Issued(c, offset + c.fetchRate) == Issued(c, offset) + Page(c, offset)
  {
  }

  // ---------------------------------------------------------------- the invariant

  ghost predicate Conserved(c: Client, s: State) {
    multiset(s.allTasks) + Queued(s.taskChan) + HeldByAll(c, s.workers) + s.lost == multiset(Issued(c, s.offset))
  }

  /** Where a worker can be, given how far the generator got. */
  ghost predicate WorkerOk(c: Client, s: State, w: Worker) {
    match w
    case Receiving => true
    case Fetching(offset) => offset + c.fetchRate <= s.offset
    case Closing => s.offset >= |c.server|
    case Sending(resp) => resp != []
    case Returning => s.failures > 0 || s.doneClosed
    case Exited => s.failures > 0 || s.doneClosed
  }

  ghost predicate Inv(c: Client, s: State) {
    Safe(c, s) && Conserved(c, s)
  }

  ghost predicate Safe(c: Client, s: State) {
    && !s.panicked
    && |s.workers| == LIST_TASK_WORKERS
    && (forall i :: 0 <= i < |s.workers| ==> WorkerOk(c, s, s.workers[i]))
    && s.wg == Alive(s.workers)
    && (s.once <==> s.doneClosed)
    && (s.doneClosed ==> s.offset >= |c.server|)
    && (s.optClosed ==> s.doneClosed)
    && (s.caller != AtWait ==> s.wg == 0)
    && (s.taskClosed <==> s.caller == AtGatherWait || s.caller == Returned)
    && (!s.gathering ==> s.taskClosed && s.taskChan == [])
    && s.gatherWg == (if s.gathering then 1 else 0)
    && (s.caller == Returned ==> !s.gathering)
    && (s.failures == 0 ==> s.lost == multiset{})
    && (s.failures > 0 && s.lost == multiset{} ==> s.offset >= |c.server|)
  }

  lemma {:induction false} AllReceiving(c: Client, ws: seq<Worker>)
    requires forall i :: 0 <= i < |ws| ==> ws[i] == Receiving
    ensures HeldByAll(c, ws) == multiset{} && Alive(ws) == |ws| && WeightOfAll(c, ws) == 4 * |ws|
  {
    if ws != [] { AllReceiving(c, ws[1..]); }
  }

  lemma InitInv(c: Client)
    ensures Inv(c, Init())
  {
    AllReceiving(c, Init().workers);
  }

  /** One worker's holding changes from h to h'; what it gave up went to the queue or was lost,
      and what it took on was newly issued. */
  lemma Balance(c: Client, s: State, s': State, w: nat, x: Worker)
    requires Conserved(c, s) && w < |s.workers| && s'.workers == s.workers[w := x] && s'.allTasks == s.allTasks
    requires Queued(s'.taskChan) + s'.lost + Held(c, x) + multiset(Issued(c, s.offset))
          == Queued(s.taskChan) + s.lost + Held(c, s.workers[w]) + multiset(Issued(c, s'.offset))
    ensures Conserved(c, s')
  {
    HeldAfterUpdate(c, s.workers, w, x);
    Flow(multiset(s.allTasks), Queued(s.taskChan), HeldByAll(c, s.workers), s.lost, multiset(Issued(c, s.offset)),
         Queued(s'.taskChan), HeldByAll(c, s'.workers), s'.lost, multiset(Issued(c, s'.offset)),
         Held(c, s.workers[w]), Held(c, x));
  }

  lemma Flow(a: multiset<Task>, q: multiset<Task>, h: multiset<Task>, l: multiset<Task>, i: multiset<Task>,
             q': multiset<Task>, h': multiset<Task>, l': multiset<Task>, i': multiset<Task>,
             before: multiset<Task>, after: multiset<Task>)
    requires a + q + h + l == i && h' + before == h + after
    requires q' + l' + after + i == q + l + before + i'
    ensures a + q' + h' + l' == i'
  {
    forall t ensures (a + q' + h' + l')[t] == i'[t] {
      assert (a + q + h + l)[t] == i[t] && (h' + before)[t] == (h + after)[t];
      assert (q' + l' + after + i)[t] == (q + l + before + i')[t];
    }
  }

  lemma SameHolding(c: Client, s: State, s': State, w: nat, x: Worker)
    requires Conserved(c, s) && w < |s.workers| && s'.workers == s.workers[w := x]
    requires Held(c, x) == Held(c, s.workers[w])
    requires s'.allTasks == s.allTasks && s'.taskChan == s.taskChan && s'.lost == s.lost && s'.offset == s.offset
    ensures Conserved(c, s')
  {
    HeldAfterUpdate(c, s.workers, w, x);
    var h, h' := HeldByAll(c, s.workers), HeldByAll(c, s'.workers);
    forall t ensures h'[t] == h[t] {
      assert (h' + Held(c, x))[t] == (h + Held(c, x))[t];
    }
    assert h' == h;
  }

  lemma OfferConserved(c: Client, s: State, w: nat)
    requires Conserved(c, s) && Enabled(s, Offer(w)) && !Do(c, s, Offer(w)).panicked
    ensures Conserved(c, Do(c, s, Offer(w)))
  {
    NextPage(c, s.offset);
    Balance(c, s, Do(c, s, Offer(w)), w, Fetching(s.offset));
  }

  lemma OfferSafe(c: Client, s: State, w: nat)
    requires Safe(c, s) && Enabled(s, Offer(w))
    ensures Safe(c, Do(c, s, Offer(w)))
  {
    AliveAfterUpdate(s.workers, w, Fetching(s.offset));
    NoneAlive(s.workers);
  }

  lemma SeeClosedConserved(c: Client, s: State, w: nat)
    requires Conserved(c, s) && Enabled(s, SeeClosed(w)) && !Do(c, s, SeeClosed(w)).panicked
    ensures Conserved(c, Do(c, s, SeeClosed(w)))
  {
    SameHolding(c, s, Do(c, s, SeeClosed(w)), w, Returning);
  }

  lemma SeeClosedSafe(c: Client, s: State, w: nat)
    requires Safe(c, s) && Enabled(s, SeeClosed(w))
    ensures Safe(c, Do(c, s, SeeClosed(w)))
  {
    AliveAfterUpdate(s.workers, w, Returning);
    NoneAlive(s.workers);
  }

  lemma FetchConserved(c: Client, s: State, w: nat)
    requires Conserved(c, s) && Enabled(s, Fetch(w)) && !Do(c, s, Fetch(w)).panicked
    ensures Conserved(c, Do(c, s, Fetch(w)))
  {
    var page := Page(c, s.workers[w].offset);
    SameHolding(c, s, Do(c, s, Fetch(w)), w, Fetched(page));
  }

  lemma FetchSafe(c: Client, s: State, w: nat)
    requires c.fetchRate > 0 && Safe(c, s) && Enabled(s, Fetch(w))
    ensures Safe(c, Do(c, s, Fetch(w)))
  {
    AliveAfterUpdate(s.workers, w, Do(c, s, Fetch(w)).workers[w]);
    NoneAlive(s.workers);
  }

  lemma FailConserved(c: Client, s: State, w: nat)
    requires Conserved(c, s) && Enabled(s, Fail(w)) && !Do(c, s, Fail(w)).panicked
    ensures Conserved(c, Do(c, s, Fail(w)))
  {
    Balance(c, s, Do(c, s, Fail(w)), w, Returning);
  }

  /** A failed fetch that loses nothing was past the last task. */
  lemma FailSafe(c: Client, s: State, w: nat)
    requires c.fetchRate > 0 && Safe(c, s) && Enabled(s, Fail(w))
    ensures Safe(c, Do(c, s, Fail(w)))
  {
    var page := Page(c, s.workers[w].offset);
    assert |s.lost + multiset(page)| == |s.lost| + |page|;
    assert s.lost + multiset(page) == multiset{} ==> |page| == 0;
    AliveAfterUpdate(s.workers, w, Returning);
    NoneAlive(s.workers);
  }

  lemma CloseDoneConserved(c: Client, s: State, w: nat)
    requires Conserved(c, s) && Enabled(s, CloseDone(w)) && !Do(c, s, CloseDone(w)).panicked
    ensures Conserved(c, Do(c, s, CloseDone(w)))
  {
    SameHolding(c, s, Do(c, s, CloseDone(w)), w, Returning);
  }

  lemma CloseDoneSafe(c: Client, s: State, w: nat)
    requires Safe(c, s) && Enabled(s, CloseDone(w))
    ensures Safe(c, Do(c, s, CloseDone(w)))
  {
    AliveAfterUpdate(s.workers, w, Returning);
    NoneAlive(s.workers);
  }

  lemma SendConserved(c: Client, s: State, w: nat)
    requires Conserved(c, s) && Enabled(s, Send(w)) && !Do(c, s, Send(w)).panicked
    ensures Conserved(c, Do(c, s, Send(w)))
  {
    QueuedAppend(s.taskChan, s.workers[w].resp);
    Balance(c, s, Do(c, s, Send(w)), w, Receiving);
  }

  lemma SendSafe(c: Client, s: State, w: nat)
    requires Safe(c, s) && Enabled(s, Send(w))
    ensures Safe(c, Do(c, s, Send(w)))
  {
    NoneAlive(s.workers);
    AliveAfterUpdate(s.workers, w, Receiving);
  }

  lemma WorkerDoneConserved(c: Client, s: State, w: nat)
    requires Conserved(c, s) && Enabled(s, WorkerDone(w)) && !Do(c, s, WorkerDone(w)).panicked
    ensures Conserved(c, Do(c, s, WorkerDone(w)))
  {
    SameHolding(c, s, Do(c, s, WorkerDone(w)), w, Exited);
  }

  lemma WorkerDoneSafe(c: Client, s: State, w: nat)
    requires Safe(c, s) && Enabled(s, WorkerDone(w))
    ensures Safe(c, Do(c, s, WorkerDone(w)))
  {
    NoneAlive(s.workers);
    AliveAfterUpdate(s.workers, w, Exited);
  }

  lemma GatherConserved(c: Client, s: State)
    requires Conserved(c, s) && Enabled(s, Gather)
    ensures Conserved(c, Do(c, s, Gather))
  {
    var s' := Do(c, s, Gather);
    assert multiset(s'.allTasks) + Queued(s'.taskChan) == multiset(s.allTasks) + Queued(s.taskChan);
  }

  predicate WorkerStep(step: Step) {
    step.Offer? || step.SeeClosed? || step.Fetch? || step.Fail? || step.CloseDone? || step.Send? || step.WorkerDone?
  }

  lemma OtherStepSafe(c: Client, s: State, step: Step)
    requires Safe(c, s) && Enabled(s, step) && !WorkerStep(step)
    ensures Safe(c, Do(c, s, step))
  {
  }

  lemma StepSafe(c: Client, s: State, step: Step)
    requires c.fetchRate > 0 && Safe(c, s) && Enabled(s, step)
    ensures Safe(c, Do(c, s, step))
  {
    match step
    case Offer(w) => OfferSafe(c, s, w);
    case SeeClosed(w) => SeeClosedSafe(c, s, w);
    case Fetch(w) => FetchSafe(c, s, w);
    case Fail(w) => FailSafe(c, s, w);
    case CloseDone(w) => CloseDoneSafe(c, s, w);
    case Send(w) => SendSafe(c, s, w);
    case WorkerDone(w) => WorkerDoneSafe(c, s, w);
    case _ => OtherStepSafe(c, s, step);
  }

  lemma StepConserved(c: Client, s: State, step: Step)
    requires Conserved(c, s) && Enabled(s, step) && !Do(c, s, step).panicked
    ensures Conserved(c, Do(c, s, step))
  {
    match step
    case Offer(w) => OfferConserved(c, s, w);
    case SeeClosed(w) => SeeClosedConserved(c, s, w);
    case Fetch(w) => FetchConserved(c, s, w);
    case Fail(w) => FailConserved(c, s, w);
    case CloseDone(w) => CloseDoneConserved(c, s, w);
    case Send(w) => SendConserved(c, s, w);
    case WorkerDone(w) => WorkerDoneConserved(c, s, w);
    case Gather => GatherConserved(c, s);
    case _ =>
  }

  lemma StepInv(c: Client, s: State, step: Step)
    requires c.fetchRate > 0 && Inv(c, s) && Enabled(s, step)
    ensures Inv(c, Do(c, s, step))
  {
    StepSafe(c, s, step);
    StepConserved(c, s, step);
  }

  // ---------------------------------------------------------------- ranking

  /** Pages of the server from an offset on. */
  function PagesFrom(c: Client, offset: nat): nat
    requires c.fetchRate > 0
    decreases |c.server| - offset
  {
    if offset >= |c.server| then 0 else 1 + PagesFrom(c, offset + c.fetchRate)
  }

  function Weight(c: Client, w: Worker): nat {
    match w
    case Receiving => 4
    case Fetching(offset) => if offset < |c.server| then 7 else 3
    case Closing => 2
    case Sending(_) => 6
    case Returning => 1
    case Exited => 0
  }

  function WeightOfAll(c: Client, ws: seq<Worker>): nat {
    if ws == [] then 0 else Weight(c, ws[0]) + WeightOfAll(c, ws[1..])
  }

  function Rank(c: Client, s: State): nat
    requires c.fetchRate > 0
  {
    4 * PagesFrom(c, s.offset) + WeightOfAll(c, s.workers) + |s.taskChan|
    + (if s.optClosed then 0 else 1) + (if s.gathering then 1 else 0)
    + (match s.caller case AtWait => 3 case AtClose => 2 case AtGatherWait => 1 case Returned => 0)
  }

  lemma {:induction false} WeightAfterUpdate(c: Client, ws: seq<Worker>, i: nat, w: Worker)
    requires i < |ws|
    ensures WeightOfAll(c, ws[i := w]) + Weight(c, ws[i]) == WeightOfAll(c, ws) + Weight(c, w)
  {
    if i == 0 {
      assert ws[i := w][1..] == ws[1..];
    } else {
      assert ws[i := w][1..] == ws[1..][i - 1 := w];
      WeightAfterUpdate(c, ws[1..], i - 1, w);
    }
  }

  /** Moving one worker to a lighter place and touching nothing else that is ranked. */
  lemma LighterWorker(c: Client, s: State, s': State, w: nat, x: Worker)
    requires c.fetchRate > 0 && w < |s.workers|
    requires s'.workers == s.workers[w := x] && s'.optClosed == s.optClosed
    requires s'.gathering == s.gathering && s'.caller == s.caller
    requires 4 * PagesFrom(c, s'.offset) + Weight(c, x) + |s'.taskChan|
           < 4 * PagesFrom(c, s.offset) + Weight(c, s.workers[w]) + |s.taskChan|
    ensures Rank(c, s') < Rank(c, s)
  {
    WeightAfterUpdate(c, s.workers, w, x);
  }

  lemma WorkerStepDecreasesRank(c: Client, s: State, w: nat, step: Step)
    requires c.fetchRate > 0 && Safe(c, s) && Enabled(s, step) && step in StepsOf(w) && !step.Offer?
    ensures Rank(c, Do(c, s, step)) < Rank(c, s)
  {
    var s' := Do(c, s, step);
    NoneAlive(s.workers);
    if step.Fetch? {
      LighterWorker(c, s, s', w, s'.workers[w]);
    } else if step.Send? {
      LighterWorker(c, s, s', w, Receiving);
    } else if step.WorkerDone? {
      LighterWorker(c, s, s', w, Exited);
    } else {
      LighterWorker(c, s, s', w, Returning);
    }
  }

  lemma StepDecreasesRank(c: Client, s: State, step: Step)
    requires c.fetchRate > 0 && Safe(c, s) && Enabled(s, step)
    ensures Rank(c, Do(c, s, step)) < Rank(c, s)
  {
    match step
    case Offer(w) => LighterWorker(c, s, Do(c, s, step), w, Fetching(s.offset));
    case SeeClosed(w) => WorkerStepDecreasesRank(c, s, w, step);
    case Fetch(w) => WorkerStepDecreasesRank(c, s, w, step);
    case Fail(w) => WorkerStepDecreasesRank(c, s, w, step);
    case CloseDone(w) => WorkerStepDecreasesRank(c, s, w, step);
    case Send(w) => WorkerStepDecreasesRank(c, s, w, step);
    case WorkerDone(w) => WorkerStepDecreasesRank(c, s, w, step);
    case _ =>
  }

  lemma InitRank(c: Client)
    requires c.fetchRate > 0
    ensures Rank(c, Init()) == 4 * PagesFrom(c, 0) + 4 * LIST_TASK_WORKERS + 5
  {
    AllReceiving(c, Init().workers);
  }

  // ---------------------------------------------------------------- theorems over all runs

  /** In every run nothing is sent on a closed channel, no channel is closed twice and no wait
      group goes negative (`Inv` says `!panicked`), and no run is longer than the bound. */
  lemma {:induction false} EveryRun(c: Client, steps: seq<Step>, states: seq<State>)
    requires c.fetchRate > 0 && Run(c, steps, states)
    ensures Inv(c, states[|steps|])
    ensures |steps| + Rank(c, states[|steps|]) <= 4 * PagesFrom(c, 0) + 4 * LIST_TASK_WORKERS + 5
    decreases |steps|
  {
    if |steps| == 0 {
      InitInv(c);
      InitRank(c);
    } else {
      var k := |steps| - 1;
      EveryRun(c, steps[..k], states[..k + 1]);
      StepInv(c, states[k], steps[k]);
      StepDecreasesRank(c, states[k], steps[k]);
    }
  }

  /** No deadlock: until `ListTasks` returns, some goroutine can move. */
  lemma Progress(c: Client, steps: seq<Step>, states: seq<State>) returns (next: Step)
    requires c.fetchRate > 0 && Run(c, steps, states)
    requires states[|steps|].caller != Returned
    ensures Enabled(states[|steps|], next)
  {
    EveryRun(c, steps, states);
    next := SomeStep(c, states[|steps|]);
  }

  lemma SomeStep(c: Client, s: State) returns (next: Step)
    requires Inv(c, s) && s.caller != Returned
    ensures Enabled(s, next) && next in AllSteps()
  {
    NoneAlive(s.workers);
    if s.caller == AtClose {
      next := CloseTasks;
    } else if s.caller == AtGatherWait {
      next := if !s.gathering then WaitGatherer else if s.taskChan != [] then Gather else GatherDone;
    } else if s.wg == 0 {
      next := WaitWorkers;
    } else if |s.taskChan| == LIST_TASK_WORKERS {
      next := Gather;
    } else if s.taskChan != [] {
      next := Gather;
    } else {
      var w :| 0 <= w < |s.workers| && !s.workers[w].Exited?;
      next := match s.workers[w]
        case Receiving => if s.optClosed then SeeClosed(w) else Offer(w)
        case Fetching(_) => Fetch(w)
        case Closing => CloseDone(w)
        case Sending(_) => Send(w)
        case Returning => WorkerDone(w)
        case Exited => SeeDone;
      assert w in {0, 1, 2, 3};
    }
  }

  function StepsOf(w: nat): set<Step> {
    {Offer(w), SeeClosed(w), Fetch(w), Fail(w), CloseDone(w), Send(w), WorkerDone(w)}
  }

  function AllSteps(): set<Step> {
    StepsOf(0) + StepsOf(1) + StepsOf(2) + StepsOf(3)
    + {SeeDone, WaitWorkers, CloseTasks, Gather, GatherDone, WaitGatherer}
  }

  /** What `ListTasks` returns, with or without failing fetches. The list and the pages whose
      fetch failed are together the pages handed out, each exactly once, and without a failure
      the list is exactly the server's tasks. In general it is complete if and only if no task
      sat on a failed page. */
  lemma Result(c: Client, steps: seq<Step>, states: seq<State>)
    requires c.fetchRate > 0 && Run(c, steps, states) && states[|steps|].caller == Returned
    ensures var s := states[|steps|];
      && multiset(s.allTasks) + s.lost == multiset(Issued(c, s.offset))
      && (s.failures == 0 ==> multiset(s.allTasks) == multiset(c.server))
      && (multiset(s.allTasks) == multiset(c.server) <==> s.lost == multiset{})
  {
    EveryRun(c, steps, states);
    ReturnedResult(c, states[|steps|]);
  }

  lemma ReturnedResult(c: Client, s: State)
    requires Inv(c, s) && s.caller == Returned
    ensures multiset(s.allTasks) + s.lost == multiset(Issued(c, s.offset))
    ensures s.failures == 0 ==> multiset(s.allTasks) == multiset(c.server)
    ensures multiset(s.allTasks) == multiset(c.server) <==> s.lost == multiset{}
  {
    NoneAlive(s.workers);
    NothingHeld(c, s.workers);
    assert s.workers[0].Exited?;
    assert multiset(s.allTasks) + s.lost == multiset(Issued(c, s.offset));
    if multiset(s.allTasks) == multiset(c.server) {
      var n := |Issued(c, s.offset)|;
      assert |multiset(s.allTasks) + s.lost| == |multiset(s.allTasks)| + |s.lost|;
      assert |multiset(s.allTasks)| == |c.server| && |multiset(Issued(c, s.offset))| == n <= |c.server|;
    }
  }

  /** After the return the generator may still be blocked in its select: at the end of a run
      it has closed the option channel exactly when some worker saw an empty page. When every
      worker failed first, the goroutine is never released. */
  lemma GeneratorFate(c: Client, steps: seq<Step>, states: seq<State>)
    requires c.fetchRate > 0 && Run(c, steps, states)
    requires forall step :: !Enabled(states[|steps|], step)
    ensures states[|steps|].caller == Returned
    ensures states[|steps|].optClosed <==> states[|steps|].doneClosed
    ensures !states[|steps|].optClosed ==> states[|steps|].failures > 0
  {
    var s := states[|steps|];
    EveryRun(c, steps, states);
    if s.caller != Returned {
      var next := SomeStep(c, s);
      assert false;
    }
    if !s.optClosed {
      assert !Enabled(s, SeeDone);
      NoneAlive(s.workers);
      assert s.workers[0].Exited?;
    }
  }

  /** The whole call under an arbitrary scheduler and arbitrary fetch outcomes: it returns, and
      when no fetch failed it returns the server's tasks, each exactly once. */
  method ListTasks(c: Client) returns (tasks: seq<Task>, failures: nat)
    requires c.fetchRate > 0
    ensures failures == 0 ==> multiset(tasks) == multiset(c.server)
    ensures multiset(tasks) <= multiset(c.server)
  {
    var s := Init();
    InitInv(c);
    while s.caller != Returned
      invariant Inv(c, s)
      decreases Rank(c, s)
    {
      ghost var some := SomeStep(c, s);
      var step :| step in AllSteps() && Enabled(s, step);
      StepInv(c, s, step);
      StepDecreasesRank(c, s, step);
      s := Do(c, s, step);
    }
    ReturnedResult(c, s);
    assert c.server == Issued(c, s.offset) + c.server[|Issued(c, s.offset)|..];
    tasks, failures := s.allTasks, s.failures;
  }
}
