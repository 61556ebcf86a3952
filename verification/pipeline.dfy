/**
 The threaded pipeline as a whole: the main thread that ingests and then shuts down, any number of
 worker threads around one locked queue, and the leaderboard thread at the end of one channel. A
 step is one action that nothing can interleave with. The cancel flag is read and written without
 the lock, so a worker that has seen it clear can still take a task after it is set.
 */
module Pipeline {
  import opened Tasks
  import opened PriorityQueues
  import opened Parser
  import opened Leaderboards
  import opened Totals

  /** `Locked` and `Armed` hold the queue's lock, before and after the look at the cancel flag. */
  datatype Worker = Entering | Locked | Armed | Waiting | Holding(task: Task) | Sent(task: Task) | Exited

  datatype Main = Reading | Dispatching | Pushing(task: Task) | Stopping | Joining(next: nat) | Closing | Finished

  /** What has become of every payload: the queue's side of the pipeline. */
  datatype Flow = Flow(
    received: nat, rejected: nat, shed: nat, overflow: nat,
    enqueued: multiset<Task>, evicted: multiset<Task>, queue: multiset<Task>,
    popped: seq<Task>, completed: multiset<Task>)

  /** The channel to the leaderboard, the updates it has counted, its answer, and whether it has ended. */
  datatype Board = Board(channel: seq<Cmd>, counted: multiset<string>, report: Option<seq<(string, nat)>>, ended: bool)

  datatype State = State(
    capacity: nat, cancel: bool, lock: Option<nat>, main: Main, workers: seq<Worker>, flow: Flow, board: Board)

  function Start(capacity: nat, n: nat, cancel: bool): State {
    State(capacity, cancel, None, Reading, seq(n, _ => Entering),
          Flow(0, 0, 0, 0, multiset{}, multiset{}, multiset{}, [], multiset{}),
          Board([], multiset{}, None, false))
  }

  // ---- Steps ----

  datatype MainAct =
    | Receive // the flag is clear, and a payload is complete
    | EndIngest // limit, cancellation or end of stream
    | Dispatch(parsed: Option<OwnedEvent>, degraded: bool, now: nat)
    | Push(queue': multiset<Task>, outcome: PushOutcome)
    | Stop
    | Join
    | RequestSnapshot
    | Collect

  datatype WorkerAct =
    | Lock // also the end of a timed wait
    | See // the look at the cancel flag
    | Poll(queue': multiset<Task>, result: PriorityQueues.Poll)
    | Send
    | Complete

  datatype BoardAct = Handle(entries: seq<(string, nat)>) | EndBoard

  /** `Cancel` is Ctrl-C or the timer. */
  datatype Action = Cancel | OfMain(m: MainAct) | OfWorker(w: nat, x: WorkerAct) | OfBoard(b: BoardAct)

  predicate AllExited(workers: seq<Worker>) {
    forall w :: 0 <= w < |workers| ==> workers[w].Exited?
  }

  ghost predicate MainEnabled(s: State, m: MainAct) {
    match m
    case Receive => s.main.Reading? && !s.cancel
    case EndIngest => s.main.Reading?
    case Dispatch(_, _, _) => s.main.Dispatching?
    case Push(queue', outcome) =>
      s.main.Pushing? && s.lock.None? && PushStep(s.capacity, s.flow.queue, s.main.task, queue', outcome)
    case Stop => s.main.Stopping?
    case Join => s.main.Joining? && s.main.next < |s.workers| && s.workers[s.main.next].Exited?
    case RequestSnapshot => s.main.Joining? && s.main.next >= |s.workers|
    case Collect => s.main.Closing? && s.board.ended
  }

  ghost predicate WorkerEnabled(s: State, at: Worker, x: WorkerAct) {
    match x
    case Lock => (at.Entering? || at.Waiting?) && s.lock.None?
    case See => at.Locked?
    case Poll(queue', result) => at.Armed? && PollStep(s.flow.queue, false, queue', result)
    case Send => at.Holding?
    case Complete => at.Sent?
  }

  ghost predicate BoardEnabled(s: State, b: BoardAct) {
    match b
    case Handle(entries) =>
      s.board.channel != [] && (s.board.channel[0].Snapshot? ==> IsRanking(entries, s.board.counted))
    case EndBoard => s.board.channel == [] && !s.board.ended && s.main.Closing? && AllExited(s.workers)
  }

  ghost predicate Enabled(s: State, a: Action) {
    match a
    case Cancel => !s.cancel
    case OfMain(m) => MainEnabled(s, m)
    case OfWorker(w, x) => w < |s.workers| && WorkerEnabled(s, s.workers[w], x)
    case OfBoard(b) => BoardEnabled(s, b)
  }

  function AfterDispatch(s: State, verdict: Verdict): State {
    match verdict
    case Rejected => s.(main := Reading, flow := s.flow.(rejected := s.flow.rejected + 1))
    case Shed => s.(main := Reading, flow := s.flow.(shed := s.flow.shed + 1))
    case Enqueued(task) => s.(main := Pushing(task))
  }

  function AfterPush(f: Flow, task: Task, queue': multiset<Task>, outcome: PushOutcome): Flow {
    f.(enqueued := f.enqueued + multiset{task},
    queue := queue',
    evicted := f.evicted + (f.queue + multiset{task} - queue'),
    overflow := f.overflow + if outcome == DroppedOldest then 1 else 0)
  }

  function AfterMain(s: State, m: MainAct): State
    requires m.Push? ==> s.main.Pushing?
    requires m.Join? ==> s.main.Joining?
  {
    match m
    case Receive => s.(main := Dispatching, flow := s.flow.(received := s.flow.received + 1))
    case EndIngest => s.(main := Stopping)
    case Dispatch(parsed, degraded, now) => AfterDispatch(s, Judge(parsed, degraded, now))
    case Push(queue', outcome) => s.(main := Reading, flow := AfterPush(s.flow, s.main.task, queue', outcome))
    case Stop => s.(main := Joining(0), cancel := true)
    case Join => s.(main := Joining(s.main.next + 1))
    case RequestSnapshot => s.(main := Closing, board := s.board.(channel := s.board.channel + [Snapshot]))
    case Collect => s.(main := Finished)
  }

  /** Where a worker's action takes it. */
  function Moved(at: Worker, x: WorkerAct, cancel: bool): Worker
    requires x.Send? || x.Complete? ==> at.Holding? || at.Sent?
  {
    match x
    case Lock => Locked
    case See => if cancel then Exited else Armed
    case Poll(_, result) => if result.Got? then Holding(result.task) else Waiting
    case Send => Sent(at.task)
    case Complete => Entering
  }

  /** The lock is taken by `Lock`, and given up on leaving, on taking a task and on going to sleep. */
  function LockAfter(lock: Option<nat>, w: nat, x: WorkerAct, cancel: bool): Option<nat> {
    match x
    case Lock => Some(w)
    case See => if cancel then None else lock
    case Poll(_, _) => None
    case _ => lock
  }

  function FlowAfter(f: Flow, at: Worker, x: WorkerAct): Flow
    requires x.Complete? ==> at.Sent?
  {
    match x
    case Poll(queue', result) =>
      if result.Got? then f.(queue := queue', popped := f.popped + [result.task]) else f
    case Complete => f.(completed := f.completed + multiset{at.task})
    case _ => f
  }

  function ChannelAfter(channel: seq<Cmd>, at: Worker, x: WorkerAct): seq<Cmd>
    requires x.Send? ==> at.Holding?
  {
    if x.Send? then channel + [Update(at.task.event.serverName)] else channel
  }

  function AfterWork(s: State, w: nat, x: WorkerAct): State
    requires w < |s.workers|
    requires x.Send? ==> s.workers[w].Holding?
    requires x.Complete? ==> s.workers[w].Sent?
  {
    var at := s.workers[w];
    s.(lock := LockAfter(s.lock, w, x, s.cancel),
    workers := s.workers[w := Moved(at, x, s.cancel)],
    flow := FlowAfter(s.flow, at, x),
    board := s.board.(channel := ChannelAfter(s.board.channel, at, x)))
  }

  function AfterHandle(b: Board, entries: seq<(string, nat)>): Board
    requires b.channel != []
  {
    match b.channel[0]
    case Update(wiki) => b.(channel := b.channel[1..], counted := b.counted + multiset{wiki})
    case Snapshot => b.(channel := b.channel[1..], report := Some(entries))
  }

  function AfterBoard(b: Board, x: BoardAct): Board
    requires x.Handle? ==> b.channel != []
  {
    match x
    case Handle(entries) => AfterHandle(b, entries)
    case EndBoard => b.(ended := true)
  }

  function Apply(s: State, a: Action): State
    requires Enabled(s, a)
  {
    match a
    case Cancel => s.(cancel := true)
    case OfMain(m) => AfterMain(s, m)
    case OfWorker(w, x) => AfterWork(s, w, x)
    case OfBoard(b) => s.(board := AfterBoard(s.board, b))
  }

  /** The state after the actions, if each of them is enabled when its turn comes. */
  ghost function Exec(s: State, actions: seq<Action>): Option<State> {
    if actions == [] then Some(s)
    else
      match Exec(s, actions[..|actions| - 1])
      case None => None
      case Some(r) => if Enabled(r, actions[|actions| - 1]) then Some(Apply(r, actions[|actions| - 1])) else None
  }

  // ---- What every step keeps ----

  function Hand(x: Worker): multiset<Task> {
    match x
    case Holding(task) => multiset{task}
    case Sent(task) => multiset{task}
    case _ => multiset{}
  }

  /** The wiki a worker has yet to report. */
  function Unsent(x: Worker): multiset<string> {
    if x.Holding? then multiset{x.task.event.serverName} else multiset{}
  }

  /** The wikis of the tasks, once for every task. */
  function Names(tasks: seq<Task>): multiset<string> {
    if tasks == [] then multiset{}
    else Names(tasks[..|tasks| - 1]) + multiset{tasks[|tasks| - 1].event.serverName}
  }

  /** Payloads in the main thread's hands. */
  function InFlight(main: Main): nat {
    if main.Dispatching? || main.Pushing? then 1 else 0
  }

  /** Every payload received was rejected, shed or enqueued, or is in the main thread's hands. */
  ghost predicate Received(f: Flow, main: Main) {
    f.received == f.rejected + f.shed + |f.enqueued| + InFlight(main)
  }

  /** Every task enqueued was evicted, is queued or was popped, and is in one of these places only. */
  ghost predicate Placed(f: Flow, capacity: nat) {
    && f.enqueued == f.evicted + f.queue + multiset(f.popped)
    && f.overflow == |f.evicted| && |f.queue| <= capacity
  }

  /** Every task popped is in the hands of one worker or completed. */
  ghost predicate InHands(popped: seq<Task>, workers: seq<Worker>, completed: multiset<Task>) {
    multiset(popped) == Gather(Hand, workers) + completed
  }

  ghost predicate Conserved(s: State) {
    && Received(s.flow, s.main) && Placed(s.flow, s.capacity)
    && InHands(s.flow.popped, s.workers, s.flow.completed)
  }

  predicate HoldsLock(x: Worker) {
    x.Locked? || x.Armed?
  }

  ghost predicate LockOk(s: State) {
    && (s.lock.Some? ==> s.lock.value < |s.workers| && HoldsLock(s.workers[s.lock.value]))
    && (forall w :: 0 <= w < |s.workers| && HoldsLock(s.workers[w]) ==> s.lock == Some(w))
  }

  /** Workers leave only when cancelled, and are all gone before the snapshot is requested. */
  ghost predicate MainOk(s: State) {
    && (forall w :: 0 <= w < |s.workers| && s.workers[w].Exited? ==> s.cancel)
    && (s.main.Joining? ==> forall w :: 0 <= w < |s.workers| && w < s.main.next ==> s.workers[w].Exited?)
    && (s.main.Joining? || s.main.Closing? || s.main.Finished? ==> s.cancel)
    && (s.main.Closing? || s.main.Finished? ==> AllExited(s.workers))
    && (s.main.Finished? ==> s.board.ended)
  }

  ghost predicate OnlyUpdates(cmds: seq<Cmd>) {
    forall i :: 0 <= i < |cmds| ==> cmds[i].Update?
  }

  /** Each popped task's wiki is counted, on its way in the channel, or about to be sent. */
  ghost predicate Reported(popped: seq<Task>, counted: multiset<string>, channel: seq<Cmd>, workers: seq<Worker>) {
    Names(popped) == counted + Tally(channel) + Gather(Unsent, workers)
  }

  /** The answer was given when the channel was empty, and nothing was counted since. */
  ghost predicate Ranked(b: Board) {
    && (b.report.Some? ==> b.channel == [] && IsRanking(b.report.value, b.counted))
    && (b.ended ==> b.report.Some?)
  }

  /** The snapshot is requested once, after every update. */
  ghost predicate SnapshotLast(channel: seq<Cmd>, answered: bool, main: Main) {
    if main.Closing? || main.Finished? then
      !answered ==> channel != [] && OnlyUpdates(channel[..|channel| - 1]) && channel[|channel| - 1].Snapshot?
    else
      OnlyUpdates(channel) && !answered
  }

  ghost predicate BoardOk(s: State) {
    && Reported(s.flow.popped, s.board.counted, s.board.channel, s.workers)
    && Ranked(s.board)
    && SnapshotLast(s.board.channel, s.board.report.Some?, s.main)
  }

  ghost predicate Inv(s: State) {
    s.capacity >= 1 && LockOk(s) && MainOk(s) && Conserved(s) && BoardOk(s)
  }
}
