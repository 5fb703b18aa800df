/**
 The scheduler that wraps a crawler (cmd/scheduler/main.go).

 For each of its two FIFOs a decoder goroutine reads values and sends them over an
 unbuffered channel to a worker goroutine, which asks the API server to create one
 object per value. When the crawler has ended, a hook cancels the decoders and waits
 for all four goroutines. The module models every interleaving of these goroutines
 as a deterministic step function driven by an arbitrary list of steps.
 */
module FifoScheduler {
  import opened Wrappers

  /** Where a decoder goroutine stands in its loop. */
  datatype Decoder<T> =
    | Opening              // no reader: about to open the FIFO
    | Reading              // about to decode
    | Sending(value: T)    // blocked in the channel send
    | Checking             // after a decode error: about to look at the context
    | Exited               // the channel is closed and the goroutine has returned

  /** Where a worker goroutine stands in its loop. */
  datatype Worker<T> =
    | Receiving            // blocked in the channel receive
    | Building(value: T)   // has a value, the object is being assembled
    | Calling(value: T)    // the Create request is on its way
    | Pacing               // sleeping between two creations
    | Stopped              // saw the closed channel and has returned

  datatype Pair<T> = Pair(
    decoder: Decoder<T>,
    worker: Worker<T>,
    closes: nat,           // how often close(c) was executed
    pending: seq<T>,       // written to the FIFO and not decoded yet
    decoded: seq<T>,       // decoded so far, in order
    attempted: seq<T>      // passed to a Create call so far, in order
  )

  datatype PairStep =
    | OpenFails
    | OpenSucceeds
    | DecodeValue
    | DecodeFails(lost: nat)  // end of file or malformed input; buffered values are dropped with the reader
    | CheckContext
    | Handoff
    | StartCreate
    | CreateReturns(ok: bool)
    | PauseEnds
    | SeeClosed

  /** One step of a decoder/worker pair; `None` when the step is not enabled. */
  function NextPair<T>(p: Pair<T>, step: PairStep, cancelled: bool): Option<Pair<T>> {
    match step
    case OpenFails =>
      if p.decoder.Opening? then Some(p) else None
    case OpenSucceeds =>
      if p.decoder.Opening? then Some(p.(decoder := Reading)) else None
    case DecodeValue =>
      if p.decoder.Reading? && p.pending != [] then
        Some(p.(decoder := Sending(p.pending[0]), pending := p.pending[1..], decoded := p.decoded + [p.pending[0]]))
      else None
    case DecodeFails(lost) =>
      if p.decoder.Reading? && lost <= |p.pending| then
        Some(p.(decoder := Checking, pending := p.pending[lost..]))
      else None
    case CheckContext =>
      if !p.decoder.Checking? then None
      else if cancelled then Some(p.(decoder := Exited, closes := p.closes + 1))
      else Some(p.(decoder := Opening))
    case Handoff =>
      if p.decoder.Sending? && p.worker.Receiving? then
        Some(p.(decoder := Reading, worker := Building(p.decoder.value)))
      else None
    case StartCreate =>
      if p.worker.Building? then
        Some(p.(worker := Calling(p.worker.value), attempted := p.attempted + [p.worker.value]))
      else None
    case CreateReturns(ok) =>
      if p.worker.Calling? then Some(p.(worker := if ok then Pacing else Receiving)) else None
    case PauseEnds =>
      if p.worker.Pacing? then Some(p.(worker := Receiving)) else None
    case SeeClosed =>
      if p.worker.Receiving? && p.closes > 0 then Some(p.(worker := Stopped)) else None
  }

  /** The hook that runs once the crawler process has ended. */
  datatype Hook = NotCalled | Waiting | Returned

  datatype State<S, P> = State(searches: Pair<S>, pipelines: Pair<P>, cancelled: bool, hook: Hook)

  datatype Step<S, P> =
    | OnSearches(search: PairStep)
    | OnPipelines(pipeline: PairStep)
    | CrawlerWritesSearch(s: S)
    | CrawlerWritesPipeline(p: P)
    | TerminationSignal       // the parent context is cancelled
    | HookStarts              // the crawler ended: cancel the decoders
    | HookReturns             // the wait group is empty

  predicate Finished<T>(p: Pair<T>) { p.decoder.Exited? && p.worker.Stopped? }

  function Next<S, P>(s: State<S, P>, step: Step<S, P>): Option<State<S, P>> {
    match step
    case OnSearches(st) =>
      (match NextPair(s.searches, st, s.cancelled)
       case Some(p) => Some(s.(searches := p))
       case None => None)
    case OnPipelines(st) =>
      (match NextPair(s.pipelines, st, s.cancelled)
       case Some(p) => Some(s.(pipelines := p))
       case None => None)
    case CrawlerWritesSearch(v) =>
      if s.hook.NotCalled? then Some(s.(searches := s.searches.(pending := s.searches.pending + [v]))) else None
    case CrawlerWritesPipeline(v) =>
      if s.hook.NotCalled? then Some(s.(pipelines := s.pipelines.(pending := s.pipelines.pending + [v]))) else None
    case TerminationSignal =>
      if s.cancelled then None else Some(s.(cancelled := true))
    case HookStarts =>
      if s.hook.NotCalled? then Some(s.(cancelled := true, hook := Waiting)) else None
    case HookReturns =>
      if s.hook.Waiting? && Finished(s.searches) && Finished(s.pipelines) then Some(s.(hook := Returned)) else None
  }

  /** Executes a whole list of steps; `None` when one of them is not enabled. */
  function Exec<S, P>(s: State<S, P>, steps: seq<Step<S, P>>): Option<State<S, P>>
    decreases |steps|
  {
    if steps == [] then Some(s)
    else match Next(s, steps[0])
      case Some(s') => Exec(s', steps[1..])
      case None => None
  }

  function NewPair<T>(): Pair<T> { Pair(Opening, Receiving, 0, [], [], []) }

  function Start<S, P>(): State<S, P> { State(NewPair(), NewPair(), false, NotCalled) }

  // ----- what every step keeps -----

  function HeldByWorker<T>(w: Worker<T>): seq<T> { if w.Building? then [w.value] else [] }

  function HeldByDecoder<T>(d: Decoder<T>): seq<T> { if d.Sending? then [d.value] else [] }

  ghost predicate PairInv<T>(p: Pair<T>) {
    && p.decoded == p.attempted + HeldByWorker(p.worker) + HeldByDecoder(p.decoder)
    && p.closes == (if p.decoder.Exited? then 1 else 0)
    && (p.worker.Stopped? ==> p.decoder.Exited?)
  }

  ghost predicate Inv<S, P>(s: State<S, P>) {
    && PairInv(s.searches)
    && PairInv(s.pipelines)
    && (!s.hook.NotCalled? ==> s.cancelled)
    && (s.hook.Returned? ==> Finished(s.searches) && Finished(s.pipelines))
  }

  lemma PairInvStep<T>(p: Pair<T>, step: PairStep, cancelled: bool)
    requires PairInv(p) && NextPair(p, step, cancelled).Some?
    ensures PairInv(NextPair(p, step, cancelled).value)
  {
    var p' := NextPair(p, step, cancelled).value;
    match step
    case DecodeValue =>
      assert p'.decoded == p.attempted + HeldByWorker(p.worker) + [p.pending[0]];
    case Handoff =>
      assert p'.decoded == p.attempted + [p.decoder.value] + [];
    case StartCreate =>
      assert p'.attempted + [] == p.attempted + HeldByWorker(p.worker);
    case _ =>
  }

  lemma InvStep<S, P>(s: State<S, P>, step: Step<S, P>)
    requires Inv(s) && Next(s, step).Some?
    ensures Inv(Next(s, step).value)
  {
    match step
    case OnSearches(st) => PairInvStep(s.searches, st, s.cancelled);
    case OnPipelines(st) => PairInvStep(s.pipelines, st, s.cancelled);
    case _ =>
  }

  lemma {:induction false} InvExec<S, P>(s: State<S, P>, steps: seq<Step<S, P>>)
    requires Inv(s) && Exec(s, steps).Some?
    ensures Inv(Exec(s, steps).value)
    decreases |steps|
  {
    if steps != [] {
      InvStep(s, steps[0]);
      InvExec(Next(s, steps[0]).value, steps[1..]);
    }
  }

  /** How far creation may lag behind decoding, and the state of the channel. */
  ghost predicate Orderly<T>(p: Pair<T>) {
    && p.attempted <= p.decoded
    && |p.decoded| <= |p.attempted| + 2
    && p.closes <= 1
    && (p.closes == 1 <==> p.decoder.Exited?)
  }

  /** In every interleaving the values passed to Create are a prefix, in order, of the values
      decoded and at most two behind; the channel is closed at most once, by the exiting decoder. */
  lemma AttemptsFollowDecodes<S, P>(steps: seq<Step<S, P>>)
    requires Exec(Start<S, P>(), steps).Some?
    ensures Orderly(Exec(Start<S, P>(), steps).value.searches)
    ensures Orderly(Exec(Start<S, P>(), steps).value.pipelines)
  {
    InvExec(Start<S, P>(), steps);
  }

  ghost predicate NoMoreSends<T>(before: Pair<T>, after: Pair<T>) {
    before.closes == 1 ==> after.closes == 1 && after.decoded == before.decoded
  }

  /** Once a channel is closed nothing is decoded into it again and it is not closed again. */
  lemma {:induction false} ClosedForGood<S, P>(s: State<S, P>, steps: seq<Step<S, P>>)
    requires Inv(s) && Exec(s, steps).Some?
    ensures NoMoreSends(s.searches, Exec(s, steps).value.searches)
    ensures NoMoreSends(s.pipelines, Exec(s, steps).value.pipelines)
    decreases |steps|
  {
    if steps != [] {
      InvStep(s, steps[0]);
      ClosedForGood(Next(s, steps[0]).value, steps[1..]);
    }
  }

  /** When the hook has returned, every decoded value has had exactly one Create attempt, in
      decoding order, and both channels were closed exactly once. */
  lemma DrainedAtReturn<S, P>(steps: seq<Step<S, P>>)
    requires Exec(Start<S, P>(), steps).Some?
    requires Exec(Start<S, P>(), steps).value.hook.Returned?
    ensures var s := Exec(Start<S, P>(), steps).value;
            && s.searches.attempted == s.searches.decoded && s.searches.closes == 1
            && s.pipelines.attempted == s.pipelines.decoded && s.pipelines.closes == 1
  {
    InvExec(Start<S, P>(), steps);
  }

  // ----- shutdown: no deadlock, termination -----

  function DecoderRank<T>(d: Decoder<T>): nat {
    match d
    case Opening => 3
    case Reading => 2
    case Sending(_) => 6
    case Checking => 1
    case Exited => 0
  }

  function WorkerRank<T>(w: Worker<T>): nat {
    match w
    case Receiving => 1
    case Building(_) => 4
    case Calling(_) => 3
    case Pacing => 2
    case Stopped => 0
  }

  function PairWork<T>(p: Pair<T>): nat {
    8 * |p.pending| + DecoderRank(p.decoder) + WorkerRank(p.worker)
  }

  /** The number of steps that can still happen once the hook has been called. */
  function WorkLeft<S, P>(s: State<S, P>): nat {
    PairWork(s.searches) + PairWork(s.pipelines)
    + (match s.hook case NotCalled => 2 case Waiting => 1 case Returned => 0)
  }

  predicate IsFailedOpen<S, P>(step: Step<S, P>) {
    step == OnSearches(OpenFails) || step == OnPipelines(OpenFails)
  }

  /** After the hook was called a step makes progress if and only if it is not a failed open:
      a decoder whose FIFO cannot be opened never looks at the context. */
  lemma ProgressIffOpenSucceeds<S, P>(s: State<S, P>, step: Step<S, P>)
    requires Inv(s) && !s.hook.NotCalled? && Next(s, step).Some?
    ensures IsFailedOpen(step) ==> Next(s, step).value == s
    ensures !IsFailedOpen(step) ==> WorkLeft(Next(s, step).value) < WorkLeft(s)
  {
  }

  /** A step of the pair that is not a failed open and is enabled while the pair is unfinished. */
  function EnabledPairStep<T>(p: Pair<T>): (step: PairStep)
    requires PairInv(p) && !Finished(p)
    ensures step != OpenFails && NextPair(p, step, true).Some?
  {
    match p.decoder
    case Opening => OpenSucceeds
    case Reading => DecodeFails(0)
    case Checking => CheckContext
    case Sending(_) =>
      (match p.worker
       case Receiving => Handoff
       case Building(_) => StartCreate
       case Calling(_) => CreateReturns(true)
       case _ => PauseEnds)
    case Exited =>
      match p.worker
      case Receiving => SeeClosed
      case Building(_) => StartCreate
      case Calling(_) => CreateReturns(true)
      case _ => PauseEnds
  }

  /** After cancellation the four goroutines and the hook never deadlock: as long as the hook
      has not returned, some step other than a failed open is enabled. */
  function ProductiveStep<S, P>(s: State<S, P>): (step: Step<S, P>)
    requires Inv(s) && s.hook.Waiting?
    ensures !IsFailedOpen(step) && Next(s, step).Some?
  {
    if !Finished(s.searches) then OnSearches(EnabledPairStep(s.searches))
    else if !Finished(s.pipelines) then OnPipelines(EnabledPairStep(s.pipelines))
    else HookReturns
  }

  /** Any execution after the hook was called, with opens that succeed, is shorter than the work
      that was left. */
  lemma {:induction false} ShutdownTerminates<S, P>(s: State<S, P>, steps: seq<Step<S, P>>)
    requires Inv(s) && !s.hook.NotCalled? && Exec(s, steps).Some?
    requires forall i :: 0 <= i < |steps| ==> !IsFailedOpen(steps[i])
    ensures |steps| + WorkLeft(Exec(s, steps).value) <= WorkLeft(s)
    decreases |steps|
  {
    if steps != [] {
      InvStep(s, steps[0]);
      ProgressIffOpenSucceeds(s, steps[0]);
      ShutdownTerminates(Next(s, steps[0]).value, steps[1..]);
    }
  }

  /** One step of anyone while the hook waits. */
  lemma WaitingStep<S, P>(s: State<S, P>, step: Step<S, P>)
    requires Inv(s) && s.hook.Waiting? && !IsFailedOpen(step) && Next(s, step).Some?
    ensures var s' := Next(s, step).value;
            && Inv(s') && !s'.hook.NotCalled? && WorkLeft(s') < WorkLeft(s)
            && s.searches.decoded <= s'.searches.decoded && s.pipelines.decoded <= s'.pipelines.decoded
  {
    ProgressIffOpenSucceeds(s, step);
    InvStep(s, step);
  }

  /** The post-stop hook: whatever the order in which the goroutines are scheduled, waiting for
      them ends, and then every decoded value has been attempted. `schedule` is the scheduler's
      choice, consulted whenever its proposal is enabled and productive. */
  method AwaitWorkers<S, P>(start: State<S, P>, schedule: (State<S, P>, nat) -> Step<S, P>)
    returns (s: State<S, P>, rounds: nat)
    requires Inv(start) && start.hook.NotCalled?
    ensures s.hook.Returned? && Inv(s)
    ensures s.searches.attempted == s.searches.decoded && start.searches.decoded <= s.searches.decoded
    ensures s.pipelines.attempted == s.pipelines.decoded && start.pipelines.decoded <= s.pipelines.decoded
    ensures rounds < WorkLeft(start)
  {
    s := start.(cancelled := true, hook := Waiting);
    rounds := 0;
    while !s.hook.Returned?
      invariant Inv(s) && !s.hook.NotCalled?
      invariant start.searches.decoded <= s.searches.decoded
      invariant start.pipelines.decoded <= s.pipelines.decoded
      invariant rounds + WorkLeft(s) < WorkLeft(start)
      decreases WorkLeft(s)
    {
      var step := schedule(s, rounds);
      if IsFailedOpen(step) || Next(s, step).None? {
        step := ProductiveStep(s);
      }
      WaitingStep(s, step);
      s := Next(s, step).value;
      rounds := rounds + 1;
    }
  }
}
