/**
 The goroutines of the scheduler one at a time, in the form of the source: the loop of
 `fifoDecoder` and the two worker loops of `Schedule` (cmd/scheduler/main.go). What several of
 them do together is the subject of module FifoScheduler.
 */
module SchedulerWorkers {
  import opened Wrappers
  import opened Labels
  import F = FifoScheduler

  /** The sending side of an unbuffered channel: sending on it or closing it after a close is a
      run-time panic, so both demand that it is open. */
  class Channel<T> {
    var sent: seq<T>
    var closed: bool

    constructor ()
      ensures sent == [] && !closed
    {
      sent, closed := [], false;
    }

    method Send(t: T)
      requires !closed
      modifies this
      ensures sent == old(sent) + [t] && !closed
    {
      sent := sent + [t];
    }

    method Close()
      requires !closed
      modifies this
      ensures sent == old(sent) && closed
    {
      closed := true;
    }
  }

  /** What the environment answers to one turn of the decoder loop: how often opening the FIFO
      fails first (if it has to be opened), what decoding yields, and whether the context is done
      when it is looked at afterwards. */
  datatype Turn<T> = Turn(failedOpens: nat, decoded: Option<T>, done: bool)

  predicate Ends<T>(turn: Turn<T>) { turn.decoded.None? && turn.done }

  function Decoded<T>(turn: Turn<T>): seq<T> {
    match turn.decoded
    case Some(v) => [v]
    case None => []
  }

  function Values<T>(turns: seq<Turn<T>>): seq<T> {
    if turns == [] then []
    else Values(turns[..|turns| - 1]) + Decoded(turns[|turns| - 1])
  }

  /** The decoder goroutine over the answers `turns`. It sends exactly the values decoded before
      the first failed decode that finds the context done, and closes the channel there and only
      there: a successful decode never looks at the context. */
  method FifoDecoder<T>(c: Channel<T>, turns: seq<Turn<T>>) returns (used: nat)
    requires !c.closed
    modifies c
    ensures used <= |turns|
    ensures c.sent == old(c.sent) + Values(turns[..used])
    ensures c.closed <==> exists i :: 0 <= i < |turns| && Ends(turns[i])
    ensures c.closed ==> used > 0 && Ends(turns[used - 1])
    ensures forall i :: 0 <= i < used - 1 ==> !Ends(turns[i])
    ensures !c.closed ==> used == |turns|
  {
    used := 0;
    var isOpen := false;
    var opens := 0;
    while used < |turns|
      invariant used <= |turns| && !c.closed
      invariant c.sent == old(c.sent) + Values(turns[..used])
      invariant forall i :: 0 <= i < used ==> !Ends(turns[i])
      decreases |turns| - used, if isOpen || used == |turns| then 0 else 1 + turns[used].failedOpens - opens
      invariant used < |turns| && !isOpen ==> opens <= turns[used].failedOpens
    {
      var turn := turns[used];
      if !isOpen {
        if opens < turn.failedOpens {
          opens := opens + 1;
          continue;
        }
        isOpen := true;
      }
      used := used + 1;
      assert turns[..used][..used - 1] == turns[..used - 1];
      match turn.decoded {
        case None =>
          isOpen, opens := false, 0;
        case Some(v) =>
          c.Send(v);
          continue;
      }
      if turn.done {
        c.Close();
        return;
      }
    }
  }

  datatype Pipeline = Pipeline(generateName: string, labels: LabelMap, target: string)
  datatype Search = Search(generateName: string, labels: LabelMap, crawler: string)

  /** The pipeline worker: one Create request per received target, in order, whether or not
      earlier requests failed; every request is labelled with the search; it pauses after each
      success and only then. */
  method PipelineWorker(targets: seq<string>, searchName: string, templateLabels: LabelMap, answers: seq<bool>)
    returns (requests: seq<Pipeline>, pauses: nat)
    requires |answers| == |targets|
    ensures |requests| == |targets|
    ensures forall i :: 0 <= i < |targets| ==>
      && requests[i].target == targets[i]
      && requests[i].generateName == searchName + "-"
      && ScheduledBy(requests[i].labels) == Some(searchName)
      && forall k :: k in templateLabels && k != SCHEDULED_BY ==>
           k in requests[i].labels && requests[i].labels[k] == templateLabels[k]
    ensures pauses == |set i | 0 <= i < |answers| && answers[i]|
  {
    var pipelineLabels := MergeMaps(templateLabels, map[SCHEDULED_BY := searchName]);
    requests, pauses := [], 0;
    ghost var successes: set<int> := {};
    var n := 0;
    while n < |targets|
      invariant n <= |targets| && |requests| == n
      invariant forall i :: 0 <= i < n ==> requests[i] == Pipeline(searchName + "-", pipelineLabels, targets[i])
      invariant successes == set i | 0 <= i < n && answers[i]
      invariant pauses == |successes|
    {
      requests := requests + [Pipeline(searchName + "-", pipelineLabels, targets[n])];
      n := n + 1;
      if !answers[n - 1] {
        continue;
      }
      successes := successes + {n - 1};
      pauses := pauses + 1;
    }
  }

  /** The search worker: as above, but the only label is the scheduling search. */
  method SearchWorker(crawlers: seq<string>, searchName: string, answers: seq<bool>)
    returns (requests: seq<Search>, pauses: nat)
    requires |answers| == |crawlers|
    ensures |requests| == |crawlers|
    ensures forall i :: 0 <= i < |crawlers| ==>
      requests[i] == Search(searchName + "-", map[SCHEDULED_BY := searchName], crawlers[i])
    ensures pauses == |set i | 0 <= i < |answers| && answers[i]|
  {
    var scheduledByLabels: LabelMap := map[];
    scheduledByLabels := scheduledByLabels[SCHEDULED_BY := searchName];
    requests, pauses := [], 0;
    ghost var successes: set<int> := {};
    var n := 0;
    while n < |crawlers|
      invariant n <= |crawlers| && |requests| == n
      invariant forall i :: 0 <= i < n ==> requests[i] == Search(searchName + "-", scheduledByLabels, crawlers[i])
      invariant successes == set i | 0 <= i < n && answers[i]
      invariant pauses == |successes|
    {
      requests := requests + [Search(searchName + "-", scheduledByLabels, crawlers[n])];
      n := n + 1;
      if !answers[n - 1] {
        continue;
      }
      successes := successes + {n - 1};
      pauses := pauses + 1;
    }
  }

  // ----- decoder and worker in lockstep are a run of the model -----

  /** The steps of a pair during one turn of the decoder, with the worker finishing each value at once. */
  function TurnSteps<T>(turn: Turn<T>, isOpen: bool, ok: bool): seq<F.PairStep> {
    (if isOpen then [] else seq(turn.failedOpens, _ => F.OpenFails) + [F.OpenSucceeds])
    + match turn.decoded
      case Some(_) => [F.DecodeValue, F.Handoff, F.StartCreate, F.CreateReturns(ok)] + if ok then [F.PauseEnds] else []
      case None => [F.DecodeFails(0), F.CheckContext]
  }

  function PairExec<T>(p: F.Pair<T>, steps: seq<F.PairStep>, cancelled: bool): Option<F.Pair<T>>
    decreases |steps|
  {
    if steps == [] then Some(p)
    else match F.NextPair(p, steps[0], cancelled)
      case Some(p') => PairExec(p', steps[1..], cancelled)
      case None => None
  }

  lemma {:induction false} PairAppend<T>(p: F.Pair<T>, a: seq<F.PairStep>, mid: F.Pair<T>, b: seq<F.PairStep>,
    cancelled: bool)
    requires PairExec(p, a, cancelled) == Some(mid)
    ensures PairExec(p, a + b, cancelled) == PairExec(mid, b, cancelled)
    decreases |a|
  {
    if a == [] {
      assert a + b == b;
    } else {
      PairAppend(F.NextPair(p, a[0], cancelled).value, a[1..], mid, b, cancelled);
      assert (a + b)[1..] == a[1..] + b;
    }
  }

  lemma {:induction false} OpensFail<T>(p: F.Pair<T>, n: nat, cancelled: bool)
    requires p.decoder.Opening?
    ensures PairExec(p, seq(n, _ => F.OpenFails), cancelled) == Some(p)
  {
    if n > 0 {
      OpensFail(p, n - 1, cancelled);
      assert seq<F.PairStep>(n, _ => F.OpenFails)[1..] == seq(n - 1, _ => F.OpenFails);
    }
  }

  /** The state of a pair whose worker is idle, with what has gone through it. */
  function Idle<T>(decoder: F.Decoder<T>, closes: nat, pending: seq<T>, sent: seq<T>): F.Pair<T> {
    F.Pair(decoder, F.Receiving, closes, pending, sent, sent)
  }

  function AfterTurn<T>(turn: Turn<T>): F.Decoder<T> {
    if turn.decoded.Some? then F.Reading else if turn.done then F.Exited else F.Opening
  }

  lemma Opened<T>(turn: Turn<T>, decoder: F.Decoder<T>, pending: seq<T>, sent: seq<T>)
    requires decoder.Opening? || decoder.Reading?
    ensures PairExec(Idle(decoder, 0, pending, sent),
                     if decoder.Reading? then [] else seq(turn.failedOpens, _ => F.OpenFails) + [F.OpenSucceeds],
                     turn.done)
         == Some(Idle(F.Reading, 0, pending, sent))
  {
    if decoder.Opening? {
      var p := Idle(decoder, 0, pending, sent);
      OpensFail(p, turn.failedOpens, turn.done);
      PairAppend(p, seq(turn.failedOpens, _ => F.OpenFails), p, [F.OpenSucceeds], turn.done);
      assert [F.OpenSucceeds][1..] == [];
    }
  }

  lemma Handled<T>(v: T, pending: seq<T>, sent: seq<T>, ok: bool, cancelled: bool)
    ensures PairExec(Idle(F.Reading, 0, [v] + pending, sent),
                     [F.DecodeValue, F.Handoff, F.StartCreate, F.CreateReturns(ok)]
                       + (if ok then [F.PauseEnds] else []), cancelled)
         == Some(Idle(F.Reading, 0, pending, sent + [v]))
  {
    var steps := [F.DecodeValue, F.Handoff, F.StartCreate, F.CreateReturns(ok)] + (if ok then [F.PauseEnds] else []);
    var p1 := F.Pair(F.Sending(v), F.Receiving, 0, pending, sent + [v], sent);
    var p2 := F.Pair(F.Reading, F.Building(v), 0, pending, sent + [v], sent);
    var p3 := F.Pair(F.Reading, F.Calling(v), 0, pending, sent + [v], sent + [v]);
    var p4 := if ok then p3.(worker := F.Pacing) else p3.(worker := F.Receiving);
    assert ([v] + pending)[1..] == pending;
    assert F.NextPair(Idle(F.Reading, 0, [v] + pending, sent), steps[0], cancelled) == Some(p1);
    assert steps[1..][1..] == steps[2..] && steps[2..][1..] == steps[3..] && steps[3..][1..] == steps[4..];
    assert PairExec(p4, steps[4..], cancelled) == Some(Idle(F.Reading, 0, pending, sent + [v])) by {
      if ok { assert steps[4..] == [F.PauseEnds] && [F.PauseEnds][1..] == []; }
    }
    assert PairExec(p3, steps[3..], cancelled) == PairExec(p4, steps[4..], cancelled);
    assert PairExec(p2, steps[2..], cancelled) == PairExec(p3, steps[3..], cancelled);
    assert PairExec(p1, steps[1..], cancelled) == PairExec(p2, steps[2..], cancelled);
  }

  /** One turn of the decoder loop, with its value handled at once. */
  lemma TurnRefines<T>(turn: Turn<T>, decoder: F.Decoder<T>, pending: seq<T>, sent: seq<T>, ok: bool)
    requires decoder.Opening? || decoder.Reading?
    ensures PairExec(Idle(decoder, 0, Decoded(turn) + pending, sent), TurnSteps(turn, decoder.Reading?, ok), turn.done)
         == Some(Idle(AfterTurn(turn), if Ends(turn) then 1 else 0, pending, sent + Decoded(turn)))
  {
    var all := Decoded(turn) + pending;
    Opened(turn, decoder, all, sent);
    var p := Idle(F.Reading, 0, all, sent);
    var opening := if decoder.Reading? then [] else seq(turn.failedOpens, _ => F.OpenFails) + [F.OpenSucceeds];
    var rest: seq<F.PairStep> := match turn.decoded
      case Some(_) => [F.DecodeValue, F.Handoff, F.StartCreate, F.CreateReturns(ok)] + if ok then [F.PauseEnds] else []
      case None => [F.DecodeFails(0), F.CheckContext];
    PairAppend(Idle(decoder, 0, all, sent), opening, p, rest, turn.done);
    match turn.decoded {
      case Some(v) => Handled(v, pending, sent, ok, turn.done);
      case None => GivesUp(pending, sent, turn.done); assert all == pending && sent + [] == sent;
    }
  }

  lemma GivesUp<T>(pending: seq<T>, sent: seq<T>, done: bool)
    ensures PairExec(Idle(F.Reading, 0, pending, sent), [F.DecodeFails(0), F.CheckContext], done)
         == Some(Idle(if done then F.Exited else F.Opening, if done then 1 else 0, pending, sent))
  {
    var p1 := Idle<T>(F.Checking, 0, pending, sent);
    assert pending[0..] == pending && [F.DecodeFails(0), F.CheckContext][1..] == [F.CheckContext]
      && [F.CheckContext][1..] == [];
    assert F.NextPair(Idle(F.Reading, 0, pending, sent), F.DecodeFails(0), done) == Some(p1);
  }

  /** Several turns, one after the other. */
  function TurnsExec<T>(p: F.Pair<T>, turns: seq<Turn<T>>, answers: seq<bool>): Option<F.Pair<T>>
    requires |answers| == |turns|
  {
    if turns == [] then Some(p)
    else
      var k := |turns| - 1;
      match TurnsExec(p, turns[..k], answers[..k])
      case None => None
      case Some(q) => PairExec(q, TurnSteps(turns[k], q.decoder.Reading?, answers[k]), turns[k].done)
  }

  /** What FifoDecoder does over its turns, with a worker that handles each value at once, is a run of the
      pair: exactly the values it sends are decoded and attempted, and the channel is closed exactly when it
      closes it. */
  lemma {:induction false} DecoderRefinesPair<T>(turns: seq<Turn<T>>, answers: seq<bool>, later: seq<T>)
    requires |answers| == |turns| && forall i :: 0 <= i < |turns| - 1 ==> !Ends(turns[i])
    ensures TurnsExec(F.NewPair<T>().(pending := Values(turns) + later), turns, answers) == Some(
      if turns == [] then Idle(F.Opening, 0, later, [])
      else Idle(AfterTurn(turns[|turns| - 1]), if Ends(turns[|turns| - 1]) then 1 else 0, later, Values(turns)))
  {
    if turns == [] {
      assert [] + later == later;
    } else {
      var k := |turns| - 1;
      var rest := Decoded(turns[k]) + later;
      DecoderRefinesPair(turns[..k], answers[..k], rest);
      assert Values(turns[..k]) + rest == Values(turns) + later;
      var decoder := if k == 0 then F.Opening else AfterTurn(turns[k - 1]);
      assert k > 0 ==> turns[..k][k - 1] == turns[k - 1];
      TurnRefines(turns[k], decoder, later, Values(turns[..k]), answers[k]);
    }
  }
}
