/**
 * The progress stream: a runner publishes events into a queue, a consumer turns them into numbered
 * records, and a timeout of the wait produces a heartbeat. The schedule interleaves the runner, the
 * consumer and the clock in any order; a move that is not possible where it stands does nothing.
 */
module OperationStream {
  import opened Common

  /**
   * A published event. `encodable` says that it is a mapping which the JSON writer accepts with the
   * text fallback; `plain` says that the three fields a heartbeat repeats need no fallback.
   */
  datatype Event = Event(phase: Option<string>, caption: Option<string>, detail: Option<string>,
                         rest: string, encodable: bool, plain: bool)

  datatype Outcome = Returned(value: string, encodable: bool) | Raised(message: string)

  datatype StreamRecord =
    | Progress(sequence: nat, event: Event)
    | Heartbeat(sequence: nat, phase: string, caption: string, detail: string)
    | ResultRecord(sequence: nat, result: string)
    | ErrorRecord(sequence: nat, error: string)

  /** What may happen next: runner moves, consumer moves, and the five second timeout. */
  datatype Move = Publish(event: Event) | Settle(outcome: Outcome) | Check | Take | Timeout

  /** Where the consumer stands: at the head of its loop, in the wait, or gone. */
  datatype Place = AtTop | Waiting | Closed

  datatype Stream = Stream(place: Place, queue: seq<Event>, last: Event, sequence: nat,
                           outcome: Option<Outcome>, records: seq<StreamRecord>)

  const QUEUED := Event(Some("queued"), Some("Queued"), Some("Waiting for the operation to start."), "", true, true)

  const UNWRITABLE := "not JSON serializable"

  const START := Stream(AtTop, [], QUEUED, 0, None, [])

  function OrElse(text: Option<string>, fallback: string): string {
    if text.Some? then text.value else fallback
  }

  function Pulse(sequence: nat, e: Event): StreamRecord {
    Heartbeat(sequence, OrElse(e.phase, "working"), OrElse(e.caption, "Working"), OrElse(e.detail, ""))
  }

  /** The outer handler: one more number, one error record, and the stream is over. */
  function Fail(s: Stream, message: string): Stream {
    s.(place := Closed, sequence := s.sequence + 1, records := s.records + [ErrorRecord(s.sequence + 1, message)])
  }

  /** One number taken, then the record written, or the writer's error handled. */
  function Emit(s: Stream, record: StreamRecord, writable: bool): Stream {
    var t := s.(sequence := s.sequence + 1);
    if writable then t.(records := t.records + [record]) else Fail(t, UNWRITABLE)
  }

  function Leave(s: Stream, o: Outcome): Stream {
    match o
    case Raised(message) => Fail(s, message)
    case Returned(value, encodable) =>
      Emit(s.(place := Closed), ResultRecord(s.sequence + 1, value), encodable)
  }

  function Next(s: Stream, move: Move): Stream {
    match move
    case Publish(e) => if s.outcome.None? then s.(queue := s.queue + [e]) else s
    case Settle(o) => if s.outcome.None? then s.(outcome := Some(o)) else s
    case Check =>
      if s.place != AtTop then s
      else if s.outcome.Some? && s.queue == [] then Leave(s, s.outcome.value)
      else s.(place := Waiting)
    case Take =>
      if s.place != Waiting || s.queue == [] then s
      else
        var e := s.queue[0];
        Emit(s.(place := AtTop, queue := s.queue[1..], last := e), Progress(s.sequence + 1, e), e.encodable)
    case Timeout =>
      if s.place != Waiting then s
      else Emit(s.(place := AtTop), Pulse(s.sequence + 1, s.last), s.last.plain)
  }

  /** The stream after a whole schedule. */
  function Run(moves: seq<Move>): Stream
    decreases |moves|
  {
    if moves == [] then START else Next(Run(moves[..|moves| - 1]), moves[|moves| - 1])
  }

  lemma RunSteps(moves: seq<Move>, i: nat)
    requires i < |moves|
    ensures Run(moves[..i + 1]) == Next(Run(moves[..i]), moves[i])
  {
    assert moves[..i + 1][..i] == moves[..i];
  }

  /** The consumer's loop, over the schedule that the event loop happens to choose. */
  method Consume(moves: seq<Move>) returns (records: seq<StreamRecord>, closed: bool)
    ensures records == Run(moves).records
    ensures closed == Run(moves).place.Closed?
  {
    var queue: seq<Event> := [];
    var last := QUEUED;
    var sequence: nat := 0;
    var outcome: Option<Outcome> := None;
    var place := AtTop;
    records := [];
    for i := 0 to |moves|
      invariant Run(moves[..i]) == Stream(place, queue, last, sequence, outcome, records)
    {
      RunSteps(moves, i);
      place, queue, last, sequence, outcome, records :=
        Turn(moves[i], place, queue, last, sequence, outcome, records);
    }
    assert moves[..|moves|] == moves;
    closed := place == Closed;
  }

  /** One turn of the event loop: the runner, the consumer or the clock gets to move. */
  method Turn(move: Move, place0: Place, queue0: seq<Event>, last0: Event, sequence0: nat, outcome0: Option<Outcome>,
              records0: seq<StreamRecord>)
    returns (place: Place, queue: seq<Event>, last: Event, sequence: nat, outcome: Option<Outcome>,
             records: seq<StreamRecord>)
    ensures Stream(place, queue, last, sequence, outcome, records)
         == Next(Stream(place0, queue0, last0, sequence0, outcome0, records0), move)
  {
    place, queue, last, sequence, outcome, records := place0, queue0, last0, sequence0, outcome0, records0;
    var failure: Option<string> := None;
    match move {
      case Publish(e) =>
        if outcome.None? { queue := queue + [e]; }
      case Settle(o) =>
        if outcome.None? { outcome := Some(o); }
      case Check =>
        if place == AtTop {
          if outcome.Some? && queue == [] {
            place := Closed;
            match outcome.value {
              case Raised(message) =>
                failure := Some(message);
              case Returned(value, encodable) =>
                sequence := sequence + 1;
                if encodable {
                  records := records + [ResultRecord(sequence, value)];
                } else {
                  failure := Some(UNWRITABLE);
                }
            }
          } else {
            place := Waiting;
          }
        }
      case Take =>
        if place == Waiting && queue != [] {
          last, queue := queue[0], queue[1..];
          place := AtTop;
          sequence := sequence + 1;
          if last.encodable {
            records := records + [Progress(sequence, last)];
          } else {
            failure := Some(UNWRITABLE);
          }
        }
      case Timeout =>
        if place == Waiting {
          place := AtTop;
          sequence := sequence + 1;
          if last.plain {
            records := records + [Pulse(sequence, last)];
          } else {
            failure := Some(UNWRITABLE);
          }
        }
    }
    if failure.Some? {
      place := Closed;
      sequence := sequence + 1;
      records := records + [ErrorRecord(sequence, failure.value)];
    }
  }

  // ---------------------------------------------------------------- what a reader of the stream sees

  /** The runner's own story, read off the schedule alone: how it ended first. */
  function Settled(moves: seq<Move>): Option<Outcome>
    decreases |moves|
  {
    if moves == [] then None
    else
      var before, m := Settled(moves[..|moves| - 1]), moves[|moves| - 1];
      if before.None? && m.Settle? then Some(m.outcome) else before
  }

  /** Every event published before the runner ended, in publish order. */
  function Published(moves: seq<Move>): seq<Event>
    decreases |moves|
  {
    if moves == [] then []
    else
      var init, m := moves[..|moves| - 1], moves[|moves| - 1];
      Published(init) + if m.Publish? && Settled(init).None? then [m.event] else []
  }

  /** The events among the records, in order. */
  function Delivered(records: seq<StreamRecord>): seq<Event>
    decreases |records|
  {
    if records == [] then []
    else
      var r := records[|records| - 1];
      Delivered(records[..|records| - 1]) + if r.Progress? then [r.event] else []
  }

  function Latest(events: seq<Event>): Event {
    if events == [] then QUEUED else events[|events| - 1]
  }

  /** The records carry 1, 2, 3, ... with no gap. */
  ghost predicate Numbered(records: seq<StreamRecord>) {
    forall k :: 0 <= k < |records| ==> records[k].sequence == k + 1
  }

  predicate IsFinal(r: StreamRecord) {
    r.ResultRecord? || r.ErrorRecord?
  }

  ghost predicate NoneFinal(records: seq<StreamRecord>) {
    forall k :: 0 <= k < |records| ==> !IsFinal(records[k])
  }

  /** A heartbeat repeats the newest event among the records before it; before any it says what is waited for. */
  ghost predicate Echoes(r: StreamRecord, before: seq<StreamRecord>) {
    r.Heartbeat? ==>
      var events := Delivered(before);
      && r.sequence == |before| + 1
      && if events == []
         then r.phase == "queued" && r.caption == "Queued" && r.detail == "Waiting for the operation to start."
         else Repeats(r, events[|events| - 1])
  }

  /** Fields the event leaves out have fixed replacements. */
  ghost predicate Repeats(r: StreamRecord, e: Event)
    requires r.Heartbeat?
  {
    && (e.phase.Some? ==> r.phase == e.phase.value) && (e.phase.None? ==> r.phase == "working")
    && (e.caption.Some? ==> r.caption == e.caption.value) && (e.caption.None? ==> r.caption == "Working")
    && (e.detail.Some? ==> r.detail == e.detail.value) && (e.detail.None? ==> r.detail == "")
  }

  lemma PulseEchoes(before: seq<StreamRecord>)
    ensures Echoes(Pulse(|before| + 1, Latest(Delivered(before))), before)
  {
  }

  ghost predicate HeartbeatsEcho(records: seq<StreamRecord>) {
    forall k :: 0 <= k < |records| ==> Echoes(records[k], records[..k])
  }

  /** No timeout strikes while the newest event has fields that a heartbeat cannot write. */
  ghost predicate PulsesWritable(moves: seq<Move>) {
    forall k :: 0 <= k < |moves| && moves[k] == Timeout && Run(moves[..k]).place == Waiting ==>
      Run(moves[..k]).last.plain
  }

  /** Everything the runner hands over can be written. */
  ghost predicate Writable(moves: seq<Move>) {
    && (forall e :: e in Published(moves) ==> e.encodable)
    && (Settled(moves).Some? && Settled(moves).value.Returned? ==> Settled(moves).value.encodable)
    && PulsesWritable(moves)
  }

  /** The last record of a stream that ran to its end. */
  function Ending(sequence: nat, o: Outcome): StreamRecord {
    match o
    case Raised(message) => ErrorRecord(sequence, message)
    case Returned(value, _) => ResultRecord(sequence, value)
  }

  lemma DeliveredAppend(records: seq<StreamRecord>, r: StreamRecord)
    ensures Delivered(records + [r]) == Delivered(records) + if r.Progress? then [r.event] else []
  {
    assert (records + [r])[..|records|] == records;
  }

  lemma EchoAppend(records: seq<StreamRecord>, r: StreamRecord)
    requires HeartbeatsEcho(records) && Echoes(r, records)
    ensures HeartbeatsEcho(records + [r])
  {
    var all := records + [r];
    forall k | 0 <= k < |all|
      ensures Echoes(all[k], all[..k])
    {
      if k == |records| {
        assert all[..k] == records;
      } else {
        assert all[..k] == records[..k];
        assert all[k] == records[k];
      }
    }
  }

  /** One record more, after the first |records|. */
  lemma NumberedAppend(records: seq<StreamRecord>, r: StreamRecord)
    requires Numbered(records)
    ensures Numbered(records + [r]) <==> r.sequence == |records| + 1
  {
    var all := records + [r];
    assert all[|records|] == r;
    assert forall k :: 0 <= k < |records| ==> all[k] == records[k];
  }

  ghost predicate RecordsSound(records: seq<StreamRecord>) {
    Numbered(records) && NoneFinal(records) && HeartbeatsEcho(records)
  }

  /** The flow of events: delivered, then waiting; the newest delivered one is remembered. */
  ghost predicate FlowSound(delivered: seq<Event>, queue: seq<Event>, last: Event, published: seq<Event>) {
    && published == delivered + queue
    && last == Latest(delivered)
    && (forall e :: e in delivered ==> e.encodable)
  }

  /** What the stream keeps while it is open. */
  ghost predicate OpenSound(s: Stream, published: seq<Event>) {
    && RecordsSound(s.records) && s.sequence == |s.records|
    && FlowSound(Delivered(s.records), s.queue, s.last, published)
  }

  /** The records of a closed stream: one final record, and it is the last. */
  ghost predicate Finished(records: seq<StreamRecord>) {
    && |records| > 0
    && var n := |records| - 1;
       NoneFinal(records[..n]) && Numbered(records[..n]) && HeartbeatsEcho(records) && IsFinal(records[n])
  }

  /** A stream that wrote everything it was given. */
  ghost predicate ClosedWell(s: Stream, published: seq<Event>) {
    && s.queue == [] && Delivered(s.records) == published && s.outcome.Some? && |s.records| > 0
    && s.records[|s.records| - 1] == Ending(|s.records|, s.outcome.value)
  }

  /** A stream cut by a record that could not be written: its number is lost. */
  ghost predicate ClosedBadly(records: seq<StreamRecord>, published: seq<Event>) {
    && Delivered(records) <= published && |records| > 0
    && records[|records| - 1] == ErrorRecord(|records| + 1, UNWRITABLE)
  }

  ghost predicate Sound(s: Stream, moves: seq<Move>) {
    && s.outcome == Settled(moves)
    && (!s.place.Closed? ==> OpenSound(s, Published(moves)) && PulsesWritable(moves))
    && (s.place.Closed? ==>
          && Finished(s.records)
          && if Writable(moves) then ClosedWell(s, Published(moves)) else ClosedBadly(s.records, Published(moves)))
  }

  lemma PulsesStep(moves: seq<Move>, m: Move)
    ensures PulsesWritable(moves + [m]) <==>
              PulsesWritable(moves) && (m == Timeout && Run(moves).place == Waiting ==> Run(moves).last.plain)
  {
    var all := moves + [m];
    assert all[..|moves|] == moves;
    assert forall k :: 0 <= k < |moves| ==> all[k] == moves[k] && all[..k] == moves[..k];
    if PulsesWritable(all) {
      forall k | 0 <= k < |moves| && moves[k] == Timeout && Run(moves[..k]).place == Waiting
        ensures Run(moves[..k]).last.plain
      {
        assert all[k] == Timeout;
      }
      assert all[|moves|] == m;
    }
  }

  lemma FlowStep(delivered: seq<Event>, queue: seq<Event>, last: Event, published: seq<Event>)
    requires FlowSound(delivered, queue, last, published) && queue != [] && queue[0].encodable
    ensures FlowSound(delivered + [queue[0]], queue[1..], queue[0], published)
  {
    assert queue == [queue[0]] + queue[1..];
  }

  /** An open stream that writes one record which is not final keeps its numbering and its echoes. */
  lemma OpenAppend(records: seq<StreamRecord>, r: StreamRecord)
    requires RecordsSound(records) && !IsFinal(r) && r.sequence == |records| + 1 && Echoes(r, records)
    ensures RecordsSound(records + [r])
    ensures Delivered(records + [r]) == Delivered(records) + if r.Progress? then [r.event] else []
  {
    DeliveredAppend(records, r);
    EchoAppend(records, r);
    NumberedAppend(records, r);
  }

  lemma FinishedAppend(records: seq<StreamRecord>, r: StreamRecord)
    requires RecordsSound(records) && IsFinal(r)
    ensures Finished(records + [r]) && Delivered(records + [r]) == Delivered(records)
  {
    assert (records + [r])[..|records|] == records;
    DeliveredAppend(records, r);
    EchoAppend(records, r);
  }

  /** A record that cannot be written ends the stream with one number lost. */
  lemma CutShort(records: seq<StreamRecord>, published: seq<Event>)
    requires RecordsSound(records)
    ensures var all := records + [ErrorRecord(|records| + 2, UNWRITABLE)];
            Finished(all) && (Delivered(records) <= published ==> ClosedBadly(all, published))
  {
    FinishedAppend(records, ErrorRecord(|records| + 2, UNWRITABLE));
  }

  lemma EmitFails(s: Stream, record: StreamRecord)
    ensures Emit(s, record, false)
         == s.(place := Closed, sequence := s.sequence + 2,
               records := s.records + [ErrorRecord(s.sequence + 2, UNWRITABLE)])
  {
  }

  lemma FailedEmit(s: Stream, record: StreamRecord, published: seq<Event>)
    requires RecordsSound(s.records) && s.sequence == |s.records| && Delivered(s.records) <= published
    ensures var t := Emit(s, record, false);
            t.place.Closed? && Finished(t.records) && ClosedBadly(t.records, published)
  {
    EmitFails(s, record);
    CutShort(s.records, published);
  }

  lemma TakeKeepsSound(s: Stream, published: seq<Event>)
    requires s.place == Waiting && s.queue != [] && OpenSound(s, published) && s.queue[0].encodable
    ensures var t := Next(s, Take);
            !t.place.Closed? && OpenSound(t, published)
  {
    OpenAppend(s.records, Progress(s.sequence + 1, s.queue[0]));
    FlowStep(Delivered(s.records), s.queue, s.last, published);
  }

  lemma PulseAppends(records: seq<StreamRecord>, last: Event)
    requires RecordsSound(records) && last == Latest(Delivered(records))
    ensures var all := records + [Pulse(|records| + 1, last)];
            RecordsSound(all) && Delivered(all) == Delivered(records)
  {
    PulseEchoes(records);
    OpenAppend(records, Pulse(|records| + 1, last));
  }

  lemma TimeoutKeepsSound(s: Stream, published: seq<Event>)
    requires s.place == Waiting && OpenSound(s, published) && s.last.plain
    ensures var t := Next(s, Timeout);
            !t.place.Closed? && OpenSound(t, published)
  {
    PulseAppends(s.records, s.last);
  }

  lemma LeaveKeepsSound(s: Stream, published: seq<Event>)
    requires s.place == AtTop && s.outcome.Some? && s.queue == [] && OpenSound(s, published)
    requires s.outcome.value.Returned? ==> s.outcome.value.encodable
    ensures var t := Next(s, Check);
            t.place.Closed? && Finished(t.records) && ClosedWell(t, published)
  {
    FinishedAppend(s.records, Ending(s.sequence + 1, s.outcome.value));
  }

  /** Whether the open stream's next record, if it writes one now, can be written. */
  predicate StepWritable(s: Stream, m: Move) {
    match m
    case Take => s.place == Waiting && s.queue != [] ==> s.queue[0].encodable
    case Timeout => s.place == Waiting ==> s.last.plain
    case Check =>
      s.place == AtTop && s.outcome.Some? && s.queue == [] && s.outcome.value.Returned? ==> s.outcome.value.encodable
    case _ => true
  }

  lemma UnwritableStepCuts(s: Stream, m: Move, published: seq<Event>)
    requires OpenSound(s, published) && !s.place.Closed? && !StepWritable(s, m)
    ensures var t := Next(s, m);
            t.place.Closed? && Finished(t.records) && ClosedBadly(t.records, published)
  {
    match m
    case Take =>
      var e := s.queue[0];
      FailedEmit(s.(place := AtTop, queue := s.queue[1..], last := e), Progress(s.sequence + 1, e), published);
    case Timeout =>
      FailedEmit(s.(place := AtTop), Pulse(s.sequence + 1, s.last), published);
    case Check =>
      FailedEmit(s.(place := Closed), ResultRecord(s.sequence + 1, s.outcome.value.value), published);
  }

  /** What the schedule alone says, grown by one move. */
  lemma StoryStep(moves: seq<Move>, m: Move)
    ensures Run(moves + [m]) == Next(Run(moves), m)
    ensures Settled(moves + [m]) == if Settled(moves).None? && m.Settle? then Some(m.outcome) else Settled(moves)
    ensures Published(moves + [m]) == Published(moves) + if m.Publish? && Settled(moves).None? then [m.event] else []
  {
    var all := moves + [m];
    assert all[..|all| - 1] == moves && all[|all| - 1] == m;
  }

  lemma NextKeepsSound(moves: seq<Move>, m: Move)
    requires Sound(Run(moves), moves)
    ensures Sound(Run(moves + [m]), moves + [m])
  {
    StoryStep(moves, m);
    PulsesStep(moves, m);
    if Run(moves).place.Closed? {
      ClosedKeepsSound(moves, m);
    } else {
      OpenKeepsSound(moves, m);
    }
  }

  /** A closed stream stays as it is, whatever the runner still publishes. */
  lemma ClosedKeepsSound(moves: seq<Move>, m: Move)
    requires Sound(Run(moves), moves) && Run(moves).place.Closed?
    ensures Sound(Run(moves + [m]), moves + [m])
  {
    StoryStep(moves, m);
    PulsesStep(moves, m);
    var s, t := Run(moves), Run(moves + [m]);
    assert t.records == s.records && t.place == s.place;
    if Writable(moves) {
      assert t == s && Published(moves + [m]) == Published(moves);
    } else {
      assert Delivered(s.records) <= Published(moves) <= Published(moves + [m]);
      assert forall e :: e in Published(moves) ==> e in Published(moves + [m]);
    }
  }

  lemma OpenKeepsSound(moves: seq<Move>, m: Move)
    requires Sound(Run(moves), moves) && !Run(moves).place.Closed?
    ensures Sound(Run(moves + [m]), moves + [m])
  {
    var s := Run(moves);
    if StepWritable(s, m) {
      WritableStepKeepsSound(moves, m);
    } else {
      UnwritableStepCuts(s, m, Published(moves));
      UnwritableStepSpoils(moves, m);
      StoryStep(moves, m);
    }
  }

  lemma UnwritableStepSpoils(moves: seq<Move>, m: Move)
    requires Sound(Run(moves), moves) && !Run(moves).place.Closed? && !StepWritable(Run(moves), m)
    ensures !Writable(moves + [m])
  {
    StoryStep(moves, m);
    PulsesStep(moves, m);
    var s := Run(moves);
    if m == Take {
      assert s.queue[0] in Published(moves);
    }
  }

  /** The consumer's step that ends the stream after everything has been written. */
  predicate Leaves(s: Stream, m: Move) {
    m == Check && s.place == AtTop && s.outcome.Some? && s.queue == []
  }

  lemma WritableStepKeepsSound(moves: seq<Move>, m: Move)
    requires Sound(Run(moves), moves) && !Run(moves).place.Closed? && StepWritable(Run(moves), m)
    ensures Sound(Run(moves + [m]), moves + [m])
  {
    if Leaves(Run(moves), m) {
      LeavingKeepsSound(moves, m);
    } else {
      StayingKeepsSound(moves, m);
    }
  }

  lemma LeavingKeepsSound(moves: seq<Move>, m: Move)
    requires Sound(Run(moves), moves) && Leaves(Run(moves), m) && StepWritable(Run(moves), m)
    ensures Sound(Run(moves + [m]), moves + [m])
  {
    StoryStep(moves, m);
    PulsesStep(moves, m);
    LeaveKeepsSound(Run(moves), Published(moves));
  }

  lemma StayingKeepsSound(moves: seq<Move>, m: Move)
    requires Sound(Run(moves), moves) && !Run(moves).place.Closed? && StepWritable(Run(moves), m)
    requires !Leaves(Run(moves), m)
    ensures Sound(Run(moves + [m]), moves + [m])
  {
    StoryStep(moves, m);
    PulsesStep(moves, m);
    StepStaysOpen(Run(moves), m, Published(moves));
  }

  /** A writable step that does not leave keeps the stream open, and what it publishes queued. */
  lemma StepStaysOpen(s: Stream, m: Move, published: seq<Event>)
    requires OpenSound(s, published) && !s.place.Closed? && StepWritable(s, m) && !Leaves(s, m)
    ensures var t := Next(s, m);
            !t.place.Closed?
            && OpenSound(t, published + if m.Publish? && s.outcome.None? then [m.event] else [])
  {
    if m == Take && s.place == Waiting && s.queue != [] {
      TakeKeepsSound(s, published);
    } else if m == Timeout && s.place == Waiting {
      TimeoutKeepsSound(s, published);
    }
    assert published + [] == published;
  }

  lemma {:induction false} RunIsSound(moves: seq<Move>)
    ensures Sound(Run(moves), moves)
    decreases |moves|
  {
    if moves != [] {
      var init, m := moves[..|moves| - 1], moves[|moves| - 1];
      assert moves == init + [m];
      RunIsSound(init);
      NextKeepsSound(init, m);
    }
  }

  /**
   * While the stream is open nothing is lost, doubled or reordered: what was published is what was
   * delivered followed by what waits, the numbers run 1..n, and no final record has been written.
   */
  lemma OpenStreamLosesNothing(moves: seq<Move>)
    requires !Run(moves).place.Closed?
    ensures var s := Run(moves);
            && Published(moves) == Delivered(s.records) + s.queue
            && Numbered(s.records) && NoneFinal(s.records) && HeartbeatsEcho(s.records)
  {
    RunIsSound(moves);
  }

  /**
   * A closed stream has exactly one final record, its last. Its numbers are gapless, with every
   * published event delivered once and in order and the runner's own ending last, if and only if
   * everything handed over could be written; otherwise one number is skipped before an error record.
   */
  lemma ClosedStreamIsGaplessIffWritable(moves: seq<Move>)
    requires Run(moves).place.Closed?
    ensures var records := Run(moves).records;
            && |records| > 0 && IsFinal(records[|records| - 1]) && NoneFinal(records[..|records| - 1])
            && HeartbeatsEcho(records)
            && (Numbered(records) <==> Writable(moves))
            && Delivered(records) <= Published(moves)
            && (Writable(moves) ==>
                  && Delivered(records) == Published(moves)
                  && Settled(moves).Some?
                  && records[|records| - 1] == match Settled(moves).value {
                       case Raised(message) => ErrorRecord(|records|, message)
                       case Returned(value, _) => ResultRecord(|records|, value)
                     })
            && (!Writable(moves) ==> records[|records| - 1] == ErrorRecord(|records| + 1, UNWRITABLE))
  {
    RunIsSound(moves);
    FinishedNumbers(Run(moves).records);
  }

  lemma FinishedNumbers(records: seq<StreamRecord>)
    requires Finished(records)
    ensures Numbered(records) <==> records[|records| - 1].sequence == |records|
  {
    var n := |records| - 1;
    assert records == records[..n] + [records[n]];
    NumberedAppend(records[..n], records[n]);
  }

  /** After this schedule the step writes this one record, and the stream stays open. */
  ghost predicate Writes(moves: seq<Move>, m: Move, r: StreamRecord) {
    Run(moves + [m]).records == Run(moves).records + [r] && !Run(moves + [m]).place.Closed?
  }

  /** Every timeout of the wait writes one heartbeat, and goes back to the head of the loop. */
  lemma EveryTimeoutBeats(moves: seq<Move>)
    requires Run(moves).place == Waiting && Run(moves).last.plain
    ensures exists r: StreamRecord :: r.Heartbeat? && Writes(moves, Timeout, r) && Echoes(r, Run(moves).records)
    ensures Run(moves + [Timeout]).place == AtTop
  {
    var s := Run(moves);
    RunIsSound(moves);
    StoryStep(moves, Timeout);
    PulseEchoes(s.records);
    assert Writes(moves, Timeout, Pulse(s.sequence + 1, s.last));
  }

  /** Every event taken is written as one record, unchanged; the consumer goes on with the next round. */
  lemma EveryEventIsWritten(moves: seq<Move>)
    requires Run(moves).place == Waiting && Run(moves).queue != [] && Run(moves).queue[0].encodable
    ensures Writes(moves, Take, Progress(|Run(moves).records| + 1, Run(moves).queue[0]))
    ensures Run(moves + [Take]).place == AtTop && Run(moves + [Take]).queue == Run(moves).queue[1..]
  {
    RunIsSound(moves);
    StoryStep(moves, Take);
  }

  /** At its head the loop ends if and only if the runner has and nothing waits; else it waits, and writes nothing. */
  lemma TheLoopEndsExactlyWhenSettled(moves: seq<Move>)
    requires Run(moves).place == AtTop
    ensures Run(moves + [Check]).place == Closed <==> Settled(moves).Some? && Run(moves).queue == []
    ensures Run(moves + [Check]).place != Closed ==>
              Run(moves + [Check]) == Run(moves).(place := Waiting)
  {
    RunIsSound(moves);
    StoryStep(moves, Check);
  }

  // ---------------------------------------------------------------- the stream ends

  /** Three opportunities for the consumer: an event, a timeout, and the test at the loop head. */
  function Round(s: Stream): Stream {
    Next(Next(Next(s, Take), Timeout), Check)
  }

  function Rounds(s: Stream, n: nat): Stream
    decreases n
  {
    if n == 0 then s else Rounds(Round(s), n - 1)
  }

  lemma RoundShortens(s: Stream)
    requires s.outcome.Some? && s.place == Waiting
    ensures var t := Round(s);
            t.outcome.Some? && (t.place.Closed? || (t.place == Waiting && |t.queue| < |s.queue|))
  {
  }

  lemma ClosedStays(s: Stream, n: nat)
    requires s.place.Closed?
    ensures Rounds(s, n) == s
  {
    if n > 0 {
      assert Round(s) == s;
    }
  }

  lemma {:induction false} WaitingEnds(s: Stream, n: nat)
    requires s.outcome.Some? && s.place == Waiting && n > |s.queue|
    ensures Rounds(s, n).place.Closed?
    decreases n
  {
    RoundShortens(s);
    var t := Round(s);
    if t.place.Closed? {
      ClosedStays(t, n - 1);
    } else {
      WaitingEnds(t, n - 1);
    }
  }

  lemma RoundFromTop(s: Stream)
    requires s.outcome.Some? && s.place == AtTop
    ensures var t := Round(s);
            t.outcome.Some? && (t.place.Closed? || (t.place == Waiting && t.queue == s.queue))
  {
  }

  lemma StreamEnds(s: Stream, n: nat)
    requires s.outcome.Some? && n > |s.queue| + 1
    ensures Rounds(s, n).place.Closed?
  {
    match s.place
    case Closed => ClosedStays(s, n);
    case Waiting => WaitingEnds(s, n);
    case AtTop =>
      RoundFromTop(s);
      var t := Round(s);
      assert Rounds(s, n) == Rounds(t, n - 1);
      if t.place.Closed? {
        ClosedStays(t, n - 1);
      } else {
        WaitingEnds(t, n - 1);
      }
  }

  lemma {:induction false} OutcomeIsSettled(moves: seq<Move>)
    ensures Run(moves).outcome == Settled(moves)
    decreases |moves|
  {
    if moves != [] {
      OutcomeIsSettled(moves[..|moves| - 1]);
    }
  }

  /** Once the runner has ended, the stream closes within two rounds more than the events still queued. */
  lemma SettledStreamCloses(moves: seq<Move>)
    requires Settled(moves).Some?
    ensures Rounds(Run(moves), |Run(moves).queue| + 2).place.Closed?
  {
    OutcomeIsSettled(moves);
    StreamEnds(Run(moves), |Run(moves).queue| + 2);
  }

  /** An event that cannot be written skips a number: the only record is an error, and is numbered 2. */
  lemma UnwritableEventSkipsANumber()
    ensures var bad := QUEUED.(encodable := false);
            Run([Publish(bad), Check, Take]).records == [ErrorRecord(2, UNWRITABLE)]
  {
    var bad := QUEUED.(encodable := false);
    var moves := [Publish(bad), Check, Take];
    assert moves[..2] == [Publish(bad), Check];
    assert moves[..2][..1] == [Publish(bad)];
    assert moves[..2][..1][..0] == [];
    assert Run(moves[..2][..1]) == START.(queue := [bad]);
    assert Run(moves[..2]) == START.(queue := [bad], place := Waiting);
  }
}
