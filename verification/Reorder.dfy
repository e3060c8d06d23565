/** Inflating one layer's spans on many threads and sending them on in order. */
module Reorder {
  import opened Totals

  /** What inflating each span comes to. */
  type Outcomes = seq<bool>

  /** Where a span worker is. It stops after a span that fails. */
  datatype Worker = Looking | Claiming | Inflating(span: nat) | Sending(span: nat) | Finished

  /** How the consumer stands: still receiving, or at an end because every
      sender has gone, because a span failed, or because whoever it sends to has
      gone. */
  datatype Ending = Receiving | Drained | Failed(span: nat) | Left

  /** `queue` is the channel, `pending` what has arrived before its turn, `sent`
      what has been sent on. `room` is how many chunks are taken before whoever
      takes them goes, if it ever goes. */
  datatype State = State(
    next: nat, stop: bool, workers: seq<Worker>, queue: seq<nat>, pending: set<nat>, want: nat, sent: seq<nat>,
    ending: Ending)

  function Start(count: nat): State {
    State(0, false, seq(count, _ => Looking), [], {}, 0, [], Receiving)
  }

  function Moved(s: State, w: nat, worker: Worker): State
    requires w < |s.workers|
  {
    s.(workers := s.workers[w := worker])
  }

  /** A worker's move. The channel holds one span for each worker, and sending
      into it fails once the consumer has gone. */
  function WorkerStep(s: State, outcomes: Outcomes, w: nat): State
    requires w < |s.workers|
  {
    match s.workers[w]
    case Looking => Moved(s, w, if s.stop then Finished else Claiming)
    case Claiming => Moved(s, w, if s.next < |outcomes| then Inflating(s.next) else Finished).(next := s.next + 1)
    case Inflating(i) => Moved(s, w, Sending(i))
    case Sending(i) =>
      if s.ending != Receiving then Moved(s, w, Finished)
      else if |s.queue| >= |s.workers| then s
      else Moved(s, w, if i < |outcomes| && outcomes[i] then Looking else Finished).(queue := s.queue + [i])
    case Finished => s
  }

  predicate IsRefused(room: int, sent: seq<nat>) {
    0 <= room <= |sent|
  }

  /** Sends on every span whose turn has come. A `room` of less than zero never
      runs out. */
  function Drain(s: State, outcomes: Outcomes, room: int): State
    decreases |s.pending|
  {
    if s.want !in s.pending then s
    else
      var taken := s.(pending := s.pending - {s.want}, want := s.want + 1);
      if s.want >= |outcomes| || !outcomes[s.want] then taken.(stop := true, ending := Failed(s.want))
      else if IsRefused(room, s.sent) then taken.(stop := true, ending := Left)
      else Drain(taken.(sent := s.sent + [s.want]), outcomes, room)
  }

  predicate SendersGone(s: State) {
    forall w | 0 <= w < |s.workers| :: s.workers[w] == Finished
  }

  /** The consumer's move: it takes what came first, or waits, or ends. */
  function ConsumerStep(s: State, outcomes: Outcomes, room: int): State {
    if s.ending != Receiving then s
    else if s.queue != [] then Drain(s.(queue := s.queue[1..], pending := s.pending + {s.queue[0]}), outcomes, room)
    else if SendersGone(s) then s.(ending := Drained)
    else s
  }

  /** A turn past the workers is the consumer's. */
  function Step(s: State, outcomes: Outcomes, room: int, turn: nat): State {
    if turn < |s.workers| then WorkerStep(s, outcomes, turn) else ConsumerStep(s, outcomes, room)
  }

  function Run(s: State, outcomes: Outcomes, room: int, schedule: seq<nat>): State {
    if schedule == [] then s
    else Step(Run(s, outcomes, room, schedule[..|schedule| - 1]), outcomes, room, schedule[|schedule| - 1])
  }

  // ------------------------------------------------------------ what every move keeps

  predicate IsHeld(workers: seq<Worker>, i: nat) {
    exists w | 0 <= w < |workers| :: workers[w] == Inflating(i) || workers[w] == Sending(i)
  }

  /** A span claimed is on its way to the consumer, or has been through. */
  predicate Accounted(s: State, i: nat) {
    IsHeld(s.workers, i) || i in s.queue || i in s.pending || i < s.want
  }

  /** Spans are sent on in order, from the first, and all of them inflated. */
  predicate InOrder(outcomes: Outcomes, sent: seq<nat>) {
    |sent| <= |outcomes| && forall k | 0 <= k < |sent| :: sent[k] == k && outcomes[k]
  }

  predicate WorkerHolds(s: State, outcomes: Outcomes, w: nat)
    requires w < |s.workers|
  {
    match s.workers[w]
    case Inflating(i) => i < |outcomes| && i < s.next
    case Sending(i) => i < |outcomes| && i < s.next
    case Finished =>
      s.ending != Receiving || s.next >= |outcomes| || exists i | 0 <= i < |outcomes| :: i < s.next && !outcomes[i]
    case _ => true
  }

  predicate WorkersHold(s: State, outcomes: Outcomes) {
    forall w | 0 <= w < |s.workers| :: WorkerHolds(s, outcomes, w)
  }

  /** No more has been sent on than there was room for. */
  predicate IsTaken(room: int, sent: seq<nat>) {
    room < 0 || |sent| <= room
  }

  /** What holds while the consumer is receiving. */
  predicate Inv(s: State, outcomes: Outcomes, room: int) {
    && InOrder(outcomes, s.sent) && WorkersHold(s, outcomes) && IsTaken(room, s.sent)
    && match s.ending
       case Receiving =>
         && !s.stop && s.want == |s.sent| && s.want !in s.pending
         && (forall i | 0 <= i < s.next && i < |outcomes| :: Accounted(s, i))
         && (forall i | i in s.queue :: i < |outcomes|) && (forall i | i in s.pending :: i < |outcomes|)
       case Drained => |s.sent| == |outcomes|
       case Failed(i) => i == |s.sent| < |outcomes| && !outcomes[i]
       case Left => IsRefused(room, s.sent) && |s.sent| < |outcomes| && outcomes[|s.sent|]
  }

  lemma WorkerKeepsSpans(s: State, outcomes: Outcomes, w: nat, i: nat)
    requires w < |s.workers| && s.ending == Receiving && WorkersHold(s, outcomes)
    requires i < s.next && i < |outcomes| ==> Accounted(s, i)
    requires i < WorkerStep(s, outcomes, w).next && i < |outcomes|
    ensures Accounted(WorkerStep(s, outcomes, w), i)
  {
    var after := WorkerStep(s, outcomes, w);
    if i == s.next {
      assert after.workers[w] == Inflating(i);
    } else if IsHeld(s.workers, i) {
      var v :| 0 <= v < |s.workers| && (s.workers[v] == Inflating(i) || s.workers[v] == Sending(i));
      assert v != w ==> after.workers[v] == s.workers[v];
      assert v == w ==> after.workers[v] == Sending(i) || i in after.queue;
    }
  }

  lemma WorkerKeepsWorkers(s: State, outcomes: Outcomes, room: int, w: nat)
    requires w < |s.workers| && Inv(s, outcomes, room)
    ensures WorkersHold(WorkerStep(s, outcomes, w), outcomes)
  {
    var after := WorkerStep(s, outcomes, w);
    assert WorkerHolds(s, outcomes, w);
    forall v | 0 <= v < |after.workers| ensures WorkerHolds(after, outcomes, v) {
      assert WorkerHolds(s, outcomes, v);
    }
  }

  lemma WorkerKeepsInv(s: State, outcomes: Outcomes, room: int, w: nat)
    requires w < |s.workers| && Inv(s, outcomes, room)
    ensures Inv(WorkerStep(s, outcomes, w), outcomes, room)
  {
    WorkerKeepsWorkers(s, outcomes, room, w);
    assert WorkerHolds(s, outcomes, w);
    if s.ending == Receiving {
      var after := WorkerStep(s, outcomes, w);
      forall i | 0 <= i < after.next && i < |outcomes| ensures Accounted(after, i) {
        WorkerKeepsSpans(s, outcomes, w, i);
      }
    }
  }

  /** What holds between sending one span on and the next. */
  predicate Draining(s: State, outcomes: Outcomes) {
    && InOrder(outcomes, s.sent) && WorkersHold(s, outcomes) && s.ending == Receiving
    && !s.stop && s.want == |s.sent|
    && (forall i | 0 <= i < s.next && i < |outcomes| :: Accounted(s, i))
    && (forall i | i in s.queue :: i < |outcomes|) && (forall i | i in s.pending :: i < |outcomes|)
  }

  lemma {:induction false} DrainKeepsInv(s: State, outcomes: Outcomes, room: int)
    requires Draining(s, outcomes) && IsTaken(room, s.sent)
    ensures Inv(Drain(s, outcomes, room), outcomes, room)
    decreases |s.pending|
  {
    if s.want in s.pending {
      var taken := s.(pending := s.pending - {s.want}, want := s.want + 1);
      var after := Drain(s, outcomes, room);
      forall w | 0 <= w < |s.workers| && after.workers == s.workers && after.next == s.next
        ensures WorkerHolds(after, outcomes, w)
      {
        assert WorkerHolds(s, outcomes, w);
      }
      if outcomes[s.want] && !IsRefused(room, s.sent) {
        var more := taken.(sent := s.sent + [s.want]);
        forall w | 0 <= w < |s.workers| ensures WorkerHolds(more, outcomes, w) {
          assert WorkerHolds(s, outcomes, w);
        }
        forall i | 0 <= i < more.next && i < |outcomes| ensures Accounted(more, i) {
          assert Accounted(s, i);
        }
        DrainKeepsInv(more, outcomes, room);
      }
    }
  }

  /** With nothing more to come, everything has been sent on. */
  lemma NothingIsMissing(s: State, outcomes: Outcomes, room: int)
    requires Inv(s, outcomes, room) && s.ending == Receiving && s.queue == [] && SendersGone(s) && |s.workers| > 0
    ensures |s.sent| == |outcomes|
  {
    assert WorkerHolds(s, outcomes, 0);
    assert s.want < s.next && s.want < |outcomes| ==> Accounted(s, s.want);
  }

  lemma ConsumerKeepsInv(s: State, outcomes: Outcomes, room: int)
    requires Inv(s, outcomes, room) && |s.workers| > 0
    ensures Inv(ConsumerStep(s, outcomes, room), outcomes, room)
  {
    if s.ending == Receiving {
      if s.queue != [] {
        var given := s.(queue := s.queue[1..], pending := s.pending + {s.queue[0]});
        forall i | 0 <= i < given.next && i < |outcomes| ensures Accounted(given, i) {
          assert Accounted(s, i);
        }
        assert s.queue[0] in s.queue;
        assert s.queue == [s.queue[0]] + given.queue;
        assert forall i | i in given.queue :: i in s.queue;
        forall w | 0 <= w < |s.workers| ensures WorkerHolds(given, outcomes, w) {
          assert WorkerHolds(s, outcomes, w);
        }
        DrainKeepsInv(given, outcomes, room);
      } else if SendersGone(s) {
        NothingIsMissing(s, outcomes, room);
      }
    }
  }

  lemma {:induction false} RunKeepsInv(outcomes: Outcomes, count: nat, room: int, schedule: seq<nat>)
    requires count > 0
    ensures Inv(Run(Start(count), outcomes, room, schedule), outcomes, room)
    ensures |Run(Start(count), outcomes, room, schedule).workers| == count
  {
    if schedule != [] {
      var before, turn := Run(Start(count), outcomes, room, schedule[..|schedule| - 1]), schedule[|schedule| - 1];
      RunKeepsInv(outcomes, count, room, schedule[..|schedule| - 1]);
      if turn < |before.workers| {
        WorkerKeepsInv(before, outcomes, room, turn);
      } else {
        ConsumerKeepsInv(before, outcomes, room);
        if before.ending == Receiving && before.queue != [] {
          DrainLowers(before.(queue := before.queue[1..], pending := before.pending + {before.queue[0]}),
            outcomes, room);
        }
      }
    }
  }

  /** However far ahead the workers are, the channel never holds more spans than
      there are workers. */
  lemma {:induction false} ChannelIsBounded(outcomes: Outcomes, count: nat, room: int, schedule: seq<nat>)
    ensures |Run(Start(count), outcomes, room, schedule).workers| == count
    ensures |Run(Start(count), outcomes, room, schedule).queue| <= count
  {
    if schedule != [] {
      var before, turn := Run(Start(count), outcomes, room, schedule[..|schedule| - 1]), schedule[|schedule| - 1];
      ChannelIsBounded(outcomes, count, room, schedule[..|schedule| - 1]);
      if turn >= |before.workers| && before.queue != [] {
        var taken := before.(queue := before.queue[1..], pending := before.pending + {before.queue[0]});
        DrainingLeaves(taken, outcomes, room);
      }
    }
  }

  lemma {:induction false} DrainingLeaves(s: State, outcomes: Outcomes, room: int)
    ensures Drain(s, outcomes, room).queue == s.queue && Drain(s, outcomes, room).workers == s.workers
    decreases |s.pending|
  {
    if s.want in s.pending && s.want < |outcomes| && outcomes[s.want] && !IsRefused(room, s.sent) {
      var taken := s.(pending := s.pending - {s.want}, want := s.want + 1);
      DrainingLeaves(taken.(sent := s.sent + [s.want]), outcomes, room);
    }
  }

  /** How many spans inflate before one that does not. */
  function Whole(outcomes: Outcomes): (n: nat)
    ensures n <= |outcomes| && (forall i | 0 <= i < n :: outcomes[i]) && (n < |outcomes| ==> !outcomes[n])
  {
    if outcomes == [] || !outcomes[0] then 0 else 1 + Whole(outcomes[1..])
  }

  /** Under any schedule what is sent on is always the first spans in order.
      Once the consumer has ended it is all of them when none fails, or all
      before the first that fails, which is the one reported, unless whoever
      takes them goes before that. */
  lemma SentInOrder(outcomes: Outcomes, count: nat, room: int, schedule: seq<nat>)
    requires count > 0
    ensures var s, whole := Run(Start(count), outcomes, room, schedule), Whole(outcomes);
            && InOrder(outcomes, s.sent) && |s.sent| <= whole
            && match s.ending
               case Receiving => true
               case Drained => |s.sent| == whole == |outcomes|
               case Failed(i) => |s.sent| == whole == i < |outcomes|
               case Left => 0 <= room <= |s.sent| < whole
  {
    RunKeepsInv(outcomes, count, room, schedule);
  }

  // ------------------------------------------------------------ nobody waits for ever

  /** Nothing is left to do: the consumer has ended, and every worker with it. */
  predicate IsOver(s: State) {
    s.ending != Receiving && SendersGone(s)
  }

  /** What a worker has left to do, with what it is about to send. */
  function StillToDo(worker: Worker): nat {
    match worker
    case Looking => 2
    case Claiming => 1
    case Inflating(_) => 6
    case Sending(_) => 5
    case Finished => 0
  }

  function Measure(s: State, outcomes: Outcomes): nat {
    (if s.next < |outcomes| then 6 * (|outcomes| - s.next) else 0) + Total(s.workers, StillToDo)
    + 2 * |s.queue| + |s.pending| + if s.ending == Receiving then 1 else 0
  }

  lemma {:induction false} DrainLowers(s: State, outcomes: Outcomes, room: int)
    ensures var after := Drain(s, outcomes, room);
            && after.queue == s.queue && after.next == s.next && after.workers == s.workers
            && |after.pending| <= |s.pending| && (s.ending != Receiving ==> after.ending != Receiving)
    decreases |s.pending|
  {
    if s.want in s.pending && s.want < |outcomes| && outcomes[s.want] && !IsRefused(room, s.sent) {
      var taken := s.(pending := s.pending - {s.want}, want := s.want + 1);
      DrainLowers(taken.(sent := s.sent + [s.want]), outcomes, room);
    }
  }

  /** A turn that changes anything brings the end nearer. */
  lemma EveryMoveCounts(s: State, outcomes: Outcomes, room: int, turn: nat)
    requires Step(s, outcomes, room, turn) != s
    ensures Measure(Step(s, outcomes, room, turn), outcomes) < Measure(s, outcomes)
  {
    if turn < |s.workers| {
      TotalAfter(s.workers, StillToDo, turn, WorkerStep(s, outcomes, turn).workers[turn]);
    } else if s.queue != [] {
      DrainLowers(s.(queue := s.queue[1..], pending := s.pending + {s.queue[0]}), outcomes, room);
    }
  }

  /** Until all is over there is a turn that changes something: a full channel is
      one the consumer takes from, and once it has gone no send waits. */
  lemma SomeoneCanMove(s: State, outcomes: Outcomes, room: int) returns (turn: nat)
    requires !IsOver(s)
    ensures Step(s, outcomes, room, turn) != s
  {
    if s.ending == Receiving && (s.queue != [] || SendersGone(s)) {
      turn := |s.workers|;
      if s.queue != [] {
        DrainLowers(s.(queue := s.queue[1..], pending := s.pending + {s.queue[0]}), outcomes, room);
      }
    } else {
      turn :| turn < |s.workers| && s.workers[turn] != Finished;
      assert WorkerStep(s, outcomes, turn).workers[turn] != s.workers[turn];
    }
  }

  lemma {:induction false} RunOn(s: State, outcomes: Outcomes, room: int, turn: nat, more: seq<nat>)
    ensures Run(s, outcomes, room, [turn] + more) == Run(Step(s, outcomes, room, turn), outcomes, room, more)
    decreases |more|
  {
    if more == [] {
      assert ([turn] + more)[..0] == [];
    } else {
      var last := |more| - 1;
      assert ([turn] + more)[..last + 1] == [turn] + more[..last];
      RunOn(s, outcomes, room, turn, more[..last]);
    }
  }

  /** Wherever a run has come to, it can go on to the end in no more turns than
      its measure. */
  lemma {:induction false} EveryRunCanEnd(s: State, outcomes: Outcomes, room: int) returns (more: seq<nat>)
    ensures |more| <= Measure(s, outcomes) && IsOver(Run(s, outcomes, room, more))
    decreases Measure(s, outcomes)
  {
    more := [];
    if !IsOver(s) {
      var turn := SomeoneCanMove(s, outcomes, room);
      EveryMoveCounts(s, outcomes, room, turn);
      var rest := EveryRunCanEnd(Step(s, outcomes, room, turn), outcomes, room);
      RunOn(s, outcomes, room, turn, rest);
      more := [turn] + rest;
    }
  }

  /** The turns of a schedule that change anything. */
  function Moves(s: State, outcomes: Outcomes, room: int, schedule: seq<nat>): nat {
    if schedule == [] then 0
    else
      var before, turn := Run(s, outcomes, room, schedule[..|schedule| - 1]), schedule[|schedule| - 1];
      Moves(s, outcomes, room, schedule[..|schedule| - 1])
      + if Step(before, outcomes, room, turn) != before then 1 else 0
  }

  /** And no schedule has more of them than that, however long it is. */
  lemma {:induction false} MovesAreBounded(s: State, outcomes: Outcomes, room: int, schedule: seq<nat>)
    ensures Moves(s, outcomes, room, schedule) + Measure(Run(s, outcomes, room, schedule), outcomes)
         <= Measure(s, outcomes)
  {
    if schedule != [] {
      var before, turn := Run(s, outcomes, room, schedule[..|schedule| - 1]), schedule[|schedule| - 1];
      MovesAreBounded(s, outcomes, room, schedule[..|schedule| - 1]);
      if Step(before, outcomes, room, turn) != before {
        EveryMoveCounts(before, outcomes, room, turn);
      }
    }
  }

  /** How a run comes to an end: whoever takes them has gone when there was no
      more room, or else all have been sent on, or all before the first span that
      fails, which is the one reported. */
  function EndsAs(outcomes: Outcomes, room: int): (Ending, nat) {
    var whole := Whole(outcomes);
    if 0 <= room < whole then (Left, room)
    else if whole == |outcomes| then (Drained, whole)
    else (Failed(whole), whole)
  }

  /** Whatever the schedule, a run in which nobody can move any more has ended
      the one way there is, and has sent on just those spans, in order. */
  lemma AtRestItIsSettled(outcomes: Outcomes, count: nat, room: int, schedule: seq<nat>)
    requires count > 0
    requires var s := Run(Start(count), outcomes, room, schedule);
             forall turn: nat :: Step(s, outcomes, room, turn) == s
    ensures var s := Run(Start(count), outcomes, room, schedule);
            && (s.ending, |s.sent|) == EndsAs(outcomes, room)
            && forall k | 0 <= k < |s.sent| :: s.sent[k] == k
  {
    SentInOrder(outcomes, count, room, schedule);
    RunKeepsInv(outcomes, count, room, schedule);
    var s := Run(Start(count), outcomes, room, schedule);
    if !IsOver(s) {
      var turn := SomeoneCanMove(s, outcomes, room);
      assert false;
    }
  }
}
