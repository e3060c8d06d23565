/** How far inflating a layer runs ahead of whoever takes its spans in order. */
module Ahead {
  import opened Totals
  import opened Reorder

  /** A worker has a span of its own, inflated or on the way to be. */
  function HasOne(worker: Worker): nat {
    if worker.Inflating? || worker.Sending? then 1 else 0
  }

  function HasOneInflated(worker: Worker): nat {
    if worker.Sending? then 1 else 0
  }

  /** The spans that are inflated and not sent on: with a worker that is about to
      send them, in the channel, or waiting for their turn. */
  function InflatedAhead(s: State): nat {
    Total(s.workers, HasOneInflated) + |s.queue| + |s.pending|
  }

  function Claimed(s: State, outcomes: Outcomes): nat {
    if s.next < |outcomes| then s.next else |outcomes|
  }

  // ------------------------------------------------------------ never more than there are

  /** No more spans are on their way or sent on than have been claimed. */
  predicate IsAccountedFor(s: State, outcomes: Outcomes) {
    Total(s.workers, HasOne) + |s.queue| + |s.pending| + |s.sent| <= Claimed(s, outcomes)
  }

  lemma WorkerIsAccountedFor(s: State, outcomes: Outcomes, w: nat)
    requires IsAccountedFor(s, outcomes) && w < |s.workers|
    ensures IsAccountedFor(WorkerStep(s, outcomes, w), outcomes)
  {
    var after := WorkerStep(s, outcomes, w);
    TotalAfter(s.workers, HasOne, w, after.workers[w]);
    assert s.workers[w := after.workers[w]] == after.workers;
  }

  lemma {:induction false} DrainIsAccountedFor(s: State, outcomes: Outcomes, room: int)
    requires IsAccountedFor(s, outcomes)
    ensures IsAccountedFor(Drain(s, outcomes, room), outcomes)
    decreases |s.pending|
  {
    if s.want in s.pending && s.want < |outcomes| && outcomes[s.want] && !IsRefused(room, s.sent) {
      DrainIsAccountedFor(
        s.(pending := s.pending - {s.want}, want := s.want + 1, sent := s.sent + [s.want]), outcomes, room);
    }
  }

  lemma NobodyHasOne(n: nat)
    ensures Total(seq(n, _ => Looking), HasOne) == 0
  {
    if n > 0 {
      NobodyHasOne(n - 1);
      assert seq(n, _ => Looking)[..n - 1] == seq(n - 1, _ => Looking);
    }
  }

  lemma {:induction false} RunIsAccountedFor(outcomes: Outcomes, count: nat, room: int, schedule: seq<nat>)
    ensures IsAccountedFor(Run(Start(count), outcomes, room, schedule), outcomes)
  {
    if schedule == [] {
      NobodyHasOne(count);
    } else {
      var s, turn := Run(Start(count), outcomes, room, schedule[..|schedule| - 1]), schedule[|schedule| - 1];
      RunIsAccountedFor(outcomes, count, room, schedule[..|schedule| - 1]);
      if turn < |s.workers| {
        WorkerIsAccountedFor(s, outcomes, turn);
      } else if s.ending == Receiving && s.queue != [] {
        DrainIsAccountedFor(s.(queue := s.queue[1..], pending := s.pending + {s.queue[0]}), outcomes, room);
      }
    }
  }

  lemma {:induction false} InflatedIsOnItsWay(workers: seq<Worker>)
    ensures Total(workers, HasOneInflated) <= Total(workers, HasOne)
  {
    if workers != [] { InflatedIsOnItsWay(workers[..|workers| - 1]); }
  }

  // ------------------------------------------------------------ one worker on its own

  /** One worker keeps to the order, so nothing ever waits for its turn. */
  predicate IsInTurn(s: State, outcomes: Outcomes) {
    && |s.workers| == 1 && |s.queue| <= 1 && s.pending == {}
    && (s.ending == Receiving ==>
          && (s.queue != [] ==> s.queue[0] == s.want)
          && match s.workers[0]
             case Inflating(i) => i == s.want + |s.queue| && s.next == i + 1
             case Sending(i) => i == s.want + |s.queue| && s.next == i + 1
             case Finished => true
             case _ => s.next == s.want + |s.queue|)
  }

  lemma StepIsInTurn(s: State, outcomes: Outcomes, room: int, turn: nat)
    requires IsInTurn(s, outcomes)
    ensures IsInTurn(Step(s, outcomes, room, turn), outcomes)
  {
    if turn == 0 {
    } else if s.ending == Receiving && s.queue != [] {
      var taken := s.(queue := s.queue[1..], pending := s.pending + {s.queue[0]});
      var next := taken.(pending := {}, want := s.want + 1, sent := s.sent + [s.want]);
      assert taken.pending == {s.want} && taken.pending - {s.want} == {} && s.queue[1..] == [];
      assert Drain(next, outcomes, room) == next;
    }
  }

  lemma {:induction false} RunIsInTurn(outcomes: Outcomes, room: int, schedule: seq<nat>)
    ensures IsInTurn(Run(Start(1), outcomes, room, schedule), outcomes)
  {
    if schedule != [] {
      RunIsInTurn(outcomes, room, schedule[..|schedule| - 1]);
      StepIsInTurn(Run(Start(1), outcomes, room, schedule[..|schedule| - 1]), outcomes, room, schedule[|schedule| - 1]);
    }
  }

  lemma OneIsNeverFarAhead(s: State, outcomes: Outcomes)
    requires IsInTurn(s, outcomes)
    ensures InflatedAhead(s) <= 2
  {
    assert s.workers[..0] == [];
    assert Total(s.workers[..0], HasOneInflated) == 0;
  }

  // ------------------------------------------------------------ two workers, one of them held up

  predicate AllInflate(outcomes: Outcomes) {
    forall i | 0 <= i < |outcomes| :: outcomes[i]
  }

  /** The spans after the first, as far as the `k`th after it. */
  function After(k: nat): (spans: set<nat>)
    ensures |spans| == k && forall i | i in spans :: 1 <= i <= k
  {
    if k == 0 then {} else After(k - 1) + {k}
  }

  /** The first worker holds the first span, and everything up to the `k`th that
      came after waits for it. */
  predicate IsHeldUp(s: State, count: nat, k: nat) {
    && |s.workers| == count >= 2 && s.workers[0] == Sending(0) && s.workers[1] == Looking
    && s.next == k + 1 && !s.stop && s.ending == Receiving && s.queue == [] && s.sent == [] && s.want == 0
    && s.pending == After(k)
  }

  lemma RunOneTurn(s: State, outcomes: Outcomes, room: int, first: seq<nat>, turn: nat)
    ensures Run(s, outcomes, room, first + [turn]) == Step(Run(s, outcomes, room, first), outcomes, room, turn)
  {
    assert (first + [turn])[..|first|] == first;
  }

  /** The second worker claims the next span, inflates it and sends it. */
  lemma OneMoreIsSent(s: State, outcomes: Outcomes, count: nat, room: int, k: nat)
    requires IsHeldUp(s, count, k) && k + 1 < |outcomes| && outcomes[k + 1]
    ensures Run(s, outcomes, room, [1, 1, 1, 1]) == s.(next := k + 2, queue := [k + 1])
  {
    var claiming := s.(workers := s.workers[1 := Claiming]);
    var inflating := s.(workers := s.workers[1 := Inflating(k + 1)], next := k + 2);
    var sending := s.(workers := s.workers[1 := Sending(k + 1)], next := k + 2);
    assert claiming == Step(s, outcomes, room, 1);
    assert inflating == Step(claiming, outcomes, room, 1);
    assert sending == Step(inflating, outcomes, room, 1);
    assert s.(next := k + 2, queue := [k + 1]) == Step(sending, outcomes, room, 1);
    FourTurns(s, outcomes, room, 1);
  }

  lemma FourTurns(s: State, outcomes: Outcomes, room: int, turn: nat)
    ensures Run(s, outcomes, room, [turn, turn, turn, turn]) ==
            Step(Step(Step(Step(s, outcomes, room, turn), outcomes, room, turn), outcomes, room, turn),
                 outcomes, room, turn)
  {
    assert [turn, turn, turn] + [turn] == [turn, turn, turn, turn];
    RunOneTurn(s, outcomes, room, [turn, turn, turn], turn);
    ThreeTurns(s, outcomes, room, turn);
  }

  lemma ThreeTurns(s: State, outcomes: Outcomes, room: int, turn: nat)
    ensures Run(s, outcomes, room, [turn, turn, turn]) ==
            Step(Step(Step(s, outcomes, room, turn), outcomes, room, turn), outcomes, room, turn)
  {
    assert [] + [turn] == [turn] && [turn] + [turn] == [turn, turn] && [turn, turn] + [turn] == [turn, turn, turn];
    RunOneTurn(s, outcomes, room, [], turn);
    RunOneTurn(s, outcomes, room, [turn], turn);
    RunOneTurn(s, outcomes, room, [turn, turn], turn);
  }

  /** And the consumer takes it, and goes on waiting for the first. */
  lemma OneMoreWaits(s: State, outcomes: Outcomes, count: nat, room: int, k: nat) returns (after: State)
    requires IsHeldUp(s, count, k) && k + 1 < |outcomes| && outcomes[k + 1]
    ensures after == Run(s, outcomes, room, [1, 1, 1, 1] + [count])
    ensures IsHeldUp(after, count, k + 1)
  {
    OneMoreIsSent(s, outcomes, count, room, k);
    RunOneTurn(s, outcomes, room, [1, 1, 1, 1], count);
    after := s.(next := k + 2, pending := s.pending + {k + 1});
    assert [k + 1][1..] == [] && Drain(after, outcomes, room) == after;
    assert Step(s.(next := k + 2, queue := [k + 1]), outcomes, room, count) == after;
  }

  lemma HeldUpAtFirst(outcomes: Outcomes, count: nat, room: int) returns (schedule: seq<nat>)
    requires outcomes != [] && count >= 2
    ensures IsHeldUp(Run(Start(count), outcomes, room, schedule), count, 0)
  {
    schedule := [0, 0, 0];
    var claiming := Step(Start(count), outcomes, room, 0);
    var inflating := Step(claiming, outcomes, room, 0);
    assert inflating.workers[0] == Inflating(0) && inflating.workers[1] == Looking;
    ThreeTurns(Start(count), outcomes, room, 0);
  }

  lemma {:induction false} RunOnward(s: State, outcomes: Outcomes, room: int, first: seq<nat>, more: seq<nat>)
    ensures Run(s, outcomes, room, first + more) == Run(Run(s, outcomes, room, first), outcomes, room, more)
    decreases |more|
  {
    if more == [] {
      assert first + more == first;
    } else {
      assert (first + more)[..|first + more| - 1] == first + more[..|more| - 1];
      RunOnward(s, outcomes, room, first, more[..|more| - 1]);
    }
  }

  lemma OneMoreWaitsThen(outcomes: Outcomes, count: nat, room: int, less: seq<nat>, k: nat)
    returns (schedule: seq<nat>)
    requires IsHeldUp(Run(Start(count), outcomes, room, less), count, k) && k + 1 < |outcomes| && outcomes[k + 1]
    ensures IsHeldUp(Run(Start(count), outcomes, room, schedule), count, k + 1)
  {
    schedule := less + ([1, 1, 1, 1] + [count]);
    var after := OneMoreWaits(Run(Start(count), outcomes, room, less), outcomes, count, room, k);
    RunOnward(Start(count), outcomes, room, less, [1, 1, 1, 1] + [count]);
  }

  lemma {:induction false} AllButOneWait(outcomes: Outcomes, count: nat, room: int, k: nat)
    returns (schedule: seq<nat>)
    requires k < |outcomes| && count >= 2 && AllInflate(outcomes)
    ensures IsHeldUp(Run(Start(count), outcomes, room, schedule), count, k)
  {
    if k == 0 {
      schedule := HeldUpAtFirst(outcomes, count, room);
    } else {
      var less := AllButOneWait(outcomes, count, room, k - 1);
      schedule := OneMoreWaitsThen(outcomes, count, room, less, k - 1);
    }
  }

  lemma OneIsAmong(workers: seq<Worker>, w: nat)
    requires w < |workers| && workers[w].Sending?
    ensures Total(workers, HasOneInflated) >= 1
  {
    TotalAfter(workers, HasOneInflated, w, workers[w]);
  }

  // ------------------------------------------------------------ the cap

  /** The channel's bound and one finished span for each worker. */
  ghost predicate IsCapped(outcomes: Outcomes, count: nat, room: int) {
    forall schedule :: InflatedAhead(Run(Start(count), outcomes, room, schedule)) <= 2 * count
  }

  /** Those are a cap on what is inflated ahead, for a layer all of whose spans
      inflate, exactly when one worker inflates them or there are no more spans
      than that: what has arrived before its turn counts for neither. */
  lemma CappedJustWhen(outcomes: Outcomes, count: nat, room: int)
    requires count > 0 && AllInflate(outcomes)
    ensures IsCapped(outcomes, count, room) <==> count == 1 || |outcomes| <= 2 * count
  {
    if count == 1 || |outcomes| <= 2 * count {
      forall schedule ensures InflatedAhead(Run(Start(count), outcomes, room, schedule)) <= 2 * count {
        var s := Run(Start(count), outcomes, room, schedule);
        RunIsAccountedFor(outcomes, count, room, schedule);
        InflatedIsOnItsWay(s.workers);
        if count == 1 {
          RunIsInTurn(outcomes, room, schedule);
          OneIsNeverFarAhead(s, outcomes);
        }
      }
    } else {
      var schedule := AllButOneWait(outcomes, count, room, |outcomes| - 1);
      var s := Run(Start(count), outcomes, room, schedule);
      OneIsAmong(s.workers, 0);
    }
  }
}
