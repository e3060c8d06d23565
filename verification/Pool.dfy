/** The pool of workers that runs a queue of units, under any schedule. */
module Pool {
  import opened Paths
  import opened Totals

  /** What each unit of the queue comes to: an error, or none. */
  type Outcomes<E> = seq<Option<E>>

  /** Where a worker is: about to look at the stop flag, about to claim a unit,
      running one, about to report its failure, about to raise the flag, or
      finished. */
  datatype Worker = Looking | Claiming | Running(unit: nat) | Reporting(unit: nat) | Stopping | Finished

  /** What the workers share, and where each of them is. */
  datatype State<E> = State(next: nat, stop: bool, failure: Option<(nat, E)>, workers: seq<Worker>)

  function Start<E>(count: nat): State<E> {
    State(0, false, None, seq(count, _ => Looking))
  }

  function At<E>(s: State<E>, w: nat, worker: Worker): State<E>
    requires w < |s.workers|
  {
    s.(workers := s.workers[w := worker])
  }

  /** One worker's next move, of those the others can come between. */
  function Step<E>(s: State<E>, outcomes: Outcomes<E>, w: nat): State<E> {
    if w >= |s.workers| then s
    else
      match s.workers[w]
      case Looking => At(s, w, if s.stop then Finished else Claiming)
      case Claiming => At(s, w, if s.next < |outcomes| then Running(s.next) else Finished).(next := s.next + 1)
      case Running(i) => At(s, w, if i < |outcomes| && outcomes[i].Some? then Reporting(i) else Looking)
      case Reporting(i) =>
        if i < |outcomes| && outcomes[i].Some? && (s.failure.None? || i < s.failure.value.0)
        then At(s, w, Stopping).(failure := Some((i, outcomes[i].value)))
        else At(s, w, Stopping)
      case Stopping => At(s, w, Finished).(stop := true)
      case Finished => s
  }

  /** A schedule says whose move it is, over and over. */
  function Run<E>(s: State<E>, outcomes: Outcomes<E>, schedule: seq<nat>): State<E> {
    if schedule == [] then s
    else Step(Run(s, outcomes, schedule[..|schedule| - 1]), outcomes, schedule[|schedule| - 1])
  }

  predicate IsOver<E>(s: State<E>) {
    forall w | 0 <= w < |s.workers| :: s.workers[w] == Finished
  }

  /** The failure with the lowest position in the queue, if there is one. */
  function FirstFailure<E>(outcomes: Outcomes<E>, from: nat): (first: Option<(nat, E)>)
    requires from <= |outcomes|
    ensures first.None? ==> forall i | from <= i < |outcomes| :: outcomes[i].None?
    ensures first.Some? ==>
              && from <= first.value.0 < |outcomes| && outcomes[first.value.0] == Some(first.value.1)
              && forall i | from <= i < first.value.0 :: outcomes[i].None?
    decreases |outcomes| - from
  {
    if from == |outcomes| then None
    else if outcomes[from].Some? then Some((from, outcomes[from].value))
    else FirstFailure(outcomes, from + 1)
  }

  // ------------------------------------------------------------ what every move keeps

  ghost predicate IsHeld<E>(s: State<E>, i: nat) {
    exists w | 0 <= w < |s.workers| :: s.workers[w] == Running(i) || s.workers[w] == Reporting(i)
  }

  /** A unit claimed is being run or reported, or it is behind: it did not fail,
      or what is reported is no later. */
  ghost predicate Accounted<E>(s: State<E>, outcomes: Outcomes<E>, i: nat)
    requires i < |outcomes|
  {
    IsHeld(s, i) || outcomes[i].None? || (s.failure.Some? && s.failure.value.0 <= i)
  }

  ghost predicate WorkerHolds<E>(s: State<E>, outcomes: Outcomes<E>, w: nat)
    requires w < |s.workers|
  {
    match s.workers[w]
    case Running(i) => i < |outcomes| && i < s.next
    case Reporting(i) => i < |outcomes| && i < s.next && outcomes[i].Some?
    case Stopping => s.failure.Some?
    case Finished => s.failure.Some? || s.next >= |outcomes|
    case _ => true
  }

  ghost predicate Inv<E>(s: State<E>, outcomes: Outcomes<E>) {
    && (forall i | 0 <= i < |outcomes| && i < s.next :: Accounted(s, outcomes, i))
    && (forall w | 0 <= w < |s.workers| :: WorkerHolds(s, outcomes, w))
    && (s.failure.Some? ==> s.failure.value.0 < |outcomes| && outcomes[s.failure.value.0] == Some(s.failure.value.1)
                            && s.failure.value.0 < s.next)
    && (s.stop ==> s.failure.Some?)
  }

  lemma StepKeepsInv<E>(s: State<E>, outcomes: Outcomes<E>, w: nat)
    requires Inv(s, outcomes)
    ensures Inv(Step(s, outcomes, w), outcomes) && |Step(s, outcomes, w).workers| == |s.workers|
  {
    if w < |s.workers| {
      var after := Step(s, outcomes, w);
      assert WorkerHolds(s, outcomes, w);
      forall v | 0 <= v < |after.workers| ensures WorkerHolds(after, outcomes, v) {
        assert WorkerHolds(s, outcomes, v);
      }
      forall i | 0 <= i < |outcomes| && i < after.next ensures Accounted(after, outcomes, i) {
        StepAccounts(s, outcomes, w, i);
      }
    }
  }

  lemma StepAccounts<E>(s: State<E>, outcomes: Outcomes<E>, w: nat, i: nat)
    requires Inv(s, outcomes) && w < |s.workers| && i < |outcomes| && i < Step(s, outcomes, w).next
    ensures Accounted(Step(s, outcomes, w), outcomes, i)
  {
    var after := Step(s, outcomes, w);
    if i == s.next {
      assert after.workers[w] == Running(i);
    } else {
      assert Accounted(s, outcomes, i);
      if IsHeld(s, i) {
        var v :| 0 <= v < |s.workers| && (s.workers[v] == Running(i) || s.workers[v] == Reporting(i));
        assert WorkerHolds(s, outcomes, v);
        assert after.workers[v] == s.workers[v] || v == w;
      }
    }
  }

  lemma {:induction false} RunKeepsInv<E>(outcomes: Outcomes<E>, count: nat, schedule: seq<nat>)
    ensures Inv(Run(Start<E>(count), outcomes, schedule), outcomes)
    ensures |Run(Start<E>(count), outcomes, schedule).workers| == count
  {
    if schedule != [] {
      RunKeepsInv(outcomes, count, schedule[..|schedule| - 1]);
      StepKeepsInv(Run(Start<E>(count), outcomes, schedule[..|schedule| - 1]), outcomes, schedule[|schedule| - 1]);
    }
  }

  /** Whatever the schedule, once every worker has finished what is reported is
      the failure with the lowest position, and nothing when no unit fails. */
  lemma ScheduleDoesNotShow<E>(outcomes: Outcomes<E>, count: nat, schedule: seq<nat>)
    requires count > 0 && IsOver(Run(Start<E>(count), outcomes, schedule))
    ensures Run(Start<E>(count), outcomes, schedule).failure == FirstFailure(outcomes, 0)
  {
    RunKeepsInv(outcomes, count, schedule);
    var s, first := Run(Start<E>(count), outcomes, schedule), FirstFailure(outcomes, 0);
    assert WorkerHolds(s, outcomes, 0);
    if first.Some? && first.value.0 < s.next { assert Accounted(s, outcomes, first.value.0); }
  }

  // ------------------------------------------------------------ every schedule ends

  /** How many moves a worker has left before it must claim again. */
  function Left(worker: Worker): nat {
    match worker
    case Looking => 2
    case Claiming => 1
    case Running(_) => 3
    case Reporting(_) => 2
    case Stopping => 1
    case Finished => 0
  }

  function Fuel<E>(s: State<E>, outcomes: Outcomes<E>): nat {
    (if s.next < |outcomes| then 3 * (|outcomes| - s.next) else 0) + Total(s.workers, Left)
  }

  /** Every move of a worker that has not finished brings the end nearer, so no
      schedule that goes on giving each of them a move goes on for ever. */
  lemma EveryMoveCounts<E>(s: State<E>, outcomes: Outcomes<E>, w: nat)
    requires w < |s.workers| && s.workers[w] != Finished
    ensures Fuel(Step(s, outcomes, w), outcomes) < Fuel(s, outcomes)
  {
    TotalAfter(s.workers, Left, w, Step(s, outcomes, w).workers[w]);
  }
}
