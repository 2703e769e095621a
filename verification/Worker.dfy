/**
  The retrying work queue: any number of workers take keys from a queue that never hands out a key
  twice at a time, and give a failing key back with a growing delay until its retries are used up.
*/
module Worker {
  import opened Options
  import opened Sequences
  import opened Sums

  const MAX_RETRIES: nat := 15

  type Key = string

  /**
    The keys waiting for a worker, those needing work, those being worked on, the delayed additions
    and the retry counts.
  */
  datatype Queue = Queue(queue: seq<Key>, dirty: set<Key>, processing: set<Key>, delayed: multiset<Key>,
                         failures: map<Key, nat>)

  const EMPTY := Queue([], {}, {}, multiset{}, map[])

  function Added(q: Queue, k: Key): Queue {
    if k in q.dirty then q
    else q.(dirty := q.dirty + {k}, queue := if k in q.processing then q.queue else q.queue + [k])
  }

  function Taken(q: Queue): Queue
    requires q.queue != []
  {
    var k := q.queue[0];
    q.(queue := q.queue[1..], dirty := q.dirty - {k}, processing := q.processing + {k})
  }

  function Finished(q: Queue, k: Key): Queue {
    q.(processing := q.processing - {k}, queue := if k in q.dirty then q.queue + [k] else q.queue)
  }

  function NumRequeues(q: Queue, k: Key): nat {
    if k in q.failures then q.failures[k] else 0
  }

  function Counted(q: Queue, k: Key): Queue {
    q.(failures := q.failures[k := NumRequeues(q, k) + 1])
  }

  function Delayed(q: Queue, k: Key): Queue {
    q.(delayed := q.delayed + multiset{k})
  }

  function Forgotten(q: Queue, k: Key): Queue {
    q.(failures := q.failures - {k})
  }

  // ---------------------------------------------------------------------------------------------
  // The steps
  // ---------------------------------------------------------------------------------------------

  /** Where a worker is: in the reconcile function, in the error handler, or about to hand the key back. */
  datatype Phase =
    | Idle
    | Reconciling(key: Key)
    | Settling(key: Key, failed: bool)
    | Retrying(key: Key)
    | Delaying(key: Key)
    | Finishing(key: Key)

  datatype State = State(q: Queue, workers: seq<Phase>)

  /** The steps of other code, of the delaying queue, and of the workers; each one is atomic. */
  datatype Step =
    | Add(k: Key)
    | AddAfter(k: Key)
    | Forget(k: Key)
    | Deliver(k: Key)
    | Merge(k: Key)
    | Get(w: nat)
    | Return(w: nat, ok: bool)
    | Settle(w: nat)
    | Count(w: nat)
    | Delay(w: nat)
    | Finish(w: nat)

  predicate External(step: Step) {
    step.Add? || step.AddAfter? || step.Forget?
  }

  predicate OfWorker(step: Step) {
    step.Get? || step.Return? || step.Settle? || step.Count? || step.Delay? || step.Finish?
  }

  predicate Enabled(s: State, step: Step) {
    match step
    case Add(_) => true
    case AddAfter(_) => true
    case Forget(_) => true
    case Deliver(k) => k in s.q.delayed
    case Merge(k) => s.q.delayed[k] >= 2
    case Get(w) => w < |s.workers| && s.workers[w].Idle? && s.q.queue != []
    case Return(w, _) => w < |s.workers| && s.workers[w].Reconciling?
    case Settle(w) => w < |s.workers| && s.workers[w].Settling?
    case Count(w) => w < |s.workers| && s.workers[w].Retrying?
    case Delay(w) => w < |s.workers| && s.workers[w].Delaying?
    case Finish(w) => w < |s.workers| && s.workers[w].Finishing?
  }

  /** The key that an enabled step is about. */
  function KeyOf(s: State, step: Step): Key
    requires Enabled(s, step)
  {
    if step.Get? then s.q.queue[0]
    else if OfWorker(step) then s.workers[step.w].key
    else step.k
  }

  /** What the error handler decides on when the reconcile function returns. */
  function Handled(q: Queue, k: Key, ok: bool): Phase {
    if ok then Settling(k, false)
    else if NumRequeues(q, k) < MAX_RETRIES then Retrying(k)
    else Settling(k, true)
  }

  function Next(s: State, step: Step): State
    requires Enabled(s, step)
  {
    var k := KeyOf(s, step);
    match step
    case Add(_) => s.(q := Added(s.q, k))
    case AddAfter(_) => s.(q := Delayed(s.q, k))
    case Forget(_) => s.(q := Forgotten(s.q, k))
    case Deliver(_) => s.(q := Added(s.q.(delayed := s.q.delayed - multiset{k}), k))
    case Merge(_) => s.(q := s.q.(delayed := s.q.delayed - multiset{k}))
    case Get(w) => State(Taken(s.q), s.workers[w := Reconciling(k)])
    case Return(w, ok) => State(s.q, s.workers[w := Handled(s.q, k, ok)])
    case Settle(w) => State(Forgotten(s.q, k), s.workers[w := Finishing(k)])
    case Count(w) => State(Counted(s.q, k), s.workers[w := Delaying(k)])
    case Delay(w) => State(Delayed(s.q, k), s.workers[w := Finishing(k)])
    case Finish(w) => State(Finished(s.q, k), s.workers[w := Idle])
  }

  ghost predicate Run(s: State, steps: seq<Step>)
    decreases |steps|
  {
    steps != [] ==> Enabled(s, steps[0]) && Run(Next(s, steps[0]), steps[1..])
  }

  function After(s: State, steps: seq<Step>): State
    requires Run(s, steps)
    decreases |steps|
  {
    if steps == [] then s else After(Next(s, steps[0]), steps[1..])
  }

  // ---------------------------------------------------------------------------------------------
  // What every step keeps
  // ---------------------------------------------------------------------------------------------

  predicate Holds(p: Phase, k: Key) {
    !p.Idle? && p.key == k
  }

  /** No two workers ever hold the same key, and the keys being processed are those that workers hold. */
  ghost predicate Exclusive(s: State) {
    && (forall i, j | 0 <= i < j < |s.workers| && !s.workers[i].Idle? && !s.workers[j].Idle? ::
          s.workers[i].key != s.workers[j].key)
    && (forall i | 0 <= i < |s.workers| && !s.workers[i].Idle? :: s.workers[i].key in s.q.processing)
    && (forall k | k in s.q.processing :: exists i | 0 <= i < |s.workers| :: Holds(s.workers[i], k))
  }

  /** The queue lists, once each, the keys that need work and that no worker has. */
  ghost predicate Queued(q: Queue) {
    && (forall i, j | 0 <= i < j < |q.queue| :: q.queue[i] != q.queue[j])
    && (forall k :: k in q.queue <==> k in q.dirty && k !in q.processing)
  }

  /** No retry count exceeds the maximum, and only a key with retries left is being retried. */
  ghost predicate Bounded(s: State) {
    && (forall k :: NumRequeues(s.q, k) <= MAX_RETRIES)
    && (forall i | 0 <= i < |s.workers| && s.workers[i].Retrying? :: NumRequeues(s.q, s.workers[i].key) < MAX_RETRIES)
  }

  ghost predicate Inv(s: State) {
    Exclusive(s) && Queued(s.q) && Bounded(s)
  }

  function Init(n: nat): State {
    State(EMPTY, seq(n, i => Idle))
  }

  lemma InitInv(n: nat)
    ensures Inv(Init(n))
  {
  }

  lemma AddKeepsQueued(q: Queue, k: Key)
    requires Queued(q)
    ensures Queued(Added(q, k))
  {
  }

  lemma TakeKeepsQueued(q: Queue)
    requires Queued(q) && q.queue != []
    ensures Queued(Taken(q)) && q.queue[0] !in q.processing && q.queue[0] in q.dirty
  {
    var q' := Taken(q);
    assert q.queue[0] in q.queue;
    assert q.queue == [q.queue[0]] + q'.queue;
    assert q.queue[0] !in q'.queue;
    forall k ensures k in q.queue <==> k == q.queue[0] || k in q'.queue {
    }
  }

  lemma FinishKeepsQueued(q: Queue, k: Key)
    requires Queued(q) && k in q.processing
    ensures Queued(Finished(q, k))
  {
    assert k !in q.queue;
  }

  lemma QueuedSame(q: Queue, q': Queue)
    requires Queued(q) && q'.queue == q.queue && q'.dirty == q.dirty && q'.processing == q.processing
    ensures Queued(q')
  {
  }

  lemma QueuedKept(s: State, step: Step)
    requires Queued(s.q) && Enabled(s, step) && (step.Finish? ==> s.workers[step.w].key in s.q.processing)
    ensures Queued(Next(s, step).q)
  {
    match step
    case Add(k) => AddKeepsQueued(s.q, k);
    case Deliver(k) =>
      QueuedSame(s.q, s.q.(delayed := s.q.delayed - multiset{k}));
      AddKeepsQueued(s.q.(delayed := s.q.delayed - multiset{k}), k);
    case Get(_) => TakeKeepsQueued(s.q);
    case Finish(w) => FinishKeepsQueued(s.q, s.workers[w].key);
    case AddAfter(_) | Forget(_) | Merge(_) | Return(_, _) | Settle(_) | Count(_) | Delay(_) =>
      UnqueuedStep(s, step);
      QueuedSame(s.q, Next(s, step).q);
  }

  lemma UnqueuedStep(s: State, step: Step)
    requires Enabled(s, step) && !step.Add? && !step.Deliver? && !step.Get? && !step.Finish?
    ensures var q' := Next(s, step).q; q'.queue == s.q.queue && q'.dirty == s.q.dirty && q'.processing == s.q.processing
  {
  }

  /**
    A worker step changes only its own worker, which holds the key of the step afterwards or has
    just handed it back.
  */
  lemma WorkerStep(s: State, step: Step)
    requires Enabled(s, step) && OfWorker(step)
    ensures var s' := Next(s, step);
            && step.w < |s.workers| && s'.workers == s.workers[step.w := s'.workers[step.w]]
            && (!step.Get? ==>
                  && Holds(s.workers[step.w], KeyOf(s, step))
                  && s'.q.processing == s.q.processing - (if step.Finish? then {KeyOf(s, step)} else {}))
            && (step.Get? ==> s.workers[step.w].Idle? && s'.q.processing == s.q.processing + {KeyOf(s, step)})
            && (if step.Finish? then s'.workers[step.w].Idle? else Holds(s'.workers[step.w], KeyOf(s, step)))
  {
  }

  lemma ExclusiveKept(s: State, step: Step)
    requires Inv(s) && Enabled(s, step)
    ensures Exclusive(Next(s, step))
  {
    if OfWorker(step) {
      if step.Get? {
        TakeKeepsQueued(s.q);
      }
      WorkerStep(s, step);
      HandOver(s, Next(s, step), step.w, KeyOf(s, step));
    }
  }

  /** One worker takes a free key, hands its key back, or goes on with it. */
  lemma HandOver(s: State, s': State, w: nat, k: Key)
    requires Exclusive(s) && w < |s.workers| == |s'.workers| && s'.workers == s.workers[w := s'.workers[w]]
    requires Holds(s.workers[w], k) || (s.workers[w].Idle? && k !in s.q.processing)
    requires Holds(s'.workers[w], k) || s'.workers[w].Idle?
    requires s'.q.processing == if s'.workers[w].Idle? then s.q.processing - {k} else s.q.processing + {k}
    ensures Exclusive(s')
  {
    forall x | x in s'.q.processing ensures exists i | 0 <= i < |s'.workers| :: Holds(s'.workers[i], x) {
      if x == k {
        assert Holds(s'.workers[w], x);
      } else {
        var i :| 0 <= i < |s.workers| && Holds(s.workers[i], x);
        assert Holds(s'.workers[i], x);
      }
    }
  }

  lemma BoundedKept(s: State, step: Step)
    requires Inv(s) && Enabled(s, step)
    ensures Bounded(Next(s, step))
  {
    var s' := Next(s, step);
    forall k
      ensures NumRequeues(s'.q, k) <= NumRequeues(s.q, k) + (if step.Count? && KeyOf(s, step) == k then 1 else 0)
    {
      CountsOnlyWhenCounting(s, step, k);
    }
  }

  lemma CountsOnlyWhenCounting(s: State, step: Step, k: Key)
    requires Enabled(s, step)
    ensures NumRequeues(Next(s, step).q, k)
            == if Forgets(s, step, k) then 0
               else NumRequeues(s.q, k) + (if step.Count? && KeyOf(s, step) == k then 1 else 0)
  {
  }

  /** Every step, of any worker or of other code, keeps the three. */
  lemma StepKeeps(s: State, step: Step)
    requires Inv(s) && Enabled(s, step)
    ensures Inv(Next(s, step))
  {
    QueuedKept(s, step);
    ExclusiveKept(s, step);
    BoundedKept(s, step);
  }

  lemma {:induction false} RunKeeps(s: State, steps: seq<Step>)
    requires Inv(s) && Run(s, steps)
    ensures Inv(After(s, steps))
    decreases |steps|
  {
    if steps != [] {
      StepKeeps(s, steps[0]);
      RunKeeps(Next(s, steps[0]), steps[1..]);
    }
  }

  /** So it is in every run from the empty queue with n workers. */
  lemma ReachableKeeps(n: nat, steps: seq<Step>)
    requires Run(Init(n), steps)
    ensures Inv(After(Init(n), steps))
  {
    InitInv(n);
    RunKeeps(Init(n), steps);
  }

  // ---------------------------------------------------------------------------------------------
  // No addition is lost
  // ---------------------------------------------------------------------------------------------

  predicate Takes(s: State, step: Step, k: Key) {
    step.Get? && Enabled(s, step) && KeyOf(s, step) == k
  }

  /** Some step of the run hands `k` to a worker. */
  ghost predicate Handed(s: State, steps: seq<Step>, k: Key)
    requires Run(s, steps)
    decreases |steps|
  {
    steps != [] && (Takes(s, steps[0], k) || Handed(Next(s, steps[0]), steps[1..], k))
  }

  ghost predicate Drained(s: State) {
    && s.q.queue == [] && s.q.dirty == {} && s.q.processing == {} && s.q.delayed == multiset{}
    && forall i | 0 <= i < |s.workers| :: s.workers[i].Idle?
  }

  /**
    A key that needs work is handed to a worker before the queue drains, even if it was added while
    being worked on.
  */
  lemma {:induction false} NoAdditionLost(s: State, steps: seq<Step>, k: Key)
    requires Run(s, steps) && k in s.q.dirty
    ensures Handed(s, steps, k) || k in After(s, steps).q.dirty
    decreases |steps|
  {
    if steps != [] && !Takes(s, steps[0], k) {
      NoAdditionLost(Next(s, steps[0]), steps[1..], k);
    }
  }

  // ---------------------------------------------------------------------------------------------
  // How often a failing key is tried
  // ---------------------------------------------------------------------------------------------

  predicate Forgets(s: State, step: Step, k: Key) {
    Enabled(s, step) && KeyOf(s, step) == k && (step.Forget? || step.Settle?)
  }

  ghost predicate NeverForgets(s: State, steps: seq<Step>, k: Key)
    requires Run(s, steps)
    decreases |steps|
  {
    steps != [] ==> !Forgets(s, steps[0], k) && NeverForgets(Next(s, steps[0]), steps[1..], k)
  }

  function Retries(s: State, steps: seq<Step>, k: Key): nat
    requires Run(s, steps)
    decreases |steps|
  {
    if steps == [] then 0
    else (if steps[0].Count? && KeyOf(s, steps[0]) == k then 1 else 0) + Retries(Next(s, steps[0]), steps[1..], k)
  }

  function Failures(s: State, steps: seq<Step>, k: Key): nat
    requires Run(s, steps)
    decreases |steps|
  {
    if steps == [] then 0
    else (if steps[0].Return? && !steps[0].ok && KeyOf(s, steps[0]) == k then 1 else 0)
         + Failures(Next(s, steps[0]), steps[1..], k)
  }

  /** The retry count is exactly the number of retries since the key was last forgotten. */
  lemma {:induction false} CountIsRetries(s: State, steps: seq<Step>, k: Key)
    requires Run(s, steps) && NeverForgets(s, steps, k)
    ensures NumRequeues(After(s, steps).q, k) == NumRequeues(s.q, k) + Retries(s, steps, k)
    decreases |steps|
  {
    if steps != [] {
      CountIsRetries(Next(s, steps[0]), steps[1..], k);
    }
  }

  /** A worker whose failed attempt is not yet counted or forgotten. */
  predicate Owes(p: Phase, k: Key) {
    Holds(p, k) && (p.Retrying? || (p.Settling? && p.failed))
  }

  ghost predicate Owed(s: State, k: Key) {
    exists i | 0 <= i < |s.workers| :: Owes(s.workers[i], k)
  }

  /** How many more attempts can fail before the key is forgotten. */
  ghost function Budget(s: State, k: Key): int {
    MAX_RETRIES + 1 - NumRequeues(s.q, k) - (if Owed(s, k) then 1 else 0)
  }

  lemma OwedOnlyByHolder(s: State, w: nat, k: Key)
    requires Exclusive(s) && w < |s.workers| && Holds(s.workers[w], k)
    ensures Owed(s, k) <==> Owes(s.workers[w], k)
  {
  }

  lemma StepSpendsBudget(s: State, step: Step, k: Key)
    requires Inv(s) && Enabled(s, step) && !Forgets(s, step, k)
    ensures Budget(Next(s, step), k)
            == Budget(s, k) - (if step.Return? && !step.ok && KeyOf(s, step) == k then 1 else 0)
  {
    var s' := Next(s, step);
    CountsOnlyWhenCounting(s, step, k);
    if OfWorker(step) {
      var w := step.w;
      WorkerStep(s, step);
      ExclusiveKept(s, step);
      if KeyOf(s, step) == k {
        if step.Get? {
          TakeKeepsQueued(s.q);
          NotOwed(s, k);
        } else {
          OwedOnlyByHolder(s, w, k);
        }
        if step.Finish? {
          FinishedNotOwed(s, w);
        } else {
          OwedOnlyByHolder(s', w, k);
        }
      } else {
        OtherOwed(s, s', w, k);
      }
    }
  }

  lemma NotOwed(s: State, k: Key)
    requires Exclusive(s) && k !in s.q.processing
    ensures !Owed(s, k)
  {
  }

  lemma FinishedNotOwed(s: State, w: nat)
    requires Exclusive(s) && w < |s.workers| && s.workers[w].Finishing?
    ensures !Owed(Next(s, Finish(w)), s.workers[w].key)
  {
  }

  lemma OtherOwed(s: State, s': State, w: nat, k: Key)
    requires |s'.workers| == |s.workers| && w < |s.workers| && !Holds(s.workers[w], k) && !Holds(s'.workers[w], k)
    requires forall i | 0 <= i < |s.workers| && i != w :: s'.workers[i] == s.workers[i]
    ensures Owed(s', k) <==> Owed(s, k)
  {
    if Owed(s, k) {
      var i :| 0 <= i < |s.workers| && Owes(s.workers[i], k);
      assert Owes(s'.workers[i], k);
    }
    if Owed(s', k) {
      var i :| 0 <= i < |s.workers| && Owes(s'.workers[i], k);
      assert Owes(s.workers[i], k);
    }
  }

  lemma BudgetNotNegative(s: State, k: Key)
    requires Inv(s)
    ensures 0 <= Budget(s, k) <= MAX_RETRIES + 1
  {
  }

  /** Between two times that it is forgotten a key is retried at most fifteen times and fails at most sixteen times. */
  lemma {:induction false} FailuresAreBounded(s: State, steps: seq<Step>, k: Key)
    requires Inv(s) && Run(s, steps) && NeverForgets(s, steps, k)
    ensures Retries(s, steps, k) <= MAX_RETRIES
    ensures Failures(s, steps, k) <= Budget(s, k) <= MAX_RETRIES + 1
    decreases |steps|
  {
    CountIsRetries(s, steps, k);
    RunKeeps(s, steps);
    BudgetNotNegative(s, k);
    if steps != [] {
      StepKeeps(s, steps[0]);
      StepSpendsBudget(s, steps[0], k);
      FailuresAreBounded(Next(s, steps[0]), steps[1..], k);
    }
  }

  /** A key is given up only when it was retried exactly fifteen times since it was last forgotten. */
  lemma GivenUpAfterFifteenRetries(s: State, steps: seq<Step>, w: nat)
    requires Inv(s) && Run(s, steps)
    requires Enabled(After(s, steps), Return(w, false))
    requires var k := KeyOf(After(s, steps), Return(w, false)); NeverForgets(s, steps, k) && NumRequeues(s.q, k) == 0
    ensures var k := KeyOf(After(s, steps), Return(w, false));
            Next(After(s, steps), Return(w, false)).workers[w] == Settling(k, true) <==>
                Retries(s, steps, k) == MAX_RETRIES
  {
    var k := KeyOf(After(s, steps), Return(w, false));
    CountIsRetries(s, steps, k);
    RunKeeps(s, steps);
  }

  // ---------------------------------------------------------------------------------------------
  // Left alone, the queue drains
  // ---------------------------------------------------------------------------------------------

  const COPY := 110

  /** A pending attempt weighs more than all the retries that forgetting the key gives back to it. */
  function PhaseWeight(p: Phase, k: Key): nat {
    if !Holds(p, k) then 0
    else match p
      case Reconciling(_) => COPY + 4
      case Settling(_, _) => COPY + 3
      case Retrying(_) => COPY + 3
      case Delaying(_) => COPY + 8
      case Finishing(_) => 1
  }

  function QueueWeight(q: Queue, k: Key): int {
    q.delayed[k] * (COPY + 6) + (if k in q.dirty then COPY + 5 else 0) + 7 * (MAX_RETRIES - NumRequeues(q, k))
  }

  function WeightOf(k: Key): Phase -> int {
    p => PhaseWeight(p, k)
  }

  function Weight(s: State, k: Key): int {
    QueueWeight(s.q, k) + Sum(s.workers, WeightOf(k))
  }

  function WeightIn(s: State): Key -> int {
    k => Weight(s, k)
  }

  lemma WorkerWeight(workers: seq<Phase>, w: nat, p: Phase, k: Key)
    requires w < |workers|
    ensures Sum(workers[w := p], WeightOf(k))
            == Sum(workers, WeightOf(k)) - PhaseWeight(workers[w], k) + PhaseWeight(p, k)
  {
    SumUpdate(workers, w, p, WeightOf(k));
  }

  lemma {:induction false} WeightNotNegative(s: State, k: Key)
    requires Inv(s)
    ensures Weight(s, k) >= 0
  {
    SumNotNegative(s.workers, WeightOf(k));
  }

  lemma DeliveryLowersWeight(s: State, step: Step, k: Key)
    requires Enabled(s, step) && (step.Deliver? || step.Merge?)
    ensures if k == KeyOf(s, step) then Weight(Next(s, step), k) < Weight(s, k)
            else Weight(Next(s, step), k) == Weight(s, k)
  {
    var q, q' := s.q, Next(s, step).q;
    assert q'.delayed[k] == q.delayed[k] - (if k == step.k then 1 else 0);
    assert NumRequeues(q', k) == NumRequeues(q, k);
  }

  /** The weight that a worker step moves between the queue and its worker. */
  lemma WorkerLowersWeight(s: State, step: Step, k: Key)
    requires Inv(s) && Enabled(s, step) && OfWorker(step)
    ensures var s' := Next(s, step);
            var before, after := QueueWeight(s.q, k) + PhaseWeight(s.workers[step.w], k), QueueWeight(s'.q, k)
                + PhaseWeight(s'.workers[step.w], k);
            if k == KeyOf(s, step) then after < before else after == before
  {
    CountsOnlyWhenCounting(s, step, k);
    if step.Get? {
      TakeKeepsQueued(s.q);
    }
  }

  /** Every step of the queue and its workers takes weight off its key and none off any other. */
  lemma StepLowersWeight(s: State, step: Step, k: Key)
    requires Inv(s) && Enabled(s, step) && !External(step)
    ensures if k == KeyOf(s, step) then Weight(Next(s, step), k) < Weight(s, k)
            else Weight(Next(s, step), k) == Weight(s, k)
  {
    if OfWorker(step) {
      var s' := Next(s, step);
      WorkerStep(s, step);
      WorkerWeight(s.workers, step.w, s'.workers[step.w], k);
      WorkerLowersWeight(s, step, k);
    } else {
      DeliveryLowersWeight(s, step, k);
    }
  }

  /** A key that is somewhere in the queue or with a worker. */
  ghost predicate Active(s: State, k: Key) {
    k in s.q.delayed || k in s.q.dirty || k in s.q.processing
  }

  ghost predicate Covers(keys: seq<Key>, s: State) {
    forall k | Active(s, k) :: k in keys
  }

  lemma StepStaysActive(s: State, step: Step, k: Key)
    requires Inv(s) && Enabled(s, step) && !External(step)
    ensures Active(s, KeyOf(s, step))
    ensures Active(Next(s, step), k) ==> Active(s, k)
  {
    if step.Get? {
      TakeKeepsQueued(s.q);
    }
  }

  /** With no step from outside, every run has at most as many steps as the keys weigh: the workers come to rest ... */
  lemma {:induction false} InternalRunsEnd(s: State, steps: seq<Step>, keys: seq<Key>)
    requires Inv(s) && Run(s, steps) && Covers(keys, s)
    requires forall i | 0 <= i < |steps| :: !External(steps[i])
    ensures |steps| <= Sum(keys, WeightIn(s))
    decreases |steps|
  {
    if steps == [] {
      forall k ensures WeightIn(s)(k) >= 0 {
        WeightNotNegative(s, k);
      }
      SumNotNegative(keys, WeightIn(s));
    } else {
      var step, s' := steps[0], Next(s, steps[0]);
      StepKeeps(s, step);
      forall k ensures Active(s', k) ==> Active(s, k) {
        StepStaysActive(s, step, k);
      }
      StepStaysActive(s, step, KeyOf(s, step));
      InternalRunsEnd(s', steps[1..], keys);
      forall k ensures if k == KeyOf(s, step) then WeightIn(s')(k) < WeightIn(s)(k)
             else WeightIn(s')(k) == WeightIn(s)(k) {
        StepLowersWeight(s, step, k);
      }
      SumStrict(keys, KeyOf(s, step), WeightIn(s'), WeightIn(s));
    }
  }

  /** ... and they come to rest only when everything is done. */
  lemma RestIsDrained(s: State)
    requires Inv(s) && s.workers != []
    ensures Drained(s) <==> forall step | Enabled(s, step) :: External(step)
  {
    if !Drained(s) {
      var step := SomeStep(s);
      assert Enabled(s, step) && !External(step);
    } else {
      forall step | Enabled(s, step) ensures External(step) {
      }
    }
  }

  lemma SomeStep(s: State) returns (step: Step)
    requires Inv(s) && s.workers != [] && !Drained(s)
    ensures Enabled(s, step) && !External(step)
  {
    if w: nat :| w < |s.workers| && !s.workers[w].Idle? {
      step := match s.workers[w]
        case Reconciling(_) => Return(w, true)
        case Settling(_, _) => Settle(w)
        case Retrying(_) => Count(w)
        case Delaying(_) => Delay(w)
        case _ => Finish(w);
    } else if k :| k in s.q.delayed {
      step := Deliver(k);
    } else if s.q.queue != [] {
      step := Get(0);
    } else {
      NothingLeft(s);
      assert false;
    }
  }

  lemma NothingLeft(s: State)
    requires Inv(s) && s.q.queue == [] && s.q.delayed == multiset{}
             && forall i | 0 <= i < |s.workers| :: s.workers[i].Idle?
    ensures Drained(s)
  {
    assert s.q.processing == {};
    forall k ensures k !in s.q.dirty {
      assert k !in s.q.queue;
    }
  }

  // ---------------------------------------------------------------------------------------------
  // The worker
  // ---------------------------------------------------------------------------------------------

  /** The steps of a run that worker w took, in order. */
  ghost function Own(w: nat, run: seq<Step>): seq<Step> {
    StepsOf((step: Step) => TakenBy(w, step), run)
  }

  predicate TakenBy(w: nat, step: Step) {
    OfWorker(step) && step.w == w
  }

  lemma OwnAppend(w: nat, run: seq<Step>, step: Step)
    ensures Own(w, run + [step]) == Own(w, run) + (if TakenBy(w, step) then [step] else [])
  {
    StepsOfAppend((step: Step) => TakenBy(w, step), run, step);
  }

  lemma {:induction false} RunAppend(s: State, run: seq<Step>, step: Step)
    requires Run(s, run) && Enabled(After(s, run), step)
    ensures Run(s, run + [step]) && After(s, run + [step]) == Next(After(s, run), step)
    decreases |run|
  {
    if run == [] {
      assert ([] + [step])[1..] == [];
    } else {
      RunAppend(Next(s, run[0]), run[1..], step);
      assert (run + [step])[1..] == run[1..] + [step];
    }
  }

  /** Steps of others leave the phase of worker w alone. */
  lemma OthersLeavePhase(s: State, step: Step, w: nat)
    requires Enabled(s, step) && !TakenBy(w, step) && w < |s.workers|
    ensures |Next(s, step).workers| == |s.workers| && Next(s, step).workers[w] == s.workers[w]
  {
  }

  /**
    The queue and the goroutines that work on it.  Every procedure is interrupted between any two of
    its queue operations by arbitrary steps of the other workers, of the delaying queue and of other
    code; the recorded run makes everything said above of all runs hold of these procedures.
  */
  class AsyncWorker {
    const workerNumber: nat

    var queue: seq<Key>
    var dirty: set<Key>
    var processing: set<Key>
    var delayed: multiset<Key>
    var failures: map<Key, nat>
    var workers: seq<Phase>

    ghost var run: seq<Step>

    function Value(): Queue
      reads this
    {
      Queue(queue, dirty, processing, delayed, failures)
    }

    function Now(): State
      reads this
    {
      State(Value(), workers)
    }

    ghost predicate Valid()
      reads this
    {
      Run(Init(workerNumber), run) && After(Init(workerNumber), run) == Now()
    }

    /** The run goes on, and worker w took exactly the steps `steps`. */
    twostate predicate Took(w: nat, steps: seq<Step>)
      reads this
    {
      Valid() && |workers| == old(|workers|) && Own(w, run) == Own(w, old(run)) + steps
    }

    constructor (workerNumber: nat)
      ensures Valid() && Value() == EMPTY && |workers| == workerNumber && run == []
    {
      this.workerNumber := workerNumber;
      var init := Init(workerNumber);
      queue, dirty, processing, delayed, failures := [], {}, {}, multiset{}, map[];
      workers := init.workers;
      run := [];
    }

    ghost method Log(w: nat, before: State, step: Step)
      requires Run(Init(workerNumber), run) && After(Init(workerNumber), run) == before
      requires Enabled(before, step) && Next(before, step) == Now()
      modifies this`run
      ensures Valid() && run == old(run) + [step]
      ensures Own(w, run) == Own(w, old(run)) + (if TakenBy(w, step) then [step] else [])
    {
      RunAppend(Init(workerNumber), run, step);
      OwnAppend(w, run, step);
      run := run + [step];
    }

    /** A missing key is ignored, a marked one stays, and one being worked on is only marked. */
    method Enqueue(item: Option<Key>)
      requires Valid()
      modifies this
      ensures Valid() && workers == old(workers)
      ensures Value() == if item.Some? then Added(old(Value()), item.value) else old(Value())
    {
      if item.None? {
        return;
      }
      ghost var before := Now();
      if item.value !in dirty {
        dirty := dirty + {item.value};
        if item.value !in processing {
          queue := queue + [item.value];
        }
      }
      Log(0, before, Add(item.value));
    }

    /** Others run: every listed step that is possible and not worker w's own. */
    method Interfere(w: nat, steps: seq<Step>)
      requires Valid() && w < |workers|
      modifies this
      ensures Took(w, []) && workers[w] == old(workers[w])
    {
      for i := 0 to |steps|
        invariant Took(w, []) && workers[w] == old(workers[w])
      {
        InterfereOnce(w, steps[i]);
      }
    }

    method InterfereOnce(w: nat, step: Step)
      requires Valid() && w < |workers|
      modifies this
      ensures Took(w, []) && workers[w] == old(workers[w])
    {
      if !TakenBy(w, step) && Enabled(Now(), step) {
        ghost var before := Now();
        var after := Next(Now(), step);
        OthersLeavePhase(before, step, w);
        queue, dirty, processing, delayed, failures := after.q.queue, after.q.dirty, after.q.processing,
            after.q.delayed, after.q.failures;
        workers := after.workers;
        Log(w, before, step);
      }
    }

    /** Called when the queue holds a key; until then the worker is blocked. */
    method Take(w: nat) returns (key: Key)
      requires Valid() && w < |workers| && workers[w].Idle? && queue != []
      modifies this
      ensures Took(w, [Get(w)]) && workers[w] == Reconciling(key)
      ensures key == old(queue)[0] && Value() == Taken(old(Value()))
    {
      ghost var before := Now();
      key := queue[0];
      queue := queue[1..];
      processing := processing + {key};
      dirty := dirty - {key};
      workers := workers[w := Reconciling(key)];
      Log(w, before, Get(w));
    }

    /** Hands the key back; it is queued again exactly if it was marked meanwhile. */
    method Done(w: nat, key: Key)
      requires Valid() && w < |workers| && workers[w] == Finishing(key)
      modifies this
      ensures Took(w, [Finish(w)]) && workers[w].Idle?
      ensures Value() == Finished(old(Value()), key)
    {
      ghost var before := Now();
      processing := processing - {key};
      if key in dirty {
        queue := queue + [key];
      }
      workers := workers[w := Idle];
      Log(w, before, Finish(w));
    }

    /** Counts the retry, and then adds the key with a delay. */
    method AddRateLimited(w: nat, key: Key, between: seq<Step>)
      requires Valid() && w < |workers| && workers[w] == Retrying(key)
      modifies this
      ensures Took(w, [Count(w)] + [Delay(w)]) && workers[w] == Finishing(key)
      ensures key in delayed
    {
      ghost var own := Own(w, run);
      CountRetry(w, key);
      Interfere(w, between);
      DelayKey(w, key);
      Regroup(own, [Count(w)], [Delay(w)]);
    }

    method CountRetry(w: nat, key: Key)
      requires Valid() && w < |workers| && workers[w] == Retrying(key)
      modifies this
      ensures Took(w, [Count(w)]) && workers[w] == Delaying(key)
      ensures Value() == Counted(old(Value()), key)
    {
      ghost var before := Now();
      failures := failures[key := NumRequeues(Value(), key) + 1];
      workers := workers[w := Delaying(key)];
      Log(w, before, Count(w));
    }

    method DelayKey(w: nat, key: Key)
      requires Valid() && w < |workers| && workers[w] == Delaying(key)
      modifies this
      ensures Took(w, [Delay(w)]) && workers[w] == Finishing(key)
      ensures Value() == Delayed(old(Value()), key)
    {
      ghost var before := Now();
      delayed := delayed + multiset{key};
      workers := workers[w := Finishing(key)];
      Log(w, before, Delay(w));
    }

    method ForgetKey(w: nat, key: Key)
      requires Valid() && w < |workers| && workers[w].Settling? && workers[w].key == key
      modifies this
      ensures Took(w, [Settle(w)]) && workers[w] == Finishing(key)
      ensures Value() == Forgotten(old(Value()), key)
    {
      ghost var before := Now();
      failures := failures - {key};
      workers := workers[w := Finishing(key)];
      Log(w, before, Settle(w));
    }

    /** Reads the retry count and decides; `retry` is whether the key failed with retries left at that moment. */
    method Decide(w: nat, key: Key, ok: bool) returns (retry: bool)
      requires Valid() && w < |workers| && workers[w] == Reconciling(key)
      modifies this
      ensures Took(w, [Return(w, ok)]) && Value() == old(Value())
      ensures retry <==> !ok && NumRequeues(old(Value()), key) < MAX_RETRIES
      ensures workers[w] == if retry then Retrying(key) else Settling(key, !ok)
    {
      ghost var before := Now();
      retry := !ok && NumRequeues(Value(), key) < MAX_RETRIES;
      workers := workers[w := Handled(Value(), key, ok)];
      Log(w, before, Return(w, ok));
    }

    /**
      Requeues a failed key while it has retries left, and forgets it otherwise; `at` is the queue
      that the decision sees.
    */
    method HandleError(w: nat, key: Key, ok: bool, between: seq<Step>, between': seq<Step>)
      returns (retry: bool, ghost at: Queue)
      requires Valid() && w < |workers| && workers[w] == Reconciling(key)
      modifies this
      ensures at == old(Value()) && (retry <==> !ok && NumRequeues(at, key) < MAX_RETRIES)
      ensures Took(w, HandleSteps(w, ok, retry)) && workers[w] == Finishing(key)
    {
      ghost var own := Own(w, run);
      at := Value();
      retry := Decide(w, key, ok);
      Interfere(w, between);
      if retry {
        AddRateLimited(w, key, between');
        Regroup(own, [Return(w, ok)], [Count(w)] + [Delay(w)]);
      } else {
        ForgetKey(w, key);
        Regroup(own, [Return(w, ok)], [Settle(w)]);
      }
    }

    /**
      One pass of worker w; `ok` is the answer of the reconcile function, and `between` are the steps
      that others take.  Whatever they do, the worker takes exactly the steps of one attempt: the key is
      retried or forgotten, and handed back.
    */
    method Work(w: nat, ok: bool, between: nat -> seq<Step>) returns (worked: bool, ghost retry: bool)
      requires Valid() && w < |workers| && workers[w].Idle?
      modifies this
      ensures Took(w, if worked then PassSteps(w, ok, retry) else [])
      ensures workers[w].Idle? && (retry ==> worked && !ok)
    {
      retry := false;
      Interfere(w, between(0));
      worked := queue != [];
      if worked {
        retry := Attempt(w, ok, between);
      }
    }

    /** No interleaving of the procedures gives one key to two workers, loses a mark or exceeds the retries. */
    lemma ValidMeansInv()
      requires Valid()
      ensures Inv(Now())
    {
      ReachableKeeps(workerNumber, run);
    }

    method Attempt(w: nat, ok: bool, between: nat -> seq<Step>) returns (ghost retry: bool)
      requires Valid() && w < |workers| && workers[w].Idle? && queue != []
      modifies this
      ensures Took(w, PassSteps(w, ok, retry)) && workers[w].Idle? && (retry ==> !ok)
    {
      ghost var own := Own(w, run);
      var key := Take(w);
      Interfere(w, between(1));
      retry := Process(w, key, ok, between);
      Regroup(own, [Get(w)], HandleSteps(w, ok, retry) + [Finish(w)]);
    }

    /** The reconcile function has returned. */
    method Process(w: nat, key: Key, ok: bool, between: nat -> seq<Step>) returns (ghost retry: bool)
      requires Valid() && w < |workers| && workers[w] == Reconciling(key)
      modifies this
      ensures Took(w, HandleSteps(w, ok, retry) + [Finish(w)]) && workers[w].Idle? && (retry ==> !ok)
    {
      ghost var own := Own(w, run);
      ghost var at;
      var again;
      again, at := HandleError(w, key, ok, between(2), between(3));
      retry := again;
      Interfere(w, between(4));
      Done(w, key);
      Regroup(own, HandleSteps(w, ok, retry), [Finish(w)]);
    }
  }

  function HandleSteps(w: nat, ok: bool, retry: bool): seq<Step> {
    [Return(w, ok)] + if retry then [Count(w)] + [Delay(w)] else [Settle(w)]
  }

  function PassSteps(w: nat, ok: bool, retry: bool): seq<Step> {
    [Get(w)] + (HandleSteps(w, ok, retry) + [Finish(w)])
  }
}
