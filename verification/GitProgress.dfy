/** The protocol never gets stuck: whatever has been started can be brought to its end. */
module GitProgress {
  import opened Common
  import opened GitRepo
  import opened GitProtocol
  import opened GitHistory

  /** How far a thread still has to go. */
  function Rank(pc: PC): nat {
    match pc
    case Idle => 0
    case TxResume => 1
    case TxRestore => 2
    case TxPR => 3
    case SendingTx(_) => 4
    case TxPush(_, _) => 5
    case TxCommit(_) => 6
    case TxBody(_) => 7
    case TxCheckout(_) => 8
    case TxWait(_) => 9
    case PullExit(_, _, _) => 10
    case SendingPull(_) => 11
    case Comparing(_) => 12
    case Pulling(_) => 13
    case PullWait(_) => 14
  }

  function Total(threads: seq<PC>): nat {
    if threads == [] then 0 else Rank(threads[0]) + Total(threads[1..])
  }

  lemma {:induction false} TotalUpdate(threads: seq<PC>, t: nat, pc: PC)
    requires t < |threads|
    ensures Total(threads[t := pc]) == Total(threads) - Rank(threads[t]) + Rank(pc)
  {
    if t > 0 {
      assert threads[t := pc][1..] == threads[1..][t - 1 := pc];
      TotalUpdate(threads[1..], t - 1, pc);
    }
  }

  lemma {:induction false} TotalPositive(threads: seq<PC>, t: nat)
    requires t < |threads| && threads[t] != Idle
    ensures Total(threads) > 0
  {
    if t > 0 {
      TotalPositive(threads[1..], t - 1);
    }
  }

  lemma {:induction false} SomeoneBusy(threads: seq<PC>) returns (t: nat)
    requires Total(threads) > 0
    ensures t < |threads| && threads[t] != Idle
  {
    if threads[0] != Idle {
      t := 0;
    } else {
      t := SomeoneBusy(threads[1..]);
      t := t + 1;
    }
  }

  /** What is left to do: the threads' ways, the announcements to receive, the sync to run. */
  function Work(s: State): nat {
    4 * Total(s.threads) + 2 * |s.repo.chan| + if s.syncing then 1 else 0
  }

  /** The sync loop's next step. It never asks for the lock. */
  function Drain(s: State): Step {
    if s.syncing then Sync(true) else ReceiveCommit
  }

  /** A next step for a thread that is under way and not about to take the lock. */
  function Proceed(c: Config, s: State, t: nat): Step
    requires t < |s.threads|
  {
    match s.threads[t]
    case Pulling(_) => DoFetch(t, None, Ok)
    case Comparing(_) => Compare(t, true)
    case SendingPull(_) => if |s.repo.chan| < c.capacity then SendPull(t) else Drain(s)
    case PullExit(_, _, _) => UnlockPull(t)
    case TxCheckout(_) => Checkout(t, Switched)
    case TxBody(_) => EndFunction(t, true)
    case TxCommit(_) => DoCommit(t, CommitFailed)
    case TxPush(_, _) => Push(t, Ok)
    case SendingTx(_) => if |s.repo.chan| < c.capacity then SendTx(t) else Drain(s)
    case TxPR => OpenPR(t)
    case TxRestore => Restore(t)
    case TxResume => UnlockTx(t)
    case PullWait(_) => LockPull(t)
    case TxWait(_) => LockTx(t)
    case Idle => Drain(s)
  }

  ghost predicate Live(c: Config, s: State) {
    AnnounceInv(c, s) && 0 < c.capacity
  }

  lemma DrainWorks(c: Config, s: State)
    requires s.syncing || s.repo.chan != []
    ensures Enabled(c, s, Drain(s)) && Work(Apply(c, s, Drain(s))) < Work(s)
  {}

  /** The step of a thread at a point of its own, once it need not wait. */
  lemma ProceedDescends(c: Config, s: State, t: nat)
    requires t < |s.threads| && s.threads[t] != Idle
    requires !Holds(s.threads[t]) ==> s.lock == None
    requires Sending(s.threads[t]) ==> |s.repo.chan| < c.capacity
    ensures var step, pc := Proceed(c, s, t), s.threads[t];
            && !step.ReceiveCommit? && !step.Sync? && !Starts(step) && step.t == t
            && AtPoint(s.repo, s.index, pc, step) && NotBlocked(c, s, step)
            && Rank(NextPC(c, s.repo, pc, step)) < Rank(pc)
            && |NextRepo(c, s.repo, s.index, pc, step).chan| <= |s.repo.chan| + 1
  {}

  lemma ProceedWorks(c: Config, s: State, t: nat)
    requires t < |s.threads| && s.threads[t] != Idle
    requires !Holds(s.threads[t]) ==> s.lock == None
    requires Sending(s.threads[t]) ==> |s.repo.chan| < c.capacity
    ensures var step := Proceed(c, s, t);
            && Enabled(c, s, step) && !Starts(step)
            && Work(Apply(c, s, step)) < Work(s)
  {
    var step, pc := Proceed(c, s, t), s.threads[t];
    ProceedDescends(c, s, t);
    TotalUpdate(s.threads, t, NextPC(c, s.repo, pc, step));
  }

  /** No deadlock: while an operation is unfinished, or an announcement or a sync is pending, some
      step other than a new start is possible, and it brings the end nearer. In particular a send
      that is blocked while holding the lock waits for the sync loop, which never waits for it. */
  lemma AlwaysSomeStep(c: Config, s: State) returns (step: Step)
    requires Live(c, s) && Work(s) > 0
    ensures Enabled(c, s, step) && !Starts(step) && Work(Apply(c, s, step)) < Work(s)
  {
    if Total(s.threads) > 0 {
      var busy := SomeoneBusy(s.threads);
      var t := if s.lock.Some? then s.lock.value else busy;
      if Sending(s.threads[t]) && |s.repo.chan| >= c.capacity {
        DrainWorks(c, s);
        step := Drain(s);
      } else {
        assert s.lock == None ==> !Holds(s.threads[t]);
        ProceedWorks(c, s, t);
        step := Proceed(c, s, t);
      }
    } else {
      DrainWorks(c, s);
      step := Drain(s);
    }
  }

  /** The same over every run: with an unfinished Pull or transaction, some step is possible. */
  lemma NoDeadlock(c: Config, s: State, steps: seq<Step>, t: nat)
    requires Init(c, s) && Run(c, s, steps).Some?
    requires t < |Run(c, s, steps).value.threads| && Run(c, s, steps).value.threads[t] != Idle
    ensures exists step :: Enabled(c, Run(c, s, steps).value, step) && !Starts(step)
  {
    AnnounceRun(c, s, steps);
    var end := Run(c, s, steps).value;
    TotalPositive(end.threads, t);
    var step := AlwaysSomeStep(c, end);
  }

  /** No thread ever waits for the lock while holding it. */
  lemma NoReacquire(c: Config, s: State, steps: seq<Step>, t: nat)
    requires Init(c, s) && Run(c, s, steps).Some?
    ensures var end := Run(c, s, steps).value;
            t < |end.threads| && end.lock == Some(t) ==> !end.threads[t].PullWait? && !end.threads[t].TxWait?
  {
    MainRun(c, s, steps);
  }

  lemma {:induction false} RunFirst(c: Config, s: State, step: Step, rest: seq<Step>)
    requires Enabled(c, s, step)
    ensures Run(c, s, [step] + rest) == Run(c, Apply(c, s, step), rest)
    decreases |rest|
  {
    var all := [step] + rest;
    if rest == [] {
      assert all == [step] && all[..0] == [];
    } else {
      assert all[..|all| - 1] == [step] + rest[..|rest| - 1];
      RunFirst(c, s, step, rest[..|rest| - 1]);
    }
  }

  /** Nothing is left to do. */
  predicate Finished(s: State) {
    (forall t | 0 <= t < |s.threads| :: s.threads[t] == Idle) && s.repo.chan == [] && !s.syncing
  }

  /** From every state in which the invariants hold, a finite run without new starts finishes
      everything that was started. */
  lemma {:induction false} CanFinish(c: Config, s: State) returns (steps: seq<Step>)
    requires Live(c, s)
    ensures |steps| <= Work(s) && (forall step | step in steps :: !Starts(step))
    ensures Run(c, s, steps).Some? && Finished(Run(c, s, steps).value)
    decreases Work(s)
  {
    if Work(s) == 0 {
      steps := [];
      forall t | 0 <= t < |s.threads|
        ensures s.threads[t] == Idle
      {
        if s.threads[t] != Idle {
          TotalPositive(s.threads, t);
        }
      }
    } else {
      var step := AlwaysSomeStep(c, s);
      AnnounceInvStep(c, s, step);
      var rest := CanFinish(c, Apply(c, s, step));
      RunFirst(c, s, step, rest);
      steps := [step] + rest;
    }
  }

  /** For any channel capacity of at least one, any number of threads and every run: the protocol
      can still complete. */
  lemma NeverStuck(c: Config, s: State, steps: seq<Step>)
    requires Init(c, s) && Run(c, s, steps).Some?
    ensures exists more ::
              && (forall step | step in more :: !Starts(step))
              && Run(c, Run(c, s, steps).value, more).Some?
              && Finished(Run(c, Run(c, s, steps).value, more).value)
  {
    AnnounceRun(c, s, steps);
    var more := CanFinish(c, Run(c, s, steps).value);
  }
}
