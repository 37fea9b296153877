/** The order of the steps of one thread, whatever the others do in between. */
module GitOrder {
  import opened Common
  import opened PathIndex
  import opened GitRepo
  import opened GitProtocol

  predicate IsOwn(step: Step, t: nat) {
    !step.ReceiveCommit? && !step.Sync? && step.t == t
  }

  /** The steps of a thread in a run. */
  function Own(steps: seq<Step>, t: nat): seq<Step> {
    if steps == [] then []
    else Own(steps[..|steps| - 1], t) + if IsOwn(steps[|steps| - 1], t) then [steps[|steps| - 1]] else []
  }

  predicate ChangesObject(step: Step) {
    step.WriteObject? || step.DeleteObject?
  }

  /** A Pull ends well if HEAD was compared, and announced if new, or if it was cancelled. */
  predicate EndsPullWell(step: Step) {
    (step.DoFetch? && step.verdict == Cancelled) || (step.Compare? && step.headOk) || step.SendPull?
  }

  /** What the thread set out to do last. */
  function LastStart(own: seq<Step>): Option<Step> {
    if own == [] then None
    else if Starts(own[|own| - 1]) then Some(own[|own| - 1]) else LastStart(own[..|own| - 1])
  }

  /** Which step of a thread may be next after which. */
  predicate MayFollow(c: Config, a: Step, b: Step) {
    match a
    case StartPull(_) => b.LockPull?
    case StartTx(_, _) => b.LockPull?
    case LockPull(_) => if c.started then b.DoFetch? else b.UnlockPull?
    case DoFetch(_, _, verdict) => if verdict == Ok then b.Compare? else b.UnlockPull?
    case Compare(_, headOk) => b.UnlockPull? || (headOk && b.SendPull?)
    case SendPull(_) => b.UnlockPull?
    case UnlockPull(_) => b.LockTx? || Starts(b)
    case LockTx(_) => b.Checkout?
    case Checkout(_, result) => b.Restore? || (result == Switched && (ChangesObject(b) || b.EndFunction?))
    case WriteObject(_, _, _) => ChangesObject(b) || b.EndFunction?
    case DeleteObject(_, _) => ChangesObject(b) || b.EndFunction?
    case EndFunction(_, ok) => if ok then b.DoCommit? else b.Restore?
    case DoCommit(_, StatusFailed) => b.Restore?
    case DoCommit(_, CommitFailed) => b.Restore? || b.OpenPR?
    case DoCommit(_, Committed(_, _)) => b.Push? || b.OpenPR?
    case Push(_, verdict) => if verdict == Ok then b.SendTx? else if verdict == Cancelled then b.OpenPR? else b.Restore?
    case SendTx(_) => b.OpenPR?
    case OpenPR(_) => b.Restore?
    case Restore(_) => b.UnlockTx?
    case UnlockTx(_) => Starts(b)
    case _ => false
  }

  /** After the Pull that a transaction begins with, if it ended well. */
  predicate MayLock(own: seq<Step>) {
    && |own| > 1 && own[|own| - 1].UnlockPull? && EndsPullWell(own[|own| - 2])
    && LastStart(own).Some? && LastStart(own).value.StartTx?
  }

  /** No step comes out of order, and from the end of a Pull a thread goes on to a transaction if and only
      if that is what the Pull was for and it ended well. */
  ghost predicate InOrder(c: Config, own: seq<Step>) {
    && (own != [] ==> Starts(own[0]))
    && (forall i | 0 < i < |own| :: MayFollow(c, own[i - 1], own[i]))
    && forall i | 0 < i < |own| && own[i - 1].UnlockPull? :: own[i].LockTx? <==> MayLock(own[..i])
  }

  // ------------------------------------------------------------------ the proof

  /** Where a step leaves its thread. */
  predicate PointAfter(c: Config, last: Step, pc: PC) {
    match last
    case StartPull(_) => pc == PullWait(Background)
    case StartTx(_, branch) => pc == PullWait(ForTx(branch))
    case LockPull(_) => if c.started then pc.Pulling? else pc.PullExit?
    case DoFetch(_, _, verdict) => if verdict == Ok then pc.Comparing? else pc.PullExit?
    case Compare(_, headOk) => pc.PullExit? || (headOk && pc.SendingPull?)
    case SendPull(_) => pc.PullExit?
    case UnlockPull(_) => pc == Idle || pc.TxWait?
    case LockTx(_) => pc.TxCheckout?
    case Checkout(_, result) => pc == TxRestore || (result == Switched && pc.TxBody?)
    case WriteObject(_, _, _) => pc.TxBody?
    case DeleteObject(_, _) => pc.TxBody?
    case EndFunction(_, ok) => if ok then pc.TxCommit? else pc == TxRestore
    case DoCommit(_, StatusFailed) => pc == TxRestore
    case DoCommit(_, CommitFailed) => pc == TxRestore || pc == TxPR
    case DoCommit(_, Committed(_, _)) => pc.TxPush? || pc == TxPR
    case Push(_, verdict) =>
      if verdict == Ok then pc.SendingTx? else if verdict == Cancelled then pc == TxPR else pc == TxRestore
    case SendTx(_) => pc == TxPR
    case OpenPR(_) => pc == TxRestore
    case Restore(_) => pc == TxResume
    case UnlockTx(_) => pc == Idle
    case _ => false
  }

  /** What a point of a Pull is part of. */
  function PartOf(pc: PC): Option<Cont> {
    match pc
    case PullWait(k) => Some(k)
    case Pulling(k) => Some(k)
    case Comparing(k) => Some(k)
    case SendingPull(k) => Some(k)
    case PullExit(k, _, _) => Some(k)
    case _ => None
  }

  /** What is known of the point of a thread from its steps so far. */
  ghost predicate Known(c: Config, own: seq<Step>, pc: PC) {
    && (own == [] ==> pc == Idle)
    && (own != [] ==> PointAfter(c, own[|own| - 1], pc))
    && (PartOf(pc).Some? ==>
          LastStart(own).Some? && (PartOf(pc).value.ForTx? <==> LastStart(own).value.StartTx?))
    && (pc.PullExit? ==> own != [] && (pc.ok <==> EndsPullWell(own[|own| - 1])))
    && (own != [] && own[|own| - 1].UnlockPull? ==> (pc.TxWait? <==> MayLock(own)))
  }

  lemma StepMoves(c: Config, r: Repo, index: Index, own: seq<Step>, pc: PC, step: Step)
    requires Known(c, own, pc) && (pc.TxCommit? ==> c.canWrite) && AtPoint(r, index, pc, step)
    ensures if own == [] then Starts(step) else MayFollow(c, own[|own| - 1], step)
    ensures PointAfter(c, step, NextPC(c, r, pc, step))
  {}

  lemma StepServes(c: Config, r: Repo, index: Index, own: seq<Step>, pc: PC, step: Step)
    requires Known(c, own, pc) && AtPoint(r, index, pc, step)
    requires LastStart(own + [step]) == if Starts(step) then Some(step) else LastStart(own)
    ensures var pc' := NextPC(c, r, pc, step);
            && (PartOf(pc').Some? ==>
                  && LastStart(own + [step]).Some?
                  && (PartOf(pc').value.ForTx? <==> LastStart(own + [step]).value.StartTx?))
            && (pc'.PullExit? ==> (pc'.ok <==> EndsPullWell(step)))
  {}

  /** The exit of a Pull is where a thread goes on to its transaction, or does not. */
  lemma StepUnlocks(c: Config, r: Repo, index: Index, own: seq<Step>, pc: PC, step: Step)
    requires Known(c, own, pc) && AtPoint(r, index, pc, step) && step.UnlockPull?
    ensures own != [] && !own[|own| - 1].UnlockPull?
    ensures NextPC(c, r, pc, step).TxWait?
            <==> LastStart(own).Some? && LastStart(own).value.StartTx? && EndsPullWell(own[|own| - 1])
  {}

  lemma StepKnown(c: Config, r: Repo, index: Index, own: seq<Step>, pc: PC, step: Step)
    requires Known(c, own, pc) && (pc.TxCommit? ==> c.canWrite) && AtPoint(r, index, pc, step)
    ensures Known(c, own + [step], NextPC(c, r, pc, step))
  {
    var all := own + [step];
    assert all[..|all| - 1] == own;
    StepMoves(c, r, index, own, pc, step);
    StepServes(c, r, index, own, pc, step);
    if step.UnlockPull? {
      StepUnlocks(c, r, index, own, pc, step);
    }
  }

  lemma OrderOneMore(c: Config, r: Repo, index: Index, own: seq<Step>, pc: PC, step: Step)
    requires InOrder(c, own)
    requires Known(c, own, pc) && (pc.TxCommit? ==> c.canWrite) && AtPoint(r, index, pc, step)
    ensures InOrder(c, own + [step])
  {
    var all, n := own + [step], |own|;
    StepMoves(c, r, index, own, pc, step);
    forall i | 0 < i < |all|
      ensures MayFollow(c, all[i - 1], all[i])
    {
      assert all[i - 1] == own[i - 1];
    }
    forall i | 0 <= i < |all| && i > 0 && all[i - 1].UnlockPull?
      ensures all[i].LockTx? <==> MayLock(all[..i])
    {
      assert all[..i] == own[..i];
      if i == n {
        assert own[..n] == own;
        LockOrStart(r, index, pc, step);
      }
    }
  }

  lemma LockOrStart(r: Repo, index: Index, pc: PC, step: Step)
    requires AtPoint(r, index, pc, step) && (pc.TxWait? || pc == Idle)
    ensures step.LockTx? <==> pc.TxWait?
  {}

  lemma {:induction false} OwnKnown(c: Config, s: State, steps: seq<Step>, t: nat)
    requires Init(c, s) && Run(c, s, steps).Some? && t < |s.threads|
    ensures |Run(c, s, steps).value.threads| == |s.threads|
    ensures Known(c, Own(steps, t), Run(c, s, steps).value.threads[t]) && InOrder(c, Own(steps, t))
  {
    if steps != [] {
      var front, last := steps[..|steps| - 1], steps[|steps| - 1];
      OwnKnown(c, s, front, t);
      MainRun(c, s, front);
      StepTaken(c, Run(c, s, front).value, Own(front, t), last, t);
    }
  }

  lemma StepTaken(c: Config, s: State, own: seq<Step>, step: Step, t: nat)
    requires MainInv(c, s) && t < |s.threads| && Enabled(c, s, step)
    requires Known(c, own, s.threads[t]) && InOrder(c, own)
    ensures var s', own' := Apply(c, s, step), own + if IsOwn(step, t) then [step] else [];
            |s'.threads| == |s.threads| && Known(c, own', s'.threads[t]) && InOrder(c, own')
  {
    ThreadMoves(c, s, step, t);
    var pc := s.threads[t];
    if IsOwn(step, t) {
      assert (pc.TxCommit? ==> c.canWrite) by {
        CommitsCanWrite(c, s, t);
      }
      StepKnown(c, s.repo, s.index, own, pc, step);
      OrderOneMore(c, s.repo, s.index, own, pc, step);
    } else {
      assert own + [] == own;
    }
  }

  lemma ThreadMoves(c: Config, s: State, step: Step, t: nat)
    requires t < |s.threads| && Enabled(c, s, step)
    ensures |Apply(c, s, step).threads| == |s.threads|
    ensures IsOwn(step, t) ==> AtPoint(s.repo, s.index, s.threads[t], step)
    ensures Apply(c, s, step).threads[t]
            == if IsOwn(step, t) then NextPC(c, s.repo, s.threads[t], step) else s.threads[t]
  {}

  lemma CommitsCanWrite(c: Config, s: State, t: nat)
    requires MainInv(c, s) && t < |s.threads|
    ensures s.threads[t].TxCommit? ==> c.canWrite
  {}

  /** Over every interleaving, the steps of each thread come in order. */
  lemma StepsComeInOrder(c: Config, s: State, steps: seq<Step>, t: nat)
    requires Init(c, s) && Run(c, s, steps).Some? && t < |s.threads|
    ensures InOrder(c, Own(steps, t))
  {
    OwnKnown(c, s, steps, t);
  }
}
