/**
 pkg/storage/transaction/git.go over pkg/gitdir/gitdir.go, run by any number of threads: the
 background pull loop, transactions, and the sync loop, interleaved step by step over one lock,
 one worktree, one bounded commit channel and one index. A thread is a list of program points;
 each step is what runs between two points at which another thread may come in.
 */
module GitProtocol {
  import opened Common
  import opened PathIndex
  import opened GitRepo

  /** The main branch, the capacity of the commit channel, whether the clone was made and may be
      written to, and the order in which a tree is walked. */
  datatype Config = Config(main: string, capacity: nat, started: bool, canWrite: bool, walk: Tree -> seq<string>)

  /** What a Pull is part of. */
  datatype Cont = Background | ForTx(branch: string)

  /** The program points of a thread. */
  datatype PC =
    | Idle
    | PullWait(k: Cont)
    | Pulling(k: Cont)
    | Comparing(k: Cont)
    | SendingPull(k: Cont)
    | PullExit(k: Cont, ok: bool, compared: bool)
    | TxWait(branch: string)
    | TxCheckout(branch: string)
    | TxBody(branch: string)
    | TxCommit(branch: string)
    | TxPush(branch: string, hash: Hash)
    | SendingTx(branch: string)
    | TxPR
    | TxRestore
    | TxResume

  /** The points between taking the lock and giving it back. */
  predicate Holds(pc: PC) {
    !pc.Idle? && !pc.PullWait? && !pc.TxWait?
  }

  predicate Sending(pc: PC) {
    pc.SendingPull? || pc.SendingTx?
  }

  /** A commit made by a transaction: by which thread, on which branch. */
  datatype TxRecord = TxRecord(hash: Hash, branch: string, thread: nat)

  /** `deleted` and `published` are about the transaction under way: whether it removed a mapping
      since the last successful sync, and whether its commit was announced. `commits` and `owners` are history. */
  datatype State = State(
    repo: Repo,
    lock: Option<nat>,
    threads: seq<PC>,
    index: Index,
    syncing: bool,
    deleted: bool,
    published: bool,
    commits: seq<TxRecord>,
    owners: map<string, nat>)

  datatype Step =
    | StartPull(t: nat)
    | StartTx(t: nat, branch: string)
    | LockPull(t: nat)
    | DoFetch(t: nat, pulled: Option<Pulled>, verdict: Verdict)
    | Compare(t: nat, headOk: bool)
    | SendPull(t: nat)
    | UnlockPull(t: nat)
    | LockTx(t: nat)
    | Checkout(t: nat, result: CheckoutResult)
    | WriteObject(t: nat, key: ObjectKey, content: Content)
    | DeleteObject(t: nat, key: ObjectKey)
    | EndFunction(t: nat, ok: bool)
    | DoCommit(t: nat, commit: CommitResult)
    | Push(t: nat, verdict: Verdict)
    | SendTx(t: nat)
    | OpenPR(t: nat)
    | Restore(t: nat)
    | UnlockTx(t: nat)
    | ReceiveCommit
    | Sync(walked: bool)

  /** The index that a sync computes from a worktree. */
  function Mappings(c: Config, tree: Tree): Index {
    MappingsOf(c.walk(tree), tree)
  }

  /** The step belongs to the program point. */
  predicate AtPoint(r: Repo, index: Index, pc: PC, step: Step) {
    match step
    case StartPull(_) => pc == Idle
    case StartTx(_, _) => pc == Idle
    case LockPull(_) => pc.PullWait?
    case DoFetch(_, pulled, _) => pc.Pulling? && (pulled.Some? ==> Consistent(r, pulled.value))
    case Compare(_, _) => pc.Comparing?
    case SendPull(_) => pc.SendingPull?
    case UnlockPull(_) => pc.PullExit?
    case LockTx(_) => pc.TxWait?
    case Checkout(_, _) => pc.TxCheckout?
    case WriteObject(_, key, _) => pc.TxBody? && key in index
    case DeleteObject(_, key) => pc.TxBody? && key in index
    case EndFunction(_, _) => pc.TxBody?
    case DoCommit(_, commit) => pc.TxCommit? && Fresh(r, commit)
    case Push(_, _) => pc.TxPush?
    case SendTx(_) => pc.SendingTx?
    case OpenPR(_) => pc == TxPR
    case Restore(_) => pc == TxRestore
    case UnlockTx(_) => pc == TxResume
    case _ => false
  }

  /** The step need not wait: for the lock, or for room in the channel. */
  predicate NotBlocked(c: Config, s: State, step: Step) {
    && (step.LockPull? || step.LockTx? ==> s.lock == None)
    && (step.SendPull? || step.SendTx? ==> |s.repo.chan| < c.capacity)
  }

  predicate Enabled(c: Config, s: State, step: Step) {
    if step.ReceiveCommit? then !s.syncing && s.repo.chan != []
    else if step.Sync? then s.syncing
    else
      && step.t < |s.threads|
      && AtPoint(s.repo, s.index, s.threads[step.t], step)
      && NotBlocked(c, s, step)
  }

  /** Where a commit leads: an error goes straight to the deferred restore. */
  function AfterCommit(c: Config, r: Repo, branch: string, commit: CommitResult): PC {
    if !c.canWrite || commit == StatusFailed then TxRestore
    else if IsClean(r) then TxPR
    else match commit
         case Committed(hash, _) => TxPush(branch, hash)
         case _ => TxRestore
  }

  function AfterPull(k: Cont, ok: bool): PC {
    if k.ForTx? && ok then TxWait(k.branch) else Idle
  }

  /** The next program point of the thread that steps. */
  function NextPC(c: Config, r: Repo, pc: PC, step: Step): PC {
    match step
    case StartPull(_) => PullWait(Background)
    case StartTx(_, branch) => PullWait(ForTx(branch))
    case LockPull(_) =>
      (match pc case PullWait(k) => if c.started then Pulling(k) else PullExit(k, false, false) case _ => pc)
    case DoFetch(_, _, verdict) =>
      (match pc
       case Pulling(k) => if verdict == Ok then Comparing(k) else PullExit(k, verdict == Cancelled, false)
       case _ => pc)
    case Compare(_, headOk) =>
      (match pc
       case Comparing(k) =>
         if !headOk then PullExit(k, false, false)
         else if r.head in r.branches && r.lastCommit != r.branches[r.head] then SendingPull(k)
         else PullExit(k, true, true)
       case _ => pc)
    case SendPull(_) => (match pc case SendingPull(k) => PullExit(k, true, true) case _ => pc)
    case UnlockPull(_) => (match pc case PullExit(k, ok, _) => AfterPull(k, ok) case _ => pc)
    case LockTx(_) => (match pc case TxWait(branch) => TxCheckout(branch) case _ => pc)
    case Checkout(_, result) =>
      (match pc
       case TxCheckout(branch) =>
         if c.canWrite && CheckoutSucceeds(r, branch, result) then TxBody(branch) else TxRestore
       case _ => pc)
    case EndFunction(_, ok) => (match pc case TxBody(branch) => if ok then TxCommit(branch) else TxRestore case _ => pc)
    case DoCommit(_, commit) => (match pc case TxCommit(branch) => AfterCommit(c, r, branch, commit) case _ => pc)
    case Push(_, verdict) =>
      (match pc
       case TxPush(branch, _) =>
         if verdict == Ok then SendingTx(branch) else if verdict == Cancelled then TxPR else TxRestore
       case _ => pc)
    case SendTx(_) => TxPR
    case OpenPR(_) => TxRestore
    case Restore(_) => TxResume
    case UnlockTx(_) => Idle
    case _ => pc
  }

  /** What the step does to the repository. */
  function NextRepo(c: Config, r: Repo, index: Index, pc: PC, step: Step): Repo {
    match step
    case DoFetch(_, pulled, _) => Fetch(r, pulled)
    case Compare(_, headOk) =>
      if headOk && r.head in r.branches && r.lastCommit != r.branches[r.head] then Note(r, r.branches[r.head]) else r
    case SendPull(_) => Send(r)
    case Checkout(_, result) =>
      if c.canWrite && pc.TxCheckout? && r.head in r.branches then CheckoutNew(r, pc.branch, result) else r
    case WriteObject(_, key, content) =>
      if key in index then r.(worktree := r.worktree[index[key] := content]) else r
    case DeleteObject(_, key) => if key in index then r.(worktree := r.worktree - {index[key]}) else r
    case DoCommit(_, commit) =>
      if pc.TxCommit? && commit.Committed? && AfterCommit(c, r, pc.branch, commit).TxPush?
      then CommitOn(r, commit.hash, commit.tree) else r
    case Push(_, verdict) => if verdict == Ok && pc.TxPush? then Note(r, pc.hash) else r
    case SendTx(_) => Send(r)
    case Restore(_) =>
      if c.canWrite && c.main in r.branches && r.branches[c.main] in r.trees then CheckoutMain(r, c.main) else r
    case _ => r
  }

  function NextLock(lock: Option<nat>, step: Step): Option<nat> {
    match step
    case LockPull(t) => Some(t)
    case LockTx(t) => Some(t)
    case UnlockPull(_) => None
    case UnlockTx(_) => None
    case _ => lock
  }

  /** The commit record, if the step is a commit of a transaction. */
  function NewRecords(c: Config, r: Repo, pc: PC, step: Step): seq<TxRecord> {
    if step.DoCommit? && pc.TxCommit? && step.commit.Committed? && AfterCommit(c, r, pc.branch, step.commit).TxPush?
    then [TxRecord(step.commit.hash, r.head, step.t)] else []
  }

  function NextOwners(before: Repo, after: Repo, owners: map<string, nat>, pc: PC, step: Step): map<string, nat> {
    if step.Checkout? && pc.TxCheckout? && pc.branch !in before.branches && pc.branch in after.branches
    then owners[pc.branch := step.t] else owners
  }

  function Apply(c: Config, s: State, step: Step): State
    requires Enabled(c, s, step)
  {
    if step.ReceiveCommit? then s.(repo := Receive(s.repo, 1), syncing := true)
    else if step.Sync? then
      s.(index := if step.walked then Mappings(c, s.repo.worktree) else s.index,
         syncing := false,
         deleted := s.deleted && !step.walked)
    else
      var pc := s.threads[step.t];
      var r := NextRepo(c, s.repo, s.index, pc, step);
      var boundary := step.LockTx? || step.UnlockTx?;
      State(
        r,
        NextLock(s.lock, step),
        s.threads[step.t := NextPC(c, s.repo, pc, step)],
        if step.DeleteObject? then s.index - {step.key} else s.index,
        s.syncing,
        if boundary then false else s.deleted || step.DeleteObject?,
        if boundary then false else s.published || step.SendTx?,
        s.commits + NewRecords(c, s.repo, pc, step),
        NextOwners(s.repo, r, s.owners, pc, step))
  }

  /** The clone has been made and its commit announced; the first sync is still to come. */
  ghost predicate Init(c: Config, s: State) {
    && 0 < c.capacity
    && Sound(s.repo, c.main) && s.repo.branches.Keys == {c.main} && OnMainClean(s.repo, c.main)
    && s.repo.lastCommit == s.repo.branches[c.main]
    && s.repo.chan == [s.repo.lastCommit] && s.repo.announced == [s.repo.lastCommit]
    && s.lock == None && (forall t | 0 <= t < |s.threads| :: s.threads[t] == Idle)
    && s.index == map[] && s.syncing && !s.deleted && !s.published && s.commits == [] && s.owners == map[]
  }

  function Advance(c: Config, m: Option<State>, step: Step): Option<State> {
    if m.Some? && Enabled(c, m.value, step) then Some(Apply(c, m.value, step)) else None
  }

  /** The state after a list of steps; None if some step is not possible. */
  function Run(c: Config, s: State, steps: seq<Step>): Option<State> {
    if steps == [] then Some(s) else Advance(c, Run(c, s, steps[..|steps| - 1]), steps[|steps| - 1])
  }

  /** The program point of the thread that holds the lock; Idle if the lock is free. */
  function Holder(s: State): PC {
    if s.lock.Some? && s.lock.value < |s.threads| then s.threads[s.lock.value] else Idle
  }

  // ------------------------------------------------------------------ mutual exclusion

  /** Exactly the holder of the lock is between taking it and giving it back. */
  ghost predicate LockInv(s: State) {
    && (s.lock.Some? ==> s.lock.value < |s.threads|)
    && forall t | 0 <= t < |s.threads| :: Holds(s.threads[t]) <==> s.lock == Some(t)
  }

  lemma LockMoves(c: Config, s: State, step: Step)
    requires LockInv(s) && Enabled(c, s, step) && !step.ReceiveCommit? && !step.Sync?
    ensures var pc, pc' := s.threads[step.t], NextPC(c, s.repo, s.threads[step.t], step);
            && (Holds(pc) <==> s.lock == Some(step.t))
            && (step.LockPull? || step.LockTx? ==> s.lock == None && Holds(pc'))
            && (step.UnlockPull? || step.UnlockTx? ==> Holds(pc) && !Holds(pc'))
            && (NextLock(s.lock, step) == s.lock ==> (Holds(pc) <==> Holds(pc')))
  {}

  /** Every step keeps it so. */
  lemma LockStep(c: Config, s: State, step: Step)
    requires LockInv(s) && Enabled(c, s, step)
    ensures LockInv(Apply(c, s, step))
    ensures |Apply(c, s, step).threads| == |s.threads|
  {
    if !step.ReceiveCommit? && !step.Sync? {
      LockMoves(c, s, step);
    }
  }

  /** What holding the lock makes of a program point. */
  function AsHolder(pc: PC): PC {
    if Holds(pc) then pc else Idle
  }

  predicate Starts(step: Step) {
    step.StartPull? || step.StartTx?
  }

  lemma HolderIs(s: State, t: nat)
    requires LockInv(s) && t < |s.threads| && (s.lock == Some(t) || s.lock == None)
    ensures Holder(s) == AsHolder(s.threads[t])
  {}

  /** Whose step it is. */
  lemma StepsHolder(c: Config, s: State, step: Step)
    requires LockInv(s) && Enabled(c, s, step) && !step.ReceiveCommit? && !step.Sync? && !Starts(step)
    ensures s.lock == Some(step.t) || s.lock == None
    ensures NextLock(s.lock, step) == Some(step.t) || NextLock(s.lock, step) == None
  {
    LockMoves(c, s, step);
  }

  /** Every step of a thread that is not a start is taken by the holder of the lock, or makes
      its thread the holder of the free lock. */
  lemma HolderStep(c: Config, s: State, step: Step)
    requires LockInv(s) && Enabled(c, s, step)
    ensures LockInv(Apply(c, s, step))
    ensures step.ReceiveCommit? || step.Sync? || Starts(step) ==> Holder(Apply(c, s, step)) == Holder(s)
    ensures !step.ReceiveCommit? && !step.Sync? && !Starts(step) ==>
              && Holder(s) == AsHolder(s.threads[step.t])
              && Holder(Apply(c, s, step)) == AsHolder(NextPC(c, s.repo, s.threads[step.t], step))
  {
    LockStep(c, s, step);
    if !step.ReceiveCommit? && !step.Sync? {
      if Starts(step) {
        LockMoves(c, s, step);
      } else {
        StepsHolder(c, s, step);
        HolderIs(s, step.t);
        HolderIs(Apply(c, s, step), step.t);
      }
    }
  }

  // ------------------------------------------------------------------ main is restored

  /** The points at which HEAD is off main, on the transaction's own branch. */
  predicate OnBranch(pc: PC) {
    pc.TxBody? || pc.TxCommit? || pc.TxPush? || pc.SendingTx?
  }

  /** The repository is well formed, and the commit announced last is known. */
  ghost predicate Sound(r: Repo, main: string) {
    WellFormed(r, main) && r.lastCommit in r.trees
  }

  /** Where the worktree is, by what the holder of the lock is doing. */
  ghost predicate PlaceInv(c: Config, r: Repo, pc: PC) {
    && Sound(r, c.main)
    && (pc.TxPush? ==> pc.hash in r.trees)
    && Place(c, r, pc)
  }

  ghost predicate Place(c: Config, r: Repo, pc: PC) {
    if OnBranch(pc) then c.canWrite && r.head == pc.branch && pc.branch != c.main
    else if pc == TxPR then c.canWrite
    else if pc == TxRestore then c.canWrite || OnMainClean(r, c.main)
    else OnMainClean(r, c.main)
  }

  /** Only fetching, checking out and committing change a branch or add a commit. */
  lemma SameCommits(c: Config, r: Repo, index: Index, pc: PC, step: Step)
    requires AtPoint(r, index, pc, step) && !step.DoFetch? && !step.Checkout? && !step.DoCommit?
    ensures var r' := NextRepo(c, r, index, pc, step);
            && r'.branches == r.branches && r'.trees == r.trees
            && (r'.head == r.head || r'.head == c.main)
            && (r'.lastCommit == r.lastCommit || step.Compare? || step.Push?)
    ensures !NextPC(c, r, pc, step).TxPush?
  {}

  lemma WellFormedStep(c: Config, r: Repo, index: Index, pc: PC, step: Step)
    requires PlaceInv(c, r, AsHolder(pc)) && AtPoint(r, index, pc, step)
    ensures var r', pc' := NextRepo(c, r, index, pc, step), NextPC(c, r, pc, step);
            Sound(r', c.main) && (pc'.TxPush? ==> pc'.hash in r'.trees)
  {
    if !step.DoFetch? && !step.Checkout? && !step.DoCommit? {
      SameCommits(c, r, index, pc, step);
    }
  }

  /** The points of a Pull that holds the lock. */
  predicate InPull(pc: PC) {
    pc.Pulling? || pc.Comparing? || pc.SendingPull? || pc.PullExit?
  }

  lemma PlaceOutside(c: Config, r: Repo, index: Index, pc: PC, step: Step)
    requires AtPoint(r, index, pc, step) && !Holds(pc)
    ensures NextRepo(c, r, index, pc, step) == r
    ensures var pc' := AsHolder(NextPC(c, r, pc, step));
            pc' == Idle || InPull(pc') || pc'.TxCheckout?
  {}

  lemma FetchKeepsClean(c: Config, r: Repo, pulled: Option<Pulled>)
    requires OnMainClean(r, c.main)
    ensures OnMainClean(Fetch(r, pulled), c.main)
  {}

  /** In a Pull only the fetch moves HEAD, a branch or the worktree. */
  lemma OnlyFetchMoves(c: Config, r: Repo, index: Index, pc: PC, step: Step)
    requires AtPoint(r, index, pc, step) && InPull(pc)
    ensures var r', pc' := NextRepo(c, r, index, pc, step), AsHolder(NextPC(c, r, pc, step));
            && (pc' == Idle || InPull(pc'))
            && if step.DoFetch? then r' == Fetch(r, step.pulled)
               else r' == r.(lastCommit := r'.lastCommit, chan := r'.chan, announced := r'.announced)
  {}

  lemma PlaceInPull(c: Config, r: Repo, index: Index, pc: PC, step: Step)
    requires OnMainClean(r, c.main) && AtPoint(r, index, pc, step) && InPull(pc)
    ensures Place(c, NextRepo(c, r, index, pc, step), AsHolder(NextPC(c, r, pc, step)))
  {
    OnlyFetchMoves(c, r, index, pc, step);
    if step.DoFetch? {
      FetchKeepsClean(c, r, step.pulled);
    }
    CleanIsPlace(c, NextRepo(c, r, index, pc, step), AsHolder(NextPC(c, r, pc, step)));
  }

  lemma CleanIsPlace(c: Config, r: Repo, pc: PC)
    requires OnMainClean(r, c.main) && (pc == Idle || InPull(pc) || pc.TxCheckout?)
    ensures Place(c, r, pc)
  {}

  lemma PlaceInTx(c: Config, r: Repo, index: Index, pc: PC, step: Step)
    requires Sound(r, c.main) && Place(c, r, pc) && AtPoint(r, index, pc, step)
    requires Holds(pc) && !InPull(pc)
    ensures Place(c, NextRepo(c, r, index, pc, step), AsHolder(NextPC(c, r, pc, step)))
  {}

  lemma PlaceStep(c: Config, r: Repo, index: Index, pc: PC, step: Step)
    requires PlaceInv(c, r, AsHolder(pc)) && AtPoint(r, index, pc, step)
    ensures PlaceInv(c, NextRepo(c, r, index, pc, step), AsHolder(NextPC(c, r, pc, step)))
  {
    WellFormedStep(c, r, index, pc, step);
    if !Holds(pc) {
      PlaceOutside(c, r, index, pc, step);
      CleanIsPlace(c, r, AsHolder(NextPC(c, r, pc, step)));
    } else if InPull(pc) {
      PlaceInPull(c, r, index, pc, step);
    } else {
      PlaceInTx(c, r, index, pc, step);
    }
  }

  ghost predicate MainInv(c: Config, s: State) {
    LockInv(s) && PlaceInv(c, s.repo, Holder(s))
  }

  lemma MainStep(c: Config, s: State, step: Step)
    requires MainInv(c, s) && Enabled(c, s, step)
    ensures MainInv(c, Apply(c, s, step))
  {
    HolderStep(c, s, step);
    if !step.ReceiveCommit? && !step.Sync? && !Starts(step) {
      PlaceStep(c, s.repo, s.index, s.threads[step.t], step);
    }
  }

  lemma {:induction false} MainRun(c: Config, s: State, steps: seq<Step>)
    requires Init(c, s) && Run(c, s, steps).Some?
    ensures MainInv(c, Run(c, s, steps).value)
  {
    if steps != [] {
      MainRun(c, s, steps[..|steps| - 1]);
      MainStep(c, Run(c, s, steps[..|steps| - 1]).value, steps[|steps| - 1]);
    }
  }

  /** Over every interleaving, and whichever way a transaction ends: when the lock is free, the
      worktree is on main and clean. */
  lemma FreeLockMeansCleanMain(c: Config, s: State, steps: seq<Step>)
    requires Init(c, s) && Run(c, s, steps).Some?
    ensures var end := Run(c, s, steps).value;
            end.lock == None ==> OnMainClean(end.repo, c.main)
  {
    MainRun(c, s, steps);
  }
}
