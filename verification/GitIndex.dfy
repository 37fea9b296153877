/** When the index is up to date with main. */
module GitIndex {
  import opened Common
  import opened PathIndex
  import opened GitRepo
  import opened GitProtocol
  import opened GitHistory

  /** The hash main is at. */
  function MainHash(c: Config, r: Repo): Hash {
    if c.main in r.branches then r.branches[c.main] else 0
  }

  function MainTree(c: Config, r: Repo): Tree {
    if MainHash(c, r) in r.trees then r.trees[MainHash(c, r)] else map[]
  }

  /**
   What a step must keep to for the index not to fall behind: a sync finds a worktree with main's
   mappings, as it does while the lock is free; a Pull does not move main to the commit announced
   last; and a transaction that removes a mapping gets its commit announced.
   */
  ghost predicate Orderly(c: Config, s: State, step: Step) {
    match step
    case Sync(walked) => walked && Mappings(c, s.repo.worktree) == Mappings(c, MainTree(c, s.repo))
    case DoFetch(_, Some(pulled), _) => pulled.hash == s.repo.lastCommit ==> MainHash(c, s.repo) == pulled.hash
    case UnlockTx(_) => s.deleted ==> s.published
    case _ => true
  }

  /** The last sync, and all steps since, were orderly: whatever went wrong before, that sync repaired. */
  ghost predicate OrderlySinceSync(c: Config, s: State, steps: seq<Step>) {
    if steps == [] then true
    else
      var front, last := steps[..|steps| - 1], steps[|steps| - 1];
      && (Run(c, s, front).Some? ==> Orderly(c, Run(c, s, front).value, last))
      && (last.Sync? || OrderlySinceSync(c, s, front))
  }

  /** A repository with nothing to announce or to act on. */
  predicate Still(c: Config, r: Repo, pc: PC) {
    r.lastCommit == MainHash(c, r) && r.chan == [] && !Sending(pc)
  }

  /** Nothing announced is still to be acted on. */
  predicate Settled(c: Config, s: State) {
    Still(c, s.repo, Holder(s)) && !s.syncing && !s.deleted
  }

  predicate InTx(pc: PC) {
    pc.TxCheckout? || OnBranch(pc) || pc == TxPR || pc == TxRestore || pc == TxResume
  }

  /** A transaction's commit is never the one main is at. */
  ghost predicate TxNotes(c: Config, r: Repo, pc: PC, deleted: bool, published: bool) {
    && (deleted || published ==> InTx(pc))
    && (published || pc.SendingTx? ==> r.lastCommit != MainHash(c, r))
    && (pc.TxPush? ==> pc.hash != MainHash(c, r))
  }

  /** And if all went orderly, a settled index is right. */
  ghost predicate IndexInv(c: Config, s: State, orderly: bool) {
    && MainInv(c, s)
    && TxNotes(c, s.repo, Holder(s), s.deleted, s.published)
    && (orderly && Settled(c, s) ==> s.index == Mappings(c, MainTree(c, s.repo)))
  }

  /** The same after a step of a thread: a transaction's notes begin and end with it. */
  ghost predicate NotesAfter(c: Config, r': Repo, pc': PC, step: Step, deleted: bool, published: bool) {
    var boundary := step.LockTx? || step.UnlockTx?;
    TxNotes(c, r', pc', !boundary && (deleted || step.DeleteObject?), !boundary && (published || step.SendTx?))
  }

  /** Steps outside a transaction's own. */
  lemma TxNotesOutside(
    c: Config, r: Repo, index: Index, pc: PC, step: Step, deleted: bool, published: bool)
    requires AtPoint(r, index, pc, step) && !InTx(AsHolder(pc))
    requires TxNotes(c, r, AsHolder(pc), deleted, published)
    ensures NotesAfter(c, NextRepo(c, r, index, pc, step), AsHolder(NextPC(c, r, pc, step)), step, deleted, published)
  {}

  lemma TxNotesEnd(
    c: Config, r: Repo, index: Index, pc: PC, step: Step, deleted: bool, published: bool)
    requires AtPoint(r, index, pc, step) && step.UnlockTx?
    ensures NotesAfter(c, NextRepo(c, r, index, pc, step), AsHolder(NextPC(c, r, pc, step)), step, deleted, published)
  {}

  /** Steps of a transaction. */
  lemma TxNotesInside(
    c: Config, r: Repo, index: Index, pc: PC, step: Step, deleted: bool, published: bool)
    requires PlaceInv(c, r, pc) && AtPoint(r, index, pc, step) && InTx(pc) && !step.UnlockTx?
    requires TxNotes(c, r, pc, deleted, published)
    ensures NotesAfter(c, NextRepo(c, r, index, pc, step), AsHolder(NextPC(c, r, pc, step)), step, deleted, published)
  {
    HashKept(c, r, index, pc, step);
    OwnNotes(c, r, index, pc, step);
    NotesKept(c, r, NextRepo(c, r, index, pc, step), pc, NextPC(c, r, pc, step), step, deleted, published);
  }

  lemma HashKept(c: Config, r: Repo, index: Index, pc: PC, step: Step)
    requires PlaceInv(c, r, AsHolder(pc)) && AtPoint(r, index, pc, step) && !step.DoFetch?
    ensures MainHash(c, NextRepo(c, r, index, pc, step)) == MainHash(c, r)
  {
    MainKept(c, r, index, pc, step);
  }

  lemma NotesKept(c: Config, r: Repo, r': Repo, pc: PC, pc': PC, step: Step, deleted: bool, published: bool)
    requires Sound(r, c.main) && MainHash(c, r') == MainHash(c, r) && !step.LockTx? && !step.UnlockTx?
    requires TxNotes(c, r, pc, deleted, published) && InTx(pc) && InTx(pc')
    requires r'.lastCommit == r.lastCommit || (pc.TxPush? && r'.lastCommit == pc.hash)
    requires pc'.SendingTx? ==> pc.TxPush? && r'.lastCommit == pc.hash
    requires pc'.TxPush? ==> pc'.hash !in r.trees
    requires step.SendTx? ==> pc.SendingTx? && r'.lastCommit == r.lastCommit
    ensures NotesAfter(c, r', AsHolder(pc'), step, deleted, published)
  {}

  /** In a transaction only a push notes a commit, the one it made, which is fresh. */
  lemma OwnNotes(c: Config, r: Repo, index: Index, pc: PC, step: Step)
    requires AtPoint(r, index, pc, step) && InTx(pc) && !step.UnlockTx?
    ensures !step.LockTx?
    ensures var r', pc' := NextRepo(c, r, index, pc, step), NextPC(c, r, pc, step);
            && !step.DoFetch? && InTx(pc')
            && (r'.lastCommit == r.lastCommit || (pc.TxPush? && r'.lastCommit == pc.hash))
            && (pc'.SendingTx? ==> pc.TxPush? && r'.lastCommit == pc.hash)
            && (pc'.TxPush? ==> pc'.hash !in r.trees)
            && (step.SendTx? ==> pc.SendingTx? && r'.lastCommit == r.lastCommit)
  {}

  /** So for every step of a thread, from what the holder of the lock is before to what it is after. */
  lemma TxNotesStep(
    c: Config, r: Repo, index: Index, pc: PC, step: Step, deleted: bool, published: bool)
    requires PlaceInv(c, r, AsHolder(pc)) && AtPoint(r, index, pc, step)
    requires TxNotes(c, r, AsHolder(pc), deleted, published)
    ensures NotesAfter(c, NextRepo(c, r, index, pc, step), AsHolder(NextPC(c, r, pc, step)), step, deleted, published)
  {
    if InTx(pc) {
      assert AsHolder(pc) == pc;
      if step.UnlockTx? {
        TxNotesEnd(c, r, index, pc, step, deleted, published);
      } else {
        TxNotesInside(c, r, index, pc, step, deleted, published);
      }
    } else {
      TxNotesOutside(c, r, index, pc, step, deleted, published);
    }
  }

  /** The part of the invariant about the transaction under way. */
  lemma TxPart(c: Config, s: State, step: Step, orderly: bool)
    requires IndexInv(c, s, orderly) && Enabled(c, s, step)
    ensures var t := Apply(c, s, step);
            TxNotes(c, t.repo, Holder(t), t.deleted, t.published)
  {
    HolderStep(c, s, step);
    if !step.ReceiveCommit? && !step.Sync? && !Starts(step) {
      TxNotesStep(c, s.repo, s.index, s.threads[step.t], step, s.deleted, s.published);
    }
  }

  /** Receiving unsettles, and an orderly sync sets the index right. */
  lemma SyncPart(c: Config, s: State, step: Step)
    requires Enabled(c, s, step) && (step.ReceiveCommit? || (step.Sync? && Orderly(c, s, step)))
    ensures var t := Apply(c, s, step);
            Settled(c, t) ==> t.index == Mappings(c, MainTree(c, t.repo))
  {}

  /** Main moved to another commit than the one announced last leaves something to announce. */
  lemma FetchUnsettles(c: Config, r: Repo, pulled: Option<Pulled>)
    requires Sound(r, c.main) && r.head == c.main && (pulled.Some? ==> Consistent(r, pulled.value))
    requires pulled.Some? && pulled.value.hash == r.lastCommit ==> MainHash(c, r) == r.lastCommit
    ensures var r' := Fetch(r, pulled);
            && r'.lastCommit == r.lastCommit && r'.chan == r.chan
            && (r'.lastCommit == MainHash(c, r') ==>
                  MainHash(c, r) == r.lastCommit && MainTree(c, r') == MainTree(c, r))
  {}

  /** The last commit changes only on the way into a send, and the channel only by one. */
  lemma NotesOnly(c: Config, r: Repo, index: Index, pc: PC, step: Step)
    requires AtPoint(r, index, pc, step)
    ensures var r', pc' := NextRepo(c, r, index, pc, step), NextPC(c, r, pc, step);
            && (r'.lastCommit != r.lastCommit ==> Sending(pc') && !Sending(pc))
            && (r'.chan == r.chan || r'.chan == r.chan + [r.lastCommit])
            && (Sending(pc) ==> r'.chan != [])
  {}

  /** A thread's step leaves nothing still that was not still before. */
  lemma ThreadStill(c: Config, r: Repo, index: Index, pc: PC, step: Step)
    requires PlaceInv(c, r, AsHolder(pc)) && AtPoint(r, index, pc, step)
    requires step.DoFetch? && step.pulled.Some? && step.pulled.value.hash == r.lastCommit ==>
               MainHash(c, r) == r.lastCommit
    ensures var r', pc' := NextRepo(c, r, index, pc, step), NextPC(c, r, pc, step);
            Still(c, r', AsHolder(pc')) ==> Still(c, r, AsHolder(pc)) && MainTree(c, r') == MainTree(c, r)
  {
    if step.DoFetch? {
      FetchUnsettles(c, r, step.pulled);
    } else {
      MainKept(c, r, index, pc, step);
    }
    NotesOnly(c, r, index, pc, step);
  }

  /** No step of a thread settles anything that was not settled before. */
  lemma ThreadPart(c: Config, s: State, step: Step, orderly: bool)
    requires IndexInv(c, s, orderly) && Enabled(c, s, step) && Orderly(c, s, step)
    requires !step.ReceiveCommit? && !step.Sync?
    ensures var t := Apply(c, s, step);
            Settled(c, t) ==> Settled(c, s) && t.index == s.index && MainTree(c, t.repo) == MainTree(c, s.repo)
  {
    HolderStep(c, s, step);
    if !Starts(step) {
      ThreadStill(c, s.repo, s.index, s.threads[step.t], step);
    }
  }

  lemma IndexStep(c: Config, s: State, step: Step, orderly: bool)
    requires IndexInv(c, s, orderly) && Enabled(c, s, step)
    ensures IndexInv(c, Apply(c, s, step), Orderly(c, s, step) && (step.Sync? || orderly))
  {
    MainStep(c, s, step);
    TxPart(c, s, step, orderly);
    if Orderly(c, s, step) {
      if step.ReceiveCommit? || step.Sync? {
        SyncPart(c, s, step);
      } else {
        ThreadPart(c, s, step, orderly);
      }
    }
  }

  lemma {:induction false} IndexRun(c: Config, s: State, steps: seq<Step>)
    requires Init(c, s) && Run(c, s, steps).Some?
    ensures IndexInv(c, Run(c, s, steps).value, OrderlySinceSync(c, s, steps))
  {
    if steps == [] {
      MainRun(c, s, steps);
    } else {
      var front, last := steps[..|steps| - 1], steps[|steps| - 1];
      IndexRun(c, s, front);
      IndexStep(c, Run(c, s, front).value, last, OrderlySinceSync(c, s, front));
    }
  }

  /** The lock is free, the channel is drained, no sync is pending, and the last announced commit is
      main's head. */
  predicate AtRest(c: Config, s: State) {
    && s.lock == None && s.repo.chan == [] && !s.syncing
    && s.repo.announced != [] && s.repo.announced[|s.repo.announced| - 1] == MainHash(c, s.repo)
  }

  /** At rest the index is what computing it from main's tree gives. */
  ghost predicate RightAtRest(c: Config, s: State) {
    && s.repo.announced != [] && Sound(s.repo, c.main)
    && (AtRest(c, s) ==> s.index == Mappings(c, s.repo.trees[s.repo.branches[c.main]]))
  }

  lemma InvariantsGiveRest(c: Config, s: State)
    requires IndexInv(c, s, true) && AnnounceInv(c, s)
    ensures RightAtRest(c, s)
  {
    if s.lock == None {
      assert Holder(s) == Idle;
    }
  }

  /** So it is after every run that was orderly since its last sync. */
  lemma IndexMatchesMain(c: Config, s: State, steps: seq<Step>)
    requires Init(c, s) && Run(c, s, steps).Some? && OrderlySinceSync(c, s, steps)
    ensures RightAtRest(c, Run(c, s, steps).value)
  {
    IndexRun(c, s, steps);
    AnnounceRun(c, s, steps);
    InvariantsGiveRest(c, Run(c, s, steps).value);
  }

  /** If the keys in main are unique as well, and only then, that index is the exact inverse of main. */
  lemma IndexIsExact(c: Config, s: State, steps: seq<Step>)
    requires Init(c, s) && Run(c, s, steps).Some? && OrderlySinceSync(c, s, steps)
    requires forall tree :: IsWalk(c.walk(tree), tree)
    requires AtRest(c, Run(c, s, steps).value)
    ensures var end := Run(c, s, steps).value;
            Exact(end.index, MainTree(c, end.repo)) <==> UniqueKeys(MainTree(c, end.repo))
  {
    IndexMatchesMain(c, s, steps);
    RestIsExact(c, Run(c, s, steps).value);
  }

  lemma RestIsExact(c: Config, s: State)
    requires RightAtRest(c, s) && AtRest(c, s) && forall tree :: IsWalk(c.walk(tree), tree)
    ensures Exact(s.index, MainTree(c, s.repo)) <==> UniqueKeys(MainTree(c, s.repo))
  {
    var tree := MainTree(c, s.repo);
    WalkIsExact(c.walk(tree), tree);
  }

  // ------------------------------------------------------------------ the index of any run

  /** The tree that the last successful sync saw; None before the first. */
  function SeenTree(c: Config, s: State, steps: seq<Step>): Option<Tree> {
    if steps == [] then None
    else
      var front, last := steps[..|steps| - 1], steps[|steps| - 1];
      if last.Sync? && last.walked && Run(c, s, front).Some? then Some(Run(c, s, front).value.repo.worktree)
      else SeenTree(c, s, front)
  }

  /** The keys whose mappings were removed since. */
  function DeletedSince(steps: seq<Step>): set<ObjectKey> {
    if steps == [] then {}
    else
      match steps[|steps| - 1]
      case Sync(true) => {}
      case DeleteObject(_, key) => DeletedSince(steps[..|steps| - 1]) + {key}
      case _ => DeletedSince(steps[..|steps| - 1])
  }

  /** What the index should be after a run, told by what the syncs saw and what was deleted since. */
  function SeenIndex(c: Config, s: State, steps: seq<Step>): Index {
    (match SeenTree(c, s, steps)
     case None => map[]
     case Some(tree) => Mappings(c, tree)) - DeletedSince(steps)
  }

  /** Only a successful sync and a deletion change the index. */
  lemma IndexAfter(c: Config, s: State, step: Step)
    requires Enabled(c, s, step)
    ensures Apply(c, s, step).index
            == if step.Sync? && step.walked then Mappings(c, s.repo.worktree)
               else if step.DeleteObject? then s.index - {step.key}
               else s.index
  {}

  lemma {:induction false} IndexIsWhatWasSeen(c: Config, s: State, steps: seq<Step>)
    requires Init(c, s) && Run(c, s, steps).Some?
    ensures Run(c, s, steps).value.index == SeenIndex(c, s, steps)
  {
    if steps != [] {
      var front, last := steps[..|steps| - 1], steps[|steps| - 1];
      IndexIsWhatWasSeen(c, s, front);
      IndexAfter(c, Run(c, s, front).value, last);
      SeenAfter(c, s, front, last);
      assert steps == front + [last];
    }
  }

  lemma SeenAfter(c: Config, s: State, front: seq<Step>, last: Step)
    requires Run(c, s, front).Some?
    ensures SeenIndex(c, s, front + [last])
            == if last.Sync? && last.walked then Mappings(c, Run(c, s, front).value.repo.worktree)
               else if last.DeleteObject? then SeenIndex(c, s, front) - {last.key}
               else SeenIndex(c, s, front)
  {
    assert (front + [last])[..|front|] == front;
    if last.Sync? && last.walked {
      var all := Mappings(c, Run(c, s, front).value.repo.worktree);
      assert all - {} == all;
    } else if last.DeleteObject? {
      var before := match SeenTree(c, s, front) case None => map[] case Some(tree) => Mappings(c, tree);
      LessAndLess(before, DeletedSince(front), {last.key});
    }
  }

  /** After any run, orderly or not: the index is right for main if and only if the tree that the last
      successful sync saw, without the keys deleted since, has main's mappings. */
  lemma RightIffSeen(c: Config, s: State, steps: seq<Step>)
    requires Init(c, s) && Run(c, s, steps).Some?
    ensures var end := Run(c, s, steps).value;
            end.index == Mappings(c, MainTree(c, end.repo))
            <==> SeenIndex(c, s, steps) == Mappings(c, MainTree(c, end.repo))
  {
    IndexIsWhatWasSeen(c, s, steps);
  }

  // ------------------------------------------------------------------ one transaction by itself

  /** The keys whose mappings are removed over a list of steps. */
  function Removed(steps: seq<Step>): set<ObjectKey> {
    if steps == [] then {}
    else Removed(steps[..|steps| - 1]) + if steps[|steps| - 1].DeleteObject? then {steps[|steps| - 1].key} else {}
  }

  /** Since `before`, thread `t` alone has used the repository, and it removed the mappings of `gone`. */
  ghost predicate Untouched(c: Config, before: State, s: State, t: nat, gone: set<ObjectKey>) {
    && MainInv(c, s) && t < |s.threads|
    && (s.lock == Some(t) || (s.lock == None && (s.threads[t].TxWait? || s.threads[t] == Idle)))
    && (InTx(s.threads[t]) || s.threads[t].PullExit? || s.threads[t].TxWait? || s.threads[t] == Idle)
    && gone <= before.index.Keys && s.index == before.index - gone
    && MainHash(c, s.repo) == MainHash(c, before.repo) && MainTree(c, s.repo) == MainTree(c, before.repo)
  }

  /** No sync, no new start by `t`, and the others do not get the lock. */
  predicate Undisturbed(step: Step, t: nat) {
    && !step.Sync?
    && (step.LockPull? || step.LockTx? ==> step.t == t)
    && (Starts(step) ==> step.t != t)
  }

  /** The thread's own points, from the exit of its Pull to the end of its transaction. */
  lemma OwnStep(c: Config, r: Repo, pc: PC, index: Index, step: Step)
    requires AtPoint(r, index, pc, step) && !Starts(step)
    requires InTx(pc) || pc.PullExit? || pc.TxWait? || pc == Idle
    ensures !step.DoFetch?
    ensures var pc' := NextPC(c, r, pc, step);
            InTx(pc') || pc'.TxWait? || pc' == Idle
  {}

  /** A step of another thread changes nothing the transaction is about. */
  lemma OthersStep(c: Config, s: State, step: Step, t: nat)
    requires MainInv(c, s) && t < |s.threads| && Enabled(c, s, step) && Undisturbed(step, t)
    requires s.lock == Some(t) || s.lock == None
    requires step.ReceiveCommit? || step.t != t
    ensures var s' := Apply(c, s, step);
            && s'.threads[t] == s.threads[t] && s'.lock == s.lock && s'.index == s.index
            && MainHash(c, s'.repo) == MainHash(c, s.repo) && MainTree(c, s'.repo) == MainTree(c, s.repo)
            && !step.DeleteObject?
  {
    if !step.ReceiveCommit? {
      assert !Holds(s.threads[step.t]);
      QuietStep(c, s, step);
      assert Starts(step);
    }
  }

  /** A step of its own removes the mapping it says, and leaves main alone. */
  lemma OwnStepKeeps(c: Config, s: State, step: Step, t: nat)
    requires MainInv(c, s) && t < |s.threads| && Enabled(c, s, step) && Undisturbed(step, t)
    requires !step.ReceiveCommit? && step.t == t
    requires s.lock == Some(t) || s.lock == None
    requires InTx(s.threads[t]) || s.threads[t].PullExit? || s.threads[t].TxWait? || s.threads[t] == Idle
    ensures var s' := Apply(c, s, step);
            && (InTx(s'.threads[t]) || s'.threads[t].TxWait? || s'.threads[t] == Idle)
            && (s'.lock == Some(t) || (s'.lock == None && (s'.threads[t].TxWait? || s'.threads[t] == Idle)))
            && s'.index == s.index - (if step.DeleteObject? then {step.key} else {})
            && (step.DeleteObject? ==> step.key in s.index)
            && MainHash(c, s'.repo) == MainHash(c, s.repo) && MainTree(c, s'.repo) == MainTree(c, s.repo)
  {
    LockMoves(c, s, step);
    OwnStep(c, s.repo, s.threads[t], s.index, step);
    HolderStep(c, s, step);
    MainKept(c, s.repo, s.index, s.threads[t], step);
    LockStep(c, s, step);
  }

  lemma UntouchedStep(c: Config, before: State, s: State, step: Step, t: nat, gone: set<ObjectKey>)
    requires Untouched(c, before, s, t, gone) && Enabled(c, s, step) && Undisturbed(step, t)
    ensures Untouched(c, before, Apply(c, s, step), t, gone + if step.DeleteObject? then {step.key} else {})
  {
    MainStep(c, s, step);
    if step.ReceiveCommit? || step.t != t {
      OthersStep(c, s, step, t);
      assert gone + {} == gone;
    } else {
      OwnStepKeeps(c, s, step, t);
      LessAndLess(before.index, gone, if step.DeleteObject? then {step.key} else {});
    }
  }

  lemma LessAndLess(index: Index, gone: set<ObjectKey>, more: set<ObjectKey>)
    ensures (index - gone) - more == index - (gone + more)
  {}

  lemma {:induction false} UntouchedRun(c: Config, s: State, steps: seq<Step>, t: nat)
    requires Untouched(c, s, s, t, {}) && Run(c, s, steps).Some?
    requires forall step | step in steps :: Undisturbed(step, t)
    ensures Untouched(c, s, Run(c, s, steps).value, t, Removed(steps))
  {
    if steps != [] {
      var front, last := steps[..|steps| - 1], steps[|steps| - 1];
      assert last in steps && forall step | step in front :: step in steps;
      UntouchedRun(c, s, front, t);
      UntouchedStep(c, s, Run(c, s, front).value, last, t, Removed(front));
    }
  }

  /**
   From the end of a transaction's initial Pull to the end of the transaction, committed or
   aborted: main is where it was, and the files of the worktree are again those the Pull
   produced. The index loses exactly the mappings the transaction removed; so it is the one the
   Pull left if and only if the function did nothing but read, create, update and patch.
   */
  lemma TransactionLeavesMain(c: Config, s: State, steps: seq<Step>, t: nat)
    requires MainInv(c, s) && t < |s.threads| && s.lock == Some(t) && s.threads[t].PullExit? && s.threads[t].k.ForTx?
    requires Run(c, s, steps).Some? && t < |Run(c, s, steps).value.threads|
    requires Run(c, s, steps).value.threads[t] == Idle
    requires forall step | step in steps :: Undisturbed(step, t)
    ensures var end := Run(c, s, steps).value;
            && MainHash(c, end.repo) == MainHash(c, s.repo)
            && end.repo.worktree == s.repo.worktree && OnMainClean(end.repo, c.main)
            && end.index == s.index - Removed(steps)
            && (end.index == s.index <==> Removed(steps) == {})
  {
    UntouchedRun(c, s, steps, t);
    var end := Run(c, s, steps).value;
    assert Holder(s) == s.threads[t];
    assert end.lock == None;
    if k :| k in Removed(steps) {
      assert k in s.index && k !in end.index;
    }
  }

  // ------------------------------------------------------------------ the transaction under its lock

  lemma {:induction false} HeldRun(c: Config, s: State, steps: seq<Step>, t: nat)
    requires Untouched(c, s, s, t, {}) && s.lock == Some(t) && InTx(s.threads[t]) && Run(c, s, steps).Some?
    requires forall step | step in steps :: !step.Sync? && step != UnlockTx(t)
    ensures var end := Run(c, s, steps).value;
            Untouched(c, s, end, t, Removed(steps)) && end.lock == Some(t) && InTx(end.threads[t])
  {
    if steps != [] {
      var front, last := steps[..|steps| - 1], steps[|steps| - 1];
      assert last in steps && forall step | step in front :: step in steps;
      HeldRun(c, s, front, t);
      var mid := Run(c, s, front).value;
      HeldStep(c, mid, last, t);
      UntouchedStep(c, s, mid, last, t, Removed(front));
    }
  }

  /** While a thread holds the lock, no other takes it, and it starts nothing else. */
  lemma HeldStep(c: Config, s: State, step: Step, t: nat)
    requires LockInv(s) && s.lock == Some(t) && InTx(s.threads[t])
    requires Enabled(c, s, step) && !step.Sync? && step != UnlockTx(t)
    ensures Undisturbed(step, t)
    ensures Apply(c, s, step).lock == Some(t) && InTx(Apply(c, s, step).threads[t])
  {
    LockStep(c, s, step);
    if !step.ReceiveCommit? {
      LockMoves(c, s, step);
      if step.t == t {
        OwnStep(c, s.repo, s.threads[t], s.index, step);
      }
    }
  }

  /** From Suspend to Resume, whatever other threads do: the same, with no sync in between. */
  lemma LockedTransactionLeavesMain(c: Config, s: State, steps: seq<Step>, t: nat)
    requires MainInv(c, s) && t < |s.threads| && s.lock == Some(t) && s.threads[t].TxCheckout?
    requires Run(c, s, steps + [UnlockTx(t)]).Some?
    requires forall step | step in steps :: !step.Sync? && step != UnlockTx(t)
    ensures var end := Run(c, s, steps + [UnlockTx(t)]).value;
            && MainHash(c, end.repo) == MainHash(c, s.repo)
            && end.repo.worktree == s.repo.worktree && OnMainClean(end.repo, c.main)
            && end.index == s.index - Removed(steps)
            && (end.index == s.index <==> Removed(steps) == {})
  {
    var all := steps + [UnlockTx(t)];
    assert all[..|all| - 1] == steps;
    HeldRun(c, s, steps, t);
    var mid, end := Run(c, s, steps).value, Run(c, s, all).value;
    UntouchedStep(c, s, mid, UnlockTx(t), t, Removed(steps));
    assert Holder(s) == s.threads[t];
    assert end.lock == None;
    if k :| k in Removed(steps) {
      assert k in s.index && k !in end.index;
    }
  }

  // ------------------------------------------------------------------ what the environment must keep to

  predicate Takes(c: Config, s: State, step: Step, s': State) {
    Enabled(c, s, step) && Apply(c, s, step) == s'
  }

  lemma RunSnoc(c: Config, s: State, steps: seq<Step>, step: Step)
    ensures Run(c, s, steps + [step]) == Advance(c, Run(c, s, steps), step)
  {
    assert (steps + [step])[..|steps|] == steps;
  }

  lemma RunThree(c: Config, s: State, s1: State, s2: State, s3: State, a: Step, b: Step, d: Step)
    requires Takes(c, s, a, s1) && Takes(c, s1, b, s2) && Takes(c, s2, d, s3)
    ensures Run(c, s, [a, b, d]) == Some(s3)
  {
    RunSnoc(c, s, [], a);
    RunSnoc(c, s, [a], b);
    RunSnoc(c, s, [a, b], d);
    assert [] + [a] == [a] && [a] + [b] == [a, b] && [a, b] + [d] == [a, b, d];
  }

  lemma SnocOfConcat<T>(a: seq<T>, b: seq<T>, x: T)
    ensures a + (b + [x]) == (a + b) + [x]
  {}

  lemma RunConcatStep(c: Config, s: State, steps: seq<Step>, m: State, front: seq<Step>, last: Step)
    requires Run(c, s, steps + front) == Run(c, m, front)
    ensures Run(c, s, steps + (front + [last])) == Run(c, m, front + [last])
  {
    SnocOfConcat(steps, front, last);
    RunSnoc(c, s, steps + front, last);
    RunSnoc(c, m, front, last);
  }

  lemma LastOf<T>(list: seq<T>)
    requires list != []
    ensures list == list[..|list| - 1] + [list[|list| - 1]]
  {}

  lemma {:induction false} RunConcat(c: Config, s: State, steps: seq<Step>, m: State, more: seq<Step>)
    requires Run(c, s, steps) == Some(m)
    ensures Run(c, s, steps + more) == Run(c, m, more)
    decreases |more|
  {
    if more == [] {
      assert steps + more == steps;
    } else {
      LastOf(more);
      RunConcat(c, s, steps, m, more[..|more| - 1]);
      RunConcatStep(c, s, steps, m, more[..|more| - 1], more[|more| - 1]);
    }
  }

  /** The steps lead from one state to the other. */
  ghost predicate Leads(c: Config, s: State, steps: seq<Step>, s': State) {
    Run(c, s, steps) == Some(s')
  }

  lemma LeadsThen(c: Config, s: State, steps: seq<Step>, m: State, more: seq<Step>, s': State)
    requires Leads(c, s, steps, m) && Leads(c, m, more, s')
    ensures Leads(c, s, steps + more, s')
  {
    RunConcat(c, s, steps, m, more);
  }

  lemma FetchNow(c: Config, s: State, t: nat, pulled: Pulled) returns (s': State)
    requires MainInv(c, s) && t < |s.threads| && s.lock == Some(t) && s.threads[t] == Pulling(Background)
    requires Consistent(s.repo, pulled)
    ensures Takes(c, s, DoFetch(t, Some(pulled), Ok), s')
    ensures s' == s.(repo := Fetch(s.repo, Some(pulled)), threads := s.threads[t := Comparing(Background)])
    ensures s'.repo.head == c.main && c.main in s'.repo.branches
  {
    assert Holder(s) == s.threads[t];
    s' := Apply(c, s, DoFetch(t, Some(pulled), Ok));
  }

  lemma CompareNow(c: Config, s: State, t: nat) returns (s': State)
    requires t < |s.threads| && s.threads[t] == Comparing(Background) && s.repo.head in s.repo.branches
    ensures Takes(c, s, Compare(t, true), s')
    ensures var hash := s.repo.branches[s.repo.head];
            s' == s.(repo := Note(s.repo, hash), threads := s.threads[t :=
                       if hash != s.repo.lastCommit then SendingPull(Background) else PullExit(Background, true, true)])
  {
    s' := Apply(c, s, Compare(t, true));
  }

  lemma FetchAndCompare(c: Config, s: State, t: nat, pulled: Pulled) returns (s1: State, s2: State)
    requires MainInv(c, s) && t < |s.threads| && s.lock == Some(t) && s.threads[t] == Pulling(Background)
    requires Consistent(s.repo, pulled)
    ensures Takes(c, s, DoFetch(t, Some(pulled), Ok), s1) && Takes(c, s1, Compare(t, true), s2)
    ensures var news := pulled.hash != s.repo.lastCommit;
            && MainTree(c, s2.repo) == pulled.tree && MainHash(c, s2.repo) == pulled.hash
            && s2.repo.worktree == pulled.tree && s2.repo.chan == s.repo.chan && s2.repo.lastCommit == pulled.hash
            && s2 == s.(repo := s2.repo, threads := s.threads[t :=
                        if news then SendingPull(Background) else PullExit(Background, true, true)])
  {
    s1 := FetchNow(c, s, t, pulled);
    s2 := CompareNow(c, s1, t);
    assert s.threads[t := Comparing(Background)][t := s2.threads[t]] == s.threads[t := s2.threads[t]];
  }

  lemma SendNoted(c: Config, s: State, t: nat) returns (s': State)
    requires t < |s.threads| && s.threads[t] == SendingPull(Background) && s.repo.chan == [] && 0 < c.capacity
    ensures Takes(c, s, SendPull(t), s')
    ensures s' == s.(repo := s'.repo, threads := s.threads[t := PullExit(Background, true, true)])
    ensures s'.repo == s.repo.(announced := s'.repo.announced, chan := [s.repo.lastCommit])
  {
    s' := Apply(c, s, SendPull(t));
  }

  lemma ReceiveAndSync(c: Config, s: State, hash: Hash) returns (s1: State, s2: State)
    requires s.repo.chan == [hash] && !s.syncing
    ensures Takes(c, s, ReceiveCommit, s1) && Takes(c, s1, Sync(true), s2)
    ensures s2 == s.(repo := s.repo.(chan := []), index := Mappings(c, s.repo.worktree), deleted := false)
  {
    s1 := Apply(c, s, ReceiveCommit);
    s2 := Apply(c, s1, Sync(true));
  }

  lemma UnlockAfterPull(c: Config, s: State, t: nat) returns (s': State)
    requires t < |s.threads| && s.threads[t] == PullExit(Background, true, true)
    ensures Takes(c, s, UnlockPull(t), s')
    ensures s' == s.(lock := None, threads := s.threads[t := Idle])
  {
    s' := Apply(c, s, UnlockPull(t));
  }

  /** What runs until a Pull of a new main has been acted on: nothing is announced if it is the commit
      announced last, such as a transaction's own once merged. */
  function PullSteps(t: nat, pulled: Pulled, lastCommit: Hash): seq<Step> {
    if pulled.hash == lastCommit then [DoFetch(t, Some(pulled), Ok), Compare(t, true), UnlockPull(t)]
    else [DoFetch(t, Some(pulled), Ok), Compare(t, true), SendPull(t), ReceiveCommit, Sync(true), UnlockPull(t)]
  }

  lemma QuietPull(c: Config, s: State, t: nat, pulled: Pulled) returns (end: State)
    requires MainInv(c, s) && t < |s.threads| && s.lock == Some(t) && s.threads[t] == Pulling(Background)
    requires Consistent(s.repo, pulled) && s.repo.chan == [] && !s.syncing && !s.deleted
    requires pulled.hash == s.repo.lastCommit
    ensures Run(c, s, PullSteps(t, pulled, s.repo.lastCommit)) == Some(end)
    ensures end.lock == None && Settled(c, end) && MainTree(c, end.repo) == pulled.tree && end.index == s.index
  {
    var s1, s2 := FetchAndCompare(c, s, t, pulled);
    end := UnlockAfterPull(c, s2, t);
    RunThree(c, s, s1, s2, end, DoFetch(t, Some(pulled), Ok), Compare(t, true), UnlockPull(t));
    SettledAfterPull(c, s2, end);
  }

  lemma PullUpToSend(c: Config, s: State, t: nat, pulled: Pulled) returns (s': State)
    requires MainInv(c, s) && t < |s.threads| && s.lock == Some(t) && s.threads[t] == Pulling(Background)
    requires Consistent(s.repo, pulled) && s.repo.chan == [] && 0 < c.capacity && pulled.hash != s.repo.lastCommit
    ensures Run(c, s, [DoFetch(t, Some(pulled), Ok), Compare(t, true), SendPull(t)]) == Some(s')
    ensures s' == s.(repo := s'.repo, threads := s.threads[t := PullExit(Background, true, true)])
    ensures MainTree(c, s'.repo) == pulled.tree && MainHash(c, s'.repo) == pulled.hash
    ensures s'.repo.worktree == pulled.tree && s'.repo.chan == [pulled.hash] && s'.repo.lastCommit == pulled.hash
  {
    var s1, s2 := FetchAndCompare(c, s, t, pulled);
    s' := SendNoted(c, s2, t);
    RunThree(c, s, s1, s2, s', DoFetch(t, Some(pulled), Ok), Compare(t, true), SendPull(t));
  }

  lemma AnnouncedPull(c: Config, s: State, t: nat, pulled: Pulled) returns (end: State)
    requires MainInv(c, s) && t < |s.threads| && s.lock == Some(t) && s.threads[t] == Pulling(Background)
    requires Consistent(s.repo, pulled) && s.repo.chan == [] && !s.syncing && !s.deleted && 0 < c.capacity
    requires pulled.hash != s.repo.lastCommit
    ensures Run(c, s, PullSteps(t, pulled, s.repo.lastCommit)) == Some(end)
    ensures end.lock == None && Settled(c, end) && MainTree(c, end.repo) == pulled.tree
    ensures end.index == Mappings(c, pulled.tree)
  {
    var s3 := PullUpToSend(c, s, t, pulled);
    end := SyncAndUnlock(c, s3, t, pulled.hash);
    var first := [DoFetch(t, Some(pulled), Ok), Compare(t, true), SendPull(t)];
    var second := [ReceiveCommit, Sync(true), UnlockPull(t)];
    LeadsThen(c, s, first, s3, second, end);
    assert PullSteps(t, pulled, s.repo.lastCommit) == first + second;
  }

  lemma SyncAndUnlock(c: Config, s: State, t: nat, hash: Hash) returns (end: State)
    requires t < |s.threads| && s.threads[t] == PullExit(Background, true, true)
    requires s.repo.chan == [hash] && !s.syncing && !s.deleted && s.repo.lastCommit == MainHash(c, s.repo)
    ensures Leads(c, s, [ReceiveCommit, Sync(true), UnlockPull(t)], end)
    ensures end.lock == None && Settled(c, end) && MainTree(c, end.repo) == MainTree(c, s.repo)
    ensures end.index == Mappings(c, s.repo.worktree)
  {
    var s1, s2 := ReceiveAndSync(c, s, hash);
    end := UnlockAfterPull(c, s2, t);
    RunThree(c, s, s1, s2, end, ReceiveCommit, Sync(true), UnlockPull(t));
    SettledAfterPull(c, s2, end);
  }

  lemma SettledAfterPull(c: Config, s: State, end: State)
    requires s.repo.lastCommit == MainHash(c, s.repo) && s.repo.chan == []
    requires !s.syncing && !s.deleted && end.lock == None
    requires end == s.(lock := None, threads := end.threads)
    ensures Settled(c, end) && MainTree(c, end.repo) == MainTree(c, s.repo)
  {}

  /** Once a Pull has been acted on, with the index right before, it is right for the new main if and
      only if the commit pulled is not the one announced last, or the two trees have the same mappings. */
  lemma PullKeepsIndexRight(c: Config, s: State, t: nat, pulled: Pulled)
    requires MainInv(c, s) && t < |s.threads| && s.lock == Some(t) && s.threads[t] == Pulling(Background)
    requires Consistent(s.repo, pulled) && s.repo.chan == [] && !s.syncing && !s.deleted && 0 < c.capacity
    requires s.index == Mappings(c, MainTree(c, s.repo))
    ensures var run := Run(c, s, PullSteps(t, pulled, s.repo.lastCommit));
            && run.Some? && run.value.lock == None && Settled(c, run.value)
            && MainTree(c, run.value.repo) == pulled.tree
            && (run.value.index == Mappings(c, MainTree(c, run.value.repo)) <==>
                || pulled.hash != s.repo.lastCommit
                || Mappings(c, MainTree(c, s.repo)) == Mappings(c, pulled.tree))
  {
    if pulled.hash == s.repo.lastCommit {
      var end := QuietPull(c, s, t, pulled);
    } else {
      var end := AnnouncedPull(c, s, t, pulled);
    }
  }

  /** A sync while a transaction has the worktree on its branch, and the transaction then fails. */
  function AbortSteps(t: nat): seq<Step> {
    [Sync(true), EndFunction(t, false), Restore(t), UnlockTx(t)]
  }

  /** Nothing repairs the index after that: all is at rest, and it is right if and only if the worktree
      the sync saw had the same mappings as main. */
  lemma SyncOnBranch(c: Config, s: State, t: nat)
    requires MainInv(c, s) && t < |s.threads| && s.lock == Some(t) && s.threads[t].TxBody?
    requires s.syncing && s.repo.chan == []
    requires s.repo.announced != [] && s.repo.announced[|s.repo.announced| - 1] == MainHash(c, s.repo)
    ensures var run := Run(c, s, AbortSteps(t));
            && run.Some? && AtRest(c, run.value) && MainTree(c, run.value.repo) == MainTree(c, s.repo)
            && (run.value.index == Mappings(c, MainTree(c, run.value.repo)) <==>
                Mappings(c, s.repo.worktree) == Mappings(c, MainTree(c, s.repo)))
  {
    var end := AbortRuns(c, s, t);
  }

  lemma AbortRuns(c: Config, s: State, t: nat) returns (end: State)
    requires MainInv(c, s) && t < |s.threads| && s.lock == Some(t) && s.threads[t].TxBody? && s.syncing
    ensures Run(c, s, AbortSteps(t)) == Some(end)
    ensures end.lock == None && !end.syncing && end.index == Mappings(c, s.repo.worktree)
    ensures end.repo == s.repo.(head := end.repo.head, worktree := end.repo.worktree)
  {
    var s1 := SyncNow(c, s);
    var s2, s3 := FailAndRestore(c, s1, t);
    end := UnlockAfterTx(c, s3, t);
    RunThree(c, s, s1, s2, s3, Sync(true), EndFunction(t, false), Restore(t));
    RunSnoc(c, s, [Sync(true), EndFunction(t, false), Restore(t)], UnlockTx(t));
    assert AbortSteps(t) == [Sync(true), EndFunction(t, false), Restore(t)] + [UnlockTx(t)];
  }

  lemma SyncNow(c: Config, s: State) returns (s': State)
    requires s.syncing
    ensures Takes(c, s, Sync(true), s')
    ensures s' == s.(index := Mappings(c, s.repo.worktree), syncing := false, deleted := false)
  {
    s' := Apply(c, s, Sync(true));
  }

  lemma FailAndRestore(c: Config, s: State, t: nat) returns (s1: State, s2: State)
    requires t < |s.threads| && s.threads[t].TxBody?
    ensures Takes(c, s, EndFunction(t, false), s1) && Takes(c, s1, Restore(t), s2)
    ensures s2 == s.(repo := s2.repo, threads := s.threads[t := TxResume])
    ensures s2.repo == s.repo.(head := s2.repo.head, worktree := s2.repo.worktree)
  {
    s1 := Apply(c, s, EndFunction(t, false));
    s2 := Apply(c, s1, Restore(t));
    assert s.threads[t := TxRestore][t := TxResume] == s.threads[t := TxResume];
  }

  lemma UnlockAfterTx(c: Config, s: State, t: nat) returns (s': State)
    requires t < |s.threads| && s.threads[t] == TxResume
    ensures Takes(c, s, UnlockTx(t), s')
    ensures s' == s.(lock := None, threads := s.threads[t := Idle], deleted := false, published := false)
  {
    s' := Apply(c, s, UnlockTx(t));
  }
}
