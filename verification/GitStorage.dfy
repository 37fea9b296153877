/** pkg/storage/transaction/git.go: the storage over a clone, called by one thread at a time. */
module GitStorage {
  import opened Common
  import opened PathIndex
  import opened MappedStorage
  import opened ObjectStorage
  import opened GitRepo

  /** How a transaction's function ends: an error, a result that is not valid, or a result that asks
      for a commit only or for a pull request as well. */
  datatype FunctionEnd = FunctionFailed | InvalidResult | CommitOnly | WithPullRequest(created: bool)

  /** What becomes of the commit of the worktree as it then is: `staged` are the paths it covers. */
  datatype CommitPlan = StatusFails | CommitFails | Commits(hash: Hash, staged: set<string>)

  function ResultOf(commit: CommitPlan, worktree: Tree): CommitResult {
    match commit
    case StatusFails => StatusFailed
    case CommitFails => CommitFailed
    case Commits(hash, staged) => Committed(hash, map p | p in worktree && p in staged :: worktree[p])
  }

  /** What the environment and the function do during a transaction. */
  datatype Plan = Plan(
    pulled: Option<Pulled>, pullContext: Option<Verdict>, pullOwn: Verdict, headOk: bool, pullWanted: nat,
    checkout: CheckoutResult,
    ops: seq<Op>, end: FunctionEnd, commit: CommitPlan,
    pushContext: Option<Verdict>, pushOwn: Verdict, pushWanted: nat)

  /** The push is reported as done or as cancelled. */
  predicate Pushed(plan: Plan) {
    WithTimeout(plan.pushContext, plan.pushOwn) == Ok || WithTimeout(plan.pushContext, plan.pushOwn) == Cancelled
  }

  /** A worktree as it was needs no commit, only its status; any other is to be committed and pushed. */
  predicate Commitable(plan: Plan, clean: bool) {
    if clean then !plan.commit.StatusFails? else plan.commit.Commits? && Pushed(plan)
  }

  /** A Pull that gets to comparing, or is cancelled. */
  predicate PullSucceeds(plan: Plan) {
    var verdict := WithTimeout(plan.pullContext, plan.pullOwn);
    (verdict == Ok && plan.headOk) || verdict == Cancelled
  }

  /** No path but those staged, and at each of these just what the worktree has there, or nothing. */
  ghost predicate HoldsStaged(tree: Tree, staged: set<string>, worktree: Tree) {
    && tree.Keys <= staged
    && forall p | p in staged :: (p in tree <==> p in worktree) && (p in tree ==> tree[p] == worktree[p])
  }

  /** So on a path staged the commit holds what the operation put there that was the last to change it. */
  lemma CommittedAsPut(
    s: Stores, ops: seq<Op>, tree: Tree, staged: set<string>, path: string, content: Content)
    requires HoldsStaged(tree, staged, DoAll(s, ops).files) && path in staged
    ensures path in tree && tree[path] == content
            <==> || (exists i: nat :: PutLast(s, ops, path, content, i))
                 || (path in s.files && s.files[path] == content && LeftAlone(s, ops, path, 0))
  {
    FilesAfter(s, ops, path, content);
  }

  predicate IsContext(context: Option<Verdict>) {
    context.Some? ==> context.value == TimedOut || context.value == Cancelled
  }

  class TransactionStorage {
    const gitDir: GitDirectory
    const raw: MappedRawStorage
    const s: GenericStorage
    const hasProvider: bool

    ghost predicate Valid()
      reads this, gitDir, gitDir.disk
    {
      s.raw == raw && raw.disk == gitDir.disk && gitDir.Valid()
    }

    /** The function succeeds, and any pull request asked for can be and is made. */
    predicate Finishes(end: FunctionEnd) {
      end.CommitOnly? || (end == WithPullRequest(true) && hasProvider)
    }

    /** The branch is at the commit, which holds of the worktree what was staged. */
    ghost predicate Landed(branch: string, commit: CommitPlan, worktree: Tree)
      reads gitDir
    {
      && commit.Commits? && branch in gitDir.branches && gitDir.branches[branch] == commit.hash
      && commit.hash in gitDir.trees && HoldsStaged(gitDir.trees[commit.hash], commit.staged, worktree)
    }

    constructor (gitDir: GitDirectory, hasProvider: bool)
      requires gitDir.Valid()
      ensures Valid() && this.gitDir == gitDir && this.hasProvider == hasProvider
      ensures fresh(raw) && raw.fileMappings == map[]
    {
      this.gitDir, this.hasProvider := gitDir, hasProvider;
      var mapped := new MappedRawStorage(gitDir.disk);
      raw := mapped;
      s := new GenericStorage(mapped);
    }

    /** Clones, unless that was done before, and computes the first index; no storage if either fails. */
    static method NewGitStorage(
      gitDir: GitDirectory, hasProvider: bool,
      cloned: Pulled, files: Tree, context: Option<Verdict>, own: Verdict, headOk: bool, wanted: nat,
      walk: Tree -> seq<string>, walked: bool)
      returns (storage: TransactionStorage?)
      requires gitDir.Valid() && cloned.hash != NO_COMMIT && IsContext(context)
      requires forall tree :: IsWalk(walk(tree), tree)
      modifies gitDir, gitDir.disk
      ensures gitDir.Valid()
      ensures storage != null <==>
                && walked
                && (old(gitDir.started)
                    || (if context.Some? then context.value == Cancelled
                        else own == Cancelled || (own == Ok && headOk)))
      ensures storage != null ==>
                && fresh(storage) && fresh(storage.raw) && storage.Valid() && storage.gitDir == gitDir
                && storage.hasProvider == hasProvider
                && storage.raw.fileMappings == MappingsOf(walk(gitDir.disk.files), gitDir.disk.files)
    {
      var err := gitDir.StartCheckoutLoop(cloned, files, context, own, headOk, wanted);
      if err != None {
        return null;
      }
      var s := new TransactionStorage(gitDir, hasProvider);
      var ok := s.Sync(walk(gitDir.disk.files), walked);
      return if ok then s else null;
    }

    /** The mappings of all files found by a walk; files that do not decode are skipped. */
    method ComputeMappings(files: seq<string>) returns (m: Index)
      requires IsWalk(files, gitDir.disk.files)
      ensures m == MappingsOf(files, gitDir.disk.files)
      ensures Exact(m, gitDir.disk.files) <==> UniqueKeys(gitDir.disk.files)
    {
      m := map[];
      for i := 0 to |files|
        invariant m == MappingsOf(files[..i], gitDir.disk.files)
      {
        assert files[..i + 1][..i] == files[..i];
        assert files[i] in files;
        var content := gitDir.disk.files[files[i]];
        if content.Malformed? {
          continue;
        }
        m := m[content.key := files[i]];
      }
      assert files[..|files|] == files;
      WalkIsExact(files, gitDir.disk.files);
    }

    /** Replaces the index by the one computed from the worktree; a failed walk changes nothing. */
    method Sync(files: seq<string>, walked: bool) returns (ok: bool)
      requires Valid() && (walked ==> IsWalk(files, gitDir.disk.files))
      modifies raw
      ensures ok == walked
      ensures raw.fileMappings == if ok then MappingsOf(files, gitDir.disk.files) else old(raw.fileMappings)
    {
      if !walked {
        return false;
      }
      var mappings := ComputeMappings(files);
      raw.SetMappings(mappings);
      return true;
    }

    /** One round of the sync loop: a commit is received, then the index recomputed. */
    method SyncOnce(files: seq<string>, walked: bool)
      requires Valid() && gitDir.chan != [] && (walked ==> IsWalk(files, gitDir.disk.files))
      modifies raw, gitDir`chan
      ensures Valid() && gitDir.chan == old(gitDir.chan)[1..]
      ensures raw.fileMappings == if walked then MappingsOf(files, gitDir.disk.files) else old(raw.fileMappings)
    {
      gitDir.chan := gitDir.chan[1..];
      var ok := Sync(files, walked);
    }

    /** What runs between checking out the branch and the deferred restore. */
    method InBranch(branch: string, plan: Plan) returns (ok: bool)
      requires Valid() && gitDir.locked && branch != gitDir.main && gitDir.head == branch
      requires gitDir.started && gitDir.canWrite
      requires plan.commit.Commits? ==> plan.commit.hash !in gitDir.trees
      requires IsContext(plan.pushContext)
      modifies gitDir, gitDir.disk, raw
      ensures Valid() && gitDir.locked && gitDir.started
      ensures forall h | h in old(gitDir.trees) :: h in gitDir.trees && gitDir.trees[h] == old(gitDir.trees)[h]
      ensures Stores(raw.fileMappings, gitDir.disk.files)
              == DoAll(Stores(old(raw.fileMappings), old(gitDir.disk.files)), plan.ops)
      ensures plan.end.FunctionFailed? || plan.end.InvalidResult? ==> !ok
      ensures ok <==>
                && Finishes(plan.end)
                && Commitable(plan, gitDir.disk.files == old(gitDir.trees[gitDir.branches[branch]]))
      ensures var commits := && !plan.end.FunctionFailed? && !plan.end.InvalidResult? && plan.commit.Commits?
                             && gitDir.disk.files != old(gitDir.trees[gitDir.branches[branch]]);
              if commits
              then && Landed(branch, plan.commit, gitDir.disk.files)
                   && gitDir.announced == old(gitDir.announced) + if plan.pushContext == None && plan.pushOwn == Ok
                                                                  then [plan.commit.hash] else []
              else && gitDir.branches == old(gitDir.branches) && gitDir.trees == old(gitDir.trees)
                   && gitDir.announced == old(gitDir.announced)
      ensures forall b | b in old(gitDir.branches) && b != branch ::
                b in gitDir.branches && gitDir.branches[b] == old(gitDir.branches)[b]
    {
      s.Perform(plan.ops);
      if plan.end.FunctionFailed? || plan.end.InvalidResult? {
        return false;
      }
      var commit := ResultOf(plan.commit, gitDir.disk.files);
      var err := gitDir.Commit(commit, plan.pushContext, plan.pushOwn, plan.pushWanted);
      if err != None {
        return false;
      }
      match plan.end {
        case WithPullRequest(created) => ok := hasProvider && created;
        case _ => ok := true;
      }
    }

    /** What runs while the lock is held, up to the deferred restore. */
    method CheckoutAndRun(branch: string, plan: Plan) returns (ok: bool)
      requires Valid() && gitDir.locked && gitDir.head == gitDir.main && gitDir.started
      requires plan.commit.Commits? ==> plan.commit.hash !in gitDir.trees
      requires IsContext(plan.pushContext)
      modifies gitDir, gitDir.disk, raw
      ensures Valid() && gitDir.locked && gitDir.started
      ensures !gitDir.canWrite ==> !ok && gitDir.State() == old(gitDir.State())
      ensures forall h | h in old(gitDir.trees) :: h in gitDir.trees && gitDir.trees[h] == old(gitDir.trees)[h]
      ensures forall b | b in old(gitDir.branches) && (b != branch || b == gitDir.main) ::
                b in gitDir.branches && gitDir.branches[b] == old(gitDir.branches)[b]
      ensures raw.fileMappings == if gitDir.canWrite && CheckoutSucceeds(old(gitDir.State()), branch, plan.checkout)
                                  then DoAll(Stores(old(raw.fileMappings), old(gitDir.disk.files)), plan.ops).index
                                  else old(raw.fileMappings)
      ensures ok <==>
                && gitDir.canWrite && CheckoutSucceeds(old(gitDir.State()), branch, plan.checkout)
                && Finishes(plan.end)
                && Commitable(plan, DoAll(Stores(old(raw.fileMappings), old(gitDir.disk.files)), plan.ops).files
                                    == old(gitDir.trees[gitDir.branches[gitDir.main]]))
      ensures plan.end.FunctionFailed? || plan.end.InvalidResult? ==> !ok && gitDir.trees == old(gitDir.trees)
      ensures ok ==>
                && gitDir.canWrite && CheckoutSucceeds(old(gitDir.State()), branch, plan.checkout)
                && branch in gitDir.branches
      ensures var done := DoAll(Stores(old(raw.fileMappings), old(gitDir.disk.files)), plan.ops).files;
              ok ==>
                if done == old(gitDir.trees[gitDir.branches[gitDir.main]])
                then gitDir.branches[branch] == old(gitDir.branches)[gitDir.main] && gitDir.trees == old(gitDir.trees)
                else Landed(branch, plan.commit, done)
      ensures gitDir.trees == old(gitDir.trees)
              || Landed(branch, plan.commit,
                        DoAll(Stores(old(raw.fileMappings), old(gitDir.disk.files)), plan.ops).files)
    {
      var err := gitDir.CheckoutNewBranch(branch, plan.checkout);
      if err == None {
        ok := InBranch(branch, plan);
      } else {
        ok := false;
      }
    }

    /** The same between taking the lock and giving it back: main is restored first, whatever happened. */
    method Suspended(branch: string, plan: Plan) returns (ok: bool)
      requires Valid() && !gitDir.locked && OnMainClean(gitDir.State(), gitDir.main) && gitDir.started
      requires plan.commit.Commits? ==> plan.commit.hash !in gitDir.trees
      requires IsContext(plan.pushContext)
      modifies gitDir, gitDir.disk, raw
      ensures Valid() && !gitDir.locked && gitDir.started && OnMainClean(gitDir.State(), gitDir.main)
      ensures gitDir.disk.files == old(gitDir.disk.files)
      ensures forall b | b in old(gitDir.branches) && (b != branch || b == gitDir.main) ::
                b in gitDir.branches && gitDir.branches[b] == old(gitDir.branches)[b]
      ensures raw.fileMappings == if gitDir.canWrite && CheckoutSucceeds(old(gitDir.State()), branch, plan.checkout)
                                  then DoAll(Stores(old(raw.fileMappings), old(gitDir.disk.files)), plan.ops).index
                                  else old(raw.fileMappings)
      ensures ok <==>
                && gitDir.canWrite && CheckoutSucceeds(old(gitDir.State()), branch, plan.checkout)
                && Finishes(plan.end)
                && Commitable(plan, DoAll(Stores(old(raw.fileMappings), old(gitDir.disk.files)), plan.ops).files
                                    == old(gitDir.disk.files))
      ensures plan.end.FunctionFailed? || plan.end.InvalidResult? ==> !ok && gitDir.trees == old(gitDir.trees)
      ensures ok ==>
                && gitDir.canWrite && CheckoutSucceeds(old(gitDir.State()), branch, plan.checkout)
                && branch in gitDir.branches
      ensures var done := DoAll(Stores(old(raw.fileMappings), old(gitDir.disk.files)), plan.ops).files;
              ok ==>
                if done == old(gitDir.disk.files)
                then gitDir.branches[branch] == old(gitDir.branches)[gitDir.main] && gitDir.trees == old(gitDir.trees)
                else Landed(branch, plan.commit, done)
      ensures gitDir.trees == old(gitDir.trees)
              || Landed(branch, plan.commit,
                        DoAll(Stores(old(raw.fileMappings), old(gitDir.disk.files)), plan.ops).files)
    {
      gitDir.Suspend();
      ok := CheckoutAndRun(branch, plan);
      var restored := gitDir.CheckoutMainBranch();
      gitDir.Resume();
    }

    /**
     A transaction. Whichever way it ends, the lock is free again, main is checked out and clean,
     and main is where the initial Pull left it; no other branch has moved; and the index is as
     before, or as the function's operations left it, which on success they did: it lacks at most the
     mappings of objects deleted. A function that fails leaves no commit; success means a new branch,
     at main if the function changed nothing, and otherwise at the one commit made, which is, on all
     paths staged, as the function's operations left the worktree.
     */
    method Transaction(branch: string, plan: Plan) returns (ok: bool)
      requires Valid() && !gitDir.locked && (gitDir.started ==> OnMainClean(gitDir.State(), gitDir.main))
      requires gitDir.started && plan.pulled.Some? ==> Consistent(gitDir.State(), plan.pulled.value)
      requires IsContext(plan.pullContext) && IsContext(plan.pushContext)
      requires plan.commit.Commits? ==>
                 plan.commit.hash !in gitDir.trees
                 && (plan.pulled.Some? ==> plan.pulled.value.hash != plan.commit.hash)
      modifies gitDir, gitDir.disk, raw
      ensures Valid() && !gitDir.locked && gitDir.started == old(gitDir.started)
      ensures gitDir.started ==> OnMainClean(gitDir.State(), gitDir.main)
      ensures old(gitDir.started) ==>
                gitDir.disk.files == if plan.pulled == None then old(gitDir.disk.files) else plan.pulled.value.tree
      ensures forall b | b in old(gitDir.branches) && b != branch && b != gitDir.main ::
                b in gitDir.branches && gitDir.branches[b] == old(gitDir.branches)[b]
      ensures raw.fileMappings == old(raw.fileMappings)
              || raw.fileMappings == DoAll(Stores(old(raw.fileMappings), gitDir.disk.files), plan.ops).index
      ensures ok ==>
                && old(gitDir.started)
                && raw.fileMappings == DoAll(Stores(old(raw.fileMappings), gitDir.disk.files), plan.ops).index
      ensures LosesAtMost(old(raw.fileMappings), raw.fileMappings, DeletedKeys(plan.ops))
      ensures var done := DoAll(Stores(old(raw.fileMappings), gitDir.disk.files), plan.ops).files;
              ok <==>
                && old(gitDir.started) && gitDir.canWrite
                && (if plan.pullContext.Some? then plan.pullContext.value == Cancelled
                    else plan.pullOwn == Cancelled || (plan.pullOwn == Ok && plan.headOk))
                && branch !in old(gitDir.branches) && plan.checkout == Switched
                && (plan.end == CommitOnly || (plan.end == WithPullRequest(true) && hasProvider))
                && (if done == gitDir.disk.files then plan.commit != StatusFails
                    else && plan.commit.Commits?
                         && (if plan.pushContext.Some? then plan.pushContext.value == Cancelled
                             else plan.pushOwn == Ok || plan.pushOwn == Cancelled))
      ensures old(gitDir.started) ==>
                gitDir.branches[gitDir.main] == if plan.pulled == None then old(gitDir.branches)[gitDir.main]
                                                else plan.pulled.value.hash
      ensures old(gitDir.started) ==>
                || gitDir.trees == Fetch(old(gitDir.State()), plan.pulled).trees
                || Landed(branch, plan.commit, DoAll(Stores(old(raw.fileMappings), gitDir.disk.files), plan.ops).files)
      ensures (plan.end.FunctionFailed? || plan.end.InvalidResult?) && old(gitDir.started) ==>
                !ok && gitDir.trees == Fetch(old(gitDir.State()), plan.pulled).trees
      ensures var done := DoAll(Stores(old(raw.fileMappings), gitDir.disk.files), plan.ops).files;
              ok ==>
                && branch in gitDir.branches
                && if done == gitDir.disk.files then gitDir.branches[branch] == gitDir.branches[gitDir.main]
                   else
                     && gitDir.branches[branch] == plan.commit.hash && plan.commit.hash in gitDir.trees
                     && var tree := gitDir.trees[plan.commit.hash];
                        forall p | p in plan.commit.staged ::
                          (p in tree <==> p in done) && (p in tree ==> tree[p] == done[p])
    {
      var err := gitDir.Pull(plan.pulled, plan.pullContext, plan.pullOwn, plan.headOk, plan.pullWanted);
      if err != None {
        return false;
      }
      OperationsStayMapped(Stores(raw.fileMappings, gitDir.disk.files), plan.ops);
      ok := Suspended(branch, plan);
    }
  }
}
