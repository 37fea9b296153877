/** The function of a transaction, run while other threads go on: what it does to the worktree and the index. */
module GitFunction {
  import opened Common
  import opened PathIndex
  import opened ObjectStorage
  import opened GitRepo
  import opened GitProtocol
  import opened GitHistory

  /** The operation on the storage that a step of the function is, if it is one. */
  function Operation(s: State, step: Step): seq<Op> {
    match step
    case WriteObject(_, key, content) =>
      if key in s.index && s.index[key] in s.repo.worktree then [OpUpdate(Some(key), Some(content), true)]
      else [OpCreate(Some(key), Some(content), true)]
    case DeleteObject(_, key) => [OpDelete(key, true)]
    case _ => []
  }

  /** The operations of a run, in order. */
  function Operations(c: Config, s: State, steps: seq<Step>): seq<Op>
    requires Run(c, s, steps).Some?
  {
    if steps == [] then []
    else
      Operations(c, s, steps[..|steps| - 1])
      + Operation(Run(c, s, steps[..|steps| - 1]).value, steps[|steps| - 1])
  }

  /** Thread `t` runs its function, and so holds the lock. */
  ghost predicate RunsFunction(c: Config, s: State, t: nat) {
    MainInv(c, s) && t < |s.threads| && s.lock == Some(t) && s.threads[t].TxBody?
  }

  /** Not the end of the function, and no sync. */
  predicate Within(step: Step, t: nat) {
    !step.Sync? && !(step.EndFunction? && step.t == t)
  }

  lemma OthersStep(c: Config, s: State, step: Step, t: nat)
    requires RunsFunction(c, s, t) && Enabled(c, s, step) && !step.Sync? && (step.ReceiveCommit? || step.t != t)
    ensures var s' := Apply(c, s, step);
            && s'.lock == s.lock && |s'.threads| == |s.threads| && s'.threads[t] == s.threads[t]
            && s'.index == s.index && s'.repo == s.repo.(chan := s'.repo.chan)
            && Operation(s, step) == []
  {
    if !step.ReceiveCommit? {
      LockMoves(c, s, step);
      assert !Holds(s.threads[step.t]);
      QuietStep(c, s, step);
    }
  }

  lemma OwnStep(c: Config, s: State, step: Step, t: nat)
    requires RunsFunction(c, s, t) && Enabled(c, s, step) && Within(step, t) && !step.ReceiveCommit? && step.t == t
    ensures var s' := Apply(c, s, step);
            && s'.lock == s.lock && |s'.threads| == |s.threads| && s'.threads[t] == s.threads[t]
            && s'.repo == s.repo.(worktree := s'.repo.worktree)
            && |Operation(s, step)| == 1
            && Stores(s'.index, s'.repo.worktree)
               == Do(Stores(s.index, s.repo.worktree), Operation(s, step)[0])
  {}

  /** A step of its own is an operation on the storage, and the steps of the others are none. */
  lemma FunctionStep(c: Config, s: State, step: Step, t: nat)
    requires RunsFunction(c, s, t) && Enabled(c, s, step) && Within(step, t)
    ensures var s' := Apply(c, s, step);
            && RunsFunction(c, s', t) && s'.threads[t] == s.threads[t]
            && Stores(s'.index, s'.repo.worktree)
               == (if Operation(s, step) == [] then Stores(s.index, s.repo.worktree)
                   else Do(Stores(s.index, s.repo.worktree), Operation(s, step)[0]))
            && |Operation(s, step)| <= 1
            && s'.repo.branches == s.repo.branches && s'.repo.trees == s.repo.trees && s'.repo.head == s.repo.head
  {
    MainStep(c, s, step);
    if step.ReceiveCommit? || step.t != t {
      OthersStep(c, s, step, t);
    } else {
      OwnStep(c, s, step, t);
    }
  }

  /** Whatever the others do meanwhile: the worktree and the index are as the function's operations, one
      after another, leave them, and no branch has moved. */
  lemma {:induction false} FunctionIsItsOperations(c: Config, s: State, steps: seq<Step>, t: nat)
    requires RunsFunction(c, s, t) && Run(c, s, steps).Some?
    requires forall step | step in steps :: Within(step, t)
    ensures var end := Run(c, s, steps).value;
            && RunsFunction(c, end, t) && end.threads[t] == s.threads[t]
            && Stores(end.index, end.repo.worktree)
               == DoAll(Stores(s.index, s.repo.worktree), Operations(c, s, steps))
            && end.repo.branches == s.repo.branches && end.repo.trees == s.repo.trees
            && end.repo.head == s.repo.head
  {
    if steps != [] {
      var front, last := steps[..|steps| - 1], steps[|steps| - 1];
      assert last in steps && forall step | step in front :: step in steps;
      FunctionIsItsOperations(c, s, front, t);
      var mid := Run(c, s, front).value;
      FunctionStep(c, mid, last, t);
      var ops, more := Operations(c, s, front), Operation(mid, last);
      if more == [] {
        assert ops + more == ops;
      } else {
        assert (ops + more)[..|ops + more| - 1] == ops;
      }
    }
  }

  /** What the end of the function and a commit of the worktree come to. */
  lemma CommitTaken(c: Config, s: State, t: nat, commit: CommitResult)
    requires RunsFunction(c, s, t) && Enabled(c, s, EndFunction(t, true))
    requires Enabled(c, Apply(c, s, EndFunction(t, true)), DoCommit(t, commit))
    ensures var branch := s.threads[t].branch;
            var end := Apply(c, Apply(c, s, EndFunction(t, true)), DoCommit(t, commit));
            && branch in s.repo.branches && s.repo.branches[branch] in s.repo.trees
            && if commit.Committed? && s.repo.worktree != s.repo.trees[s.repo.branches[branch]]
               then && end.threads[t] == TxPush(branch, commit.hash) && Fresh(s.repo, commit)
                    && end.repo.branches == s.repo.branches[branch := commit.hash]
                    && end.repo.trees == s.repo.trees[commit.hash := commit.tree]
               else !end.threads[t].TxPush? && end.repo == s.repo
  {
    var mid := Apply(c, s, EndFunction(t, true));
    assert Holder(s) == s.threads[t];
    assert mid.repo == s.repo && mid.threads[t] == TxCommit(s.threads[t].branch);
  }

  /** The commit that follows, made just when the operations have changed something, is the tip of the
      transaction's branch, and every file in it is as the operation left it that was the last to change
      it, or as it was when the function began. */
  lemma CommitHasItsOperations(
    c: Config, s: State, steps: seq<Step>, t: nat, commit: CommitResult, path: string)
    requires RunsFunction(c, s, t) && Run(c, s, steps).Some?
    requires forall step | step in steps :: Within(step, t)
    requires Enabled(c, Run(c, s, steps).value, EndFunction(t, true))
    requires Enabled(c, Apply(c, Run(c, s, steps).value, EndFunction(t, true)), DoCommit(t, commit))
    ensures var end := Apply(c, Apply(c, Run(c, s, steps).value, EndFunction(t, true)), DoCommit(t, commit)).repo;
            var start, ops, branch := Stores(s.index, s.repo.worktree), Operations(c, s, steps), s.threads[t].branch;
            && branch in s.repo.branches && s.repo.branches[branch] in s.repo.trees
            && if commit.Committed? && DoAll(start, ops).files != s.repo.trees[s.repo.branches[branch]]
               then && end.branches == s.repo.branches[branch := commit.hash]
                    && end.trees == s.repo.trees[commit.hash := commit.tree] && commit.hash !in s.repo.trees
                    && (path in commit.tree ==>
                          || (exists i: nat :: PutLast(start, ops, path, commit.tree[path], i))
                          || (path in start.files && start.files[path] == commit.tree[path]
                              && LeftAlone(start, ops, path, 0)))
               else end.branches == s.repo.branches && end.trees == s.repo.trees
  {
    FunctionIsItsOperations(c, s, steps, t);
    CommitTaken(c, Run(c, s, steps).value, t, commit);
    if commit.Committed? && path in commit.tree {
      FilesAfter(Stores(s.index, s.repo.worktree), Operations(c, s, steps), path, commit.tree[path]);
    }
  }
}
