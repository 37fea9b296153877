/** The history of the protocol: where transactions commit, and what is announced. */
module GitHistory {
  import opened Common
  import PathIndex
  import opened GitRepo
  import opened GitProtocol

  // ------------------------------------------------------------------ main is moved only by pulls

  lemma MainKept(c: Config, r: Repo, index: PathIndex.Index, pc: PC, step: Step)
    requires PlaceInv(c, r, AsHolder(pc)) && AtPoint(r, index, pc, step) && !step.DoFetch?
    ensures var r' := NextRepo(c, r, index, pc, step);
            && c.main in r'.branches && r'.branches[c.main] == r.branches[c.main]
            && r'.branches[c.main] in r'.trees && r'.trees[r'.branches[c.main]] == r.trees[r.branches[c.main]]
  {}

  /** No step but a pull's fetch moves the local main branch. */
  lemma OnlyFetchMovesMain(c: Config, s: State, step: Step)
    requires MainInv(c, s) && Enabled(c, s, step)
    ensures c.main in Apply(c, s, step).repo.branches
    ensures Apply(c, s, step).repo.branches[c.main] != s.repo.branches[c.main] ==> step.DoFetch?
  {
    MainStep(c, s, step);
    HolderStep(c, s, step);
    if !step.ReceiveCommit? && !step.Sync? && !step.DoFetch? && !Starts(step) {
      MainKept(c, s.repo, s.index, s.threads[step.t], step);
    }
  }

  // ------------------------------------------------------------------ commits of transactions

  /** No transaction has committed on the branch. */
  ghost predicate NoCommitOn(commits: seq<TxRecord>, branch: string) {
    forall i | 0 <= i < |commits| :: commits[i].branch != branch
  }

  /** Each transaction commit is the tip of a branch of its own, made by the thread that committed;
      and every branch but main was made by a transaction. */
  ghost predicate CommitsOk(c: Config, r: Repo, commits: seq<TxRecord>, owners: map<string, nat>) {
    && owners.Keys + {c.main} == r.branches.Keys && c.main !in owners
    && (forall i | 0 <= i < |commits| ::
          var rec := commits[i];
          rec.branch in owners && owners[rec.branch] == rec.thread && r.branches[rec.branch] == rec.hash)
    && (forall i, j | 0 <= i < j < |commits| :: commits[i].branch != commits[j].branch)
  }

  /** The branch of the transaction under way is its thread's, and holds no commit yet. */
  ghost predicate BranchOk(pc: PC, t: Option<nat>, commits: seq<TxRecord>, owners: map<string, nat>) {
    pc.TxBody? || pc.TxCommit? ==>
      && t.Some? && pc.branch in owners && owners[pc.branch] == t.value
      && NoCommitOn(commits, pc.branch)
  }

  ghost predicate CommitInv(c: Config, s: State) {
    && MainInv(c, s)
    && CommitsOk(c, s.repo, s.commits, s.owners)
    && BranchOk(Holder(s), s.lock, s.commits, s.owners)
  }

  /** A commit adds its record, for a branch that has none. */
  lemma RecordOk(c: Config, r: Repo, commits: seq<TxRecord>, owners: map<string, nat>, rec: TxRecord, tree: Tree)
    requires CommitsOk(c, r, commits, owners) && r.head in r.branches
    requires rec.branch == r.head && NoCommitOn(commits, r.head)
    requires r.head in owners && owners[r.head] == rec.thread
    ensures CommitsOk(c, CommitOn(r, rec.hash, tree), commits + [rec], owners)
  {
    var r' := CommitOn(r, rec.hash, tree);
    assert r'.branches.Keys == r.branches.Keys;
  }

  /** A new branch is owned by the thread that made it. */
  lemma OwnersOk(c: Config, r: Repo, commits: seq<TxRecord>, owners: map<string, nat>, pc: PC, step: Step)
    requires CommitsOk(c, r, commits, owners) && r.head in r.branches && step.Checkout? && pc.TxCheckout?
    ensures var r' := CheckoutNew(r, pc.branch, step.result);
            CommitsOk(c, r', commits, NextOwners(r, r', owners, pc, step))
  {}

  /** Otherwise branches are only moved by a fetch, on main. */
  lemma BranchesKept(c: Config, r: Repo, index: PathIndex.Index, pc: PC, step: Step)
    requires PlaceInv(c, r, AsHolder(pc)) && AtPoint(r, index, pc, step) && !step.Checkout?
    requires NewRecords(c, r, pc, step) == []
    ensures var r' := NextRepo(c, r, index, pc, step);
            && r'.branches.Keys == r.branches.Keys
            && forall b | b in r.branches && b != c.main :: r'.branches[b] == r.branches[b]
  {}

  /** A record is of the commit just made, on the branch HEAD is on. */
  lemma CommitTakes(c: Config, r: Repo, index: PathIndex.Index, pc: PC, step: Step)
    requires AtPoint(r, index, pc, step) && NewRecords(c, r, pc, step) != []
    ensures step.DoCommit? && pc.TxCommit? && step.commit.Committed?
    ensures NewRecords(c, r, pc, step) == [TxRecord(step.commit.hash, r.head, step.t)]
    ensures NextRepo(c, r, index, pc, step) == CommitOn(r, step.commit.hash, step.commit.tree)
  {}

  lemma CommitsNext(
    c: Config, r: Repo, index: PathIndex.Index, commits: seq<TxRecord>, owners: map<string, nat>, pc: PC, step: Step)
    requires PlaceInv(c, r, AsHolder(pc)) && AtPoint(r, index, pc, step)
    requires CommitsOk(c, r, commits, owners)
    requires Holds(pc) ==> BranchOk(pc, Some(step.t), commits, owners)
    ensures CommitsOk(c, NextRepo(c, r, index, pc, step), commits + NewRecords(c, r, pc, step),
                      NextOwners(r, NextRepo(c, r, index, pc, step), owners, pc, step))
  {
    var recs := NewRecords(c, r, pc, step);
    if recs != [] {
      CommitTakes(c, r, index, pc, step);
      RecordOk(c, r, commits, owners, recs[0], step.commit.tree);
    } else {
      assert commits + recs == commits;
      if step.Checkout? {
        OwnersOk(c, r, commits, owners, pc, step);
      } else {
        BranchesKept(c, r, index, pc, step);
      }
    }
  }

  lemma CommitsStep(c: Config, s: State, step: Step, pc: PC)
    requires !step.ReceiveCommit? && !step.Sync? && Enabled(c, s, step) && pc == s.threads[step.t]
    requires CommitInv(c, s) && Holder(s) == AsHolder(pc) && (Holds(pc) ==> s.lock == Some(step.t))
    ensures var s' := Apply(c, s, step);
            CommitsOk(c, s'.repo, s'.commits, s'.owners)
  {
    CommitsNext(c, s.repo, s.index, s.commits, s.owners, pc, step);
  }

  lemma BranchStep(c: Config, s: State, step: Step)
    requires !step.ReceiveCommit? && !step.Sync? && Enabled(c, s, step)
    requires CommitInv(c, s) && Holds(s.threads[step.t]) && Holder(s) == s.threads[step.t] && s.lock == Some(step.t)
    ensures var s', pc' := Apply(c, s, step), NextPC(c, s.repo, s.threads[step.t], step);
            BranchOk(pc', Some(step.t), s'.commits, s'.owners)
  {
    var s' := Apply(c, s, step);
    if step.Checkout? {
      var branch := s.threads[step.t].branch;
      forall i | 0 <= i < |s.commits| && s.commits[i].branch == branch
        ensures branch in s.repo.branches
      {}
    }
    assert step.DoCommit? || s'.commits == s.commits;
  }

  lemma CommitStep(c: Config, s: State, step: Step)
    requires CommitInv(c, s) && Enabled(c, s, step)
    ensures CommitInv(c, Apply(c, s, step))
  {
    MainStep(c, s, step);
    HolderStep(c, s, step);
    if !step.ReceiveCommit? && !step.Sync? {
      var pc := s.threads[step.t];
      LockMoves(c, s, step);
      assert Holds(pc) ==> Holder(s) == pc;
      if Holds(pc) {
        CommitsStep(c, s, step, pc);
        BranchStep(c, s, step);
      } else {
        QuietStep(c, s, step);
      }
    }
  }

  /** A step that does not hold the lock leaves the history alone. */
  lemma QuietStep(c: Config, s: State, step: Step)
    requires !step.ReceiveCommit? && !step.Sync? && Enabled(c, s, step) && !Holds(s.threads[step.t])
    ensures var s' := Apply(c, s, step);
            && s'.repo == s.repo && s'.commits == s.commits && s'.owners == s.owners
            && (step.LockPull? || step.LockTx? || Starts(step))
            && (var pc' := NextPC(c, s.repo, s.threads[step.t], step); !pc'.TxBody? && !pc'.TxCommit?)
  {}

  lemma {:induction false} CommitRun(c: Config, s: State, steps: seq<Step>)
    requires Init(c, s) && Run(c, s, steps).Some?
    ensures CommitInv(c, Run(c, s, steps).value)
  {
    MainRun(c, s, steps);
    if steps != [] {
      CommitRun(c, s, steps[..|steps| - 1]);
      CommitStep(c, Run(c, s, steps[..|steps| - 1]).value, steps[|steps| - 1]);
    }
  }

  /** Over every interleaving: each transaction commit lands on a branch that is not main, that the
      committing thread created, and on which no other transaction ever commits; and that branch
      stays at that commit. */
  lemma CommitsLandOnOwnBranches(c: Config, s: State, steps: seq<Step>)
    requires Init(c, s) && Run(c, s, steps).Some?
    ensures var end := Run(c, s, steps).value;
            && (forall i | 0 <= i < |end.commits| ::
                  var rec := end.commits[i];
                  && rec.branch != c.main
                  && rec.branch in end.owners && end.owners[rec.branch] == rec.thread
                  && rec.branch in end.repo.branches && end.repo.branches[rec.branch] == rec.hash)
            && (forall i, j | 0 <= i < j < |end.commits| :: end.commits[i].branch != end.commits[j].branch)
  {
    CommitRun(c, s, steps);
  }

  /** The branch a transaction checks out did not exist before, so a commit never lands on old work. */
  lemma BodyStartsOnFreshBranch(c: Config, s: State, step: Step)
    requires MainInv(c, s) && Enabled(c, s, step) && step.Checkout?
    requires Apply(c, s, step).threads[step.t].TxBody?
    ensures var branch := Apply(c, s, step).threads[step.t].branch;
            && branch !in s.repo.branches
            && branch in Apply(c, s, step).repo.branches
            && Apply(c, s, step).repo.branches[branch] == s.repo.branches[c.main]
  {
    LockMoves(c, s, step);
    assert Holder(s) == s.threads[step.t];
  }

  // ------------------------------------------------------------------ announcements

  ghost predicate NoRepeats(list: seq<Hash>) {
    forall i | 0 <= i < |list| - 1 :: list[i] != list[i + 1]
  }

  /** What has been announced, by what the holder of the lock is doing. */
  ghost predicate AnnounceOk(c: Config, r: Repo, pc: PC) {
    && r.announced != [] && NoRepeats(r.announced)
    && (Sending(pc) <==> r.announced[|r.announced| - 1] != r.lastCommit)
    && (pc.SendingPull? ==> r.head in r.branches && r.lastCommit == r.branches[r.head])
    && (pc.PullExit? && pc.compared ==> pc.ok && r.head in r.branches && r.lastCommit == r.branches[r.head])
    && (pc.TxPush? ==> pc.hash != r.lastCommit)
    && |r.chan| <= c.capacity && |r.chan| <= |r.announced|
    && r.chan == r.announced[|r.announced| - |r.chan|..]
  }

  lemma SendKeepsSuffix(c: Config, r: Repo)
    requires |r.chan| < c.capacity && |r.chan| <= |r.announced|
    requires r.chan == r.announced[|r.announced| - |r.chan|..]
    ensures var s := Send(r);
            |s.chan| <= c.capacity && |s.chan| <= |s.announced| && s.chan == s.announced[|s.announced| - |s.chan|..]
  {}

  lemma NoRepeatsAppend(list: seq<Hash>, hash: Hash)
    requires NoRepeats(list) && (list != [] ==> list[|list| - 1] != hash)
    ensures NoRepeats(list + [hash])
  {}

  ghost predicate AnnounceInv(c: Config, s: State) {
    MainInv(c, s) && AnnounceOk(c, s.repo, Holder(s))
  }

  lemma SendOk(c: Config, r: Repo, pc: PC, pc': PC)
    requires AnnounceOk(c, r, pc) && Sending(pc) && |r.chan| < c.capacity
    requires pc' == TxPR || (pc.SendingPull? && pc' == PullExit(pc.k, true, true))
    ensures AnnounceOk(c, Send(r), pc')
  {
    SendKeepsSuffix(c, r);
    NoRepeatsAppend(r.announced, r.lastCommit);
  }

  lemma SendShape(c: Config, r: Repo, index: PathIndex.Index, pc: PC, step: Step)
    requires AtPoint(r, index, pc, step) && (step.SendPull? || step.SendTx?)
    ensures Sending(pc) && AsHolder(pc) == pc && NextRepo(c, r, index, pc, step) == Send(r)
    ensures var pc' := NextPC(c, r, pc, step);
            && AsHolder(pc') == pc'
            && (pc' == TxPR || (pc.SendingPull? && pc' == PullExit(pc.k, true, true)))
  {}

  lemma AnnounceSend(c: Config, s: State, pc: PC, step: Step)
    requires AnnounceOk(c, s.repo, AsHolder(pc))
    requires AtPoint(s.repo, s.index, pc, step) && NotBlocked(c, s, step) && (step.SendPull? || step.SendTx?)
    ensures AnnounceOk(c, NextRepo(c, s.repo, s.index, pc, step), AsHolder(NextPC(c, s.repo, pc, step)))
  {
    SendShape(c, s.repo, s.index, pc, step);
    SendOk(c, s.repo, pc, NextPC(c, s.repo, pc, step));
  }

  /** Comparing, and the end of a push, are where the commit to announce is noted. */
  lemma AnnounceCompare(c: Config, r: Repo, index: PathIndex.Index, pc: PC, step: Step)
    requires PlaceInv(c, r, pc) && AnnounceOk(c, r, pc) && AtPoint(r, index, pc, step) && step.Compare?
    ensures AnnounceOk(c, NextRepo(c, r, index, pc, step), NextPC(c, r, pc, step))
  {}

  lemma AnnouncePush(c: Config, r: Repo, index: PathIndex.Index, pc: PC, step: Step)
    requires PlaceInv(c, r, pc) && AnnounceOk(c, r, pc) && AtPoint(r, index, pc, step) && step.Push?
    ensures AnnounceOk(c, NextRepo(c, r, index, pc, step), NextPC(c, r, pc, step))
  {}

  lemma AnnounceSame(c: Config, r: Repo, r': Repo, pc: PC, pc': PC)
    requires AnnounceOk(c, r, pc) && !Sending(pc) && !Sending(pc')
    requires r'.announced == r.announced && r'.chan == r.chan && r'.lastCommit == r.lastCommit
    requires !(pc'.PullExit? && pc'.compared) && (pc'.TxPush? ==> pc'.hash != r'.lastCommit)
    ensures AnnounceOk(c, r', pc')
  {}

  /** A step that neither sends nor notes anything. */
  ghost predicate Silent(c: Config, r: Repo, index: PathIndex.Index, pc: PC, step: Step) {
    var r', pc' := NextRepo(c, r, index, pc, step), AsHolder(NextPC(c, r, pc, step));
    && r'.announced == r.announced && r'.chan == r.chan && r'.lastCommit == r.lastCommit
    && !Sending(AsHolder(pc)) && !Sending(pc')
    && !(pc'.PullExit? && pc'.compared) && (pc'.TxPush? ==> pc'.hash != r'.lastCommit)
  }

  lemma SilentInTx(c: Config, r: Repo, index: PathIndex.Index, pc: PC, step: Step)
    requires Sound(r, c.main) && AtPoint(r, index, pc, step) && Holds(pc) && !InPull(pc)
    requires !step.SendTx? && !step.Push?
    ensures Silent(c, r, index, pc, step)
  {}

  lemma SilentOutside(c: Config, r: Repo, index: PathIndex.Index, pc: PC, step: Step)
    requires AtPoint(r, index, pc, step) && (!Holds(pc) || InPull(pc)) && !step.SendPull? && !step.Compare?
    ensures Silent(c, r, index, pc, step)
  {
    if !Holds(pc) {
      PlaceOutside(c, r, index, pc, step);
    }
  }

  lemma AnnounceThread(c: Config, s: State, pc: PC, step: Step)
    requires PlaceInv(c, s.repo, AsHolder(pc)) && AnnounceOk(c, s.repo, AsHolder(pc))
    requires AtPoint(s.repo, s.index, pc, step) && NotBlocked(c, s, step)
    ensures AnnounceOk(c, NextRepo(c, s.repo, s.index, pc, step), AsHolder(NextPC(c, s.repo, pc, step)))
  {
    var r := s.repo;
    if step.SendPull? || step.SendTx? {
      AnnounceSend(c, s, pc, step);
    } else if step.Compare? {
      AnnounceCompare(c, r, s.index, pc, step);
    } else if step.Push? {
      AnnouncePush(c, r, s.index, pc, step);
    } else {
      if Holds(pc) && !InPull(pc) {
        SilentInTx(c, r, s.index, pc, step);
      } else {
        SilentOutside(c, r, s.index, pc, step);
      }
      AnnounceSame(c, r, NextRepo(c, r, s.index, pc, step), AsHolder(pc), AsHolder(NextPC(c, r, pc, step)));
    }
  }

  lemma AnnounceInvStep(c: Config, s: State, step: Step)
    requires AnnounceInv(c, s) && Enabled(c, s, step)
    ensures AnnounceInv(c, Apply(c, s, step))
  {
    MainStep(c, s, step);
    HolderStep(c, s, step);
    if !step.ReceiveCommit? && !step.Sync? && !Starts(step) {
      AnnounceThread(c, s, s.threads[step.t], step);
    }
  }

  lemma {:induction false} AnnounceRun(c: Config, s: State, steps: seq<Step>)
    requires Init(c, s) && Run(c, s, steps).Some?
    ensures AnnounceInv(c, Run(c, s, steps).value)
  {
    MainRun(c, s, steps);
    if steps == [] {
      assert s.repo.announced[|s.repo.announced| - |s.repo.chan|..] == s.repo.chan;
    } else {
      AnnounceRun(c, s, steps[..|steps| - 1]);
      AnnounceInvStep(c, Run(c, s, steps[..|steps| - 1]).value, steps[|steps| - 1]);
    }
  }

  /** Outside a send under way the last hash announced is lastCommit; when a Pull that got to
      comparing returns, it is HEAD's, also if an earlier Pull had moved HEAD and reported a timeout;
      and no hash is announced twice in a row. */
  ghost predicate HeadIsAnnounced(c: Config, s: State) {
    && s.repo.announced != [] && Sound(s.repo, c.main)
    && (!Sending(Holder(s)) ==> s.repo.announced[|s.repo.announced| - 1] == s.repo.lastCommit)
    && (Holder(s).PullExit? && Holder(s).compared ==>
          && s.repo.head == c.main
          && s.repo.announced[|s.repo.announced| - 1] == s.repo.branches[s.repo.head])
    && NoRepeats(s.repo.announced)
  }

  lemma InvariantsGiveAnnounced(c: Config, s: State)
    requires AnnounceInv(c, s)
    ensures HeadIsAnnounced(c, s)
  {}

  /** Over every interleaving. */
  lemma AnnouncementsFollowHead(c: Config, s: State, steps: seq<Step>)
    requires Init(c, s) && Run(c, s, steps).Some?
    ensures HeadIsAnnounced(c, Run(c, s, steps).value)
  {
    AnnounceRun(c, s, steps);
    InvariantsGiveAnnounced(c, Run(c, s, steps).value);
  }
}
