/** Runs from the start that come to rest with an index that is wrong for main. */
module GitGap {
  import opened Common
  import opened PathIndex
  import opened GitRepo
  import opened GitProtocol
  import opened GitHistory
  import opened GitIndex

  lemma LeadsOne(c: Config, s: State, step: Step, s': State)
    requires Takes(c, s, step, s')
    ensures Leads(c, s, [step], s')
  {
    RunSnoc(c, s, [], step);
    assert [] + [step] == [step];
  }

  lemma LeadsTwo(c: Config, s: State, s1: State, s2: State, a: Step, b: Step)
    requires Takes(c, s, a, s1) && Takes(c, s1, b, s2)
    ensures Leads(c, s, [a, b], s2)
  {
    LeadsOne(c, s, a, s1);
    RunSnoc(c, s, [a], b);
    assert [a] + [b] == [a, b];
  }

  // ------------------------------------------------------------------ parts of runs

  /** The first sync runs, and the commit of the clone stays announced. */
  lemma FirstSync(c: Config, s: State) returns (s': State)
    requires Init(c, s)
    ensures Leads(c, s, [Sync(true)], s')
    ensures s' == s.(index := Mappings(c, s.repo.worktree), syncing := false)
  {
    s' := Apply(c, s, Sync(true));
    LeadsOne(c, s, Sync(true), s');
  }

  lemma ReceiveThenSync(c: Config, s: State, hash: Hash) returns (s': State)
    requires s.repo.chan == [hash] && !s.syncing && !s.deleted
    ensures Leads(c, s, [ReceiveCommit, Sync(true)], s')
    ensures s' == s.(repo := s.repo.(chan := []), index := Mappings(c, s.repo.worktree))
  {
    var s1, s2 := ReceiveAndSync(c, s, hash);
    LeadsTwo(c, s, s1, s2, ReceiveCommit, Sync(true));
    s' := s2;
  }

  /** A thread can start a transaction on a new branch, and its Pull will find nothing new. */
  ghost predicate CanBegin(c: Config, s: State, t: nat, branch: string) {
    && c.started && c.canWrite && t < |s.threads| && s.threads[t] == Idle && s.lock == None
    && !s.deleted && !s.published
    && OnMainClean(s.repo, c.main) && s.repo.lastCommit == s.repo.branches[c.main] && branch !in s.repo.branches
  }

  function BeginSteps(t: nat, branch: string): seq<Step> {
    [StartTx(t, branch), LockPull(t), DoFetch(t, None, Ok)]
    + [Compare(t, true), UnlockPull(t), LockTx(t)] + [Checkout(t, Switched)]
  }

  lemma StartAndFetch(c: Config, s: State, t: nat, branch: string) returns (s': State)
    requires CanBegin(c, s, t, branch)
    ensures Leads(c, s, [StartTx(t, branch), LockPull(t), DoFetch(t, None, Ok)], s')
    ensures s' == s.(lock := Some(t), threads := s.threads[t := Comparing(ForTx(branch))])
  {
    var s1 := Apply(c, s, StartTx(t, branch));
    var s2 := Apply(c, s1, LockPull(t));
    s' := Apply(c, s2, DoFetch(t, None, Ok));
    RunThree(c, s, s1, s2, s', StartTx(t, branch), LockPull(t), DoFetch(t, None, Ok));
    assert s'.threads == s.threads[t := Comparing(ForTx(branch))];
    assert s'.commits == s.commits;
  }

  lemma CompareAndRelock(c: Config, s: State, t: nat, branch: string) returns (s': State)
    requires t < |s.threads| && s.threads[t] == Comparing(ForTx(branch)) && s.lock == Some(t)
    requires s.repo.head in s.repo.branches && s.repo.lastCommit == s.repo.branches[s.repo.head]
    requires !s.deleted && !s.published
    ensures Leads(c, s, [Compare(t, true), UnlockPull(t), LockTx(t)], s')
    ensures s' == s.(threads := s.threads[t := TxCheckout(branch)])
  {
    var s1 := Apply(c, s, Compare(t, true));
    var s2 := Apply(c, s1, UnlockPull(t));
    s' := Apply(c, s2, LockTx(t));
    RunThree(c, s, s1, s2, s', Compare(t, true), UnlockPull(t), LockTx(t));
    assert s'.threads == s.threads[t := TxCheckout(branch)];
    assert s'.commits == s.commits;
  }

  lemma CheckoutNow(c: Config, s: State, t: nat, branch: string) returns (s': State)
    requires t < |s.threads| && s.threads[t] == TxCheckout(branch) && c.canWrite
    requires s.repo.head in s.repo.branches && branch !in s.repo.branches
    ensures Leads(c, s, [Checkout(t, Switched)], s')
    ensures s' == s.(repo := OnNewBranch(s.repo, branch), threads := s.threads[t := TxBody(branch)],
                     owners := s'.owners)
  {
    s' := Apply(c, s, Checkout(t, Switched));
    LeadsOne(c, s, Checkout(t, Switched), s');
  }

  /** HEAD is on a new branch at the commit it was at. */
  function OnNewBranch(r: Repo, branch: string): Repo
    requires r.head in r.branches
  {
    r.(branches := r.branches[branch := r.branches[r.head]], head := branch)
  }

  /** Up to where the function of a transaction runs. */
  lemma Begin(c: Config, s: State, t: nat, branch: string) returns (s': State)
    requires CanBegin(c, s, t, branch)
    ensures Leads(c, s, BeginSteps(t, branch), s')
    ensures s' == s.(repo := OnNewBranch(s.repo, branch), lock := Some(t), threads := s.threads[t := TxBody(branch)],
                     owners := s'.owners)
  {
    var s1 := StartAndFetch(c, s, t, branch);
    var s2 := CompareAndRelock(c, s1, t, branch);
    s' := CheckoutNow(c, s2, t, branch);
    var first := [StartTx(t, branch), LockPull(t), DoFetch(t, None, Ok)];
    var second := [Compare(t, true), UnlockPull(t), LockTx(t)];
    LeadsThen(c, s, first, s1, second, s2);
    LeadsThen(c, s, first + second, s2, [Checkout(t, Switched)], s');
    assert s'.threads == s.threads[t := TxBody(branch)];
  }

  /** The function writes a file, of a key it has looked up. */
  lemma WriteNow(c: Config, s: State, t: nat, branch: string, key: ObjectKey, content: Content) returns (s': State)
    requires t < |s.threads| && s.threads[t] == TxBody(branch) && key in s.index
    ensures Leads(c, s, [WriteObject(t, key, content)], s')
    ensures s' == s.(repo := s.repo.(worktree := s.repo.worktree[s.index[key] := content]))
  {
    s' := Apply(c, s, WriteObject(t, key, content));
    assert s'.threads == s.threads && s'.commits == s.commits;
    LeadsOne(c, s, WriteObject(t, key, content), s');
  }

  /** The function deletes an object. */
  lemma DeleteNow(c: Config, s: State, t: nat, branch: string, key: ObjectKey) returns (s': State)
    requires t < |s.threads| && s.threads[t] == TxBody(branch) && key in s.index
    ensures Leads(c, s, [DeleteObject(t, key)], s')
    ensures s' == s.(repo := s'.repo, index := s.index - {key}, deleted := true)
    ensures s'.repo == s.repo.(worktree := s'.repo.worktree)
  {
    s' := Apply(c, s, DeleteObject(t, key));
    assert s'.threads == s.threads && s'.commits == s.commits;
    LeadsOne(c, s, DeleteObject(t, key), s');
  }

  /** The transaction ends at the deferred restore. */
  lemma RestoreNow(c: Config, s: State, t: nat) returns (s': State)
    requires t < |s.threads| && s.threads[t] == TxRestore && c.canWrite
    requires c.main in s.repo.branches && s.repo.branches[c.main] in s.repo.trees
    ensures Leads(c, s, [Restore(t), UnlockTx(t)], s')
    ensures s' == s.(repo := CheckoutMain(s.repo, c.main), lock := None, threads := s.threads[t := Idle],
                     deleted := false, published := false)
  {
    var s1 := Apply(c, s, Restore(t));
    s' := Apply(c, s1, UnlockTx(t));
    assert s'.threads == s.threads[t := Idle] && s'.commits == s.commits;
    LeadsTwo(c, s, s1, s', Restore(t), UnlockTx(t));
  }

  lemma EndNow(c: Config, s: State, t: nat, branch: string, ok: bool) returns (s': State)
    requires t < |s.threads| && s.threads[t] == TxBody(branch)
    ensures Leads(c, s, [EndFunction(t, ok)], s')
    ensures s' == s.(threads := s.threads[t := if ok then TxCommit(branch) else TxRestore])
  {
    s' := Apply(c, s, EndFunction(t, ok));
    assert s'.commits == s.commits;
    LeadsOne(c, s, EndFunction(t, ok), s');
  }

  /** All of the worktree is committed and pushed. */
  lemma CommitAndPush(c: Config, s: State, t: nat, branch: string, hash: Hash) returns (s': State)
    requires t < |s.threads| && s.threads[t] == TxCommit(branch) && c.canWrite
    requires hash !in s.repo.trees && !IsClean(s.repo) && s.repo.chan == [] && 0 < c.capacity
    ensures Leads(c, s, [DoCommit(t, Committed(hash, s.repo.worktree)), Push(t, Ok), SendTx(t)], s')
    ensures s' == s.(repo := s'.repo, threads := s.threads[t := TxPR], published := true, commits := s'.commits)
    ensures s'.repo == CommitOn(s.repo, hash, s.repo.worktree).(
                         lastCommit := hash, chan := [hash], announced := s.repo.announced + [hash])
  {
    var commit := DoCommit(t, Committed(hash, s.repo.worktree));
    var s1 := Apply(c, s, commit);
    var s2 := Apply(c, s1, Push(t, Ok));
    s' := Apply(c, s2, SendTx(t));
    RunThree(c, s, s1, s2, s', commit, Push(t, Ok), SendTx(t));
    assert s'.threads == s.threads[t := TxPR];
  }

  lemma OpenPRNow(c: Config, s: State, t: nat) returns (s': State)
    requires t < |s.threads| && s.threads[t] == TxPR
    ensures Leads(c, s, [OpenPR(t)], s')
    ensures s' == s.(threads := s.threads[t := TxRestore])
  {
    s' := Apply(c, s, OpenPR(t));
    assert s'.commits == s.commits;
    LeadsOne(c, s, OpenPR(t), s');
  }

  lemma StartPullNow(c: Config, s: State, t: nat) returns (s': State)
    requires t < |s.threads| && s.threads[t] == Idle && s.lock == None && c.started
    ensures Leads(c, s, [StartPull(t), LockPull(t)], s')
    ensures s' == s.(lock := Some(t), threads := s.threads[t := Pulling(Background)])
  {
    var s1 := Apply(c, s, StartPull(t));
    s' := Apply(c, s1, LockPull(t));
    assert s'.threads == s.threads[t := Pulling(Background)] && s'.commits == s.commits;
    LeadsTwo(c, s, s1, s', StartPull(t), LockPull(t));
  }

  // ------------------------------------------------------------------ mappings that differ

  /** A mapped key is the one in the file. */
  lemma MappedKey(files: seq<string>, tree: Tree, k: ObjectKey)
    requires k in MappingsOf(files, tree)
    ensures KeyAt(tree, MappingsOf(files, tree)[k]) == Some(k)
  {
    MappingsMeaning(files, tree, k);
    var i: nat :| LastWith(files, tree, k, i);
  }

  /** Overwriting the file of a mapped key with something that does not decode changes the mappings. */
  lemma OverwritingShows(c: Config, tree: Tree, key: ObjectKey)
    requires key in Mappings(c, tree)
    ensures var spoilt := tree[Mappings(c, tree)[key] := Malformed("")];
            spoilt != tree && Mappings(c, spoilt) != Mappings(c, tree)
  {
    var p := Mappings(c, tree)[key];
    var spoilt := tree[p := Malformed("")];
    MappedKey(c.walk(tree), tree, key);
    if key in Mappings(c, spoilt) {
      MappedKey(c.walk(spoilt), spoilt, key);
    }
  }

  // ------------------------------------------------------------------ the runs

  /** A thread of a clone that can be written to, a branch for it, and an object. */
  ghost predicate Given(c: Config, s: State, t: nat, branch: string, key: ObjectKey) {
    && Init(c, s) && c.started && c.canWrite && t < |s.threads| && branch != c.main
    && key in Mappings(c, s.repo.worktree)
  }

  /** The steps end at rest with an index that is wrong for main. */
  ghost predicate RestsWrong(c: Config, s: State, steps: seq<Step>) {
    Run(c, s, steps).Some?
    && var end := Run(c, s, steps).value;
       AtRest(c, end) && end.index != Mappings(c, MainTree(c, end.repo))
  }

  /** Everything announced has been acted on, and a transaction's function runs. */
  lemma DrainAndBegin(c: Config, s: State, t: nat, branch: string, key: ObjectKey)
    returns (steps: seq<Step>, s': State)
    requires Given(c, s, t, branch, key)
    ensures Leads(c, s, steps, s')
    ensures s' == s.(repo := OnNewBranch(s.repo, branch).(chan := []), lock := Some(t),
                     threads := s.threads[t := TxBody(branch)], owners := s'.owners,
                     index := Mappings(c, s.repo.worktree), syncing := false)
  {
    var s1 := FirstSync(c, s);
    var s2 := ReceiveThenSync(c, s1, s.repo.lastCommit);
    s' := Begin(c, s2, t, branch);
    var a := [Sync(true)] + [ReceiveCommit, Sync(true)];
    LeadsThen(c, s, [Sync(true)], s1, [ReceiveCommit, Sync(true)], s2);
    LeadsThen(c, s, a, s2, BeginSteps(t, branch), s');
    steps := a + BeginSteps(t, branch);
  }

  /** The function deletes an object and fails. */
  lemma DeleteAndFail(c: Config, s: State, t: nat, branch: string, key: ObjectKey)
    returns (steps: seq<Step>, s': State)
    requires t < |s.threads| && s.threads[t] == TxBody(branch) && key in s.index && c.canWrite
    requires c.main in s.repo.branches && s.repo.branches[c.main] in s.repo.trees
    ensures Leads(c, s, steps, s')
    ensures s'.lock == None && s'.syncing == s.syncing && s'.index == s.index - {key}
    ensures s'.repo == CheckoutMain(s.repo, c.main)
  {
    var s1 := DeleteNow(c, s, t, branch, key);
    var s2 := EndNow(c, s1, t, branch, false);
    s' := RestoreNow(c, s2, t);
    LeadsThen(c, s, [DeleteObject(t, key)], s1, [EndFunction(t, false)], s2);
    LeadsThen(c, s, [DeleteObject(t, key)] + [EndFunction(t, false)], s2, [Restore(t), UnlockTx(t)], s');
    steps := ([DeleteObject(t, key)] + [EndFunction(t, false)]) + [Restore(t), UnlockTx(t)];
  }

  /** A transaction deletes an object and then fails: its mapping is not restored. */
  lemma AbortedDeleteIsLost(c: Config, s: State, t: nat, branch: string, key: ObjectKey)
    requires Given(c, s, t, branch, key)
    ensures exists steps :: RestsWrong(c, s, steps)
  {
    var a, m := DrainAndBegin(c, s, t, branch, key);
    var b, end := DeleteAndFail(c, m, t, branch, key);
    LeadsThen(c, s, a, m, b, end);
    assert MainTree(c, end.repo) == s.repo.worktree && key !in end.index;
    assert RestsWrong(c, s, a + b);
  }

  /** A transaction writes a file while the commit of the clone is still to be received. */
  lemma WriteAndReceive(c: Config, s: State, t: nat, branch: string, key: ObjectKey)
    returns (steps: seq<Step>, s': State)
    requires Given(c, s, t, branch, key)
    ensures Leads(c, s, steps, s')
    ensures t < |s'.threads| && s'.lock == Some(t) && s'.threads[t].TxBody? && s'.syncing && s'.repo.chan == []
    ensures s'.repo.announced == s.repo.announced
    ensures MainHash(c, s'.repo) == MainHash(c, s.repo) && MainTree(c, s'.repo) == s.repo.worktree
    ensures s'.repo.worktree == s.repo.worktree[Mappings(c, s.repo.worktree)[key] := Malformed("")]
  {
    var s1 := FirstSync(c, s);
    var s2 := Begin(c, s1, t, branch);
    var s3 := WriteNow(c, s2, t, branch, key, Malformed(""));
    s' := Apply(c, s3, ReceiveCommit);
    LeadsOne(c, s3, ReceiveCommit, s');
    var a := [Sync(true)] + BeginSteps(t, branch);
    var b := a + [WriteObject(t, key, Malformed(""))];
    LeadsThen(c, s, [Sync(true)], s1, BeginSteps(t, branch), s2);
    LeadsThen(c, s, a, s2, [WriteObject(t, key, Malformed(""))], s3);
    LeadsThen(c, s, b, s3, [ReceiveCommit], s');
    steps := b + [ReceiveCommit];
  }

  /** A sync sees the worktree of a transaction that then fails. */
  lemma SyncOnBranchIsWrong(c: Config, s: State, t: nat, branch: string, key: ObjectKey)
    requires Given(c, s, t, branch, key)
    ensures exists steps :: RestsWrong(c, s, steps)
  {
    var a, m := WriteAndReceive(c, s, t, branch, key);
    MainRun(c, s, a);
    OverwritingShows(c, s.repo.worktree, key);
    SyncOnBranch(c, m, t);
    LeadsThen(c, s, a, m, AbortSteps(t), Run(c, m, AbortSteps(t)).value);
    assert RestsWrong(c, s, a + AbortSteps(t));
  }

  /** A transaction that commits what it wrote, and the sync that follows its announcement. */
  lemma CommitAndSync(c: Config, s: State, t: nat, branch: string, hash: Hash)
    returns (steps: seq<Step>, s': State)
    requires t < |s.threads| && s.threads[t] == TxBody(branch) && c.canWrite && s.lock == Some(t)
    requires s.repo.head == branch && branch in s.repo.branches && branch != c.main
    requires c.main in s.repo.branches && s.repo.branches[c.main] in s.repo.trees && 0 < c.capacity
    requires hash !in s.repo.trees && !IsClean(s.repo) && s.repo.chan == [] && !s.syncing && !s.deleted
    ensures Leads(c, s, steps, s')
    ensures s'.lock == None && s'.threads == s.threads[t := Idle] && !s'.syncing && !s'.deleted
    ensures s'.repo.chan == [] && s'.repo.lastCommit == hash
    ensures hash in s'.repo.trees && s'.repo.trees[hash] == s.repo.worktree
    ensures MainHash(c, s'.repo) == MainHash(c, s.repo) && MainTree(c, s'.repo) == MainTree(c, s.repo)
    ensures s'.index == Mappings(c, MainTree(c, s.repo))
  {
    var s1 := EndNow(c, s, t, branch, true);
    var s2 := CommitAndPush(c, s1, t, branch, hash);
    var s3 := OpenPRNow(c, s2, t);
    var s4 := RestoreNow(c, s3, t);
    s' := ReceiveThenSync(c, s4, hash);
    var commit := [DoCommit(t, Committed(hash, s.repo.worktree)), Push(t, Ok), SendTx(t)];
    var a := [EndFunction(t, true)] + commit;
    var b := a + [OpenPR(t)];
    var d := b + [Restore(t), UnlockTx(t)];
    LeadsThen(c, s, [EndFunction(t, true)], s1, commit, s2);
    LeadsThen(c, s, a, s2, [OpenPR(t)], s3);
    LeadsThen(c, s, b, s3, [Restore(t), UnlockTx(t)], s4);
    LeadsThen(c, s, d, s4, [ReceiveCommit, Sync(true)], s');
    steps := d + [ReceiveCommit, Sync(true)];
    assert s'.threads == s.threads[t := Idle];
  }

  /** Main is brought to a transaction's own commit, which was announced before: nobody is told. */
  lemma MergedCommitIsSilent(c: Config, s: State, t: nat, branch: string, key: ObjectKey, hash: Hash)
    requires Given(c, s, t, branch, key) && hash !in s.repo.trees
    ensures exists steps :: RestsWrong(c, s, steps)
  {
    var a, s1 := DrainAndBegin(c, s, t, branch, key);
    var s2 := WriteNow(c, s1, t, branch, key, Malformed(""));
    OverwritingShows(c, s.repo.worktree, key);
    var b, s3 := CommitAndSync(c, s2, t, branch, hash);
    var s4 := StartPullNow(c, s3, t);
    var write, pull := [WriteObject(t, key, Malformed(""))], [StartPull(t), LockPull(t)];
    LeadsThen(c, s, a, s1, write, s2);
    LeadsThen(c, s, a + write, s2, b, s3);
    LeadsThen(c, s, (a + write) + b, s3, pull, s4);
    SilentEnd(c, s, ((a + write) + b) + pull, s4, t, Pulled(hash, s2.repo.worktree));
  }

  lemma SilentEnd(c: Config, s: State, steps: seq<Step>, m: State, t: nat, pulled: Pulled)
    requires Init(c, s) && Leads(c, s, steps, m)
    requires t < |m.threads| && m.lock == Some(t) && m.threads[t] == Pulling(Background)
    requires Consistent(m.repo, pulled) && m.repo.lastCommit == pulled.hash
    requires m.repo.chan == [] && !m.syncing && !m.deleted
    requires m.index == Mappings(c, MainTree(c, m.repo)) && Mappings(c, pulled.tree) != m.index
    ensures exists all :: RestsWrong(c, s, all)
  {
    MainRun(c, s, steps);
    PullKeepsIndexRight(c, m, t, pulled);
    var last := PullSteps(t, pulled, m.repo.lastCommit);
    var end := Run(c, m, last).value;
    LeadsThen(c, s, steps, m, last, end);
    RestsAnnounced(c, s, steps + last, end);
    assert RestsWrong(c, s, steps + last);
  }

  /** A commit is received, the walk of its sync fails, and the Pull that announced it ends. */
  lemma FailSyncAndUnlock(c: Config, s: State, t: nat, hash: Hash) returns (s': State)
    requires t < |s.threads| && s.threads[t] == PullExit(Background, true, true)
    requires s.repo.chan == [hash] && !s.syncing
    ensures Leads(c, s, [ReceiveCommit, Sync(false), UnlockPull(t)], s')
    ensures s' == s.(repo := s.repo.(chan := []), lock := None, threads := s.threads[t := Idle])
  {
    var s1 := Apply(c, s, ReceiveCommit);
    var s2 := Apply(c, s1, Sync(false));
    s' := UnlockAfterPull(c, s2, t);
    RunThree(c, s, s1, s2, s', ReceiveCommit, Sync(false), UnlockPull(t));
  }

  lemma DrainAndPull(c: Config, s: State, t: nat, branch: string, key: ObjectKey)
    returns (steps: seq<Step>, s': State)
    requires Given(c, s, t, branch, key)
    ensures Leads(c, s, steps, s')
    ensures s' == s.(repo := s.repo.(chan := []), lock := Some(t), threads := s.threads[t := Pulling(Background)],
                     index := Mappings(c, s.repo.worktree), syncing := false)
  {
    var s1 := FirstSync(c, s);
    var s2 := ReceiveThenSync(c, s1, s.repo.lastCommit);
    s' := StartPullNow(c, s2, t);
    var a := [Sync(true)] + [ReceiveCommit, Sync(true)];
    LeadsThen(c, s, [Sync(true)], s1, [ReceiveCommit, Sync(true)], s2);
    LeadsThen(c, s, a, s2, [StartPull(t), LockPull(t)], s');
    steps := a + [StartPull(t), LockPull(t)];
  }

  lemma PullThenFail(c: Config, s: State, t: nat, pulled: Pulled) returns (steps: seq<Step>, s': State)
    requires MainInv(c, s) && t < |s.threads| && s.lock == Some(t) && s.threads[t] == Pulling(Background)
    requires Consistent(s.repo, pulled) && s.repo.chan == [] && !s.syncing && 0 < c.capacity
    requires pulled.hash != s.repo.lastCommit
    ensures Leads(c, s, steps, s')
    ensures s'.lock == None && !s'.syncing && s'.repo.chan == [] && s'.index == s.index
    ensures s'.repo.lastCommit == MainHash(c, s'.repo) == pulled.hash && MainTree(c, s'.repo) == pulled.tree
  {
    var s1 := PullUpToSend(c, s, t, pulled);
    s' := FailSyncAndUnlock(c, s1, t, pulled.hash);
    var a := [DoFetch(t, Some(pulled), Ok), Compare(t, true), SendPull(t)];
    var b := [ReceiveCommit, Sync(false), UnlockPull(t)];
    LeadsThen(c, s, a, s1, b, s');
    steps := a + b;
  }

  /** Main moves and is announced, but the walk of the sync fails: nothing tries again. */
  lemma FailedWalkIsStale(c: Config, s: State, t: nat, branch: string, key: ObjectKey, hash: Hash)
    requires Given(c, s, t, branch, key) && hash !in s.repo.trees
    ensures exists steps :: RestsWrong(c, s, steps)
  {
    var pulled := Pulled(hash, s.repo.worktree[Mappings(c, s.repo.worktree)[key] := Malformed("")]);
    var a, m := DrainAndPull(c, s, t, branch, key);
    OverwritingShows(c, s.repo.worktree, key);
    MainRun(c, s, a);
    var b, end := PullThenFail(c, m, t, pulled);
    LeadsThen(c, s, a, m, b, end);
    RestsAnnounced(c, s, a + b, end);
    assert RestsWrong(c, s, a + b);
  }

  /** Where nothing is under way the last commit is the one announced last. */
  lemma RestsAnnounced(c: Config, s: State, steps: seq<Step>, end: State)
    requires Init(c, s) && Leads(c, s, steps, end)
    requires end.lock == None && end.repo.chan == [] && !end.syncing && end.repo.lastCommit == MainHash(c, end.repo)
    ensures AtRest(c, end)
  {
    AnnouncementsFollowHead(c, s, steps);
  }
}
