/** pkg/gitdir/gitdir.go: a clone with one worktree, and the announcements of new commits. */
module GitRepo {
  import opened Common
  import opened MappedStorage

  type Hash = nat

  /** Stands for the empty string: no commit has it as its hash. */
  const NO_COMMIT: Hash := 0

  /** `chan` holds the announced commits not yet received, `announced` all of them ever. */
  datatype Repo = Repo(
    head: string,
    branches: map<string, Hash>,
    trees: map<Hash, Tree>,
    worktree: Tree,
    lastCommit: Hash,
    chan: seq<Hash>,
    announced: seq<Hash>)

  /** Every branch, HEAD included, leads to a tree. */
  ghost predicate WellFormed(r: Repo, main: string) {
    && main in r.branches && r.head in r.branches
    && forall b | b in r.branches :: r.branches[b] in r.trees
  }

  /** HEAD is main and the worktree is main's tree. */
  predicate OnMainClean(r: Repo, main: string) {
    && r.head == main && main in r.branches && r.branches[main] in r.trees
    && r.worktree == r.trees[r.branches[main]]
  }

  /** No uncommitted change. */
  predicate IsClean(r: Repo) {
    r.head in r.branches && r.branches[r.head] in r.trees && r.worktree == r.trees[r.branches[r.head]]
  }

  /** How an operation run with a timeout is reported: the error of its context takes precedence
      over its own, so even one that did its work can be reported as timed out or cancelled. */
  datatype Verdict = Ok | TimedOut | Cancelled | Failed

  function WithTimeout(context: Option<Verdict>, own: Verdict): Verdict {
    if context.Some? then context.value else own
  }

  /** A pull that finds a new commit for the branch checked out. */
  datatype Pulled = Pulled(hash: Hash, tree: Tree)

  /** A hash names one tree for ever. */
  predicate Consistent(r: Repo, p: Pulled) {
    p.hash in r.trees ==> r.trees[p.hash] == p.tree
  }

  /** The pull moves the branch that is checked out, whichever that is, and its worktree. */
  function Fetch(r: Repo, pulled: Option<Pulled>): Repo {
    match pulled
    case None => r
    case Some(p) =>
      r.(branches := r.branches[r.head := p.hash], trees := r.trees[p.hash := p.tree], worktree := p.tree)
  }

  function Note(r: Repo, hash: Hash): Repo {
    r.(lastCommit := hash)
  }

  /** The send of the commit noted last. */
  function Send(r: Repo): Repo {
    r.(chan := r.chan + [r.lastCommit], announced := r.announced + [r.lastCommit])
  }

  /** A received commit leaves the channel. */
  function Receive(r: Repo, n: nat): Repo
    requires n <= |r.chan|
  {
    r.(chan := r.chan[n..])
  }

  /** How many commits are received before a send goes through: at least as many as make room. */
  function Received(capacity: nat, pending: nat, wanted: nat): (n: nat)
    requires 0 < capacity && pending <= capacity
    ensures n <= pending && pending - n < capacity
  {
    if wanted < pending then (if pending - wanted < capacity then wanted else 1) else pending
  }

  /** The commit is noted and sent, once there is room. */
  function Observe(r: Repo, hash: Hash, capacity: nat, wanted: nat): Repo
    requires 0 < capacity && |r.chan| <= capacity
  {
    Send(Receive(Note(r, hash), Received(capacity, |r.chan|, wanted)))
  }

  /** A checkout of a new branch either succeeds, or fails after having created the branch,
      moved HEAD to it, or left the worktree in some state. */
  datatype CheckoutResult = Switched | NotSwitched(created: bool, moved: bool, worktree: Tree)

  function CheckoutNew(r: Repo, branch: string, result: CheckoutResult): Repo
    requires r.head in r.branches
  {
    if branch in r.branches then r
    else
      var created := r.(branches := r.branches[branch := r.branches[r.head]]);
      match result
      case Switched => created.(head := branch)
      case NotSwitched(false, _, _) => r
      case NotSwitched(true, moved, worktree) =>
        if moved then created.(head := branch, worktree := worktree) else created.(worktree := worktree)
  }

  predicate CheckoutSucceeds(r: Repo, branch: string, result: CheckoutResult) {
    branch !in r.branches && result == Switched
  }

  /** Clean, then force-checkout of main. */
  function CheckoutMain(r: Repo, main: string): Repo
    requires main in r.branches && r.branches[main] in r.trees
  {
    r.(head := main, worktree := r.trees[r.branches[main]])
  }

  /** What a commit of the worktree can come to, once it is not clean. */
  datatype CommitResult = StatusFailed | CommitFailed | Committed(hash: Hash, tree: Tree)

  /** The new commit is fresh, and what it holds was taken from the worktree. */
  predicate Fresh(r: Repo, result: CommitResult) {
    match result
    case Committed(hash, tree) =>
      hash !in r.trees && forall p | p in tree :: p in r.worktree && r.worktree[p] == tree[p]
    case _ => true
  }

  function CommitOn(r: Repo, hash: Hash, tree: Tree): Repo {
    r.(branches := r.branches[r.head := hash], trees := r.trees[hash := tree])
  }

  // ------------------------------------------------------------------ the class

  datatype GitError = ErrNotStarted | ErrReadOnly | ErrTimeout | ErrGit

  class GitDirectory {
    const main: string
    const canWrite: bool
    const capacity: nat
    const disk: Disk
    var started: bool
    var locked: bool
    var head: string
    var branches: map<string, Hash>
    var trees: map<Hash, Tree>
    var lastCommit: Hash
    var chan: seq<Hash>
    ghost var announced: seq<Hash>

    ghost function State(): Repo
      reads this, disk
    {
      Repo(head, branches, trees, disk.files, lastCommit, chan, announced)
    }

    ghost predicate Valid()
      reads this, disk
    {
      0 < capacity && |chan| <= capacity && (started ==> WellFormed(State(), main))
    }

    /** Nothing is cloned yet. */
    constructor (main: string, canWrite: bool, capacity: nat, disk: Disk)
      requires 0 < capacity
      ensures this.disk == disk && this.main == main && this.canWrite == canWrite && this.capacity == capacity
      ensures Valid() && !started && !locked
      ensures lastCommit == NO_COMMIT && chan == [] && announced == []
    {
      this.main, this.canWrite, this.capacity, this.disk := main, canWrite, capacity, disk;
      started, locked := false, false;
      head, branches, trees := main, map[], map[];
      lastCommit, chan, announced := NO_COMMIT, [], [];
    }

    /** A clone that was made is used from then on, and its commit announced. */
    method UseClone(cloned: Pulled, headOk: bool, wanted: nat) returns (err: Option<GitError>)
      requires 0 < capacity && |chan| <= capacity
      modifies this, disk
      ensures Valid() && started && locked == old(locked)
      ensures head == main && branches == map[main := cloned.hash]
      ensures trees == map[cloned.hash := cloned.tree] && disk.files == cloned.tree
      ensures if headOk
              then err == None && lastCommit == cloned.hash && announced == old(announced) + [cloned.hash]
              else err == Some(ErrGit)
                   && lastCommit == old(lastCommit) && announced == old(announced) && chan == old(chan)
    {
      started := true;
      head, branches := main, map[main := cloned.hash];
      trees := map[cloned.hash := cloned.tree];
      disk.files := cloned.tree;
      if !headOk {
        return Some(ErrGit);
      }
      ObserveCommit(cloned.hash, wanted);
      err := None;
    }

    /** The clone, unless there is one: main is checked out and its commit announced. A clone that is
        cancelled is no error, but leaves nothing to work with; `files` is then what is on disk. */
    method StartCheckoutLoop(
      cloned: Pulled, files: Tree, context: Option<Verdict>, own: Verdict, headOk: bool, wanted: nat)
      returns (err: Option<GitError>)
      requires Valid() && cloned.hash != NO_COMMIT
      requires context.Some? ==> context.value == TimedOut || context.value == Cancelled
      modifies this, disk
      ensures Valid() && locked == old(locked)
      ensures old(started) ==> err == None && started && State() == old(State())
      ensures var verdict := WithTimeout(context, own);
              !old(started) ==>
                && (started <==> verdict == Ok)
                && (err == None <==> (verdict == Ok && headOk) || verdict == Cancelled)
                && (started ==>
                      && OnMainClean(State(), main) && disk.files == cloned.tree
                      && branches == map[main := cloned.hash])
                && (if started && headOk
                    then lastCommit == cloned.hash && announced == old(announced) + [cloned.hash]
                    else lastCommit == old(lastCommit) && announced == old(announced) && chan == old(chan))
      ensures !old(started) && context == None && own == Ok ==>
                && started && head == main && branches == map[main := cloned.hash]
                && trees == map[cloned.hash := cloned.tree] && disk.files == cloned.tree
                && err == if headOk then None else Some(ErrGit)
      ensures !old(started) && !(context == None && own == Ok) ==>
                && !started
                && err == if context == Some(TimedOut) || (context == None && own == TimedOut) then Some(ErrTimeout)
                          else if context == None && own == Failed then Some(ErrGit) else None
    {
      if started {
        return None;
      }
      match WithTimeout(context, own)
      case Ok =>
        err := UseClone(cloned, headOk, wanted);
      case TimedOut =>
        disk.files := files;
        err := Some(ErrTimeout);
      case Cancelled =>
        disk.files := files;
        err := None;
      case Failed =>
        disk.files := files;
        err := Some(ErrGit);
    }

    /** It waits until the lock is free. */
    method Suspend()
      requires !locked
      modifies this`locked
      ensures locked
    {
      locked := true;
    }

    method Resume()
      requires locked
      modifies this`locked
      ensures !locked
    {
      locked := false;
    }

    method VerifyRead() returns (err: Option<GitError>)
      ensures err == if started then None else Some(ErrNotStarted)
    {
      return if started then None else Some(ErrNotStarted);
    }

    method VerifyWrite() returns (err: Option<GitError>)
      ensures err == if !started then Some(ErrNotStarted) else if canWrite then None else Some(ErrReadOnly)
    {
      err := VerifyRead();
      if err == None && !canWrite {
        err := Some(ErrReadOnly);
      }
    }

    /** The send blocks while the channel is full: the other side receives meanwhile. */
    method ObserveCommit(commit: Hash, wanted: nat)
      requires 0 < capacity && |chan| <= capacity
      modifies this`lastCommit, this`chan, this`announced
      ensures State() == Observe(old(State()), commit, capacity, wanted)
      ensures lastCommit == commit && announced == old(announced) + [commit]
      ensures 0 < |chan| <= capacity && chan[|chan| - 1] == commit
    {
      lastCommit := commit;
      var received := Received(capacity, |chan|, wanted);
      chan := chan[received..] + [commit];
      announced := announced + [commit];
    }

    /** What go-git does with what it pulls. */
    method PullContext(pulled: Option<Pulled>)
      requires WellFormed(State(), main) && (pulled.Some? ==> Consistent(State(), pulled.value))
      modifies this`branches, this`trees, disk
      ensures State() == Fetch(old(State()), pulled) && WellFormed(State(), main)
    {
      if pulled.Some? {
        branches := branches[head := pulled.value.hash];
        trees := trees[pulled.value.hash := pulled.value.tree];
        disk.files := pulled.value.tree;
      }
    }

    /** Announces HEAD if it is not the commit announced last. */
    method CompareHead(headOk: bool, wanted: nat) returns (err: Option<GitError>)
      requires head in branches && 0 < capacity && |chan| <= capacity
      modifies this`lastCommit, this`chan, this`announced
      ensures err == if headOk then None else Some(ErrGit)
      ensures State() == if headOk && old(lastCommit) != branches[head]
                         then Observe(old(State()), branches[head], capacity, wanted) else old(State())
    {
      if !headOk {
        return Some(ErrGit);
      }
      if lastCommit != branches[head] {
        ObserveCommit(branches[head], wanted);
      }
      return None;
    }

    /** What the environment does during a Pull. */
    method Pull(pulled: Option<Pulled>, context: Option<Verdict>, own: Verdict, headOk: bool, wanted: nat)
      returns (err: Option<GitError>)
      requires Valid() && !locked && (started && pulled.Some? ==> Consistent(State(), pulled.value))
      requires context.Some? ==> context.value == TimedOut || context.value == Cancelled
      modifies this, disk
      ensures Valid() && !locked && started == old(started)
      ensures !started ==> err == Some(ErrNotStarted) && State() == old(State())
      ensures started ==>
                var r := Fetch(old(State()), pulled);
                var verdict := WithTimeout(context, own);
                var compared := verdict == Ok && headOk;
                && State() == (if compared && r.lastCommit != r.branches[r.head]
                               then Observe(r, r.branches[r.head], capacity, wanted) else r)
                && (err == None <==> compared || verdict == Cancelled)
                && (compared ==> lastCommit == branches[head])
      ensures old(announced) != [] && old(announced)[|old(announced)| - 1] == old(lastCommit) ==>
                announced != [] && announced[|announced| - 1] == lastCommit
      ensures started ==>
                && head == old(head)
                && branches == (if pulled == None then old(branches) else old(branches)[head := pulled.value.hash])
                && disk.files == (if pulled == None then old(disk.files) else pulled.value.tree)
      ensures started && context == None && own == Ok && headOk ==>
                && err == None && lastCommit == branches[head]
                && announced == old(announced) + if old(lastCommit) == branches[head] then [] else [branches[head]]
      ensures !(started && context == None && own == Ok && headOk) ==>
                lastCommit == old(lastCommit) && announced == old(announced) && chan == old(chan)
      ensures started ==>
                err == if context == Some(TimedOut) || (context == None && own == TimedOut) then Some(ErrTimeout)
                       else if context == None && (own == Failed || (own == Ok && !headOk)) then Some(ErrGit)
                       else None
    {
      locked := true;
      err := VerifyRead();
      if err != None {
        locked := false;
        return;
      }
      PullContext(pulled);
      match WithTimeout(context, own) {
        case Ok =>
          err := CompareHead(headOk, wanted);
        case TimedOut => err := Some(ErrTimeout);
        case Cancelled => err := None;
        case Failed => err := Some(ErrGit);
      }
      locked := false;
    }

    method CheckoutNewBranch(branch: string, result: CheckoutResult) returns (err: Option<GitError>)
      requires Valid()
      modifies this`head, this`branches, disk
      ensures Valid()
      ensures started && canWrite ==>
                && State() == CheckoutNew(old(State()), branch, result)
                && (err == None <==> CheckoutSucceeds(old(State()), branch, result))
      ensures !(started && canWrite) ==> err != None && State() == old(State())
      ensures err == None <==> started && canWrite && branch !in old(branches) && result == Switched
      ensures err == None ==>
                && head == branch && disk.files == old(disk.files)
                && branches == old(branches)[branch := old(branches)[old(head)]]
      ensures branch in old(branches) ==>
                head == old(head) && branches == old(branches) && disk.files == old(disk.files)
    {
      err := VerifyWrite();
      if err != None {
        return;
      }
      if branch in branches {
        return Some(ErrGit);
      }
      match result
      case Switched =>
        branches := branches[branch := branches[head]];
        head := branch;
      case NotSwitched(created, moved, worktree) =>
        err := Some(ErrGit);
        if created {
          branches := branches[branch := branches[head]];
          disk.files := worktree;
          if moved {
            head := branch;
          }
        }
    }

    method CheckoutMainBranch() returns (err: Option<GitError>)
      requires Valid()
      modifies this`head, disk
      ensures Valid()
      ensures started && canWrite ==>
                && err == None && State() == CheckoutMain(old(State()), main) && OnMainClean(State(), main)
                && head == main && disk.files == trees[branches[main]]
      ensures !(started && canWrite) ==> err != None && State() == old(State())
    {
      err := VerifyWrite();
      if err != None {
        return;
      }
      head := main;
      disk.files := trees[branches[main]];
    }

    /** Commits all changes and pushes them; announced only if the push is reported as done. */
    method Commit(result: CommitResult, context: Option<Verdict>, own: Verdict, wanted: nat)
      returns (err: Option<GitError>)
      requires Valid() && Fresh(State(), result)
      requires context.Some? ==> context.value == TimedOut || context.value == Cancelled
      modifies this
      ensures Valid() && locked == old(locked) && started == old(started)
      ensures var commits := started && canWrite && !IsClean(old(State())) && result.Committed?;
              var verdict := WithTimeout(context, own);
              if !commits then
                && State() == old(State())
                && (err == None <==> started && canWrite && !result.StatusFailed? && IsClean(old(State())))
              else
                var r := CommitOn(old(State()), result.hash, result.tree);
                && State() == (if verdict == Ok then Observe(r, result.hash, capacity, wanted) else r)
                && (err == None <==> verdict == Ok || verdict == Cancelled)
      ensures disk.files == old(disk.files) && head == old(head)
      ensures started && canWrite && disk.files != old(trees[branches[head]]) && result.Committed? ==>
                && branches == old(branches)[head := result.hash]
                && trees == old(trees)[result.hash := result.tree]
                && announced == old(announced) + (if context == None && own == Ok then [result.hash] else [])
                && err == (if context == Some(TimedOut) || (context == None && own == TimedOut) then Some(ErrTimeout)
                           else if context == None && own == Failed then Some(ErrGit) else None)
      ensures !(started && canWrite && disk.files != old(trees[branches[head]]) && result.Committed?) ==>
                && branches == old(branches) && trees == old(trees) && announced == old(announced)
                && (err == None <==>
                    started && canWrite && result != StatusFailed && disk.files == old(trees[branches[head]]))
    {
      err := VerifyWrite();
      if err != None {
        return;
      }
      if result == StatusFailed {
        return Some(ErrGit);
      }
      if disk.files == trees[branches[head]] {
        return None;
      }
      if result == CommitFailed {
        return Some(ErrGit);
      }
      branches := branches[head := result.hash];
      trees := trees[result.hash := result.tree];
      match WithTimeout(context, own)
      case Ok => ObserveCommit(result.hash, wanted);
      case TimedOut => err := Some(ErrTimeout);
      case Cancelled => err := None;
      case Failed => err := Some(ErrGit);
    }
  }
}
