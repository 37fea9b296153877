/**
 What every run of the file watcher keeps, whatever the interleaving of arriving events,
 Suspend calls, timers and flushes. Load followed by Store, and Range followed by the reset of
 the map, are each one atomic step; the code itself does not enforce that.
 */
module WatcherRuns {
  import opened Common
  import opened FileEvents
  import opened EventConcat
  import opened MovePairing
  import opened Batcher
  import opened FileWatcher

  datatype Step =
    | Arrive(e: Notify)
    | CallSuspend(event: FileEvent)
    | FireTimer
    | ReleaseBatch(order: seq<string>)
    | LoseHalf(cookie: nat)

  ghost predicate Enabled(w: Watcher, step: Step) {
    match step
    case Arrive(_) => true
    case CallSuspend(_) => true
    case FireTimer => w.batch.timer == Armed
    case ReleaseBatch(order) => 0 < w.batch.flushes && IsOrder(order, w.batch.entries)
    case LoseHalf(cookie) => cookie in w.caches && IsRename(w.caches[cookie])
  }

  ghost function Apply(w: Watcher, step: Step, extensions: seq<string>): Watcher
    requires Enabled(w, step)
  {
    match step
    case Arrive(e) => Monitor(w, e, extensions)
    case CallSuspend(event) => w.(suspendEvent := event)
    case FireTimer => w.(batch := w.batch.Fire())
    case ReleaseBatch(order) => Flush(w, order)
    case LoseHalf(cookie) => TimeOut(w, cookie)
  }

  /** The state after a list of steps from the start; None if some step cannot happen. */
  ghost function After(steps: seq<Step>, extensions: seq<string>): Option<Watcher> {
    if steps == [] then Some(INITIAL)
    else
      var before := After(steps[..|steps| - 1], extensions);
      if before.Some? && Enabled(before.value, steps[|steps| - 1])
      then Some(Apply(before.value, steps[|steps| - 1], extensions)) else None
  }

  // ------------------------------------------------------------------ histories

  /** All arrivals of relevant events. */
  ghost function Arrivals(steps: seq<Step>, extensions: seq<string>): seq<Notify> {
    if steps == [] then []
    else
      var last := steps[|steps| - 1];
      Arrivals(steps[..|steps| - 1], extensions)
      + if last.Arrive? && Relevant(last.e, extensions) then [last.e] else []
  }

  /** The arrivals that are not swallowed by a Suspend in force. */
  ghost function Accepted(steps: seq<Step>, extensions: seq<string>): seq<Notify>
    requires After(steps, extensions).Some?
  {
    if steps == [] then []
    else
      var front, last := steps[..|steps| - 1], steps[|steps| - 1];
      var w := After(front, extensions).value;
      Accepted(front, extensions)
      + if last.Arrive? && Relevant(last.e, extensions) && !Swallowed(w, last.e) then [last.e] else []
  }

  /** The lists handed over for one path by the batches released so far, concatenated. */
  ghost function Handed(steps: seq<Step>, extensions: seq<string>, path: string): seq<Notify>
    requires After(steps, extensions).Some?
  {
    if steps == [] then []
    else
      var front, last := steps[..|steps| - 1], steps[|steps| - 1];
      var w := After(front, extensions).value;
      Handed(front, extensions, path) + if last.ReleaseBatch? then Pending(w.batch.entries, path) else []
  }

  ghost function SuspendCalls(steps: seq<Step>): nat {
    if steps == [] then 0
    else SuspendCalls(steps[..|steps| - 1]) + if steps[|steps| - 1].CallSuspend? then 1 else 0
  }

  ghost function LostHalves(steps: seq<Step>): nat {
    if steps == [] then 0
    else LostHalves(steps[..|steps| - 1]) + if steps[|steps| - 1].LoseHalf? then 1 else 0
  }

  /** The rename halves in the lists of some paths. */
  ghost function HalvesIn(order: seq<string>, entries: map<string, seq<Notify>>): nat
    requires forall p | p in order :: p in entries
  {
    if order == [] then 0
    else HalvesIn(order[..|order| - 1], entries) + |Renames(entries[order[|order| - 1]])|
  }

  /** The rename halves in all lists handed over so far. */
  ghost function HalvesHanded(steps: seq<Step>, extensions: seq<string>): nat
    requires After(steps, extensions).Some?
  {
    if steps == [] then 0
    else
      var front, last := steps[..|steps| - 1], steps[|steps| - 1];
      var w := After(front, extensions).value;
      HalvesHanded(front, extensions)
      + if last.ReleaseBatch? then HalvesIn(last.order, w.batch.entries) else 0
  }

  // ------------------------------------------------------------------ conservation of events

  /** For each path, what was accepted is what was handed over followed by what is pending:
      nothing lost, nothing twice, nothing out of order. */
  lemma {:induction false} EventsConserved(steps: seq<Step>, extensions: seq<string>, path: string)
    requires After(steps, extensions).Some?
    ensures ForPath(Accepted(steps, extensions), path)
            == Handed(steps, extensions, path)
               + Pending(After(steps, extensions).value.batch.entries, path)
  {
    if steps != [] {
      var front, last := steps[..|steps| - 1], steps[|steps| - 1];
      EventsConserved(front, extensions, path);
      var accepted, handed := Accepted(front, extensions), Handed(front, extensions, path);
      var pending := Pending(After(front, extensions).value.batch.entries, path);
      if last.Arrive? {
        OneMoreAccepted(accepted, handed, pending, last.e, path);
        assert accepted + [] == accepted && handed + [] == handed;
      } else {
        assert accepted + [] == accepted && handed + [] == handed && (handed + pending) + [] == handed + pending;
      }
    }
  }

  lemma OneMoreAccepted(
    accepted: seq<Notify>, handed: seq<Notify>, pending: seq<Notify>, e: Notify, path: string)
    requires ForPath(accepted, path) == handed + pending
    ensures ForPath(accepted + [e], path) == handed + if e.path == path then pending + [e] else pending
  {
    assert [e][1..] == [];
    ForPathConcat(accepted, [e], path);
    assert (handed + pending) + [e] == handed + (pending + [e]);
  }

  /** Each arrival is accepted or dropped, and every drop is paid for by its own Suspend call. */
  lemma {:induction false} DropsBoundedBySuspends(steps: seq<Step>, extensions: seq<string>)
    requires After(steps, extensions).Some?
    ensures var drops := |Arrivals(steps, extensions)| - |Accepted(steps, extensions)|;
            var armed := if After(steps, extensions).value.suspendEvent == EventNone then 0 else 1;
            0 <= drops && drops + armed <= SuspendCalls(steps)
  {
    if steps != [] {
      DropsBoundedBySuspends(steps[..|steps| - 1], extensions);
    }
  }

  /** A stored event is always on its way: a timer runs or a flush waits to be received. */
  lemma {:induction false} BatchAlwaysReleased(steps: seq<Step>, extensions: seq<string>)
    requires After(steps, extensions).Some?
    ensures After(steps, extensions).value.batch.Live()
  {
    if steps != [] {
      BatchAlwaysReleased(steps[..|steps| - 1], extensions);
    }
  }

  // ------------------------------------------------------------------ conservation of rename halves

  lemma MovesOfOne(u: FileUpdate)
    ensures Moves([u]) == if u.event == EventMove then 1 else 0
  {
    assert [u][..0] == [];
  }

  /** One half: paired, it makes one MOVE of two; otherwise it is cached. */
  lemma MoveBalance(caches: Caches, e: Notify)
    requires GoodCaches(caches) && IsRename(e)
    ensures var m := Move(caches, e);
            && GoodCaches(m.caches)
            && |caches| + 1 == |m.caches| + (if m.update.Some? then 2 else 0)
            && (m.update.Some? ==> m.update.value.event == EventMove)
  {
    var m := Move(caches, e);
    if e.cookie in caches {
      assert m.caches.Keys == caches.Keys - {e.cookie};
    } else {
      assert m.caches.Keys == caches.Keys + {e.cookie};
    }
  }

  /** The updates that one more event adds to a converted list. */
  function Added(caches: Caches, e: Notify): Emitted {
    if IsRename(e) then
      var m := Move(caches, e);
      Emitted(if m.update.Some? then [m.update.value] else [], m.caches)
    else Emitted([ConvertUpdate(e)], caches)
  }

  lemma ConvertAdds(front: seq<Notify>, e: Notify, caches: Caches)
    ensures var mid := Convert(front, caches);
            Convert(front + [e], caches)
            == Emitted(mid.updates + Added(mid.caches, e).updates, Added(mid.caches, e).caches)
  {
    assert (front + [e])[..|front|] == front;
  }

  lemma AddedBalance(caches: Caches, e: Notify)
    requires GoodCaches(caches)
    ensures var out := Added(caches, e);
            && GoodCaches(out.caches)
            && |Renames([e])| + |caches| == 2 * Moves(out.updates) + |out.caches|
  {
    assert [e][1..] == [];
    if IsRename(e) {
      MoveBalance(caches, e);
      if Move(caches, e).update.Some? {
        MovesOfOne(Move(caches, e).update.value);
      }
    } else {
      MovesOfOne(ConvertUpdate(e));
    }
  }

  lemma {:induction false} ConvertBalance(events: seq<Notify>, caches: Caches)
    requires GoodCaches(caches)
    ensures var out := Convert(events, caches);
            && GoodCaches(out.caches)
            && |Renames(events)| + |caches| == 2 * Moves(out.updates) + |out.caches|
  {
    if events != [] {
      var front, e := events[..|events| - 1], events[|events| - 1];
      assert events == front + [e];
      ConvertBalance(front, caches);
      RenamesConcat(front, [e]);
      var mid := Convert(front, caches);
      ConvertAdds(front, e, caches);
      AddedBalance(mid.caches, e);
      MovesConcat(mid.updates, Added(mid.caches, e).updates);
    }
  }

  lemma {:induction false} DispatchBalance(order: seq<string>, entries: map<string, seq<Notify>>, caches: Caches)
    requires forall p | p in order :: p in entries
    requires GoodCaches(caches)
    ensures var out := DispatchAll(order, entries, caches);
            && GoodCaches(out.caches)
            && HalvesIn(order, entries) + |caches| == 2 * Moves(out.updates) + |out.caches|
  {
    if order != [] {
      var front, list := order[..|order| - 1], entries[order[|order| - 1]];
      DispatchBalance(front, entries, caches);
      var mid := DispatchAll(front, entries, caches);
      ConvertBalance(Concatenated(list), mid.caches);
      ConcatenatedKeepsRenames(list);
      MovesConcat(mid.updates, Convert(Concatenated(list), mid.caches).updates);
    }
  }

  /** Over whole runs: each half handed over is half of a MOVE, one timeout update, or cached. */
  lemma {:induction false} RenameHalvesConserved(steps: seq<Step>, extensions: seq<string>)
    requires After(steps, extensions).Some?
    ensures var w := After(steps, extensions).value;
            && GoodCaches(w.caches)
            && HalvesHanded(steps, extensions) == 2 * Moves(w.updates) + LostHalves(steps) + |w.caches|
  {
    if steps != [] {
      var front, last := steps[..|steps| - 1], steps[|steps| - 1];
      RenameHalvesConserved(front, extensions);
      var w, v := After(front, extensions).value, After(steps, extensions).value;
      match last
      case ReleaseBatch(order) =>
        DispatchBalance(order, w.batch.entries, w.caches);
        MovesConcat(w.updates, DispatchAll(order, w.batch.entries, w.caches).updates);
      case LoseHalf(cookie) =>
        assert v.caches.Keys == w.caches.Keys - {cookie};
        MovesConcat(w.updates, [Incomplete(w.caches[cookie])]);
        MovesOfOne(Incomplete(w.caches[cookie]));
      case _ =>
    }
  }

  // ------------------------------------------------------------------ where MOVEs come from

  /** The arrivals, for pairing, of some rename halves. */
  function HalfSteps(halves: seq<Notify>): seq<PairStep> {
    if halves == [] then [] else HalfSteps(halves[..|halves| - 1]) + [Half(halves[|halves| - 1])]
  }

  function BatchSteps(order: seq<string>, entries: map<string, seq<Notify>>): seq<PairStep>
    requires forall p | p in order :: p in entries
  {
    if order == [] then []
    else BatchSteps(order[..|order| - 1], entries) + HalfSteps(Renames(entries[order[|order| - 1]]))
  }

  /** What a run of the watcher does for pairing: the halves it hands over, and their timeouts. */
  ghost function PairSteps(steps: seq<Step>, extensions: seq<string>): seq<PairStep>
    requires After(steps, extensions).Some?
  {
    if steps == [] then []
    else
      var front, last := steps[..|steps| - 1], steps[|steps| - 1];
      var w := After(front, extensions).value;
      PairSteps(front, extensions)
      + match last
        case ReleaseBatch(order) => BatchSteps(order, w.batch.entries)
        case LoseHalf(cookie) => [Expire(cookie)]
        case _ => []
  }

  /** What plain events are sent as. */
  function PlainOf(events: seq<Notify>): seq<FileUpdate> {
    if events == [] then []
    else
      var e := events[|events| - 1];
      PlainOf(events[..|events| - 1])
      + match e.kind
        case InDelete => [FileUpdate(EventDelete, e.path)]
        case InCloseWrite => [FileUpdate(EventModify, e.path)]
        case _ => []
  }

  function PlainOfBatch(order: seq<string>, entries: map<string, seq<Notify>>): seq<FileUpdate>
    requires forall p | p in order :: p in entries
  {
    if order == [] then []
    else PlainOfBatch(order[..|order| - 1], entries) + PlainOf(Concatenated(entries[order[|order| - 1]]))
  }

  /** What the plain events of a run are sent as, batch by batch. */
  ghost function PlainUpdates(steps: seq<Step>, extensions: seq<string>): seq<FileUpdate>
    requires After(steps, extensions).Some?
  {
    if steps == [] then []
    else
      var front, last := steps[..|steps| - 1], steps[|steps| - 1];
      var w := After(front, extensions).value;
      PlainUpdates(front, extensions)
      + match last
        case ReleaseBatch(order) => PlainOfBatch(order, w.batch.entries)
        case _ => []
  }

  /** The third list is made of the other two, each in its order. */
  predicate Shuffle<T(==)>(a: seq<T>, b: seq<T>, c: seq<T>)
    decreases |c|
  {
    if c == [] then a == [] && b == []
    else
      || (a != [] && a[|a| - 1] == c[|c| - 1] && Shuffle(a[..|a| - 1], b, c[..|c| - 1]))
      || (b != [] && b[|b| - 1] == c[|c| - 1] && Shuffle(a, b[..|b| - 1], c[..|c| - 1]))
  }

  lemma ShuffleLeft<T>(a: seq<T>, b: seq<T>, c: seq<T>, x: T)
    requires Shuffle(a, b, c)
    ensures Shuffle(a + [x], b, c + [x])
  {
    assert (a + [x])[..|a|] == a && (c + [x])[..|c|] == c;
  }

  lemma ShuffleRight<T>(a: seq<T>, b: seq<T>, c: seq<T>, x: T)
    requires Shuffle(a, b, c)
    ensures Shuffle(a, b + [x], c + [x])
  {
    assert (b + [x])[..|b|] == b && (c + [x])[..|c|] == c;
  }

  lemma {:induction false} ShuffleWithin<T>(a: seq<T>, b: seq<T>, c: seq<T>)
    requires Shuffle(a, b, c)
    ensures forall x | x in c :: x in a || x in b
    ensures |c| == |a| + |b|
    decreases |c|
  {
    if c != [] {
      if a != [] && a[|a| - 1] == c[|c| - 1] && Shuffle(a[..|a| - 1], b, c[..|c| - 1]) {
        ShuffleWithin(a[..|a| - 1], b, c[..|c| - 1]);
      } else {
        ShuffleWithin(a, b[..|b| - 1], c[..|c| - 1]);
      }
    }
  }

  lemma {:induction false} ShuffleAlone<T>(a: seq<T>, c: seq<T>)
    requires Shuffle(a, [], c)
    ensures c == a
    decreases |c|
  {
    if c != [] {
      ShuffleAlone(a[..|a| - 1], c[..|c| - 1]);
    }
  }

  /** Pairing has got as far as the watcher: the same cache; and the updates sent are those of pairing,
      in their order, among the plain ones. */
  ghost predicate Follows(
    pairing: seq<PairStep>, plain: seq<FileUpdate>, caches: Caches, updates: seq<FileUpdate>)
  {
    && PairRun(pairing).Some? && PairRun(pairing).value.caches == caches
    && Shuffle(PairRun(pairing).value.updates, plain, updates)
  }

  /** One more half or timeout, and what it sends, if anything. */
  lemma FollowsStep(
    pairing: seq<PairStep>, plain: seq<FileUpdate>, caches: Caches, updates: seq<FileUpdate>,
    step: PairStep, more: seq<FileUpdate>)
    requires Follows(pairing, plain, caches, updates) && PairEnabled(PairRun(pairing).value, step)
    requires |more| <= 1 && PairApply(PairRun(pairing).value, step).updates == PairRun(pairing).value.updates + more
    ensures Follows(pairing + [step], plain, PairApply(PairRun(pairing).value, step).caches, updates + more)
  {
    var sent := PairRun(pairing).value.updates;
    assert (pairing + [step])[..|pairing|] == pairing;
    if more == [] {
      assert sent + more == sent && updates + more == updates;
    } else {
      assert more == [more[0]];
      ShuffleLeft(sent, plain, updates, more[0]);
    }
  }

  lemma FollowsPlain(
    pairing: seq<PairStep>, plain: seq<FileUpdate>, caches: Caches, updates: seq<FileUpdate>, u: FileUpdate)
    requires Follows(pairing, plain, caches, updates)
    ensures Follows(pairing, plain + [u], caches, updates + [u])
  {
    ShuffleRight(PairRun(pairing).value.updates, plain, updates, u);
  }

  lemma HalfStepsOfOne(halves: seq<Notify>, e: Notify)
    ensures HalfSteps(halves + [e]) == HalfSteps(halves) + [Half(e)]
  {
    assert (halves + [e])[..|halves|] == halves;
  }

  lemma PlainOfOne(front: seq<Notify>, e: Notify)
    ensures PlainOf(front + [e]) == PlainOf(front) + if IsRename(e) then [] else [ConvertUpdate(e)]
  {
    assert (front + [e])[..|front|] == front;
  }

  /** One more event of a list. */
  lemma EventFollows(
    pairing: seq<PairStep>, plain: seq<FileUpdate>, updates: seq<FileUpdate>, mid: Emitted,
    front: seq<Notify>, e: Notify)
    requires Follows(pairing + HalfSteps(Renames(front)), plain + PlainOf(front), mid.caches, updates + mid.updates)
    ensures var added := Added(mid.caches, e);
            Follows(pairing + HalfSteps(Renames(front + [e])), plain + PlainOf(front + [e]),
                    added.caches, updates + (mid.updates + added.updates))
  {
    var added := Added(mid.caches, e);
    RenamesConcat(front, [e]);
    RenamesOfOne(e);
    PlainOfOne(front, e);
    Regroup(updates, mid.updates, added.updates);
    var sofar := pairing + HalfSteps(Renames(front));
    if IsRename(e) {
      NothingMore(PlainOf(front));
      FollowsStep(sofar, plain + PlainOf(front), mid.caches, updates + mid.updates, Half(e), added.updates);
      HalfStepsOfOne(Renames(front), e);
      Regroup(pairing, HalfSteps(Renames(front)), [Half(e)]);
    } else {
      NothingMore(Renames(front));
      FollowsPlain(sofar, plain + PlainOf(front), mid.caches, updates + mid.updates, ConvertUpdate(e));
      Regroup(plain, PlainOf(front), [ConvertUpdate(e)]);
    }
  }

  lemma RenamesOfOne(e: Notify)
    ensures Renames([e]) == if IsRename(e) then [e] else []
  {
    assert [e][1..] == [];
  }

  lemma NothingMore<T>(a: seq<T>)
    ensures a + [] == a
  {}

  lemma Regroup<T>(a: seq<T>, b: seq<T>, c: seq<T>)
    ensures (a + b) + c == a + (b + c)
  {}

  lemma {:induction false} ConvertFollows(
    pairing: seq<PairStep>, plain: seq<FileUpdate>, caches: Caches, updates: seq<FileUpdate>, events: seq<Notify>)
    requires Follows(pairing, plain, caches, updates)
    ensures var out := Convert(events, caches);
            Follows(pairing + HalfSteps(Renames(events)), plain + PlainOf(events), out.caches, updates + out.updates)
  {
    if events == [] {
      NothingMore(pairing);
      NothingMore(plain);
      NothingMore(updates);
    } else {
      var front, e := events[..|events| - 1], events[|events| - 1];
      ConvertFollows(pairing, plain, caches, updates, front);
      ConvertAdds(front, e, caches);
      EventFollows(pairing, plain, updates, Convert(front, caches), front, e);
      assert events == front + [e];
    }
  }

  lemma ListFollows(
    pairing: seq<PairStep>, more: seq<PairStep>, plain: seq<FileUpdate>, morePlain: seq<FileUpdate>,
    updates: seq<FileUpdate>, mid: Emitted, list: seq<Notify>)
    requires Follows(pairing + more, plain + morePlain, mid.caches, updates + mid.updates)
    ensures var last := Convert(Concatenated(list), mid.caches);
            Follows(pairing + (more + HalfSteps(Renames(list))), plain + (morePlain + PlainOf(Concatenated(list))),
                    last.caches, updates + (mid.updates + last.updates))
  {
    ConvertFollows(pairing + more, plain + morePlain, mid.caches, updates + mid.updates, Concatenated(list));
    ConcatenatedKeepsRenames(list);
    Regroup(updates, mid.updates, Convert(Concatenated(list), mid.caches).updates);
    Regroup(pairing, more, HalfSteps(Renames(list)));
    Regroup(plain, morePlain, PlainOf(Concatenated(list)));
  }

  lemma {:induction false} DispatchFollows(
    pairing: seq<PairStep>, plain: seq<FileUpdate>, caches: Caches, updates: seq<FileUpdate>,
    order: seq<string>, entries: map<string, seq<Notify>>)
    requires Follows(pairing, plain, caches, updates) && forall p | p in order :: p in entries
    ensures var out := DispatchAll(order, entries, caches);
            Follows(pairing + BatchSteps(order, entries), plain + PlainOfBatch(order, entries),
                    out.caches, updates + out.updates)
  {
    if order == [] {
      NothingMore(pairing);
      NothingMore(plain);
      NothingMore(updates);
    } else {
      var front, p := order[..|order| - 1], order[|order| - 1];
      DispatchFollows(pairing, plain, caches, updates, front, entries);
      ListFollows(pairing, BatchSteps(front, entries), plain, PlainOfBatch(front, entries), updates,
                  DispatchAll(front, entries, caches), entries[p]);
    }
  }

  /** Over whole runs: the cache is that of pairing, and the updates sent are the MOVEs and timeouts of
      pairing, in their order, among those of plain events. */
  lemma {:induction false} RunFollows(steps: seq<Step>, extensions: seq<string>)
    requires After(steps, extensions).Some?
    ensures var w := After(steps, extensions).value;
            Follows(PairSteps(steps, extensions), PlainUpdates(steps, extensions), w.caches, w.updates)
  {
    if steps != [] {
      var front, last := steps[..|steps| - 1], steps[|steps| - 1];
      RunFollows(front, extensions);
      var w := After(front, extensions).value;
      var pairing, plain := PairSteps(front, extensions), PlainUpdates(front, extensions);
      match last
      case ReleaseBatch(order) => DispatchFollows(pairing, plain, w.caches, w.updates, order, w.batch.entries);
      case LoseHalf(cookie) =>
        FollowsStep(pairing, plain, w.caches, w.updates, Expire(cookie), [Incomplete(w.caches[cookie])]);
        NothingMore(plain);
      case _ =>
        NothingMore(pairing);
        NothingMore(plain);
    }
  }

  /** A timeout sends one update, for the path of the half that was cached: DELETE if it was moved from
      there, MODIFY if it was moved to there. */
  lemma TimeoutSends(steps: seq<Step>, extensions: seq<string>, cookie: nat)
    requires After(steps + [LoseHalf(cookie)], extensions).Some?
    ensures After(steps, extensions).Some?
    ensures var w, v := After(steps, extensions).value, After(steps + [LoseHalf(cookie)], extensions).value;
            && cookie in w.caches
            && v == w.(caches := w.caches - {cookie}, updates := w.updates + [
                       FileUpdate(if w.caches[cookie].kind == InMovedFrom then EventDelete else EventModify,
                                  w.caches[cookie].path)])
  {
    assert (steps + [LoseHalf(cookie)])[..|steps|] == steps;
  }

  // ------------------------------------------------------------------ no half is lost

  /** The rename halves in the lists of some paths, without their order. */
  function Gathered(order: seq<string>, entries: map<string, seq<Notify>>): multiset<Notify>
    requires forall p | p in order :: p in entries
  {
    if order == [] then multiset{}
    else Gathered(order[..|order| - 1], entries) + multiset(Renames(entries[order[|order| - 1]]))
  }

  /** The list of a path holds events of that path only. */
  ghost predicate OwnPaths(entries: map<string, seq<Notify>>) {
    forall p | p in entries :: forall e | e in entries[p] :: e.path == p
  }

  lemma {:induction false} OwnPathsRun(steps: seq<Step>, extensions: seq<string>)
    requires After(steps, extensions).Some?
    ensures OwnPaths(After(steps, extensions).value.batch.entries)
  {
    if steps != [] {
      OwnPathsRun(steps[..|steps| - 1], extensions);
    }
  }

  lemma {:induction false} RenamesWithin(events: seq<Notify>)
    ensures forall e | e in Renames(events) :: e in events && IsRename(e)
  {
    if events != [] {
      RenamesWithin(events[1..]);
      assert forall e | e in events[1..] :: e in events;
    }
  }

  /** Each event is gathered from the list of its own path. */
  lemma {:induction false} GatheredAt(order: seq<string>, entries: map<string, seq<Notify>>, e: Notify)
    requires (forall p | p in order :: p in entries) && OwnPaths(entries)
    requires forall i, j | 0 <= i < j < |order| :: order[i] != order[j]
    ensures Gathered(order, entries)[e]
            == if e.path in order then multiset(Renames(entries[e.path]))[e] else 0
  {
    if order != [] {
      var front, q := order[..|order| - 1], order[|order| - 1];
      assert order == front + [q] && q !in front;
      GatheredAt(front, entries, e);
      if e.path != q {
        RenamesWithin(entries[q]);
        assert e !in Renames(entries[q]);
      }
    }
  }

  lemma {:induction false} HalvesConcat(a: seq<PairStep>, b: seq<PairStep>)
    ensures Halves(a + b) == Halves(a) + Halves(b)
  {
    if b == [] {
      assert a + b == a;
    } else {
      var front, last := b[..|b| - 1], b[|b| - 1];
      assert (a + b)[..|a + b| - 1] == a + front;
      HalvesConcat(a, front);
    }
  }

  lemma {:induction false} HalvesOfSteps(halves: seq<Notify>)
    ensures Halves(HalfSteps(halves)) == halves
  {
    if halves != [] {
      var front, last := halves[..|halves| - 1], halves[|halves| - 1];
      HalvesOfSteps(front);
      HalvesConcat(HalfSteps(front), [Half(last)]);
      assert [Half(last)][..0] == [] && halves == front + [last];
    }
  }

  lemma {:induction false} HalvesOfBatch(order: seq<string>, entries: map<string, seq<Notify>>)
    requires forall p | p in order :: p in entries
    ensures multiset(Halves(BatchSteps(order, entries))) == Gathered(order, entries)
    ensures |Halves(BatchSteps(order, entries))| == HalvesIn(order, entries)
  {
    if order != [] {
      var front, list := order[..|order| - 1], entries[order[|order| - 1]];
      HalvesOfBatch(front, entries);
      HalvesConcat(BatchSteps(front, entries), HalfSteps(Renames(list)));
      HalvesOfSteps(Renames(list));
    }
  }

  /** What is handed over of an event is what its own path handed over. */
  lemma {:induction false} HandedAt(steps: seq<Step>, extensions: seq<string>, e: Notify)
    requires After(steps, extensions).Some?
    ensures multiset(Halves(PairSteps(steps, extensions)))[e]
            == multiset(Renames(Handed(steps, extensions, e.path)))[e]
    ensures |Halves(PairSteps(steps, extensions))| == HalvesHanded(steps, extensions)
  {
    if steps != [] {
      var front, last := steps[..|steps| - 1], steps[|steps| - 1];
      HandedAt(front, extensions, e);
      var w, pairing := After(front, extensions).value, PairSteps(front, extensions);
      match last
      case ReleaseBatch(order) =>
        HalvesConcat(pairing, BatchSteps(order, w.batch.entries));
        HalvesOfBatch(order, w.batch.entries);
        OwnPathsRun(front, extensions);
        GatheredAt(order, w.batch.entries, e);
        RenamesConcat(Handed(front, extensions, e.path), Pending(w.batch.entries, e.path));
      case LoseHalf(cookie) =>
        HalvesConcat(pairing, [Expire(cookie)]);
        assert [Expire(cookie)][..0] == [];
        assert Handed(front, extensions, e.path) + [] == Handed(front, extensions, e.path);
      case _ =>
        assert pairing + [] == pairing;
        assert Handed(front, extensions, e.path) + [] == Handed(front, extensions, e.path);
    }
  }

  lemma {:induction false} CountOfPath(events: seq<Notify>, e: Notify)
    ensures multiset(Renames(events))[e] == multiset(Renames(ForPath(events, e.path)))[e]
  {
    if events != [] {
      var first, rest := events[0], events[1..];
      CountOfPath(rest, e);
      RenamesConcat([first], rest);
      RenamesConcat(if first.path == e.path then [first] else [], ForPath(rest, e.path));
      assert events == [first] + rest && [first][1..] == [];
    }
  }

  /** The rename halves accepted are those handed over and those pending. */
  lemma HalvesAccounted(steps: seq<Step>, extensions: seq<string>, order: seq<string>)
    requires After(steps, extensions).Some?
    requires IsOrder(order, After(steps, extensions).value.batch.entries)
    ensures multiset(Renames(Accepted(steps, extensions)))
            == multiset(Halves(PairSteps(steps, extensions)))
               + Gathered(order, After(steps, extensions).value.batch.entries)
  {
    var entries := After(steps, extensions).value.batch.entries;
    forall e
      ensures multiset(Renames(Accepted(steps, extensions)))[e]
              == multiset(Halves(PairSteps(steps, extensions)))[e] + Gathered(order, entries)[e]
    {
      CountOfPath(Accepted(steps, extensions), e);
      EventsConserved(steps, extensions, e.path);
      RenamesConcat(Handed(steps, extensions, e.path), Pending(entries, e.path));
      HandedAt(steps, extensions, e);
      OwnPathsRun(steps, extensions);
      GatheredAt(order, entries, e);
    }
  }

  /** No rename half that arrives is ever lost: it is still pending, half of a MOVE, one timeout
      update, or cached. */
  lemma NoHalfIsLost(steps: seq<Step>, extensions: seq<string>, order: seq<string>)
    requires After(steps, extensions).Some?
    requires IsOrder(order, After(steps, extensions).value.batch.entries)
    ensures var w := After(steps, extensions).value;
            |Renames(Arrivals(steps, extensions))|
            == HalvesIn(order, w.batch.entries) + 2 * Moves(w.updates) + LostHalves(steps) + |w.caches|
  {
    var w := After(steps, extensions).value;
    HalvesAccepted(steps, extensions);
    HalvesAccounted(steps, extensions, order);
    RenameHalvesConserved(steps, extensions);
    HandedAt(steps, extensions, Notify(InMovedTo, "", 0, false));
    HalvesOfBatch(order, w.batch.entries);
    assert |multiset(Renames(Accepted(steps, extensions)))| == |Renames(Accepted(steps, extensions))|;
    assert |Gathered(order, w.batch.entries)| == HalvesIn(order, w.batch.entries);
  }

  // ------------------------------------------------------------------ cookies used once

  lemma {:induction false} TwoPlaces(s: seq<Notify>, e: Notify) returns (i: nat, j: nat)
    requires multiset(s)[e] >= 2
    ensures i < j < |s| && s[i] == e && s[j] == e
  {
    var front, last := s[..|s| - 1], s[|s| - 1];
    assert s == front + [last];
    if last == e {
      assert e in front;
      i :| 0 <= i < |front| && front[i] == e;
      j := |front|;
    } else {
      i, j := TwoPlaces(front, e);
    }
  }

  lemma TwoOf(s: seq<Notify>, i: nat, j: nat)
    requires i < j < |s| && s[i] == s[j]
    ensures multiset(s)[s[i]] >= 2
  {
    assert s == s[..j] + s[j..];
    assert s[..j][i] in s[..j] && s[j..][0] in s[j..];
  }

  /** A part of some halves uses each cookie no more often. */
  lemma UniqueWithin(part: seq<Notify>, halves: seq<Notify>)
    requires multiset(part) <= multiset(halves) && UniqueHalves(halves)
    ensures UniqueHalves(part)
  {
    forall i, j | 0 <= i < j < |part| && part[i].cookie == part[j].cookie
      ensures part[i].kind != part[j].kind
    {
      if part[i] == part[j] {
        TwoOf(part, i, j);
        var k, l := TwoPlaces(halves, part[i]);
      } else {
        assert part[i] in multiset(part) && part[j] in multiset(part);
        var k :| 0 <= k < |halves| && halves[k] == part[i];
        var l :| 0 <= l < |halves| && halves[l] == part[j];
      }
    }
  }

  /** Every rename half that arrives is accepted: no Suspend is for one. */
  lemma {:induction false} HalvesAccepted(steps: seq<Step>, extensions: seq<string>)
    requires After(steps, extensions).Some?
    ensures Renames(Accepted(steps, extensions)) == Renames(Arrivals(steps, extensions))
  {
    if steps != [] {
      var front, last := steps[..|steps| - 1], steps[|steps| - 1];
      HalvesAccepted(front, extensions);
      var accepted, arrivals := Accepted(front, extensions), Arrivals(front, extensions);
      NothingMore(accepted);
      NothingMore(arrivals);
      if last.Arrive? {
        RenamesConcat(accepted, [last.e]);
        RenamesConcat(arrivals, [last.e]);
        RenamesOfOne(last.e);
        NothingMore(Renames(accepted));
      }
    }
  }

  /** What is handed over for pairing has arrived. */
  lemma HandedArrived(steps: seq<Step>, extensions: seq<string>)
    requires After(steps, extensions).Some?
    ensures multiset(Halves(PairSteps(steps, extensions))) <= multiset(Renames(Arrivals(steps, extensions)))
  {
    HalvesAccepted(steps, extensions);
    forall e
      ensures multiset(Halves(PairSteps(steps, extensions)))[e] <= multiset(Renames(Accepted(steps, extensions)))[e]
    {
      HandedAt(steps, extensions, e);
      CountOfPath(Accepted(steps, extensions), e);
      EventsConserved(steps, extensions, e.path);
      RenamesConcat(Handed(steps, extensions, e.path),
                    Pending(After(steps, extensions).value.batch.entries, e.path));
    }
  }

  lemma {:induction false} PlainIsNoMove(steps: seq<Step>, extensions: seq<string>)
    requires After(steps, extensions).Some?
    ensures forall u | u in PlainUpdates(steps, extensions) :: u.event != EventMove
  {
    if steps != [] {
      var front, last := steps[..|steps| - 1], steps[|steps| - 1];
      PlainIsNoMove(front, extensions);
      if last.ReleaseBatch? {
        BatchIsNoMove(last.order, After(front, extensions).value.batch.entries);
      }
    }
  }

  lemma {:induction false} BatchIsNoMove(order: seq<string>, entries: map<string, seq<Notify>>)
    requires forall p | p in order :: p in entries
    ensures forall u | u in PlainOfBatch(order, entries) :: u.event != EventMove
  {
    if order != [] {
      BatchIsNoMove(order[..|order| - 1], entries);
      ListIsNoMove(Concatenated(entries[order[|order| - 1]]));
    }
  }

  lemma {:induction false} ListIsNoMove(events: seq<Notify>)
    ensures forall u | u in PlainOf(events) :: u.event != EventMove
  {
    if events != [] {
      ListIsNoMove(events[..|events| - 1]);
    }
  }

  lemma MoveIsOfPairing(steps: seq<Step>, extensions: seq<string>)
    requires After(steps, extensions).Some?
    ensures PairRun(PairSteps(steps, extensions)).Some?
    ensures forall u | u in After(steps, extensions).value.updates && u.event == EventMove ::
              u in PairRun(PairSteps(steps, extensions)).value.updates
  {
    RunFollows(steps, extensions);
    PlainIsNoMove(steps, extensions);
    ShuffleWithin(PairRun(PairSteps(steps, extensions)).value.updates, PlainUpdates(steps, extensions),
                  After(steps, extensions).value.updates);
  }

  /** Over whole runs of the watcher, if each cookie arrives in at most one FROM and one TO: every MOVE
      sent is of two halves that arrived, and carries the TO path. */
  lemma MovesCarryDestination(steps: seq<Step>, extensions: seq<string>)
    requires After(steps, extensions).Some? && UniqueHalves(Renames(Arrivals(steps, extensions)))
    ensures forall u | u in After(steps, extensions).value.updates && u.event == EventMove ::
              IsMoveOf(Renames(Arrivals(steps, extensions)), u)
  {
    var handed, arrived := Halves(PairSteps(steps, extensions)), Renames(Arrivals(steps, extensions));
    HandedArrived(steps, extensions);
    UniqueWithin(handed, arrived);
    MoveIsOfPairing(steps, extensions);
    MoveCarriesDestination(PairSteps(steps, extensions));
    forall u | u in After(steps, extensions).value.updates && u.event == EventMove
      ensures IsMoveOf(arrived, u)
    {
      MoveWithin(handed, arrived, u);
    }
  }

  lemma MoveWithin(part: seq<Notify>, halves: seq<Notify>, u: FileUpdate)
    requires multiset(part) <= multiset(halves) && IsMoveOf(part, u)
    ensures IsMoveOf(halves, u)
  {
    forall e | e in part
      ensures e in halves
    {
      assert e in multiset(part);
    }
  }

  // ------------------------------------------------------------------ runs of rename halves only

  predicate AllRenames(events: seq<Notify>) {
    forall e | e in events :: IsRename(e)
  }

  lemma {:induction false} RenamesSendNothingPlain(events: seq<Notify>)
    requires AllRenames(events)
    ensures PlainOf(events) == []
  {
    if events != [] {
      assert events[|events| - 1] in events && forall e | e in events[..|events| - 1] :: e in events;
      RenamesSendNothingPlain(events[..|events| - 1]);
    }
  }

  lemma {:induction false} BatchSendsNothingPlain(order: seq<string>, entries: map<string, seq<Notify>>)
    requires forall p | p in order :: p in entries && AllRenames(entries[p])
    ensures PlainOfBatch(order, entries) == []
  {
    if order != [] {
      var list := entries[order[|order| - 1]];
      BatchSendsNothingPlain(order[..|order| - 1], entries);
      ConcatenatedIsSuffix(list);
      assert forall e | e in Concatenated(list) :: e in list;
      RenamesSendNothingPlain(Concatenated(list));
    }
  }

  /** If only rename halves arrive, nothing plain is gathered or sent. */
  lemma {:induction false} NothingPlain(steps: seq<Step>, extensions: seq<string>)
    requires After(steps, extensions).Some? && AllRenames(Arrivals(steps, extensions))
    ensures PlainUpdates(steps, extensions) == []
    ensures forall p | p in After(steps, extensions).value.batch.entries ::
              AllRenames(After(steps, extensions).value.batch.entries[p])
  {
    if steps != [] {
      var front, last := steps[..|steps| - 1], steps[|steps| - 1];
      assert forall e | e in Arrivals(front, extensions) :: e in Arrivals(steps, extensions);
      NothingPlain(front, extensions);
      if last.ReleaseBatch? {
        BatchSendsNothingPlain(last.order, After(front, extensions).value.batch.entries);
      } else if last.Arrive? && Relevant(last.e, extensions) {
        assert last.e in Arrivals(steps, extensions);
      }
    }
  }

  lemma TwoElements(list: seq<Notify>, a: Notify, b: Notify)
    requires multiset(list) == multiset{a, b}
    ensures list == [a, b] || list == [b, a]
  {
    assert |multiset(list)| == |list| == 2;
    assert list == [list[0], list[1]];
    assert list[0] in multiset(list) && list[1] in multiset(list);
    assert multiset(list)[a] >= 1 && multiset(list)[b] >= 1;
  }

  /** Two halves arrive and nothing else, and nothing is left to do: all that the watcher sends is what
      pairing makes of them. */
  lemma TwoHalvesOnly(steps: seq<Step>, extensions: seq<string>, a: Notify, b: Notify)
    requires After(steps, extensions).Some? && Arrivals(steps, extensions) == [a, b] && IsRename(a) && IsRename(b)
    requires After(steps, extensions).value.batch.entries == map[] && After(steps, extensions).value.caches == map[]
    ensures var pairing := PairSteps(steps, extensions);
            && PairRun(pairing) == Some(Pairing(map[], After(steps, extensions).value.updates))
            && (Halves(pairing) == [a, b] || Halves(pairing) == [b, a])
  {
    var w, pairing := After(steps, extensions).value, PairSteps(steps, extensions);
    RunFollows(steps, extensions);
    NothingPlain(steps, extensions);
    ShuffleAlone(PairRun(pairing).value.updates, w.updates);
    HalvesAccepted(steps, extensions);
    RenamesOfTwo(a, b);
    HalvesAccounted(steps, extensions, []);
    assert multiset([a, b]) == multiset{a, b};
    TwoElements(Halves(pairing), a, b);
  }

  lemma RenamesOfTwo(a: Notify, b: Notify)
    requires IsRename(a) && IsRename(b)
    ensures Renames([a, b]) == [a, b]
  {
    assert [a, b] == [a] + [b];
    RenamesConcat([a], [b]);
  }

  // ------------------------------------------------------------------ what a Suspend drops

  /** The event that a Suspend can name. */
  predicate IsOf(e: Notify, event: FileEvent) {
    (e.kind == InDelete && event == EventDelete) || (e.kind == InCloseWrite && event == EventModify)
  }

  /** A file is reported whose extension is listed, and no directory. */
  predicate IsReported(step: Step, extensions: seq<string>) {
    step.Arrive? && !step.e.isDir && Ext(step.e.path) in extensions
  }

  /** The last Suspend called, `event`, was called at `j`, and nothing of that event has arrived since. */
  ghost predicate InForceSince(steps: seq<Step>, extensions: seq<string>, event: FileEvent, j: nat) {
    && j < |steps| && steps[j] == CallSuspend(event)
    && forall k | j < k < |steps| ::
         !steps[k].CallSuspend? && !(IsReported(steps[k], extensions) && IsOf(steps[k].e, event))
  }

  ghost predicate InForce(steps: seq<Step>, extensions: seq<string>, event: FileEvent) {
    exists j: nat :: InForceSince(steps, extensions, event, j)
  }

  lemma InForceAfter(steps: seq<Step>, extensions: seq<string>, event: FileEvent, step: Step)
    ensures InForce(steps + [step], extensions, event) <==>
            || step == CallSuspend(event)
            || (InForce(steps, extensions, event) && !step.CallSuspend?
                && !(IsReported(step, extensions) && IsOf(step.e, event)))
  {
    var all := steps + [step];
    if step == CallSuspend(event) {
      assert InForceSince(all, extensions, event, |steps|);
    }
    if InForce(steps, extensions, event) && !step.CallSuspend?
       && !(IsReported(step, extensions) && IsOf(step.e, event)) {
      var j: nat :| InForceSince(steps, extensions, event, j);
      assert InForceSince(all, extensions, event, j);
    }
    if InForce(all, extensions, event) && step != CallSuspend(event) {
      var j: nat :| InForceSince(all, extensions, event, j);
      assert all[|steps|] == step;
      assert forall k | 0 <= k < |steps| :: all[k] == steps[k];
      assert InForceSince(steps, extensions, event, j);
    }
  }

  lemma {:induction false} SuspendInForce(steps: seq<Step>, extensions: seq<string>, event: FileEvent)
    requires After(steps, extensions).Some? && event != EventNone
    ensures After(steps, extensions).value.suspendEvent == event <==> InForce(steps, extensions, event)
  {
    if steps != [] {
      var front, last := steps[..|steps| - 1], steps[|steps| - 1];
      assert steps == front + [last];
      SuspendInForce(front, extensions, event);
      InForceAfter(front, extensions, event, last);
    }
  }

  /** Over every run: of the events reported just those are dropped that a Suspend in force is for. */
  lemma DropsExactly(steps: seq<Step>, extensions: seq<string>, e: Notify)
    requires After(steps, extensions).Some?
    ensures After(steps + [Arrive(e)], extensions).Some?
    ensures Accepted(steps + [Arrive(e)], extensions)
            == Accepted(steps, extensions)
               + if IsReported(Arrive(e), extensions)
                    && !(e.kind == InDelete && InForce(steps, extensions, EventDelete))
                    && !(e.kind == InCloseWrite && InForce(steps, extensions, EventModify))
                 then [e] else []
  {
    assert (steps + [Arrive(e)])[..|steps|] == steps;
    SuspendInForce(steps, extensions, EventDelete);
    SuspendInForce(steps, extensions, EventModify);
  }
}
