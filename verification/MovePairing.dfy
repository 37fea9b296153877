/**
 Pairing of rename halves by cookie. The first half of a cookie is cached and a timer is set;
 the second half cancels the timer and makes one MOVE; a timer that runs out makes a DELETE or
 a MODIFY instead.
 */
module MovePairing {
  import opened Common
  import opened FileEvents

  type Caches = map<nat, Notify>

  /** The cache is keyed by cookie and only holds rename halves. */
  ghost predicate GoodCaches(caches: Caches) {
    forall c | c in caches :: caches[c].cookie == c && IsRename(caches[c])
  }

  datatype Moved = Moved(update: Option<FileUpdate>, caches: Caches)

  /** A rename half arrives. */
  function Move(caches: Caches, e: Notify): Moved
    requires IsRename(e)
  {
    if e.cookie !in caches then
      Moved(None, caches[e.cookie := e])
    else
      var dest := if e.kind == InMovedFrom then caches[e.cookie].path else e.path;
      Moved(Some(FileUpdate(EventMove, dest)), caches - {e.cookie})
  }

  /** What a half turns into when its timer runs out before the other half arrives. */
  function Incomplete(cached: Notify): FileUpdate
    requires IsRename(cached)
  {
    FileUpdate(if cached.kind == InMovedFrom then EventDelete else EventModify, cached.path)
  }

  /** How many updates are MOVEs. */
  function Moves(updates: seq<FileUpdate>): nat {
    if updates == [] then 0
    else Moves(updates[..|updates| - 1]) + (if updates[|updates| - 1].event == EventMove then 1 else 0)
  }

  lemma {:induction false} MovesConcat(a: seq<FileUpdate>, b: seq<FileUpdate>)
    ensures Moves(a + b) == Moves(a) + Moves(b)
  {
    if b == [] {
      assert a + b == a;
    } else {
      var front := b[..|b| - 1];
      assert (a + b)[..|a + b| - 1] == a + front;
      MovesConcat(a, front);
    }
  }

  // ------------------------------------------------------------------ runs

  datatype PairStep = Half(e: Notify) | Expire(cookie: nat)

  datatype Pairing = Pairing(caches: Caches, updates: seq<FileUpdate>)

  predicate PairEnabled(s: Pairing, step: PairStep) {
    match step
    case Half(e) => IsRename(e)
    case Expire(cookie) => cookie in s.caches && IsRename(s.caches[cookie])
  }

  function PairApply(s: Pairing, step: PairStep): Pairing
    requires PairEnabled(s, step)
  {
    match step
    case Half(e) =>
      var m := Move(s.caches, e);
      Pairing(m.caches, s.updates + if m.update.Some? then [m.update.value] else [])
    case Expire(cookie) =>
      Pairing(s.caches - {cookie}, s.updates + [Incomplete(s.caches[cookie])])
  }

  /** The state after a list of steps from nothing cached; None if some step cannot happen. */
  function PairRun(steps: seq<PairStep>): Option<Pairing> {
    if steps == [] then Some(Pairing(map[], []))
    else
      match PairRun(steps[..|steps| - 1])
      case None => None
      case Some(s) =>
        if PairEnabled(s, steps[|steps| - 1]) then Some(PairApply(s, steps[|steps| - 1])) else None
  }

  /** The halves received over a list of steps, in order of arrival. */
  function Halves(steps: seq<PairStep>): seq<Notify> {
    if steps == [] then []
    else Halves(steps[..|steps| - 1])
         + (if steps[|steps| - 1].Half? then [steps[|steps| - 1].e] else [])
  }

  lemma {:induction false} CachesStayGood(steps: seq<PairStep>)
    requires PairRun(steps).Some?
    ensures GoodCaches(PairRun(steps).value.caches)
  {
    if steps != [] {
      CachesStayGood(steps[..|steps| - 1]);
    }
  }

  /** Every half received is in exactly one MOVE (two halves each), one timeout update, or the cache. */
  lemma {:induction false} HalvesConserved(steps: seq<PairStep>)
    requires PairRun(steps).Some?
    ensures var s := PairRun(steps).value;
            |Halves(steps)| == 2 * Moves(s.updates) + (|s.updates| - Moves(s.updates)) + |s.caches|
  {
    if steps != [] {
      var front, last := steps[..|steps| - 1], steps[|steps| - 1];
      HalvesConserved(front);
      CachesStayGood(front);
      var s, t := PairRun(front).value, PairRun(steps).value;
      var added := t.updates[|s.updates|..];
      assert t.updates == s.updates + added && |added| <= 1;
      MovesConcat(s.updates, added);
      assert added != [] ==> added[..0] == [];
      match last
      case Half(e) =>
        if e.cookie in s.caches {
          assert t.caches.Keys == s.caches.Keys - {e.cookie};
        } else {
          assert t.caches.Keys == s.caches.Keys + {e.cookie};
        }
      case Expire(cookie) =>
        assert t.caches.Keys == s.caches.Keys - {cookie};
    }
  }

  /** Each cookie is used by at most one FROM and at most one TO. */
  ghost predicate UniqueHalves(halves: seq<Notify>) {
    forall i, j | 0 <= i < j < |halves| && halves[i].cookie == halves[j].cookie ::
      halves[i].kind != halves[j].kind
  }

  /** The update is the MOVE of two received halves of one cookie, and its path is the TO path. */
  ghost predicate IsMoveOf(halves: seq<Notify>, u: FileUpdate) {
    exists from, to | from in halves && to in halves ::
      && from.kind == InMovedFrom && to.kind == InMovedTo && from.cookie == to.cookie
      && u == FileUpdate(EventMove, to.path)
  }

  /** The update is what one received half becomes on timeout. */
  ghost predicate IsTimeoutOf(halves: seq<Notify>, u: FileUpdate) {
    exists h | h in halves :: IsRename(h) && u == Incomplete(h)
  }

  /** Whichever half comes first, a MOVE names the path moved to; all else comes from a timeout. */
  lemma {:induction false} MoveCarriesDestination(steps: seq<PairStep>)
    requires PairRun(steps).Some? && UniqueHalves(Halves(steps))
    ensures var s := PairRun(steps).value;
            && (forall c | c in s.caches :: s.caches[c] in Halves(steps))
            && (forall u | u in s.updates ::
                  if u.event == EventMove then IsMoveOf(Halves(steps), u) else IsTimeoutOf(Halves(steps), u))
  {
    if steps != [] {
      var front, last := steps[..|steps| - 1], steps[|steps| - 1];
      var before, halves := Halves(front), Halves(steps);
      assert forall i | 0 <= i < |before| :: before[i] == halves[i];
      MoveCarriesDestination(front);
      CachesStayGood(front);
      var s, t := PairRun(front).value, PairRun(steps).value;
      forall u | u in s.updates
        ensures if u.event == EventMove then IsMoveOf(halves, u) else IsTimeoutOf(halves, u)
      {
        assert forall h | h in before :: h in halves;
      }
      if last.Half? && last.e.cookie in s.caches {
        var e, first := last.e, s.caches[last.e.cookie];
        var i :| 0 <= i < |before| && before[i] == first;
        assert halves[i].cookie == halves[|before|].cookie;
        assert e in halves && first in halves;
        var u := Move(s.caches, e).update.value;
        assert IsMoveOf(halves, u) by {
          var from := if e.kind == InMovedFrom then e else first;
          var to := if e.kind == InMovedFrom then first else e;
          assert from in halves && to in halves;
        }
      }
      if last.Expire? {
        assert s.caches[last.cookie] in halves;
      }
    }
  }
}
