/** Two runs of the pipeline: one in which a deletion is lost, and one in which late handling saves it. */
module PipelineGap {
  import opened Common
  import opened FileEvents
  import opened EventConcat
  import opened MovePairing
  import opened Batcher
  import opened FileWatcher
  import opened Pipeline

  function Written(p: string): Notify {
    Notify(InCloseWrite, p, 0, false)
  }

  function Deleted(p: string): Notify {
    Notify(InDelete, p, 0, false)
  }

  /** A part of a run. */
  ghost predicate Chain(c: Setting, states: seq<Pipe>, steps: seq<Step>) {
    |states| == |steps| + 1 && forall i | 0 <= i < |steps| :: Takes(c, states[i], steps[i], states[i + 1])
  }

  lemma ChainConcat(c: Setting, a: seq<Pipe>, b: seq<Pipe>, steps: seq<Step>, more: seq<Step>)
    requires Chain(c, a, steps) && Chain(c, b, more) && a[|a| - 1] == b[0]
    ensures Chain(c, a + b[1..], steps + more)
    ensures (a + b[1..])[0] == a[0] && (a + b[1..])[|steps + more|] == b[|more|]
  {
    var states, all := a + b[1..], steps + more;
    forall i | 0 <= i < |all|
      ensures Takes(c, states[i], all[i], states[i + 1])
    {
      if i < |steps| {
        assert Takes(c, a[i], steps[i], a[i + 1]);
      } else {
        assert Takes(c, b[i - |steps|], more[i - |steps|], b[i - |steps| + 1]);
        assert states[i] == b[i - |steps|];
      }
    }
  }

  /** The watcher with one more event registered. */
  function Registered(w: Watcher, e: Notify): Watcher {
    w.(batch := w.batch.Store(e.path, Pending(w.batch.entries, e.path) + [e]))
  }

  lemma WriteAndTake(c: Setting, s: Pipe, p: string, data: string) returns (states: seq<Pipe>)
    requires s.raw == [] && s.watcher.suspendEvent == EventNone && ValidFile(p, c.extensions)
    ensures Chain(c, states, [Touch(p, data), TakeEvent])
    ensures s.handled == |s.watcher.updates| ==> AllInTime(states, [Touch(p, data), TakeEvent])
    ensures states[0] == s
    ensures states[2] == s.(disk := s.disk[p := Object(c.keyOf(p), data)], watcher := Registered(s.watcher, Written(p)))
  {
    var s1 := Apply(c, s, Touch(p, data));
    assert s1.raw == [Written(p)];
    states := [s, s1, Apply(c, s1, TakeEvent)];
  }

  lemma EraseAndTake(c: Setting, s: Pipe, p: string) returns (states: seq<Pipe>)
    requires s.raw == [] && s.watcher.suspendEvent == EventNone && ValidFile(p, c.extensions) && p in s.disk
    ensures Chain(c, states, [Erase(p), TakeEvent])
    ensures s.handled == |s.watcher.updates| ==> AllInTime(states, [Erase(p), TakeEvent])
    ensures states[0] == s
    ensures states[2] == s.(disk := s.disk - {p}, watcher := Registered(s.watcher, Deleted(p)))
  {
    var s1 := Apply(c, s, Erase(p));
    assert s1.raw == [Deleted(p)];
    states := [s, s1, Apply(c, s1, TakeEvent)];
  }

  /** The watcher after releasing a batch of one path. */
  function Released(w: Watcher, p: string): Watcher
    requires p in w.batch.entries
  {
    var sent := Convert(Concatenated(w.batch.entries[p]), w.caches);
    w.(batch := Batch(Fired, w.batch.flushes, map[]), updates := w.updates + sent.updates, caches := sent.caches)
  }

  lemma FireAndRelease(c: Setting, s: Pipe, p: string) returns (states: seq<Pipe>)
    requires s.raw == [] && s.watcher.batch.timer == Armed && s.watcher.batch.entries.Keys == {p}
    ensures Chain(c, states, [FireTimer, ReleaseBatch([p])])
    ensures s.handled == |s.watcher.updates| ==> AllInTime(states, [FireTimer, ReleaseBatch([p])])
    ensures states[0] == s
    ensures states[2] == s.(watcher := Released(s.watcher, p), batches := s.batches + [s.watcher.batch.entries])
  {
    var s1 := Apply(c, s, FireTimer);
    assert IsOrder([p], s1.watcher.batch.entries);
    OnlyPath(p, s.watcher.batch.entries, s.watcher.caches);
    states := [s, s1, Apply(c, s1, ReleaseBatch([p]))];
  }

  lemma OnlyPath(p: string, entries: map<string, seq<Notify>>, caches: Caches)
    requires p in entries
    ensures DispatchAll([p], entries, caches) == Convert(Concatenated(entries[p]), caches)
  {
    var d := DispatchNext([p], 0, entries, caches, Emitted([], caches), []);
    assert [p][..1] == [p];
  }

  lemma WrittenConverts(p: string)
    ensures Convert(Concatenated([Written(p)]), map[]) == Emitted([FileUpdate(EventModify, p)], map[])
  {
    ConcatenatedUnfolds([Written(p)]);
    assert [Written(p)][..0] == [];
  }

  /** What the watcher is after a rewrite and a delete of one file under one timer: nothing is sent. */
  function Swept(w: Watcher): Watcher {
    w.(batch := Batch(Fired, w.batch.flushes, map[]))
  }

  lemma SweptMeaning(w: Watcher, p: string)
    requires w.batch.entries == map[] && w.caches == map[]
    ensures var both := Registered(Registered(w, Written(p)), Deleted(p));
            && both.batch.entries == map[p := [Written(p), Deleted(p)]] && both.batch.timer == Armed
            && Released(both, p) == Swept(w)
  {
    LostDelete(p);
    assert [] + [Written(p)] == [Written(p)] && [Written(p)] + [Deleted(p)] == [Written(p), Deleted(p)];
    assert w.updates + [] == w.updates;
  }

  /** A file that is there is rewritten and deleted under one timer. */
  lemma RewriteAndDelete(c: Setting, s: Pipe, p: string, data: string) returns (states: seq<Pipe>, steps: seq<Step>)
    requires s.raw == [] && s.watcher.suspendEvent == EventNone && s.watcher.batch.entries == map[]
    requires s.watcher.caches == map[] && p in s.disk && ValidFile(p, c.extensions)
    ensures Chain(c, states, steps) && states[0] == s && |steps| == 6
    ensures states[6] == s.(disk := s.disk - {p}, watcher := Swept(s.watcher),
                            batches := s.batches + [map[p := [Written(p), Deleted(p)]]])
    ensures s.handled == |s.watcher.updates| ==> AllInTime(states, steps)
  {
    SweptMeaning(s.watcher, p);
    var a := WriteAndTake(c, s, p, data);
    var b := EraseAndTake(c, a[2], p);
    var d := FireAndRelease(c, b[2], p);
    assert s.disk[p := Object(c.keyOf(p), data)] - {p} == s.disk - {p};
    var ab, first := a + b[1..], [Touch(p, data), TakeEvent] + [Erase(p), TakeEvent];
    ChainConcat(c, a, b, [Touch(p, data), TakeEvent], [Erase(p), TakeEvent]);
    ChainConcat(c, ab, d, first, [FireTimer, ReleaseBatch([p])]);
    states, steps := ab + d[1..], first + [FireTimer, ReleaseBatch([p])];
    if s.handled == |s.watcher.updates| {
      InTimeConcat(a, b, [Touch(p, data), TakeEvent], [Erase(p), TakeEvent]);
      InTimeConcat(ab, d, first, [FireTimer, ReleaseBatch([p])]);
    }
  }

  lemma InTimeConcat(a: seq<Pipe>, b: seq<Pipe>, steps: seq<Step>, more: seq<Step>)
    requires AllInTime(a, steps) && AllInTime(b, more) && a[|a| - 1] == b[0]
    ensures AllInTime(a + b[1..], steps + more)
  {
    var states, all := a + b[1..], steps + more;
    forall i | 0 <= i < |all|
      ensures InTime(states[i], all[i])
    {
      if i < |steps| {
        assert InTime(a[i], steps[i]);
      } else {
        assert InTime(b[i - |steps|], more[i - |steps|]) && states[i] == b[i - |steps|];
      }
    }
  }

  // ------------------------------------------------------------------ the lost deletion

  /** From any quiet state whose index is right: rewriting a watched file and deleting it before the
      timer runs out, everything handled in time, leaves a mapping for a file that is gone. */
  lemma RewriteThenDeleteIsLost(c: Setting, s: Pipe, p: string, data: string)
    requires GoodSetting(c) && Init(c, s) && p in s.disk && ValidFile(p, c.extensions)
    ensures exists states: seq<Pipe>, steps: seq<Step> ::
              && Run(c, states, steps) && AllInTime(states, steps) && states[0] == s
              && Quiet(states[|steps|]) && LostNow(c, states[|steps|], p)
              && !Tracks(c, states[|steps|].index, states[|steps|].disk)
  {
    var states, steps := RewriteAndDelete(c, s, p, data);
    assert states[6].batches[..0] == [];
    LostDelete(p);
    assert LostNow(c, states[6], p);
    assert Run(c, states, steps);
    TimelyTracksExactly(c, states, steps, 6);
  }

  // ------------------------------------------------------------------ saved by late handling

  /** A new file is written and the update released, but not handled yet. */
  lemma CreateAndRelease(c: Setting, s: Pipe, p: string, data: string) returns (states: seq<Pipe>, steps: seq<Step>)
    requires s.raw == [] && s.watcher.suspendEvent == EventNone && s.watcher.batch.entries == map[]
    requires s.watcher.caches == map[] && ValidFile(p, c.extensions)
    ensures Chain(c, states, steps) && states[0] == s && |steps| == 4
    ensures states[4] == s.(disk := s.disk[p := Object(c.keyOf(p), data)],
                            watcher := Swept(s.watcher).(updates := s.watcher.updates + [FileUpdate(EventModify, p)]),
                            batches := s.batches + [map[p := [Written(p)]]])
  {
    WrittenConverts(p);
    assert [] + [Written(p)] == [Written(p)];
    var a := WriteAndTake(c, s, p, data);
    assert a[2].watcher.batch.entries == map[p := [Written(p)]];
    var b := FireAndRelease(c, a[2], p);
    ChainConcat(c, a, b, [Touch(p, data), TakeEvent], [FireTimer, ReleaseBatch([p])]);
    states, steps := a + b[1..], [Touch(p, data), TakeEvent] + [FireTimer, ReleaseBatch([p])];
  }

  /** An update for a file that is gone by now, and not mapped, is handled. */
  lemma HandleGone(c: Setting, s: Pipe, p: string) returns (states: seq<Pipe>)
    requires s.handled < |s.watcher.updates| && s.watcher.updates[s.handled] == FileUpdate(EventModify, p)
    requires p !in s.disk && forall k | k in s.index :: s.index[k] != p
    ensures Chain(c, states, [HandleNext(None)]) && states[0] == s && states[1] == s.(handled := s.handled + 1)
  {
    states := [s, Apply(c, s, HandleNext(None))];
  }

  lemma LateRun(c: Setting, s: Pipe, p: string, data: string) returns (states: seq<Pipe>, steps: seq<Step>)
    requires Init(c, s) && p !in s.disk && ValidFile(p, c.extensions)
    ensures Chain(c, states, steps) && states[0] == s
    ensures var end := states[|steps|];
            && Quiet(end) && end.index == s.index && end.disk == s.disk
            && end.batches == [map[p := [Written(p)]], map[p := [Written(p), Deleted(p)]]]
  {
    var a, first := CreateAndRelease(c, s, p, data);
    var b, second := RewriteAndDelete(c, a[4], p, data);
    var d := HandleGone(c, b[6], p);
    ChainConcat(c, a, b, first, second);
    ChainConcat(c, a + b[1..], d, first + second, [HandleNext(None)]);
    states, steps := (a + b[1..]) + d[1..], (first + second) + [HandleNext(None)];
    assert s.disk[p := Object(c.keyOf(p), data)] - {p} == s.disk;
  }

  /** Without handling in time a lost path need not be mapped: the update that would have mapped it is
      read too late, when the file is gone. */
  lemma LateHandlingSaves(c: Setting, s: Pipe, p: string, data: string)
    requires Init(c, s) && p !in s.disk && ValidFile(p, c.extensions)
    ensures exists states: seq<Pipe>, steps: seq<Step> ::
              && Run(c, states, steps) && states[0] == s
              && Quiet(states[|steps|]) && LostNow(c, states[|steps|], p)
              && Tracks(c, states[|steps|].index, states[|steps|].disk)
  {
    var states, steps := LateRun(c, s, p, data);
    var batches := states[|steps|].batches;
    assert batches[..1] == [map[p := [Written(p)]]] && batches[..1][..0] == [];
    LostDelete(p);
    assert !CancelledAt([Written(p)], 0);
    assert LostNow(c, states[|steps|], p);
    assert Run(c, states, steps);
  }
}
