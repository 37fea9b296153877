/**
 The event concatenation of the file watcher: a prefix-rewriting system over the list of
 raw events of one path, driven by a table of combinations.
 */
module EventConcat {
  import opened Common
  import opened FileEvents

  /** A row of the table: the prefix to match, and the index of the event that stands for it.
      As in the code only a positive index names an event; any other means "nothing". */
  datatype CombinedEvent = CombinedEvent(input: seq<NotifyKind>, output: int)

  const DELETE_THEN_MODIFY := CombinedEvent([InDelete, InCloseWrite], 1)
  const MODIFY_THEN_DELETE := CombinedEvent([InCloseWrite, InDelete], -1)
  const COMBINED_EVENTS: seq<CombinedEvent> := [DELETE_THEN_MODIFY, MODIFY_THEN_DELETE]

  predicate Matches(row: CombinedEvent, events: seq<Notify>) {
    && |row.input| <= |events|
    && forall i :: 0 <= i < |row.input| ==> events[i].kind == row.input[i]
  }

  /** Rows whose replacement is shorter than what they match: what termination needs. */
  predicate Shrinking(row: CombinedEvent) {
    0 < |row.input| && row.output < |row.input|
  }

  predicate ShrinkingTable(table: seq<CombinedEvent>) {
    forall row | row in table :: Shrinking(row)
  }

  function Replace(row: CombinedEvent, events: seq<Notify>): (r: seq<Notify>)
    requires Shrinking(row) && Matches(row, events)
    ensures |r| < |events|
  {
    (if row.output > 0 then [events[row.output]] else []) + events[|row.input|..]
  }

  /** The first row, in table order, that matches a prefix of the events. */
  function FirstMatch(table: seq<CombinedEvent>, events: seq<Notify>): (r: Option<CombinedEvent>)
    ensures r.Some? ==> r.value in table && Matches(r.value, events)
    ensures r.None? ==> forall row | row in table :: !Matches(row, events)
  {
    if table == [] then None
    else if Matches(table[0], events) then Some(table[0])
    else FirstMatch(table[1..], events)
  }

  /** The rewritten list. It exists for every shrinking table: each step is strictly shorter. */
  function Rewrite(table: seq<CombinedEvent>, events: seq<Notify>): (r: seq<Notify>)
    requires ShrinkingTable(table)
    ensures |r| <= |events|
    ensures FirstMatch(table, r).None?
    decreases |events|
  {
    match FirstMatch(table, events)
    case None => events
    case Some(row) => Rewrite(table, Replace(row, events))
  }

  function Concatenated(events: seq<Notify>): seq<Notify> {
    Rewrite(COMBINED_EVENTS, events)
  }

  /** A normal form is left alone. */
  lemma RewriteIdempotent(table: seq<CombinedEvent>, events: seq<Notify>)
    requires ShrinkingTable(table)
    ensures Rewrite(table, Rewrite(table, events)) == Rewrite(table, events)
  {
    var r := Rewrite(table, events);
    assert FirstMatch(table, r).None?;
  }

  // ------------------------------------------------------------------ independence of order

  /** No list of events has prefixes matching two different rows. */
  predicate Unambiguous(table: seq<CombinedEvent>) {
    forall r, s | r in table && s in table && r != s ::
      exists i :: 0 <= i < |r.input| && i < |s.input| && r.input[i] != s.input[i]
  }

  lemma AtMostOneRowMatches(table: seq<CombinedEvent>, r: CombinedEvent, s: CombinedEvent, events: seq<Notify>)
    requires Unambiguous(table) && r in table && s in table
    requires Matches(r, events) && Matches(s, events)
    ensures r == s
  {}

  /** Two unambiguous tables with the same rows, in whatever order, rewrite alike. */
  lemma {:induction false} TableOrderIrrelevant(a: seq<CombinedEvent>, b: seq<CombinedEvent>, events: seq<Notify>)
    requires ShrinkingTable(a) && ShrinkingTable(b) && Unambiguous(a)
    requires forall row :: row in a <==> row in b
    ensures Rewrite(a, events) == Rewrite(b, events)
    decreases |events|
  {
    var m, n := FirstMatch(a, events), FirstMatch(b, events);
    if m.Some? && n.Some? {
      AtMostOneRowMatches(a, m.value, n.value, events);
      TableOrderIrrelevant(a, b, Replace(m.value, events));
    }
  }

  /** The watcher's own table qualifies, so its order does not matter either. */
  lemma CombinedEventsAnyOrder(events: seq<Notify>)
    ensures Unambiguous(COMBINED_EVENTS)
    ensures Rewrite([MODIFY_THEN_DELETE, DELETE_THEN_MODIFY], events) == Concatenated(events)
  {
    assert DELETE_THEN_MODIFY.input[0] != MODIFY_THEN_DELETE.input[0];
    TableOrderIrrelevant(COMBINED_EVENTS, [MODIFY_THEN_DELETE, DELETE_THEN_MODIFY], events);
  }

  // ------------------------------------------------------------------ batching in two parts

  /** Rewriting a prefix early changes nothing: the normal form of `a + b` only depends on
      the normal form of `a`. */
  lemma {:induction false} RewritePrefixFirst(table: seq<CombinedEvent>, a: seq<Notify>, b: seq<Notify>)
    requires ShrinkingTable(table) && Unambiguous(table)
    ensures Rewrite(table, Rewrite(table, a) + b) == Rewrite(table, a + b)
    decreases |a|
  {
    var m := FirstMatch(table, a);
    if m.Some? {
      var row := m.value;
      assert Matches(row, a + b);
      AtMostOneRowMatches(table, row, FirstMatch(table, a + b).value, a + b);
      assert Replace(row, a + b) == Replace(row, a) + b;
      RewritePrefixFirst(table, Replace(row, a), b);
    }
  }

  // ------------------------------------------------------------------ what the table keeps

  /** How many leading events one step of the watcher's table removes. */
  function Dropped(events: seq<Notify>): (k: nat)
    ensures k <= |events|
  {
    if |events| < 2 then 0
    else if events[0].kind == InDelete && events[1].kind == InCloseWrite then 1
    else if events[0].kind == InCloseWrite && events[1].kind == InDelete then 2
    else 0
  }

  /** The table, row by row, does just that: a normal form is a list of which it drops nothing,
      and otherwise one step leaves the remaining suffix. */
  lemma TableStep(events: seq<Notify>)
    ensures var m := FirstMatch(COMBINED_EVENTS, events);
            && (m.None? <==> Dropped(events) == 0)
            && (m.Some? ==> Shrinking(m.value) && Replace(m.value, events) == events[Dropped(events)..])
  {
    var rest := COMBINED_EVENTS[1..];
    assert rest == [MODIFY_THEN_DELETE] && rest[1..] == [];
    assert Matches(DELETE_THEN_MODIFY, events) <==> Dropped(events) == 1;
    assert Matches(MODIFY_THEN_DELETE, events) <==> Dropped(events) == 2;
    assert FirstMatch(rest, events)
           == if Matches(MODIFY_THEN_DELETE, events) then Some(MODIFY_THEN_DELETE) else FirstMatch([], events);
    if Dropped(events) == 1 {
      assert [events[1]] + events[2..] == events[1..];
    }
  }

  /** What is dropped holds no rename half. */
  lemma DropsNoRename(events: seq<Notify>)
    ensures Renames(events[Dropped(events)..]) == Renames(events)
  {
    if Dropped(events) == 2 {
      assert events[1..][1..] == events[2..];
      assert Renames(events) == Renames(events[1..]) == Renames(events[1..][1..]);
    }
  }

  lemma ConcatenatedUnfolds(events: seq<Notify>)
    ensures Concatenated(events)
            == if Dropped(events) == 0 then events else Concatenated(events[Dropped(events)..])
  {
    TableStep(events);
  }

  /** How many leading events the whole rewriting removes. */
  function Surplus(events: seq<Notify>): (k: nat)
    ensures k <= |events|
    decreases |events|
  {
    var k := Dropped(events);
    if k == 0 then 0 else k + Surplus(events[k..])
  }

  /** The rewritten list is a suffix of the input. */
  lemma {:induction false} ConcatenatedIsSuffix(events: seq<Notify>)
    ensures Concatenated(events) == events[Surplus(events)..]
    decreases |events|
  {
    ConcatenatedUnfolds(events);
    var k := Dropped(events);
    if k != 0 {
      var rest := events[k..];
      ConcatenatedIsSuffix(rest);
      var j := Surplus(rest);
      assert Surplus(events) == k + j;
      assert rest[j..] == events[k + j..];
    }
  }

  /** Every rename half survives, in order. */
  lemma {:induction false} ConcatenatedKeepsRenames(events: seq<Notify>)
    ensures Renames(Concatenated(events)) == Renames(events)
    decreases |events|
  {
    ConcatenatedUnfolds(events);
    DropsNoRename(events);
    if Dropped(events) != 0 {
      ConcatenatedKeepsRenames(events[Dropped(events)..]);
    }
  }

  /** A batch that cancels out: no rename half; each write is followed at once by a delete; and each
      delete that does not follow a write is followed at once by a write. */
  predicate Cancelling(events: seq<Notify>) {
    forall i | 0 <= i < |events| :: CancelledAt(events, i)
  }

  predicate CancelledAt(events: seq<Notify>, i: nat)
    requires i < |events|
  {
    match events[i].kind
    case InCloseWrite => i + 1 < |events| && events[i + 1].kind == InDelete
    case InDelete =>
      || (0 < i && events[i - 1].kind == InCloseWrite)
      || (i + 1 < |events| && events[i + 1].kind == InCloseWrite)
    case _ => false
  }

  /** A step of the table neither makes nor breaks such a batch. */
  lemma CancellingStep(events: seq<Notify>)
    requires Dropped(events) != 0
    ensures Cancelling(events) <==> Cancelling(events[Dropped(events)..])
  {
    var k, rest := Dropped(events), events[Dropped(events)..];
    assert CancelledAt(events, 0);
    forall i | k <= i < |events|
      ensures CancelledAt(events, i) <==> CancelledAt(rest, i - k)
    {}
    if Cancelling(rest) {
      forall i | 0 <= i < |events|
        ensures CancelledAt(events, i)
      {
        if k <= i {
          assert CancelledAt(rest, i - k);
        }
      }
    }
    if Cancelling(events) {
      forall i | 0 <= i < |rest|
        ensures CancelledAt(rest, i)
      {
        assert CancelledAt(events, i + k);
      }
    }
  }

  /** The batches that are rewritten to nothing, told by the kinds of their events. */
  lemma {:induction false} CollapsesIffCancelling(events: seq<Notify>)
    ensures Concatenated(events) == [] <==> Cancelling(events)
    decreases |events|
  {
    ConcatenatedUnfolds(events);
    if Dropped(events) != 0 {
      CancellingStep(events);
      CollapsesIffCancelling(events[Dropped(events)..]);
    } else if events != [] {
      assert !CancelledAt(events, 0);
    }
  }

  /** Such a batch ends in a delete. */
  lemma CancellingEndsInDelete(events: seq<Notify>)
    requires events != [] && Cancelling(events)
    ensures events[|events| - 1].kind == InDelete
  {
    assert CancelledAt(events, |events| - 1);
  }

  /**
   The exact meaning of concatenation. Replaying the rewritten list gives the presence of the
   file that the whole list gives, except in one family of cases: a batch that cancels out, of a
   file that was there at its start. There the deletion is lost.
   */
  lemma ConcatenationMeaning(present: bool, events: seq<Notify>)
    ensures Replay(present, Concatenated(events)) == Replay(present, events)
            <==> events == [] || !present || !Cancelling(events)
  {
    ConcatenatedIsSuffix(events);
    CollapsesIffCancelling(events);
    ReplayLast(present, events);
    ReplayLast(present, Concatenated(events));
    if events != [] && Cancelling(events) {
      CancellingEndsInDelete(events);
    }
  }

  /** The smallest input of that family: rewrite, then delete, of an existing file. */
  lemma LostDelete(path: string)
    ensures var batch := [Notify(InCloseWrite, path, 0, false), Notify(InDelete, path, 0, false)];
            Cancelling(batch) && Concatenated(batch) == [] && !Replay(true, batch)
  {
    var batch := [Notify(InCloseWrite, path, 0, false), Notify(InDelete, path, 0, false)];
    CollapsesIffCancelling(batch);
    ReplayLast(true, batch);
  }
}
