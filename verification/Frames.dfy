/** Bytes, and the division of a YAML stream into documents. */
module Frames {

  newtype byte = x: int | 0 <= x < 256
  type Bytes = seq<byte>

  const NEWLINE: byte := 10
  const DASH: byte := 45
  /** The separator written between documents: three dashes and a newline. */
  const SEPARATOR: Bytes := [DASH, DASH, DASH, NEWLINE]

  predicate IsSpace(b: byte) {
    b == 32 || 9 <= b <= 13
  }

  /** Nothing is left of the frame when white space is trimmed. */
  predicate Blank(frame: Bytes) {
    forall i | 0 <= i < |frame| :: IsSpace(frame[i])
  }

  /** White space is tab, newline, vertical tab, form feed, carriage return and space. */
  lemma BlankMeaning(frame: Bytes)
    ensures Blank(frame) <==> forall b | b in frame :: b in [9, 10, 11, 12, 13, 32]
  {
    if forall b | b in frame :: b in [9, 10, 11, 12, 13, 32] {
      assert forall i | 0 <= i < |frame| :: frame[i] in frame;
    }
  }

  /** The length of the first line, its newline included. */
  function LineEnd(s: Bytes): (n: nat)
    requires s != []
    ensures 0 < n <= |s|
  {
    if s[0] == NEWLINE || |s| == 1 then 1 else 1 + LineEnd(s[1..])
  }

  /** A document marker line, section 9.1.2 of YAML 1.2: three dashes, then white space or the end. */
  predicate IsMarker(line: Bytes) {
    3 <= |line| && line[..3] == [DASH, DASH, DASH] && (|line| == 3 || IsSpace(line[3]))
  }

  lemma MarkerMeaning(rest: Bytes)
    ensures IsMarker([45, 45, 45] + rest) <==> rest == [] || Blank([rest[0]])
  {
    var line: Bytes := [45, 45, 45] + rest;
    assert line[..3] == [DASH, DASH, DASH];
    if rest != [] {
      assert line[3] == rest[0] && [rest[0]][0] == rest[0];
    }
  }

  /** Adds text at the front of the first document. */
  function Prepend(text: Bytes, docs: seq<Bytes>): (r: seq<Bytes>)
    requires docs != []
    ensures r != []
  {
    [text + docs[0]] + docs[1..]
  }

  lemma PrependTwice(a: Bytes, b: Bytes, docs: seq<Bytes>)
    requires docs != []
    ensures Prepend(a, Prepend(b, docs)) == Prepend(a + b, docs)
  {
    assert a + (b + docs[0]) == (a + b) + docs[0];
  }

  /** The documents of a stream: what stands between its marker lines. */
  function Split(s: Bytes): (docs: seq<Bytes>)
    ensures docs != []
    decreases |s|
  {
    if s == [] then [[]]
    else
      var line, docs := s[..LineEnd(s)], Split(s[LineEnd(s)..]);
      if IsMarker(line) then [[]] + docs else Prepend(line, docs)
  }

  predicate NoMarkers(s: Bytes)
    decreases |s|
  {
    s == [] || (!IsMarker(s[..LineEnd(s)]) && NoMarkers(s[LineEnd(s)..]))
  }

  predicate Terminated(s: Bytes) {
    s != [] && s[|s| - 1] == NEWLINE
  }

  /** What a frame must be for a YAML stream to carry it: it says something, it ends its last line,
      and it has no marker line of its own. */
  predicate Carriable(frame: Bytes) {
    !Blank(frame) && Terminated(frame) && NoMarkers(frame)
  }

  /** The documents that are not blank. */
  function NonBlank(docs: seq<Bytes>): seq<Bytes> {
    if docs == [] then []
    else (if Blank(docs[0]) then [] else [docs[0]]) + NonBlank(docs[1..])
  }

  lemma {:induction false} LineEndOfTerminated(s: Bytes, t: Bytes)
    requires Terminated(s)
    ensures LineEnd(s + t) == LineEnd(s) && s[LineEnd(s) - 1] == NEWLINE
  {
    if s[0] != NEWLINE {
      assert (s + t)[1..] == s[1..] + t;
      LineEndOfTerminated(s[1..], t);
    }
  }

  /** One whole line in front of a stream. */
  lemma SplitLine(line: Bytes, s: Bytes)
    requires Terminated(line) && LineEnd(line) == |line|
    ensures Split(line + s) == if IsMarker(line) then [[]] + Split(s) else Prepend(line, Split(s))
  {
    LineEndOfTerminated(line, s);
    assert (line + s)[..|line|] == line && (line + s)[|line|..] == s;
  }

  /** A line cut off a text is a line by itself, and leaves whole lines. */
  lemma {:induction false} LineAlone(s: Bytes)
    requires Terminated(s)
    ensures var line, rest := s[..LineEnd(s)], s[LineEnd(s)..];
            Terminated(line) && LineEnd(line) == |line| && (rest == [] || Terminated(rest))
  {
    var line := s[..LineEnd(s)];
    if s[0] != NEWLINE {
      LineAlone(s[1..]);
      assert line[1..] == s[1..][..LineEnd(s[1..])];
    }
  }

  /** Two lists of documents whose streams are put together: the last of the one runs into the
      first of the other. */
  function Join(a: seq<Bytes>, b: seq<Bytes>): seq<Bytes>
    requires a != [] && b != []
  {
    a[..|a| - 1] + [a[|a| - 1] + b[0]] + b[1..]
  }

  lemma JoinPrepend(line: Bytes, a: seq<Bytes>, b: seq<Bytes>)
    requires a != [] && b != []
    ensures Join(Prepend(line, a), b) == Prepend(line, Join(a, b))
  {
    if |a| == 1 {
      assert (line + a[0]) + b[0] == line + (a[0] + b[0]);
    }
  }

  lemma JoinMarker(a: seq<Bytes>, b: seq<Bytes>)
    requires a != [] && b != []
    ensures Join([[]] + a, b) == [[]] + Join(a, b)
  {}

  lemma SplitJoinStep(line: Bytes, rest: Bytes, s: Bytes)
    requires Terminated(line) && LineEnd(line) == |line|
    requires Split(rest + s) == Join(Split(rest), Split(s))
    ensures Split(line + (rest + s)) == Join(Split(line + rest), Split(s))
  {
    SplitLine(line, rest + s);
    SplitLine(line, rest);
    JoinPrepend(line, Split(rest), Split(s));
    JoinMarker(Split(rest), Split(s));
  }

  lemma CutLine(t: Bytes, s: Bytes) returns (line: Bytes, rest: Bytes)
    requires Terminated(t)
    ensures t == line + rest && t + s == line + (rest + s) && |rest| < |t|
    ensures Terminated(line) && LineEnd(line) == |line| && (rest == [] || Terminated(rest))
    ensures line == t[..LineEnd(t)] && rest == t[LineEnd(t)..]
  {
    line, rest := t[..LineEnd(t)], t[LineEnd(t)..];
    LineAlone(t);
  }

  /** Streams of whole lines can be split separately. */
  lemma {:induction false} SplitJoin(t: Bytes, s: Bytes)
    requires t == [] || Terminated(t)
    ensures Split(t + s) == Join(Split(t), Split(s))
    decreases |t|
  {
    if t == [] {
      assert t + s == s && [] + Split(s)[0] == Split(s)[0];
    } else {
      var line, rest := CutLine(t, s);
      SplitJoin(rest, s);
      SplitJoinStep(line, rest, s);
    }
  }

  /** Text without a marker line is one document. */
  lemma {:induction false} SplitUnmarked(frame: Bytes)
    requires NoMarkers(frame)
    ensures Split(frame) == [frame]
    decreases |frame|
  {
    if frame != [] {
      SplitUnmarked(frame[LineEnd(frame)..]);
      assert frame == frame[..LineEnd(frame)] + frame[LineEnd(frame)..];
    }
  }

  lemma SplitSeparator(s: Bytes)
    ensures Split(SEPARATOR + s) == [[]] + Split(s)
  {
    var t := SEPARATOR + s;
    assert t[1..][0] == DASH && t[1..][1..][0] == DASH && t[1..][1..][1..][0] == NEWLINE;
    assert LineEnd(t[1..][1..][1..]) == 1;
    assert LineEnd(t[1..][1..]) == 2;
    assert LineEnd(t[1..]) == 3;
    assert LineEnd(t) == 4;
    assert t[..4] == SEPARATOR && t[4..] == s;
    assert SEPARATOR[..3] == [DASH, DASH, DASH];
  }

  /** A document of whole lines, or empty. */
  predicate Whole(doc: Bytes) {
    doc == [] || Terminated(doc)
  }

  lemma {:induction false} LineEndInside(s: Bytes)
    requires s != []
    ensures LineEnd(s) < |s| || Terminated(s) ==> s[LineEnd(s) - 1] == NEWLINE
    ensures LineEnd(s[..LineEnd(s)]) == LineEnd(s)
  {
    if s[0] != NEWLINE && |s| > 1 {
      LineEndInside(s[1..]);
      assert s[..LineEnd(s)][1..] == s[1..][..LineEnd(s[1..])];
    }
  }

  /** A line that is no marker, in front of a document that has none. */
  lemma UnmarkedLine(line: Bytes, doc: Bytes)
    requires line != [] && LineEnd(line) == |line| && !IsMarker(line) && NoMarkers(doc)
    requires Terminated(line) || doc == []
    ensures NoMarkers(line + doc)
  {
    if doc == [] {
      assert line + doc == line && line[..|line|] == line && line[|line|..] == [];
    } else {
      LineEndOfTerminated(line, doc);
      assert (line + doc)[..|line|] == line && (line + doc)[|line|..] == doc;
    }
  }

  lemma WholeLine(line: Bytes, doc: Bytes)
    ensures Terminated(line) && Whole(doc) ==> Whole(line + doc)
  {
    if doc == [] {
      assert line + doc == line;
    }
  }

  /** No document has a marker line; and all are whole, but perhaps for the last. */
  ghost predicate WellDivided(docs: seq<Bytes>, whole: bool) {
    && docs != [] && (forall d | d in docs :: NoMarkers(d))
    && (forall i | 0 <= i < |docs| - 1 :: Whole(docs[i]))
    && (whole ==> Whole(docs[|docs| - 1]))
  }

  lemma DividedByMarker(docs: seq<Bytes>, whole: bool)
    requires WellDivided(docs, whole)
    ensures WellDivided([[]] + docs, whole)
  {
    var all := [[]] + docs;
    assert forall i | 0 < i < |all| :: all[i] == docs[i - 1];
  }

  lemma DividedByLine(line: Bytes, docs: seq<Bytes>, whole: bool)
    requires WellDivided(docs, whole) && line != [] && LineEnd(line) == |line| && !IsMarker(line)
    requires Terminated(line) || (docs == [[]] && !whole)
    ensures WellDivided(Prepend(line, docs), whole)
  {
    assert docs[0] in docs && forall d | d in docs[1..] :: d in docs;
    UnmarkedLine(line, docs[0]);
    WholeLine(line, docs[0]);
    var all := Prepend(line, docs);
    assert forall i | 0 < i < |all| :: all[i] == docs[i];
  }

  /** So it is for any stream; and the last is whole if the stream ends its last line. */
  lemma {:induction false} SplitMakesDocuments(s: Bytes)
    ensures WellDivided(Split(s), Whole(s))
    decreases |s|
  {
    if s != [] {
      var line, rest := s[..LineEnd(s)], s[LineEnd(s)..];
      SplitMakesDocuments(rest);
      LineEndInside(s);
      assert Whole(s) && rest != [] ==> Whole(rest);
      assert s == line + rest;
      if IsMarker(line) {
        DividedByMarker(Split(rest), Whole(s));
      } else {
        DividedByLine(line, Split(rest), Whole(s));
      }
    }
  }

  /** Among the documents that are not blank the same ones are whole. */
  lemma {:induction false} NonBlankWhole(docs: seq<Bytes>)
    requires forall i | 0 <= i < |docs| - 1 :: Whole(docs[i])
    ensures forall i | 0 <= i < |NonBlank(docs)| - 1 :: Terminated(NonBlank(docs)[i])
    ensures docs != [] && Whole(docs[|docs| - 1]) ==> forall f | f in NonBlank(docs) :: Terminated(f)
    ensures forall f | f in NonBlank(docs) :: f in docs && !Blank(f)
  {
    if docs != [] {
      assert forall i | 0 <= i < |docs[1..]| - 1 :: docs[1..][i] == docs[i + 1];
      NonBlankWhole(docs[1..]);
      assert NonBlank([]) == [];
    }
  }

  lemma {:induction false} NonBlankConcat(a: seq<Bytes>, b: seq<Bytes>)
    ensures NonBlank(a + b) == NonBlank(a) + NonBlank(b)
  {
    if a == [] {
      assert a + b == b;
    } else {
      var rest := a[1..] + b;
      assert (a + b)[1..] == rest && (a + b)[0] == a[0];
      NonBlankConcat(a[1..], b);
      var head := if Blank(a[0]) then [] else [a[0]];
      assert NonBlank(a) == head + NonBlank(a[1..]);
      assert NonBlank(a + b) == head + NonBlank(rest);
    }
  }
}
