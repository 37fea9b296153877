/** Reading back what a YAML writer wrote into a buffer, failed writes and all. */
module FrameRoundTrip {
  import opened Frames
  import opened FrameWriter
  import opened FrameReader

  ghost predicate AllCarriable(frames: seq<Bytes>) {
    forall f | f in frames :: Carriable(f)
  }

  /** What the bytes of a session are: whole lines, whose documents are the frames written and
      otherwise only empty ones, left by separators. */
  ghost predicate Holds(s: Session) {
    && (s.bytes == [] || Terminated(s.bytes))
    && (!s.hasWritten ==> s.bytes == [])
    && NonBlank(Split(s.bytes)) == s.written
    && forall d | d in Split(s.bytes) :: d == [] || d in s.written
  }

  /** Adding whole documents behind a separator. */
  lemma JoinDocs(a: seq<Bytes>, b: seq<Bytes>)
    requires a != []
    ensures Join(a, [[]] + b) == a + b
  {
    assert a[|a| - 1] + [] == a[|a| - 1];
  }

  lemma NonBlankOne(d: Bytes)
    ensures NonBlank([d]) == if Blank(d) then [] else [d]
  {
    assert [d][1..] == [];
  }

  /** A separator and a frame, or nothing, behind whole lines are one more document. */
  lemma AppendSplit(bytes: Bytes, tail: Bytes)
    requires bytes == [] || Terminated(bytes)
    requires NoMarkers(tail)
    ensures Split(bytes + (SEPARATOR + tail)) == Split(bytes) + [tail]
  {
    SplitUnmarked(tail);
    SplitSeparator(tail);
    SplitJoin(bytes, SEPARATOR + tail);
    JoinDocs(Split(bytes), [tail]);
  }

  lemma AppendTerminated(bytes: Bytes, tail: Bytes)
    requires tail == [] || Terminated(tail)
    ensures Terminated(bytes + (SEPARATOR + tail))
  {
    var s := SEPARATOR + tail;
    assert (bytes + s)[|bytes + s| - 1] == s[|s| - 1];
  }

  lemma AppendHolds(s: Session, tail: Bytes, written: seq<Bytes>)
    requires Holds(s) && (tail == [] || Carriable(tail))
    requires written == s.written + if tail == [] then [] else [tail]
    ensures Holds(Session(s.bytes + (SEPARATOR + tail), true, written))
  {
    var docs := Split(s.bytes);
    AppendSplit(s.bytes, tail);
    AppendTerminated(s.bytes, tail);
    NonBlankConcat(docs, [tail]);
    NonBlankOne(tail);
  }

  /** The first frame goes in without a separator. */
  lemma FirstHolds(frame: Bytes)
    requires Carriable(frame)
    ensures Holds(Session(frame, true, [frame]))
  {
    SplitUnmarked(frame);
    NonBlankOne(frame);
  }

  lemma NothingHolds(hasWritten: bool)
    ensures Holds(Session([], hasWritten, []))
  {
    assert Split([]) == [[]];
    NonBlankOne([]);
  }

  /** One more write keeps it so, whether it succeeds, fails, or leaves a separator dangling. */
  lemma ExtendHolds(space: nat, s: Session, frame: Bytes)
    requires |s.bytes| <= space && Holds(s)
    requires AllCarriable(Extend(space, s, frame).written)
    ensures Holds(Extend(space, s, frame))
  {
    var one, t := WriteOne(space - |s.bytes|, s.hasWritten, frame), Extend(space, s, frame);
    assert one.ok ==> Carriable(frame) by {
      assert one.ok ==> frame in t.written;
    }
    if !s.hasWritten {
      assert Split([]) == [[]];
      NonBlankOne([]);
      assert s.written == [];
      FirstOrNothing(one, frame, t);
    } else if one.bytes == [] {
      assert t.bytes == s.bytes && t.written == s.written;
    } else if one.ok {
      AppendHolds(s, frame, t.written);
    } else {
      assert one.bytes == SEPARATOR + [];
      AppendHolds(s, [], t.written);
    }
  }

  lemma FirstOrNothing(one: One, frame: Bytes, t: Session)
    requires one == One(frame, true, true) || one == One([], false, false)
    requires t == Session(one.bytes, one.hasWritten, if one.ok then [frame] else [])
    requires one.ok ==> Carriable(frame)
    ensures Holds(t)
  {
    if one.ok {
      FirstHolds(frame);
    } else {
      NothingHolds(false);
    }
  }

  lemma {:induction false} SessionHolds(space: nat, frames: seq<Bytes>)
    requires AllCarriable(WriteAll(space, false, frames).written)
    ensures Holds(WriteAll(space, false, frames))
  {
    if frames == [] {
      NothingHolds(false);
    } else {
      var front, last := frames[..|frames| - 1], frames[|frames| - 1];
      var s := WriteAll(space, false, front);
      assert forall f | f in s.written :: f in WriteAll(space, false, frames).written;
      SessionHolds(space, front);
      ExtendHolds(space, s, last);
    }
  }

  /** What a session must be for its frames to be read back: each says something, fits, and has no
      marker line; and each ends its last line, but for one that nothing was written after. */
  ghost predicate Readable(s: Session, maxFrameSize: nat) {
    && (forall f | f in s.written :: !Blank(f) && NoMarkers(f) && |f| <= maxFrameSize)
    && forall i | 0 <= i < |s.written| ::
         Terminated(s.written[i]) || (i == |s.written| - 1 && !Terminated(s.bytes))
  }

  /** The bytes of a session whose last frame ends no line, and is the last that was written. */
  ghost predicate EndsOpen(s: Session) {
    && s.written != [] && !Terminated(s.bytes)
    && (forall f | f in s.written :: !Blank(f) && NoMarkers(f))
    && forall i | 0 <= i < |s.written| - 1 :: Terminated(s.written[i])
  }

  /** An open end is the text of the last frame, behind a session of whole lines. */
  lemma {:induction false} OpenEnd(space: nat, frames: seq<Bytes>)
    requires EndsOpen(WriteAll(space, false, frames))
    ensures NonBlank(Split(WriteAll(space, false, frames).bytes)) == WriteAll(space, false, frames).written
    ensures forall d | d in Split(WriteAll(space, false, frames).bytes) ::
              d == [] || d in WriteAll(space, false, frames).written
  {
    var front, last := frames[..|frames| - 1], frames[|frames| - 1];
    var s, t := WriteAll(space, false, front), WriteAll(space, false, frames);
    var one := WriteOne(space - |s.bytes|, s.hasWritten, last);
    if one.ok {
      assert last in t.written;
      FrontCarriable(s, t, last);
      SessionHolds(space, front);
      LastFrame(s, last, one, t);
    } else if one.bytes == [] {
      assert t.bytes == s.bytes && t.written == s.written;
      OpenEnd(space, front);
    } else {
      assert false;
    }
  }

  lemma FrontCarriable(s: Session, t: Session, last: Bytes)
    requires EndsOpen(t) && t.written == s.written + [last]
    ensures AllCarriable(s.written)
  {
    forall f | f in s.written
      ensures Carriable(f)
    {
      var i :| 0 <= i < |s.written| && s.written[i] == f;
      assert t.written[i] == f;
    }
  }

  lemma LastFrame(s: Session, frame: Bytes, one: One, t: Session)
    requires Holds(s) && !Blank(frame) && NoMarkers(frame)
    requires one.ok && one.bytes == (if s.hasWritten then SEPARATOR else []) + frame
    requires t.bytes == s.bytes + one.bytes && t.written == s.written + [frame]
    ensures NonBlank(Split(t.bytes)) == t.written
    ensures forall d | d in Split(t.bytes) :: d == [] || d in t.written
  {
    NonBlankOne(frame);
    if s.hasWritten {
      AppendSplit(s.bytes, frame);
      NonBlankConcat(Split(s.bytes), [frame]);
    } else {
      assert Split([]) == [[]];
      NonBlankOne([]);
      assert t.bytes == frame && t.written == [frame];
      SplitUnmarked(frame);
    }
  }

  lemma ReadableIsRead(space: nat, frames: seq<Bytes>, maxFrameSize: nat)
    requires Readable(WriteAll(space, false, frames), maxFrameSize)
    ensures var s := WriteAll(space, false, frames);
            FrameList(Split(s.bytes), maxFrameSize, ErrEOF) == Listed(s.written)
  {
    var s := WriteAll(space, false, frames);
    if forall f | f in s.written :: Terminated(f) {
      SessionHolds(space, frames);
    } else {
      OpenEnd(space, frames);
    }
    AllFramesRead(Split(s.bytes), maxFrameSize);
  }

  lemma ReadIsReadable(s: Session, maxFrameSize: nat)
    requires FrameList(Split(s.bytes), maxFrameSize, ErrEOF) == Listed(s.written)
    ensures Readable(s, maxFrameSize)
  {
    var docs := Split(s.bytes);
    ListMeaning(docs, maxFrameSize, s.written);
    SplitMakesDocuments(s.bytes);
    NonBlankWhole(docs);
    forall i | 0 <= i < |s.written|
      ensures Terminated(s.written[i]) || (i == |s.written| - 1 && !Terminated(s.bytes))
    {
      assert s.written[i] in s.written;
    }
  }

  /** For any frames and any buffer: reading what was written gives exactly the frames whose write
      succeeded, if and only if the session is readable. */
  lemma RoundTrip(space: nat, frames: seq<Bytes>, maxFrameSize: nat)
    ensures var s := WriteAll(space, false, frames);
            FrameList(Split(s.bytes), maxFrameSize, ErrEOF) == Listed(s.written) <==> Readable(s, maxFrameSize)
  {
    var s := WriteAll(space, false, frames);
    if Readable(s, maxFrameSize) {
      ReadableIsRead(space, frames, maxFrameSize);
    }
    if FrameList(Split(s.bytes), maxFrameSize, ErrEOF) == Listed(s.written) {
      ReadIsReadable(s, maxFrameSize);
    }
  }

  /** The writing half: the bytes of the buffer that were written, and the frames that got there. */
  method WriteSession(frames: seq<Bytes>, size: nat) returns (bytes: Bytes, written: seq<Bytes>)
    ensures bytes == WriteAll(size, false, frames).bytes
    ensures written == WriteAll(size, false, frames).written
  {
    var buffer := new byte[size];
    var w := new ByteWriter(buffer);
    var yaml := new YamlWriter(w);
    written := yaml.WriteEach(frames);
    bytes := buffer[..w.index];
  }

  lemma FittingIsReadable(size: nat, frames: seq<Bytes>, maxFrameSize: nat)
    requires WriteAll(size, false, frames).written == frames
    requires forall f | f in frames :: Carriable(f) && |f| <= maxFrameSize
    ensures Readable(WriteAll(size, false, frames), maxFrameSize)
  {
    assert forall i | 0 <= i < |frames| :: frames[i] in frames;
  }

  /** The same, through the writers, the buffer and the readers themselves. */
  method WriteThenRead(frames: seq<Bytes>, size: nat, bufSize: nat, maxFrameSize: nat, eager: bool)
    returns (written: seq<Bytes>, result: List)
    requires 0 < bufSize
    ensures written == WriteAll(size, false, frames).written
    ensures written == frames <==> |Layout(false, frames)| <= size
    ensures |Layout(false, frames)| <= size && (forall f | f in frames :: Carriable(f) && |f| <= maxFrameSize) ==>
              result == Listed(frames)
    ensures result == Listed(written) <==> Readable(WriteAll(size, false, frames), maxFrameSize)
  {
    var bytes;
    bytes, written := WriteSession(frames, size);
    RoomForAll(size, false, frames);
    if |Layout(false, frames)| <= size && forall f | f in frames :: Carriable(f) && |f| <= maxFrameSize {
      FittingIsReadable(size, frames, maxFrameSize);
    }
    RoundTrip(size, frames, maxFrameSize);
    var rc := new DocumentReader(Split(bytes), ErrEOF, eager);
    var reader := new FramesReader(rc, bufSize, maxFrameSize);
    ghost var largest;
    result, largest := reader.ReadFrameList();
  }
}
