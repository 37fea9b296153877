/** pkg/serializer/frame_reader.go: reading frames through a buffer that doubles when too small. */
module FrameReader {
  import opened Frames

  datatype ReadError = Nil | ErrEOF | ErrShortBuffer | FrameOverflow | ErrOther

  /**
   The framer underneath: it delivers one document after another. When a document does not fit
   the buffer it fills the buffer and reports a short buffer; the rest comes with later reads.
   A document that fits exactly is either delivered as done or, if `eager`, reported as short
   with nothing left of it. After the last document it reports `end`.
   */
  class DocumentReader {
    const eager: bool
    const end: ReadError
    var open: bool
    var cur: Bytes
    var rest: seq<Bytes>
    var closed: bool

    /** What is still to be delivered, the document under way first. */
    ghost function Docs(): seq<Bytes>
      reads this
    {
      (if open then [cur] else []) + rest
    }

    constructor (docs: seq<Bytes>, end: ReadError, eager: bool)
      requires end == ErrEOF || end == ErrOther
      ensures Docs() == docs && this.end == end && !closed
    {
      this.eager, this.end := eager, end;
      open, cur, rest, closed := false, [], docs, false;
    }

    method Close()
      modifies this`closed
      ensures closed
    {
      closed := true;
    }

    method Read(buf: array<byte>) returns (n: nat, err: ReadError)
      requires 0 < buf.Length
      modifies this, buf
      ensures closed == old(closed) && n <= buf.Length
      ensures old(Docs()) == [] ==> n == 0 && err == end && Docs() == []
      ensures old(Docs()) != [] ==>
                var doc, later := old(Docs())[0], old(Docs())[1..];
                && n <= |doc| && buf[..n] == doc[..n]
                && (|doc| < buf.Length ==> err == Nil)
                && if err == Nil then n == |doc| && Docs() == later
                   else err == ErrShortBuffer && n == buf.Length && Docs() == [doc[n..]] + later
    {
      if !open {
        if rest == [] {
          return 0, end;
        }
        cur, rest, open := rest[0], rest[1..], true;
      }
      ghost var doc := cur;
      if |cur| < buf.Length || (|cur| == buf.Length && !eager) {
        n, err := |cur|, Nil;
        open := false;
      } else {
        n, err := buf.Length, ErrShortBuffer;
      }
      for i := 0 to n
        invariant buf[..i] == doc[..i]
        modifies buf
      {
        buf[i] := cur[i];
      }
      cur := cur[n..];
    }
  }

  // ------------------------------------------------------------------ what reading means

  datatype Next =
    | AtEnd
    | Overflow(doc: Bytes, later: seq<Bytes>)
    | Frame(doc: Bytes, later: seq<Bytes>)

  /** The first document that is not a small blank one decides. */
  function NextFrame(docs: seq<Bytes>, maxFrameSize: nat): Next {
    if docs == [] then AtEnd
    else if |docs[0]| > maxFrameSize then Overflow(docs[0], docs[1..])
    else if Blank(docs[0]) then NextFrame(docs[1..], maxFrameSize)
    else Frame(docs[0], docs[1..])
  }

  /** It is the first that is oversized or says something; the blank ones before it are skipped. */
  lemma {:induction false} NextFrameMeaning(docs: seq<Bytes>, maxFrameSize: nat, i: nat)
    requires i <= |docs| && forall j | 0 <= j < i :: Blank(docs[j]) && |docs[j]| <= maxFrameSize
    requires i < |docs| ==> !Blank(docs[i]) || |docs[i]| > maxFrameSize
    ensures NextFrame(docs, maxFrameSize)
            == if i == |docs| then AtEnd
               else if |docs[i]| > maxFrameSize then Overflow(docs[i], docs[i + 1..])
               else Frame(docs[i], docs[i + 1..])
  {
    if i > 0 {
      assert Blank(docs[0]);
      NextFrameMeaning(docs[1..], maxFrameSize, i - 1);
    }
  }

  datatype List = Listed(frames: seq<Bytes>) | Failed(err: ReadError)

  function FrameList(docs: seq<Bytes>, maxFrameSize: nat, end: ReadError): List {
    if docs == [] then if end == ErrEOF then Listed([]) else Failed(end)
    else if |docs[0]| > maxFrameSize then Failed(FrameOverflow)
    else if Blank(docs[0]) then FrameList(docs[1..], maxFrameSize, end)
    else AddFrame(docs[0], FrameList(docs[1..], maxFrameSize, end))
  }

  function AddFrame(frame: Bytes, list: List): List {
    match list
    case Listed(frames) => Listed([frame] + frames)
    case Failed(_) => list
  }

  function AddFrames(frames: seq<Bytes>, list: List): List {
    match list
    case Listed(more) => Listed(frames + more)
    case Failed(_) => list
  }

  function Max(a: nat, b: nat): nat {
    if a < b then b else a
  }

  lemma {:induction false} FrameListUnfolds(docs: seq<Bytes>, maxFrameSize: nat, end: ReadError)
    ensures FrameList(docs, maxFrameSize, end)
            == match NextFrame(docs, maxFrameSize)
               case AtEnd => if end == ErrEOF then Listed([]) else Failed(end)
               case Overflow(_, _) => Failed(FrameOverflow)
               case Frame(doc, later) => AddFrame(doc, FrameList(later, maxFrameSize, end))
  {
    if docs != [] && |docs[0]| <= maxFrameSize && Blank(docs[0]) {
      FrameListUnfolds(docs[1..], maxFrameSize, end);
    }
  }

  lemma {:induction false} NextFrameShorter(docs: seq<Bytes>, maxFrameSize: nat)
    ensures NextFrame(docs, maxFrameSize).Frame? ==> |NextFrame(docs, maxFrameSize).later| < |docs|
  {
    if docs != [] {
      NextFrameShorter(docs[1..], maxFrameSize);
    }
  }

  // ------------------------------------------------------------------ the reader

  class FramesReader {
    const rc: DocumentReader
    const bufSize: nat
    const maxFrameSize: nat

    constructor (rc: DocumentReader, bufSize: nat, maxFrameSize: nat)
      ensures this.rc == rc && this.bufSize == bufSize && this.maxFrameSize == maxFrameSize
    {
      this.rc, this.bufSize, this.maxFrameSize := rc, bufSize, maxFrameSize;
    }

    /** `largest` is the size of the largest buffer allocated by the call. */
    method ReadFrame() returns (frame: Bytes, err: ReadError, ghost largest: nat)
      requires 0 < bufSize && (rc.end == ErrEOF || rc.end == ErrOther)
      modifies rc
      ensures match NextFrame(old(rc.Docs()), maxFrameSize)
              case AtEnd => frame == [] && err == rc.end && rc.Docs() == [] && (err == ErrEOF ==> rc.closed)
              case Frame(doc, later) => frame == doc && err == Nil && rc.Docs() == later
              case Overflow(doc, later) =>
                && err == FrameOverflow && |frame| > maxFrameSize && frame <= doc
                && (rc.Docs() == later || rc.Docs() == [doc[|frame|..]] + later)
      ensures err != ErrEOF ==> rc.closed == old(rc.closed)
      ensures bufSize <= largest <= Max(bufSize, 2 * maxFrameSize)
    {
      frame, err := [], Nil;
      var c: nat := 1;
      largest := bufSize;
      ghost var docs := rc.Docs();
      JoinedNothing(docs);
      while true
        invariant frame != [] ==> rc.Docs() != []
        invariant rc.closed == old(rc.closed)
        invariant NextFrame(Joined(frame, rc.Docs()), maxFrameSize) == NextFrame(docs, maxFrameSize)
        invariant 1 <= c
        invariant bufSize <= c * bufSize <= Max(bufSize, 2 * maxFrameSize)
        invariant bufSize <= largest <= Max(bufSize, 2 * maxFrameSize)
        decreases |rc.Docs()|, if rc.Docs() == [] then 0 else |rc.Docs()[0]|
      {
        ghost var before := rc.Docs();
        var buf := new byte[c * bufSize];
        largest := Max(largest, buf.Length);
        var n;
        n, err := rc.Read(buf);
        if before != [] {
          JoinedRead(frame, before, n);
        }
        frame := frame + buf[..n];
        if |frame| > maxFrameSize {
          err := FrameOverflow;
          return;
        }
        if err == ErrShortBuffer {
          TwiceTimes(c, bufSize);
          c := 2 * c;
          continue;
        }
        if err == Nil {
          if !Blank(frame) {
            return;
          }
          frame := [];
          JoinedNothing(rc.Docs());
          continue;
        }
        if err == ErrEOF {
          rc.Close();
          return;
        }
        return;
      }
    }

    /** Reads until the end, or stops at the first error. */
    method ReadFrameList() returns (result: List, ghost largest: nat)
      requires 0 < bufSize && (rc.end == ErrEOF || rc.end == ErrOther)
      modifies rc
      ensures result == FrameList(old(rc.Docs()), maxFrameSize, rc.end)
      ensures largest <= Max(bufSize, 2 * maxFrameSize)
    {
      var frameList: seq<Bytes> := [];
      largest := 0;
      while true
        invariant AddFrames(frameList, FrameList(rc.Docs(), maxFrameSize, rc.end))
                  == FrameList(old(rc.Docs()), maxFrameSize, rc.end)
        invariant largest <= Max(bufSize, 2 * maxFrameSize)
        decreases |rc.Docs()|
      {
        FrameListUnfolds(rc.Docs(), maxFrameSize, rc.end);
        NextFrameShorter(rc.Docs(), maxFrameSize);
        ghost var later := NextFrame(rc.Docs(), maxFrameSize);
        var frame, err, size := ReadFrame();
        largest := Max(largest, size);
        if err == ErrEOF {
          assert frameList + [] == frameList;
          return Listed(frameList), largest;
        } else if err != Nil {
          return Failed(err), largest;
        }
        if later.Frame? {
          AddAssociates(frameList, frame, FrameList(later.later, maxFrameSize, rc.end));
        }
        frameList := frameList + [frame];
      }
    }
  }

  /** The documents to come, with the part of the first that has been read already. */
  function Joined(frame: Bytes, docs: seq<Bytes>): seq<Bytes> {
    if docs == [] then [] else [frame + docs[0]] + docs[1..]
  }

  /** Reading a part of the first document leaves the documents to come as they were. */
  lemma JoinedRead(frame: Bytes, docs: seq<Bytes>, n: nat)
    requires docs != [] && n <= |docs[0]|
    ensures Joined(frame + docs[0][..n], [docs[0][n..]] + docs[1..]) == Joined(frame, docs)
    ensures n == |docs[0]| ==> Joined(frame, docs) == [frame + docs[0][..n]] + docs[1..]
    ensures |frame + docs[0][..n]| <= |Joined(frame, docs)[0]|
    ensures frame + docs[0][..n] <= Joined(frame, docs)[0]
    ensures Joined(frame, docs)[0][|frame + docs[0][..n]|..] == docs[0][n..]
  {
    var doc := docs[0];
    assert doc == doc[..n] + doc[n..];
    assert (frame + doc[..n]) + doc[n..] == frame + doc;
    if n == |doc| {
      assert doc[..n] == doc;
    }
  }

  lemma JoinedNothing(docs: seq<Bytes>)
    ensures Joined([], docs) == docs
  {
    if docs != [] {
      assert [] + docs[0] == docs[0];
    }
  }

  lemma TwiceTimes(c: nat, size: nat)
    ensures (2 * c) * size == 2 * (c * size)
  {}

  lemma AddAssociates(frames: seq<Bytes>, frame: Bytes, list: List)
    ensures AddFrames(frames, AddFrame(frame, list)) == AddFrames(frames + [frame], list)
  {
    if list.Listed? {
      assert frames + ([frame] + list.frames) == (frames + [frame]) + list.frames;
    }
  }

  // ------------------------------------------------------------------ consequences

  /** With no oversized document the list is all documents that are not blank, in order,
      whatever the buffer size. */
  lemma {:induction false} AllFramesRead(docs: seq<Bytes>, maxFrameSize: nat)
    requires forall d | d in docs :: |d| <= maxFrameSize
    ensures FrameList(docs, maxFrameSize, ErrEOF) == Listed(NonBlank(docs))
  {
    if docs != [] {
      AllFramesRead(docs[1..], maxFrameSize);
    }
  }

  /** Overflow is reported exactly when there is an oversized document, blank or not. */
  lemma {:induction false} OverflowExactly(docs: seq<Bytes>, maxFrameSize: nat, end: ReadError)
    requires end == ErrEOF || end == ErrOther
    ensures FrameList(docs, maxFrameSize, end) == Failed(FrameOverflow)
            <==> exists d | d in docs :: |d| > maxFrameSize
  {
    if docs != [] {
      OverflowExactly(docs[1..], maxFrameSize, end);
      assert docs == [docs[0]] + docs[1..];
    }
  }

  /** A list that is read is that of the documents that are not blank, none of them oversized. */
  lemma ListMeaning(docs: seq<Bytes>, maxFrameSize: nat, frames: seq<Bytes>)
    requires FrameList(docs, maxFrameSize, ErrEOF) == Listed(frames)
    ensures frames == NonBlank(docs) && forall d | d in docs :: |d| <= maxFrameSize
  {
    OverflowExactly(docs, maxFrameSize, ErrEOF);
    AllFramesRead(docs, maxFrameSize);
  }

  /** With no oversized document, any other end than the end of the stream is an error of the list. */
  lemma {:induction false} ErrorsAreReported(docs: seq<Bytes>, maxFrameSize: nat, end: ReadError)
    requires end != ErrEOF && forall d | d in docs :: |d| <= maxFrameSize
    ensures FrameList(docs, maxFrameSize, end) == Failed(end)
  {
    if docs != [] {
      ErrorsAreReported(docs[1..], maxFrameSize, end);
    }
  }
}
