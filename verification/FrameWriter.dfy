/** pkg/serializer/frame_writer.go: YAML frames written one after another into a fixed buffer. */
module FrameWriter {
  import opened Common
  import opened Frames

  datatype WriteError = ErrShortBuffer

  class ByteWriter {
    const to: array<byte>
    var index: nat

    predicate Valid()
      reads this
    {
      index <= to.Length
    }

    ghost function Written(): Bytes
      requires Valid()
      reads this, to
    {
      to[..index]
    }

    function Space(): nat
      requires Valid()
      reads this
    {
      to.Length - index
    }

    constructor (to: array<byte>)
      ensures this.to == to && Valid() && Written() == []
    {
      this.to := to;
      index := 0;
    }

    /** All or nothing: too little space is an error and changes nothing. */
    method Write(from: Bytes) returns (n: nat, err: Option<WriteError>)
      requires Valid()
      modifies this`index, to
      ensures Valid()
      ensures old(index) + |from| <= to.Length ==>
                err == None && n == |from| && index == old(index) + |from| && to[..index] == old(to[..index]) + from
      ensures old(index) + |from| > to.Length ==>
                err == Some(ErrShortBuffer) && n == 0 && index == old(index) && to[..] == old(to[..])
      ensures to[index..] == old(to[..])[index..]
    {
      if index + |from| > to.Length {
        return 0, Some(ErrShortBuffer);
      }
      for i := 0 to |from|
        invariant index == old(index) && index + |from| <= to.Length
        invariant to[..index + i] == old(to[..index]) + from[..i]
        invariant to[index + i..] == old(to[..])[index + i..]
      {
        to[index + i] := from[i];
      }
      index := index + |from|;
      n, err := |from|, None;
    }
  }

  /** What one YAML write appends, given the space left and whether anything was written before. */
  datatype One = One(bytes: Bytes, hasWritten: bool, ok: bool)

  function WriteOne(space: nat, hasWritten: bool, frame: Bytes): (r: One)
    ensures |r.bytes| <= space
  {
    var separator := if hasWritten then SEPARATOR else [];
    if |separator| > space then One([], hasWritten, false)
    else if |separator| + |frame| > space then One(separator, hasWritten, false)
    else One(separator + frame, true, true)
  }

  /** A session of writes, failures included: what it appends, whether the next write starts with
      a separator, and the frames whose write succeeded. */
  datatype Session = Session(bytes: Bytes, hasWritten: bool, written: seq<Bytes>)

  function WriteAll(space: nat, hasWritten: bool, frames: seq<Bytes>): (s: Session)
    ensures |s.bytes| <= space
  {
    if frames == [] then Session([], hasWritten, [])
    else
      Extend(space, WriteAll(space, hasWritten, frames[..|frames| - 1]), frames[|frames| - 1])
  }

  /** One more write. */
  function Extend(space: nat, s: Session, frame: Bytes): (t: Session)
    requires |s.bytes| <= space
    ensures |t.bytes| <= space
  {
    var one := WriteOne(space - |s.bytes|, s.hasWritten, frame);
    Session(s.bytes + one.bytes, one.hasWritten, s.written + if one.ok then [frame] else [])
  }

  lemma WriteAllStep(space: nat, hasWritten: bool, frames: seq<Bytes>, i: nat)
    requires i < |frames|
    ensures WriteAll(space, hasWritten, frames[..i + 1])
            == Extend(space, WriteAll(space, hasWritten, frames[..i]), frames[i])
  {
    assert frames[..i + 1][..i] == frames[..i];
  }

  /** The frames a caller that stops at the first error gets to try. */
  function Tried(space: nat, hasWritten: bool, frames: seq<Bytes>): (tried: seq<Bytes>)
    ensures tried <= frames
  {
    if frames == [] then []
    else
      var front := frames[..|frames| - 1];
      if WriteAll(space, hasWritten, front).written == front then frames
      else Tried(space, hasWritten, front)
  }

  lemma OneMore(space: nat, hasWritten: bool, frames: seq<Bytes>, q: Bytes)
    ensures WriteAll(space, hasWritten, frames + [q]) == Extend(space, WriteAll(space, hasWritten, frames), q)
    ensures Tried(space, hasWritten, frames + [q])
            == if WriteAll(space, hasWritten, frames).written == frames then frames + [q]
               else Tried(space, hasWritten, frames)
  {
    assert (frames + [q])[..|frames|] == frames;
  }

  /** No later write makes up for a failed one, so the first failure is where that caller stops. */
  lemma {:induction false} StopsAtFirstFailure(space: nat, hasWritten: bool, tried: seq<Bytes>, rest: seq<Bytes>)
    requires tried != [] && WriteAll(space, hasWritten, tried).written == tried[..|tried| - 1]
    requires Tried(space, hasWritten, tried) == tried
    ensures Tried(space, hasWritten, tried + rest) == tried
    ensures |WriteAll(space, hasWritten, tried + rest).written| < |tried + rest|
  {
    if rest == [] {
      assert tried + rest == tried;
    } else {
      var front, q := rest[..|rest| - 1], rest[|rest| - 1];
      assert tried + rest == (tried + front) + [q];
      StopsAtFirstFailure(space, hasWritten, tried, front);
      OneMore(space, hasWritten, tried + front, q);
    }
  }

  lemma FirstFailure(space: nat, hasWritten: bool, frames: seq<Bytes>, i: nat)
    requires i < |frames|
    requires WriteAll(space, hasWritten, frames[..i]).written == frames[..i]
    requires Extend(space, WriteAll(space, hasWritten, frames[..i]), frames[i]).written == frames[..i]
    ensures WriteAll(space, hasWritten, frames).written != frames
    ensures Tried(space, hasWritten, frames) == frames[..i + 1]
  {
    OneMore(space, hasWritten, frames[..i], frames[i]);
    assert frames[..i + 1] == frames[..i] + [frames[i]];
    assert frames == frames[..i + 1] + frames[i + 1..];
    StopsAtFirstFailure(space, hasWritten, frames[..i + 1], frames[i + 1..]);
  }

  /** Frames with separators between them, and one in front if something was written before. */
  function Layout(hasWritten: bool, frames: seq<Bytes>): Bytes {
    if frames == [] then []
    else
      var front := frames[..|frames| - 1];
      Layout(hasWritten, front)
      + ((if hasWritten || front != [] then [45, 45, 45, 10] else []) + frames[|frames| - 1])
  }

  lemma {:induction false} WrittenAtMost(space: nat, hasWritten: bool, frames: seq<Bytes>)
    ensures |WriteAll(space, hasWritten, frames).written| <= |frames|
  {
    if frames != [] {
      WrittenAtMost(space, hasWritten, frames[..|frames| - 1]);
    }
  }

  lemma LayoutOneMore(hasWritten: bool, frames: seq<Bytes>, q: Bytes)
    ensures Layout(hasWritten, frames + [q])
            == Layout(hasWritten, frames) + ((if hasWritten || frames != [] then [45, 45, 45, 10] else []) + q)
  {
    assert (frames + [q])[..|frames|] == frames;
  }

  /** A session writes all its frames, laid out like that, if and only if there is room for it. */
  ghost predicate FitsAll(space: nat, hasWritten: bool, frames: seq<Bytes>) {
    var s, all := WriteAll(space, hasWritten, frames), Layout(hasWritten, frames);
    && (s.written == frames <==> |all| <= space)
    && (s.written == frames ==> s.bytes == all && s.hasWritten == (hasWritten || frames != []))
  }

  lemma FitsOneMore(space: nat, hasWritten: bool, front: seq<Bytes>, last: Bytes)
    requires FitsAll(space, hasWritten, front)
    ensures FitsAll(space, hasWritten, front + [last])
  {
    WrittenAtMost(space, hasWritten, front);
    OneMore(space, hasWritten, front, last);
    LayoutOneMore(hasWritten, front, last);
    RoomForOne(space, hasWritten, WriteAll(space, hasWritten, front), Layout(hasWritten, front), front, last);
  }

  lemma {:induction false} RoomForAll(space: nat, hasWritten: bool, frames: seq<Bytes>)
    ensures FitsAll(space, hasWritten, frames)
  {
    if frames != [] {
      RoomForAll(space, hasWritten, frames[..|frames| - 1]);
      FitsOneMore(space, hasWritten, frames[..|frames| - 1], frames[|frames| - 1]);
      LastOf(frames);
    }
  }

  lemma LastOf(frames: seq<Bytes>)
    requires frames != []
    ensures frames == frames[..|frames| - 1] + [frames[|frames| - 1]]
  {}

  lemma RoomForOne(space: nat, hasWritten: bool, s: Session, laid: Bytes, front: seq<Bytes>, last: Bytes)
    requires |s.bytes| <= space && |s.written| <= |front|
    requires s.written == front <==> |laid| <= space
    requires s.written == front ==> s.bytes == laid && s.hasWritten == (hasWritten || front != [])
    ensures var t, due := Extend(space, s, last), if hasWritten || front != [] then [45, 45, 45, 10] else [];
            && (t.written == front + [last] <==> |laid + (due + last)| <= space)
            && (t.written == front + [last] ==> t.bytes == laid + (due + last) && t.hasWritten)
  {
    var t := Extend(space, s, last);
    if t.written == front + [last] {
      assert t.written[..|front|] == front;
      assert t.written == s.written + [last];
    }
  }

  class YamlWriter {
    const w: ByteWriter
    var hasWritten: bool

    constructor (w: ByteWriter)
      ensures this.w == w && !hasWritten
    {
      this.w := w;
      hasWritten := false;
    }

    /** The separator goes first, in a write of its own, so it can be left dangling. */
    method Write(p: Bytes) returns (n: nat, err: Option<WriteError>)
      requires w.Valid()
      modifies this, w`index, w.to
      ensures w.Valid()
      ensures var one := WriteOne(old(w.Space()), old(hasWritten), p);
              && w.Written() == old(w.Written()) + one.bytes
              && hasWritten == one.hasWritten
              && err == (if one.ok then None else Some(ErrShortBuffer))
              && n == if one.ok then |p| else 0
      ensures var due, space := if old(hasWritten) then [45, 45, 45, 10] else [], old(w.to.Length - w.index);
              && (err == None <==> |due| + |p| <= space)
              && (err == None ==> hasWritten && w.to[..w.index] == old(w.to[..w.index]) + (due + p))
              && (err != None ==>
                    && hasWritten == old(hasWritten)
                    && w.to[..w.index] == old(w.to[..w.index]) + if |due| <= space then due else [])
    {
      n := 0;
      if hasWritten {
        var m;
        m, err := w.Write(SEPARATOR);
        if err != None {
          return;
        }
      }
      n, err := w.Write(p);
      if err != None {
        return;
      }
      hasWritten := true;
    }

    /** The writer is where session `s` leaves one that had written `base` and had `space` left. */
    ghost predicate At(base: Bytes, space: nat, s: Session)
      reads this, w, w.to
    {
      && w.Valid() && hasWritten == s.hasWritten
      && w.Written() == base + s.bytes && w.Space() + |s.bytes| == space
    }

    method WriteNext(p: Bytes, ghost base: Bytes, ghost space: nat, ghost s: Session) returns (err: Option<WriteError>)
      requires At(base, space, s)
      modifies this, w`index, w.to
      ensures At(base, space, Extend(space, s, p))
      ensures Extend(space, s, p).written == if err == None then s.written + [p] else s.written
    {
      ghost var one := WriteOne(space - |s.bytes|, s.hasWritten, p);
      var n;
      n, err := Write(p);
      assert w.Written() == base + (s.bytes + one.bytes);
    }

    /** A session: every frame is tried, whatever became of the ones before it. */
    method WriteEach(frames: seq<Bytes>) returns (written: seq<Bytes>)
      requires w.Valid()
      modifies this, w`index, w.to
      ensures w.Valid()
      ensures var s := WriteAll(old(w.Space()), old(hasWritten), frames);
              w.Written() == old(w.Written()) + s.bytes && hasWritten == s.hasWritten && written == s.written
    {
      ghost var base, space, before := w.Written(), w.Space(), hasWritten;
      written := [];
      for i := 0 to |frames|
        invariant At(base, space, WriteAll(space, before, frames[..i]))
        invariant written == WriteAll(space, before, frames[..i]).written
      {
        WriteAllStep(space, before, frames, i);
        var err := WriteNext(frames[i], base, space, WriteAll(space, before, frames[..i]));
        if err == None {
          written := written + [frames[i]];
        }
      }
      assert frames[..|frames|] == frames;
    }

    method WriteUntilError(frames: seq<Bytes>) returns (err: Option<WriteError>)
      requires w.Valid()
      modifies this, w`index, w.to
      ensures w.Valid()
      ensures err == None <==> WriteAll(old(w.Space()), old(hasWritten), frames).written == frames
      ensures var tried := if err == None then frames else Tried(old(w.Space()), old(hasWritten), frames);
              var s := WriteAll(old(w.Space()), old(hasWritten), tried);
              w.Written() == old(w.Written()) + s.bytes && hasWritten == s.hasWritten
    {
      ghost var base, space, before := w.Written(), w.Space(), hasWritten;
      ghost var s := WriteAll(space, before, []);
      for i := 0 to |frames|
        invariant At(base, space, s)
        invariant s == WriteAll(space, before, frames[..i]) && s.written == frames[..i]
      {
        WriteAllStep(space, before, frames, i);
        err := WriteNext(frames[i], base, space, s);
        if err != None {
          FirstFailure(space, before, frames, i);
          return;
        }
        s := Extend(space, s, frames[i]);
        assert frames[..i + 1] == frames[..i] + [frames[i]];
      }
      assert frames[..|frames|] == frames;
      err := None;
    }

    /** Stops at the first error. */
    method WriteFrameList(frames: seq<Bytes>) returns (err: Option<WriteError>)
      requires w.Valid()
      modifies this, w`index, w.to
      ensures w.Valid()
      ensures err == None <==> |Layout(old(hasWritten), frames)| <= old(w.to.Length - w.index)
      ensures err == None ==> w.to[..w.index] == old(w.to[..w.index]) + Layout(old(hasWritten), frames)
      ensures err != None ==>
                var s := WriteAll(old(w.Space()), old(hasWritten), Tried(old(w.Space()), old(hasWritten), frames));
                w.to[..w.index] == old(w.to[..w.index]) + s.bytes && hasWritten == s.hasWritten
    {
      RoomForAll(w.Space(), hasWritten, frames);
      err := WriteUntilError(frames);
    }
  }
}
