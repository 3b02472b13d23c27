/** The two halves of the frame codec put together: the frames of a message, offered to the
    parser one after the other on a quiet line. */
module RoundTrip {
  import opened Wire
  import opened Device
  import opened Events
  import opened Codec
  import opened Receiver
  import opened FrameParser
  import opened Reassembly

  datatype Outcome = Delivered(message: seq<byte>) | OutOfRange | Incomplete | Rejected

  /** What `receive` makes of a completed context. */
  function Deliver(c: Context): Outcome {
    if !Ready(c) then Rejected
    else match Message(c)
         case Some(m) => Delivered(m)
         case None => OutOfRange
  }

  function AsReception(o: Outcome): Reception {
    match o
    case Delivered(m) => Got(m)
    case OutOfRange => Throws
    case _ => NoMessage
  }

  /** What `receive` reports of a context it ends with. */
  function ReceptionOf(c: Context): Reception {
    if c.result then AsReception(Deliver(c)) else NoMessage
  }

  lemma ReceivedIs(cs: Checksum, script: seq<Reply>)
    ensures Received(cs, script) == ReceptionOf(Run(cs, Idle, Start(script)).ctx)
  {
    ReceiveRun(cs, script);
    hide Run, Message;
  }

  /** The frames of a message, offered one after the other to a parser that starts with `c`. */
  function Collect(cs: Checksum, c: Context, fs: seq<seq<byte>>): Outcome
    requires c.Valid() && c.Frame() == []
    decreases |fs|
  {
    if fs == [] then Incomplete
    else
      var p := Parse(cs, Stx, c, fs[0]);
      if p.verdict != Pass || p.rest != [] then Rejected
      else
        var (e, d) := Complete(p.ctx);
        if e == Wait then Collect(cs, d, fs[1..]) else if e == Pass then Deliver(d) else Rejected
  }

  /** The message with the division flag that the frames of a divided message carry. */
  function Marked(d: seq<byte>): seq<byte>
    requires |d| >= CMD_LENGTH
  {
    d[2 := MoreFollow(d[2])]
  }

  /** A frame that is well-formed as a whole is accepted and stored as it is. */
  lemma WholeFrame(cs: Checksum, c: Context, f: seq<byte>)
    requires c.Valid() && c.Frame() == []
    requires WellFormed(cs, c.kind, c.dataLength, f) && AnnouncedSize(c.kind, c.dataLength, f) == |f|
    ensures Parse(cs, Stx, c, f) == Parsed(Pass, Settled(c, f).With(f), [])
    ensures Settled(c, f).kind == HeaderKind(c.kind, f)
  {
    hide Parse, Num24, U32, Num16;
    Acceptance(cs, c, f);
    HeaderSettles(c, f);
    assert f[..|f|] == f;
  }

  lemma RegularFrameAccepted(cs: Checksum, c: Context, d: seq<byte>)
    requires c.Valid() && c.Frame() == []
    requires CMD_LENGTH <= |d| <= MAX_FRAME_LENGTH - FRAME_FOOTER_LENGTH
    ensures var f := RegularFrame(cs, d);
            && WellFormed(cs, c.kind, c.dataLength, f) && AnnouncedSize(c.kind, c.dataLength, f) == |f| && f[1] != EXT_LEN
            && |f| == |d| + 4 && f[2..|f| - 2] == d
  {
    var body := [STX, (|d| + 2) % 0x100] + d;
    SealSeals(cs, body);
    assert RegularFrame(cs, d)[..|d| + 2] == body;
    assert RegularFrame(cs, d)[2..|d| + 2] == body[2..];
  }

  lemma ExtendedFrameLayout(cs: Checksum, d: seq<byte>)
    requires MAX_FRAME_LENGTH - FRAME_FOOTER_LENGTH < |d| <= MAX_EXTENDED_LENGTH - FRAME_FOOTER_LENGTH
    ensures var f := ExtendedFrame(cs, d);
            && |f| == |d| + 7 && StartOk(f) && f[1] == EXT_LEN && LengthField(f) == |f| - 2
            && f[2..5] == d[..3] && f[8..|f| - 2] == d[3..]
            && f[|f| - 2] == ETX && f[|f| - 1] == cs(f[1..|f| - 1])
  {
    var length := |d| + EXT_LEN_LENGTH + FRAME_FOOTER_LENGTH;
    var body := [STX, EXT_LEN] + d[..3] + Bytes24(length) + d[3..];
    var f := ExtendedFrame(cs, d);
    SealSeals(cs, body);
    FieldsRoundTrip(length);
    assert f[..|f| - 2] == body;
    assert f[5..8] == body[5..8] == Bytes24(length);
    assert f[2..5] == body[2..5] == d[..3];
    assert f[8..|f| - 2] == body[8..] == d[3..];
  }

  /** A frame with extended length that is sealed and says its own size is accepted by any parser that
      looks for one. */
  lemma LongFrameAccepted(cs: Checksum, c: Context, f: seq<byte>)
    requires c.Valid() && c.Frame() == [] && !c.kind.Regular?
    requires |f| >= 14 && StartOk(f) && f[1] == EXT_LEN && LengthField(f) == |f| - 2
    requires f[|f| - 2] == ETX && f[|f| - 1] == cs(f[1..|f| - 1])
    ensures WellFormed(cs, c.kind, c.dataLength, f) && AnnouncedSize(c.kind, c.dataLength, f) == |f|
    ensures HeaderKind(c.kind, f) == KindOfLength(c.kind, |f| - 2)
  {
    hide Num24, Num16;
  }

  lemma PieceLayout(cs: Checksum, d: seq<byte>, i: nat)
    requires |d| > MAX_EXTENDED_LENGTH - FRAME_FOOTER_LENGTH && i < FrameCount(d)
    ensures var f := DividedFrame(cs, d, i);
            && |f| == 14 + |Slice(d, i)| && StartOk(f) && f[1] == EXT_LEN && LengthField(f) == |f| - 2
            && f[|f| - 2] == ETX && f[|f| - 1] == cs(f[1..|f| - 1])
  {
    hide Num24, Num16, Seal;
    DividedFrameFields(cs, d, i);
    SliceSizes(d, i);
    SealSeals(cs, DividedBody(d, i)) by {
      assert |DividedBody(d, i)| >= 1;
    }
  }

  lemma PieceAccepted(cs: Checksum, c: Context, d: seq<byte>, i: nat)
    requires c.Valid() && c.Frame() == []
    requires |d| > MAX_EXTENDED_LENGTH - FRAME_FOOTER_LENGTH && i < FrameCount(d)
    requires !c.kind.Regular? && (c.kind.Divided? || |Slice(d, i)| + 12 > MAX_EXTENDED_LENGTH)
    ensures var f := DividedFrame(cs, d, i);
            && WellFormed(cs, c.kind, c.dataLength, f) && AnnouncedSize(c.kind, c.dataLength, f) == |f|
            && |f| >= 14 && StartOk(f) && f[1] == EXT_LEN && HeaderKind(c.kind, f) == Divided
            && NumberOf(f) == i % 0x1_0000 && TotalOf(f) == FrameCount(d) % 0x1_0000 && PayloadOf(f) == Slice(d, i)
  {
    hide DividedFrame, WellFormed, AnnouncedSize, HeaderKind, Slice, FrameCount, Num16, Num24;
    PieceLayout(cs, d, i);
    DividedFrameFields(cs, d, i);
    LongFrameAccepted(cs, c, DividedFrame(cs, d, i));
  }

  lemma RegularDelivered(cs: Checksum, d: seq<byte>)
    requires CMD_LENGTH <= |d| <= MAX_FRAME_LENGTH - FRAME_FOOTER_LENGTH
    ensures Collect(cs, FRESH, Frames(cs, d)) == Delivered(d)
  {
    hide Parse, WellFormed, AnnouncedSize;
    var f := RegularFrame(cs, d);
    RegularFrameAccepted(cs, FRESH, d);
    WholeFrame(cs, FRESH, f);
    var c := Settled(FRESH, f).With(f);
    assert c.kind == Regular && c.Frame() == f;
  }

  lemma ExtendedDelivered(cs: Checksum, d: seq<byte>)
    requires MAX_FRAME_LENGTH - FRAME_FOOTER_LENGTH < |d| <= 1027
    ensures Collect(cs, FRESH, Frames(cs, d)) == Delivered(d)
  {
    hide Parse, Num24, Num16, Seal, WellFormed, AnnouncedSize;
    var f := ExtendedFrame(cs, d);
    ExtendedFrameAccepted(cs, FRESH, d);
    WholeFrame(cs, FRESH, f);
    var c := Settled(FRESH, f).With(f);
    assert c.Frame() == f && c.kind == ExtendedLength;
    assert d[..3] + d[3..] == d;
  }

  lemma ExtendedFrameAccepted(cs: Checksum, c: Context, d: seq<byte>)
    requires c.Valid() && c.Frame() == [] && !c.kind.Regular?
    requires MAX_FRAME_LENGTH - FRAME_FOOTER_LENGTH < |d| <= MAX_EXTENDED_LENGTH - FRAME_FOOTER_LENGTH
    ensures var f := ExtendedFrame(cs, d);
            && |f| == |d| + 7 && f[1] == EXT_LEN && f[2..5] == d[..3] && f[8..|f| - 2] == d[3..]
            && WellFormed(cs, c.kind, c.dataLength, f) && AnnouncedSize(c.kind, c.dataLength, f) == |f|
            && HeaderKind(c.kind, f) == KindOfLength(c.kind, |d| + 5)
  {
    hide ExtendedFrame, WellFormed, AnnouncedSize, HeaderKind, LengthField;
    ExtendedFrameLayout(cs, d);
    LongFrameAccepted(cs, c, ExtendedFrame(cs, d));
  }

  /** A message of 1028 to 1030 bytes is sent undivided but read as divided: its own data bytes are
      taken for a frame number and a total. What comes of it depends on those bytes, and it is
      never the message. */
  lemma GapMessage(cs: Checksum, d: seq<byte>)
    requires 1027 < |d| <= MAX_EXTENDED_LENGTH - FRAME_FOOTER_LENGTH
    ensures Collect(cs, FRESH, Frames(cs, d)) ==
            var number, total := Num16(d[3..5]), Num16(d[5..7]);
            if total == 0 || number != total - 1 then Incomplete
            else if total != 1 then OutOfRange
            else Delivered(d[..3] + d[7..|d| - 2])
  {
    hide Parse, Num24, Num16, Seal, WellFormed, AnnouncedSize, U32;
    var f := ExtendedFrame(cs, d);
    ExtendedFrameAccepted(cs, FRESH, d);
    WholeFrame(cs, FRESH, f);
    var c := Settled(FRESH, f).With(f);
    assert c.Frame() == f && c.frames == [f] && c.kind == Divided;
    assert f[8..10] == f[8..|f| - 2][..2] && d[3..5] == d[3..][..2];
    assert f[10..12] == f[8..|f| - 2][2..4] && d[5..7] == d[3..][2..4];
    GapOutcome(c, d);
    assert Frames(cs, d) == [f] && [f][1..] == [];
  }

  lemma GapOutcome(c: Context, d: seq<byte>)
    requires c.Valid() && !c.result && c.kind.Divided? && c.current == 0 && |c.Frame()| == |d| + 7 && |d| >= 10
    requires c.Frame()[2..5] == d[..3] && c.Frame()[8..|d| + 5] == d[3..]
    requires c.frameNumber == Num16(d[3..5]) && c.totalFrames == Num16(d[5..7])
    ensures var (e, r) := Complete(c); var number, total := Num16(d[3..5]), Num16(d[5..7]);
            if total == 0 || number != total - 1 then e == Wait && r.Frame() == []
            else e == Pass && Deliver(r) == if total != 1 then OutOfRange else Delivered(d[..3] + d[7..|d| - 2])
  {
    hide Num16;
    var f := c.Frame();
    Num16Small(d[3..5]);
    Num16Small(d[5..7]);
    assert c.frames == [f];
    var (e, r) := Complete(c);
    if e == Pass && c.totalFrames == 1 {
      assert r.frames[..1] == [f];
      assert JoinPayloads([f]) == JoinPayloads([]) + PayloadOf(f);
      assert PayloadOf(f) == f[8..|d| + 5][4..] == d[7..];
      assert (d[..3] + d[7..])[..|d| - 6] == d[..3] + d[7..|d| - 2];
    }
  }

  lemma Num16Small(s: seq<byte>)
    requires |s| == 2
    ensures Num16(s) < 0x1_0000
    ensures U32(Num16(s) - 1) == if Num16(s) == 0 then 0xFFFF_FFFF else Num16(s) - 1
  {
  }

  /** What a divided message arrives as when t frames of it are joined. */
  function JoinedMessage(d: seq<byte>, t: nat): seq<byte>
    requires |d| >= CMD_LENGTH && t >= 1
  {
    var m := d[..2] + [MoreFollow(d[2])] + d[CMD_LENGTH..SliceStart(d, t)];
    if t == 1 then m[..|m| - 2] else m
  }

  /** A context that has accepted the first k pieces of d. */
  predicate HasPieces(cs: Checksum, c: Context, d: seq<byte>, k: nat)
    requires |d| > MAX_EXTENDED_LENGTH - FRAME_FOOTER_LENGTH && k <= FrameCount(d)
  {
    && c.frames == Frames(cs, d)[..k] + [[]] && c.current == k && !c.result
    && if k == 0 then !c.kind.Regular? else c.kind.Divided?
  }

  /** A context that expects a divided frame, or sees by its length that it is one, reads piece j. */
  lemma PieceRead(cs: Checksum, c: Context, d: seq<byte>, j: nat)
    requires |d| > MAX_EXTENDED_LENGTH - FRAME_FOOTER_LENGTH && j < FrameCount(d) && c.Valid() && c.Frame() == []
    requires !c.kind.Regular? && (c.kind.Divided? || |Slice(d, j)| + 12 > MAX_EXTENDED_LENGTH)
    ensures |Frames(cs, d)| == FrameCount(d)
    ensures var f := Frames(cs, d)[j]; var p := Parse(cs, Stx, c, f);
            && WellFormed(cs, c.kind, c.dataLength, f)
            && p.verdict == Pass && p.rest == [] && p.ctx.kind == Divided && p.ctx.totalFrames == Total(d)
            && p.ctx.frameNumber == j % 0x1_0000 && p.ctx.frames == c.frames[c.current := f] && p.ctx.current == c.current
            && p.ctx.result == c.result
  {
    hide Parse, Num24, Num16, Seal, WellFormed, AnnouncedSize, U32, DividedFrame;
    var f := Frames(cs, d)[j];
    assert f == DividedFrame(cs, d, j);
    PieceAccepted(cs, c, d, j);
    WholeFrame(cs, c, f);
    PieceNumbers(c, f);
  }

  /** One piece more: the context completes it and knows whether it was the announced last one. */
  lemma NextPiece(cs: Checksum, c: Context, d: seq<byte>, k: nat)
    requires |d| > MAX_EXTENDED_LENGTH - FRAME_FOOTER_LENGTH && k < FrameCount(d) && HasPieces(cs, c, d, k)
    ensures var t := Total(d); var p := Parse(cs, Stx, c, Frames(cs, d)[k]);
            && p.verdict == Pass && p.rest == [] && p.ctx.kind == Divided && p.ctx.totalFrames == t && p.ctx.frameNumber == k % 0x1_0000
            && p.ctx.frames == Frames(cs, d)[..k + 1] && p.ctx.current == k && !p.ctx.result
            && (Complete(p.ctx).0 == Pass <==> t >= 1 && k % 0x1_0000 == t - 1)
            && (Complete(p.ctx).0 == Wait <==> Complete(p.ctx).0 != Pass)
            && (Complete(p.ctx).0 == Wait ==> HasPieces(cs, Complete(p.ctx).1, d, k + 1))
  {
    hide Parse, Frames, FrameCount, WellFormed, Slice, Complete, Total;
    PiecesHeld(cs, c, d, k);
    SliceSizes(d, k);
    PieceRead(cs, c, d, k);
    var a := Parse(cs, Stx, c, Frames(cs, d)[k]).ctx;
    PieceCompletes(a);
    assert (Frames(cs, d)[..k] + [[]])[k := Frames(cs, d)[k]] == Frames(cs, d)[..k + 1];
  }

  /** The last frame of a divided message is known by its number. */
  lemma PieceCompletes(c: Context)
    requires c.Valid() && c.kind == Divided && c.frameNumber < 0x1_0000 && c.totalFrames < 0x1_0000
    ensures var (e, n) := Complete(c);
            if c.totalFrames >= 1 && c.frameNumber == c.totalFrames - 1 then e == Pass && n == c.(result := true)
            else e == Wait && n == c.(frames := c.frames + [[]], current := c.current + 1)
  {
    TotalMinusOne(c.totalFrames);
  }

  lemma PiecesHeld(cs: Checksum, c: Context, d: seq<byte>, k: nat)
    requires |d| > MAX_EXTENDED_LENGTH - FRAME_FOOTER_LENGTH && k <= FrameCount(d) && HasPieces(cs, c, d, k)
    ensures c.Valid() && c.Frame() == [] && |Frames(cs, d)| == FrameCount(d)
  {
  }

  lemma PieceNumbers(c: Context, f: seq<byte>)
    requires c.Valid() && |f| >= 14 && StartOk(f) && f[1] == EXT_LEN && !c.kind.Regular? && HeaderKind(c.kind, f) == Divided
    ensures Settled(c, f).frameNumber == NumberOf(f) && Settled(c, f).totalFrames == TotalOf(f)
    ensures Settled(c, f).frames == c.frames && Settled(c, f).current == c.current && Settled(c, f).result == c.result
  {
  }

  lemma TotalMinusOne(t: nat)
    requires t < 0x1_0000
    ensures U32(t - 1) == if t == 0 then 0xFFFF_FFFF else t - 1
  {
  }

  lemma CollectOnce(cs: Checksum, c: Context, fs: seq<seq<byte>>, k: nat)
    requires c.Valid() && c.Frame() == [] && k < |fs|
    ensures var p := Parse(cs, Stx, c, fs[k]);
            p.verdict == Pass && p.rest == [] ==>
              var (e, d) := Complete(p.ctx);
              && (e == Wait ==> Collect(cs, c, fs[k..]) == Collect(cs, d, fs[k + 1..]))
              && (e == Pass ==> Collect(cs, c, fs[k..]) == Deliver(d))
  {
    hide Parse, Complete, Deliver;
    assert fs[k..][0] == fs[k] && fs[k..][1..] == fs[k + 1..];
  }

  /** The number of frames a divided message announces: 16 bits of the real one. */
  function Total(d: seq<byte>): (t: nat)
    requires |d| >= CMD_LENGTH
    ensures t < 0x1_0000 && (FrameCount(d) <= MAX_FRAMES ==> t == FrameCount(d))
    ensures FrameCount(d) > MAX_FRAMES ==> t < FrameCount(d)
  {
    FrameCount(d) % 0x1_0000
  }

  /** The outcome for a divided message, with the total its frames announce. */
  function JoinedOutcome(d: seq<byte>, t: nat): Outcome
    requires |d| >= CMD_LENGTH
  {
    if t == 0 then Incomplete else Delivered(JoinedMessage(d, t))
  }

  lemma PieceCollected(cs: Checksum, c: Context, d: seq<byte>, k: nat, t: nat)
    returns (next: Context)
    requires |d| > MAX_EXTENDED_LENGTH - FRAME_FOOTER_LENGTH && k < FrameCount(d) && HasPieces(cs, c, d, k)
    requires t == Total(d) && (t >= 1 ==> k < t)
    ensures |Frames(cs, d)| == FrameCount(d)
    ensures if t >= 1 && k == t - 1 then Collect(cs, c, Frames(cs, d)[k..]) == JoinedOutcome(d, t)
            else HasPieces(cs, next, d, k + 1) && Collect(cs, c, Frames(cs, d)[k..]) == Collect(cs, next, Frames(cs, d)[k + 1..])
  {
    hide Frames, FrameCount, HasPieces, Collect, Parse, Complete, Total, Deliver, JoinedMessage;
    PiecesHeld(cs, c, d, k);
    NextPiece(cs, c, d, k);
    TotalReached(d, k);
    var p := Parse(cs, Stx, c, Frames(cs, d)[k]);
    next := Complete(p.ctx).1;
    CollectOnce(cs, c, Frames(cs, d), k);
    if t >= 1 && k == t - 1 {
      PiecesDelivered(cs, p.ctx, d, t);
    }
  }

  lemma TotalReached(d: seq<byte>, k: nat)
    requires |d| >= CMD_LENGTH && (Total(d) >= 1 ==> k < Total(d))
    ensures (Total(d) >= 1 && k % 0x1_0000 == Total(d) - 1) <==> (Total(d) >= 1 && k == Total(d) - 1)
  {
    hide *;
    if k < 0x1_0000 {
      SmallRemainder(k);
    }
  }

  lemma SmallRemainder(k: nat)
    requires k < 0x1_0000
    ensures k % 0x1_0000 == k
  {
  }

  lemma {:induction false} PiecesCollected(cs: Checksum, c: Context, d: seq<byte>, k: nat, t: nat)
    requires |d| > MAX_EXTENDED_LENGTH - FRAME_FOOTER_LENGTH && k <= FrameCount(d) && HasPieces(cs, c, d, k)
    requires t == Total(d) && (t >= 1 ==> k < t)
    ensures k <= |Frames(cs, d)| && Collect(cs, c, Frames(cs, d)[k..]) == JoinedOutcome(d, t)
    decreases FrameCount(d) - k
  {
    hide Frames, FrameCount, HasPieces, Collect, JoinedOutcome, Total;
    PiecesHeld(cs, c, d, k);
    if k == FrameCount(d) {
      PiecesEnd(cs, c, d, t);
    } else {
      var next := PieceCollected(cs, c, d, k, t);
      if !(t >= 1 && k == t - 1) {
        PiecesCollected(cs, next, d, k + 1, t);
      }
    }
  }

  lemma PiecesEnd(cs: Checksum, c: Context, d: seq<byte>, t: nat)
    requires |d| > MAX_EXTENDED_LENGTH - FRAME_FOOTER_LENGTH && HasPieces(cs, c, d, FrameCount(d))
    requires t == Total(d) && (t >= 1 ==> FrameCount(d) < t)
    ensures |Frames(cs, d)| == FrameCount(d) && Collect(cs, c, Frames(cs, d)[FrameCount(d)..]) == JoinedOutcome(d, t)
  {
    hide Frames, FrameCount, HasPieces, Collect, Total;
    PiecesHeld(cs, c, d, FrameCount(d));
    CollectNone(cs, c, Frames(cs, d)[FrameCount(d)..]);
    NoneJoined(d);
  }

  lemma NoneJoined(d: seq<byte>)
    requires |d| >= CMD_LENGTH
    ensures JoinedOutcome(d, 0) == Incomplete
  {
  }

  lemma CollectNone(cs: Checksum, c: Context, fs: seq<seq<byte>>)
    requires c.Valid() && c.Frame() == [] && fs == []
    ensures Collect(cs, c, fs) == Incomplete
  {
  }

  lemma PiecesDelivered(cs: Checksum, c: Context, d: seq<byte>, t: nat)
    requires |d| > MAX_EXTENDED_LENGTH - FRAME_FOOTER_LENGTH && 1 <= t <= FrameCount(d) && t < 0x1_0000
    requires c.frames == Frames(cs, d)[..t] && c.current == t - 1 && c.kind == Divided
    requires c.totalFrames == t && c.frameNumber == t - 1
    ensures Complete(c).0 == Pass && Deliver(Complete(c).1) == Delivered(JoinedMessage(d, t))
  {
    hide Num24, Num16, Seal, Frames, JoinPayloads, SliceStart, JoinedMessage;
    TotalMinusOne(t);
    var fs := Frames(cs, d);
    PiecePayloads(cs, d, t);
    var r := Complete(c).1;
    assert r.frames == fs[..t] && r.frames[..t] == fs[..t];
    assert r.Frame() == fs[t - 1];
    assert r.frames[0] == fs[0];
    assert Ready(r);
    assert JoinedMessage(d, t) == (var m := d[..2] + [MoreFollow(d[2])] + JoinPayloads(fs[..t]);
                                   if t == 1 then m[..|m| - 2] else m) by {
      JoinedShape(d, t);
    }
  }

  lemma JoinedShape(d: seq<byte>, t: nat)
    requires |d| >= CMD_LENGTH && t >= 1
    ensures JoinedMessage(d, t) == (var m := d[..2] + [MoreFollow(d[2])] + d[CMD_LENGTH..SliceStart(d, t)];
                                    if t == 1 then m[..|m| - 2] else m)
  {
  }

  lemma PiecePayloads(cs: Checksum, d: seq<byte>, t: nat)
    requires |d| > MAX_EXTENDED_LENGTH - FRAME_FOOTER_LENGTH && 1 <= t <= FrameCount(d)
    ensures |Frames(cs, d)| == FrameCount(d) && forall f <- Frames(cs, d) :: |f| >= 14
    ensures Frames(cs, d)[0][2..5] == d[..2] + [MoreFollow(d[2])]
    ensures JoinPayloads(Frames(cs, d)[..t]) == d[CMD_LENGTH..SliceStart(d, t)]
  {
    hide Num24, Num16, Seal, JoinPayloads;
    var fs := Frames(cs, d);
    forall i | 0 <= i < |fs|
      ensures |fs[i]| >= 14 && PayloadOf(fs[i]) == Slice(d, i)
    {
      assert fs[i] == DividedFrame(cs, d, i);
      DividedFrameFields(cs, d, i);
    }
    PayloadsJoin(fs, d, t);
    SliceSizes(d, 0);
    assert fs[0] == DividedFrame(cs, d, 0);
    DividedFrameFields(cs, d, 0);
  }

  function Sent(cs: Checksum, d: seq<byte>): Outcome {
    assert FRESH.Valid() && FRESH.Frame() == [];
    Collect(cs, FRESH, Frames(cs, d))
  }

  predicate Flagged(r: Outcome, b: byte) {
    r.Delivered? && |r.message| >= CMD_LENGTH && r.message[2] == b
  }

  /** Sending and receiving a message on a quiet line returns it unchanged up to 1027 bytes, and
      with the division flag set from 1031 bytes up to 65535 frames. Those are the only lengths for
      which anything of the message's own length comes back. */
  lemma CodecRoundTrip(cs: Checksum, d: seq<byte>)
    requires |d| >= CMD_LENGTH
    ensures |d| <= 1027 ==> Sent(cs, d) == Delivered(d)
    ensures |d| >= 1031 && FrameCount(d) <= MAX_FRAMES ==> Sent(cs, d) == Delivered(Marked(d))
    ensures (Sent(cs, d).Delivered? && |Sent(cs, d).message| == |d|)
            <==> (|d| <= 1027 || (|d| >= 1031 && FrameCount(d) <= MAX_FRAMES))
    ensures |d| >= 1031 && Sent(cs, d).Delivered? ==> Flagged(Sent(cs, d), MoreFollow(d[2]))
    ensures Sent(cs, d) != Rejected
  {
    hide Collect, Num24, Num16, Frames, FrameCount, MoreFollow;
    if |d| <= MAX_FRAME_LENGTH - FRAME_FOOTER_LENGTH {
      RegularDelivered(cs, d);
    } else if |d| <= 1027 {
      ExtendedDelivered(cs, d);
    } else if |d| <= 1030 {
      GapMessage(cs, d);
    } else {
      DividedSent(cs, d);
    }
  }

  lemma DividedSent(cs: Checksum, d: seq<byte>)
    requires |d| >= 1031
    ensures FrameCount(d) <= MAX_FRAMES ==> Sent(cs, d) == Delivered(Marked(d))
    ensures Sent(cs, d).Delivered? && FrameCount(d) > MAX_FRAMES ==> |Sent(cs, d).message| < |d|
    ensures Sent(cs, d).Delivered? ==> Flagged(Sent(cs, d), MoreFollow(d[2]))
    ensures Sent(cs, d) != Rejected
  {
    hide Collect, Num24, Num16, Frames, FrameCount, JoinedMessage, MoreFollow;
    var n := FrameCount(d);
    var t := Total(d);
    assert HasPieces(cs, FRESH, d, 0) && Frames(cs, d)[0..] == Frames(cs, d) by {
      assert Frames(cs, d)[..0] + [[]] == [[]];
    }
    assert n >= 2 by {
      ManyFrames(d);
    }
    PiecesCollected(cs, FRESH, d, 0, t);
    if t >= 1 {
      JoinedSize(d, t);
    }
  }

  lemma ManyFrames(d: seq<byte>)
    requires |d| >= 1031
    ensures FrameCount(d) >= 2
  {
    SliceSizes(d, 0);
  }

  lemma JoinedSize(d: seq<byte>, t: nat)
    requires |d| >= 1031 && 1 <= t <= FrameCount(d)
    ensures t == FrameCount(d) ==> JoinedMessage(d, t) == Marked(d)
    ensures t < FrameCount(d) ==> |JoinedMessage(d, t)| < |d|
    ensures |JoinedMessage(d, t)| >= CMD_LENGTH && JoinedMessage(d, t)[2] == MoreFollow(d[2])
  {
    hide MoreFollow;
    SliceSizes(d, 0);
    assert SliceStart(d, t) >= CMD_LENGTH + 1024;
  }
}
