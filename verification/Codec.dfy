/** The sending half of the frame codec: `prepareFrames`. */
module Codec {
  import opened Wire

  /** Closes a frame body with ETX and the checksum of everything after STX. */
  function Seal(cs: Checksum, body: seq<byte>): (frame: seq<byte>)
    requires |body| >= 1
  {
    body + [ETX] + [cs(body[1..] + [ETX])]
  }

  function RegularFrame(cs: Checksum, d: seq<byte>): seq<byte> {
    Seal(cs, [STX, (|d| + FRAME_FOOTER_LENGTH) % 0x100] + d)
  }

  function ExtendedFrame(cs: Checksum, d: seq<byte>): seq<byte>
    requires |d| >= CMD_LENGTH
  {
    Seal(cs, [STX, EXT_LEN] + d[..CMD_LENGTH]
             + Bytes24(|d| + EXT_LEN_LENGTH + FRAME_FOOTER_LENGTH) + d[CMD_LENGTH..])
  }

  function FrameCount(d: seq<byte>): nat
    requires |d| >= CMD_LENGTH
  {
    (|d| - CMD_LENGTH + MAX_ACTUAL_DATA_LENGTH - 1) / MAX_ACTUAL_DATA_LENGTH
  }

  /** Start of the i-th slice of a divided message; past the end it is the end. */
  function SliceStart(d: seq<byte>, i: nat): (p: nat)
    requires |d| >= CMD_LENGTH
    ensures p <= |d|
  {
    if CMD_LENGTH + MAX_ACTUAL_DATA_LENGTH * i <= |d|
    then CMD_LENGTH + MAX_ACTUAL_DATA_LENGTH * i else |d|
  }

  function Slice(d: seq<byte>, i: nat): seq<byte>
    requires |d| >= CMD_LENGTH
  {
    d[SliceStart(d, i)..SliceStart(d, i + 1)]
  }

  function DividedBody(d: seq<byte>, i: nat): seq<byte>
    requires |d| >= CMD_LENGTH
  {
    var codebit := if i + 1 == FrameCount(d) then LastOne(d[2]) else MoreFollow(d[2]);
    [STX, EXT_LEN, d[0], d[1], codebit] + Bytes24(|Slice(d, i)| + 12)
    + Bytes16(i) + Bytes16(FrameCount(d)) + Slice(d, i)
  }

  function DividedFrame(cs: Checksum, d: seq<byte>, i: nat): seq<byte>
    requires |d| >= CMD_LENGTH
  {
    Seal(cs, DividedBody(d, i))
  }

  /** The frames a message is sent as. */
  function Frames(cs: Checksum, d: seq<byte>): (frames: seq<seq<byte>>)
    ensures frames != []
    ensures forall f <- frames :: |f| >= 4
  {
    if |d| <= MAX_FRAME_LENGTH - FRAME_FOOTER_LENGTH then [RegularFrame(cs, d)]
    else if |d| <= MAX_EXTENDED_LENGTH - FRAME_FOOTER_LENGTH then [ExtendedFrame(cs, d)]
    else seq(FrameCount(d), i requires 0 <= i => DividedFrame(cs, d, i))
  }

  method PrepareFrames(cs: Checksum, d: seq<byte>) returns (frames: seq<seq<byte>>)
    requires |d| < 0x1_0000_0000
    ensures frames == Frames(cs, d)
  {
    hide Seal, Bytes24, FrameCount, DividedFrame;
    var data := d;
    frames := [];
    if |data| <= MAX_FRAME_LENGTH - FRAME_FOOTER_LENGTH {
      var frame: seq<byte> := [STX];
      frame := frame + [|data| + FRAME_FOOTER_LENGTH];
      frame := frame + data;
      SealOf(cs, frame);
      RegularBody(d);
      frame := frame + [ETX];
      frame := frame + [cs(frame[1..])];
      frames := frames + [frame];
    } else if |data| <= MAX_EXTENDED_LENGTH - FRAME_FOOTER_LENGTH {
      var frame: seq<byte> := [STX, EXT_LEN, data[0], data[1], data[2]];
      var length := |data| + EXT_LEN_LENGTH + FRAME_FOOTER_LENGTH;
      frame := frame + Bytes24(length) + data[3..];
      ghost var body := frame;
      frame := frame + [ETX];
      frame := frame + [cs(frame[1..])];
      SealOf(cs, body);
      ExtendedBody(d, length);
      frames := frames + [frame];
    } else {
      frames := Divide(cs, d);
    }
  }

  lemma RegularBody(d: seq<byte>)
    requires |d| <= MAX_FRAME_LENGTH - FRAME_FOOTER_LENGTH
    ensures [STX] + [|d| + FRAME_FOOTER_LENGTH] + d == [STX, |d| + FRAME_FOOTER_LENGTH] + d
  {
  }

  lemma ExtendedBody(d: seq<byte>, length: nat)
    requires |d| >= CMD_LENGTH
    ensures [STX, EXT_LEN, d[0], d[1], d[2]] + Bytes24(length) + d[CMD_LENGTH..] ==
            [STX, EXT_LEN] + d[..CMD_LENGTH] + Bytes24(length) + d[CMD_LENGTH..]
  {
    assert [STX, EXT_LEN, d[0], d[1], d[2]] == [STX, EXT_LEN] + d[..CMD_LENGTH];
  }

  lemma SealOf(cs: Checksum, body: seq<byte>)
    requires |body| >= 1
    ensures (body + [ETX])[1..] == body[1..] + [ETX]
    ensures Seal(cs, body) == body + [ETX] + [cs((body + [ETX])[1..])]
  {
  }

  /** Puts piece i together field by field. */
  method Assemble(cs: Checksum, command: byte, subCommand: byte, codebit: byte, length: nat, i: nat, framesCount: nat,
                  payload: seq<byte>, ghost d: seq<byte>)
    returns (frame: seq<byte>)
    requires |d| >= CMD_LENGTH && command == d[0] && subCommand == d[1]
    requires codebit == if i + 1 == framesCount then LastOne(d[2]) else MoreFollow(d[2])
    requires framesCount == FrameCount(d) && payload == Slice(d, i) && length == |payload| + 12
    ensures frame == DividedFrame(cs, d, i)
  {
    frame := [STX, EXT_LEN, command, subCommand, codebit];
    frame := frame + Bytes24(length);
    frame := frame + Bytes16(i);
    frame := frame + Bytes16(framesCount);
    frame := frame + payload;
    SealOf(cs, frame);
    frame := frame + [ETX];
    frame := frame + [cs(frame[1..])];
  }

  /** What is left of the message when piece i is cut off its front. */
  function Remaining(d: seq<byte>, i: nat): seq<byte>
    requires |d| >= CMD_LENGTH
  {
    if i == 0 then d else d[SliceStart(d, i)..]
  }

  lemma FrontSlice(d: seq<byte>, i: nat, data: seq<byte>)
    requires |d| > MAX_EXTENDED_LENGTH - FRAME_FOOTER_LENGTH
    requires i < FrameCount(d) && data == Remaining(d, i)
    ensures FrameCount(d) >= 2
    ensures var begin := if i == 0 then 3 else 0;
            var n := if |data| < MAX_ACTUAL_DATA_LENGTH then |data| else MAX_ACTUAL_DATA_LENGTH;
            && begin + n <= |data| && data[begin..begin + n] == Slice(d, i)
            && data[n + begin..] == Remaining(d, i + 1)
            && |Slice(d, i)| == (if |d| - SliceStart(d, i) < MAX_ACTUAL_DATA_LENGTH then |d| - SliceStart(d, i) else MAX_ACTUAL_DATA_LENGTH)
            && SliceStart(d, i + 1) == SliceStart(d, i) + |Slice(d, i)|
  {
    SliceSizes(d, i);
    assert |data| == if i == 0 then |d| else |d| - SliceStart(d, i);
  }

  /** One turn of the dividing loop: cuts piece i off the front of the data. */
  method CutPiece(cs: Checksum, command: byte, subCommand: byte, codebit: byte, i: nat, framesCount: nat,
                  data: seq<byte>, actualDataLength: nat, ghost d: seq<byte>)
    returns (frame: seq<byte>, data': seq<byte>, actualDataLength': nat)
    requires MAX_EXTENDED_LENGTH - FRAME_FOOTER_LENGTH < |d| && command == d[0] && subCommand == d[1]
    requires codebit == if i + 1 == framesCount then LastOne(d[2]) else MoreFollow(d[2])
    requires i < framesCount == FrameCount(d) && data == Remaining(d, i) && actualDataLength == |d| - SliceStart(d, i)
    ensures frame == DividedFrame(cs, d, i)
    ensures data' == Remaining(d, i + 1) && actualDataLength' == |d| - SliceStart(d, i + 1)
  {
    FrontSlice(d, i, data);
    var length := if actualDataLength < MAX_ACTUAL_DATA_LENGTH then actualDataLength else MAX_ACTUAL_DATA_LENGTH;
    actualDataLength' := actualDataLength - length;
    length := length + CMD_LENGTH + EXT_LEN_LENGTH + FRAME_NUMBER_LENGTH + TOTAL_FRAMES_LENGTH + FRAME_FOOTER_LENGTH;
    var begin := if i == 0 then CMD_LENGTH else 0;
    var dataLength := if |data| < MAX_ACTUAL_DATA_LENGTH then |data| else MAX_ACTUAL_DATA_LENGTH;
    frame := Assemble(cs, command, subCommand, codebit, length, i, framesCount, data[begin..begin + dataLength], d);
    data' := data[dataLength + begin..];
  }

  method CountFrames(actualDataLength: nat, ghost d: seq<byte>) returns (framesCount: nat)
    requires MAX_EXTENDED_LENGTH - FRAME_FOOTER_LENGTH < |d| && actualDataLength == |d| - CMD_LENGTH
    ensures framesCount == FrameCount(d) > 1
  {
    framesCount := actualDataLength / MAX_ACTUAL_DATA_LENGTH;
    if actualDataLength % MAX_ACTUAL_DATA_LENGTH > 0 {
      framesCount := framesCount + 1;
    }
  }

  /** The codebit of the message after i of its n frames have been cut. */
  function CodebitAfter(c: byte, i: nat, n: nat): byte {
    if i == 0 then c else if i == n then LastOne(c) else MoreFollow(c)
  }

  lemma CodebitNext(c: byte, i: nat, n: nat)
    requires i < n && n > 1
    ensures CodebitAfter(c, i + 1, n) == if i == n - 1 then LastOne(CodebitAfter(c, i, n)) else MoreFollow(CodebitAfter(c, i, n))
    ensures CodebitAfter(c, i + 1, n) == if i + 1 == n then LastOne(c) else MoreFollow(c)
  {
    MarksAccumulate(c);
  }

  lemma DivisionStarts(d: seq<byte>)
    requires |d| > MAX_EXTENDED_LENGTH - FRAME_FOOTER_LENGTH
    ensures Remaining(d, 0) == d && SliceStart(d, 0) == CMD_LENGTH && CodebitAfter(d[2], 0, FrameCount(d)) == d[2]
  {
  }

  lemma FrameAt(cs: Checksum, d: seq<byte>, i: nat)
    requires |d| > MAX_EXTENDED_LENGTH - FRAME_FOOTER_LENGTH && i < FrameCount(d)
    ensures |Frames(cs, d)| == FrameCount(d) && Frames(cs, d)[i] == DividedFrame(cs, d, i)
  {
  }

  /** The dividing branch: one pass that consumes the message from the front. */
  method Divide(cs: Checksum, d: seq<byte>) returns (frames: seq<seq<byte>>)
    requires MAX_EXTENDED_LENGTH - FRAME_FOOTER_LENGTH < |d| < 0x1_0000_0000
    ensures frames == Frames(cs, d)
  {
    hide Frames, FrameCount, SliceStart, Slice, Remaining, DividedFrame, CodebitAfter;
    var data := d;
    frames := [];
    var actualDataLength := |data| - CMD_LENGTH;
    var framesCount := CountFrames(actualDataLength, d);
    assert framesCount > 1;
    var command, subCommand, codebit := data[0], data[1], data[2];
    CountOf(cs, d);
    DivisionStarts(d);
    var i := 0;
    while i < framesCount
      invariant 0 <= i <= framesCount
      invariant data == Remaining(d, i) && actualDataLength == |d| - SliceStart(d, i)
      invariant codebit == CodebitAfter(d[2], i, framesCount)
      invariant frames == Frames(cs, d)[..i]
    {
      CodebitNext(d[2], i, framesCount);
      if i == framesCount - 1 {
        codebit := LastOne(codebit);
      } else {
        codebit := MoreFollow(codebit);
      }
      var frame;
      frame, data, actualDataLength := CutPiece(cs, command, subCommand, codebit, i, framesCount, data, actualDataLength, d);
      FrameAt(cs, d, i);
      frames := frames + [frame];
      i := i + 1;
    }
    assert actualDataLength == 0;
  }

  /** The parts of a divided frame. */
  function NumberOf(f: seq<byte>): nat
    requires |f| >= 14
  {
    Num16(f[8..10])
  }

  function TotalOf(f: seq<byte>): nat
    requires |f| >= 14
  {
    Num16(f[10..12])
  }

  function PayloadOf(f: seq<byte>): seq<byte>
    requires |f| >= 14
  {
    f[12..|f| - 2]
  }

  function JoinPayloads(frames: seq<seq<byte>>): seq<byte>
    requires forall f <- frames :: |f| >= 14
  {
    if frames == [] then [] else JoinPayloads(frames[..|frames| - 1]) + PayloadOf(frames[|frames| - 1])
  }

  /** Frame f announces itself as piece i of n of a message with header d[..3]. */
  predicate IsPiece(f: seq<byte>, d: seq<byte>, i: nat, n: nat)
    requires |d| >= CMD_LENGTH
  {
    && 14 <= |f| <= 1038
    && f[0] == 0x02 && f[1] == 0xfe && f[2] == d[0] && f[3] == d[1]
    && f[4] / 4 == d[2] / 4 && f[4] / 2 % 2 == 1 && f[4] % 2 == (if i + 1 == n then 1 else d[2] % 2)
    && BigEndian(f[5..8]) == |f| - 2
    && BigEndian(f[8..10]) == i % 0x1_0000
    && BigEndian(f[10..12]) == n % 0x1_0000
  }

  /** The frame ends with ETX and the checksum of what is between the first byte and the last. */
  predicate Sealed(cs: Checksum, f: seq<byte>) {
    |f| >= 3 && f[|f| - 2] == 0x03 && f[|f| - 1] == cs(f[1..|f| - 1])
  }

  lemma SealSeals(cs: Checksum, body: seq<byte>)
    requires |body| >= 1
    ensures var f := Seal(cs, body); Sealed(cs, f) && |f| == |body| + 2 && f[..|f| - 2] == body
  {
    var f := Seal(cs, body);
    assert f[1..|f| - 1] == body[1..] + [ETX];
  }

  lemma DividedFrameFields(cs: Checksum, d: seq<byte>, i: nat)
    requires |d| >= CMD_LENGTH
    ensures var f := DividedFrame(cs, d, i);
            && 14 <= |f| <= 1038
            && f[0] == STX && f[1] == EXT_LEN && f[2] == d[0] && f[3] == d[1]
            && f[4] == (if i + 1 == FrameCount(d) then LastOne(d[2]) else MoreFollow(d[2]))
            && Num24(f[5..8]) == |f| - 2
            && NumberOf(f) == i % 0x1_0000 && TotalOf(f) == FrameCount(d) % 0x1_0000 && PayloadOf(f) == Slice(d, i)
  {
    hide Slice, FrameCount, MoreFollow, LastOne, Bytes24, Bytes16, Num24, Num16, DividedFrame;
    var n := |Slice(d, i)| + 12;
    FieldsRoundTrip(n);
    FieldsRoundTrip(i);
    FieldsRoundTrip(FrameCount(d));
    DividedParts(cs, d, i);
    var f := DividedFrame(cs, d, i);
    Layout(f[..5], Bytes24(n), Bytes16(i), Bytes16(FrameCount(d)), Slice(d, i), f[|f| - 2..]);
    SliceIsShort(d, i);
  }

  lemma DividedFrameIsPiece(cs: Checksum, d: seq<byte>, i: nat)
    requires |d| >= CMD_LENGTH
    ensures IsPiece(DividedFrame(cs, d, i), d, i, FrameCount(d)) && Sealed(cs, DividedFrame(cs, d, i))
  {
    hide Slice, FrameCount, MoreFollow, LastOne, Sealed, BigEndian, Num24, Num16, DividedBody;
    DividedFrameFields(cs, d, i);
    MarkBits(d[2]);
    var f := DividedFrame(cs, d, i);
    FieldsAreBigEndian(f[5..8]);
    FieldsAreBigEndian(f[8..10]);
    FieldsAreBigEndian(f[10..12]);
    SealSeals(cs, DividedBody(d, i));
  }

  lemma SliceIsShort(d: seq<byte>, i: nat)
    requires |d| >= CMD_LENGTH
    ensures |Slice(d, i)| <= MAX_ACTUAL_DATA_LENGTH
  {
  }

  lemma DividedParts(cs: Checksum, d: seq<byte>, i: nat)
    requires |d| >= CMD_LENGTH
    ensures var f := DividedFrame(cs, d, i); var n := |Slice(d, i)| + 12;
            var codebit := if i + 1 == FrameCount(d) then LastOne(d[2]) else MoreFollow(d[2]);
            && |f| == n + 2 && f[..5] == [STX, EXT_LEN, d[0], d[1], codebit]
            && f == f[..5] + Bytes24(n) + Bytes16(i) + Bytes16(FrameCount(d)) + Slice(d, i) + f[|f| - 2..]
  {
    hide Slice, FrameCount, MoreFollow, LastOne, Bytes24, Bytes16;
    var f := DividedFrame(cs, d, i);
    var body := DividedBody(d, i);
    assert f == body + f[|f| - 2..];
    assert f[..5] == body[..5];
  }

  /** Where the parts of a divided frame are. */
  lemma Layout(head: seq<byte>, length: seq<byte>, number: seq<byte>, total: seq<byte>, payload: seq<byte>, tail: seq<byte>)
    requires |head| == 5 && |length| == 3 && |number| == |total| == |tail| == 2
    ensures var f := head + length + number + total + payload + tail;
            && f[..5] == head && f[5..8] == length && f[8..10] == number && f[10..12] == total
            && f[12..|f| - 2] == payload
  {
  }

  lemma SliceSizes(d: seq<byte>, i: nat)
    requires |d| > MAX_EXTENDED_LENGTH - FRAME_FOOTER_LENGTH
    requires i < FrameCount(d)
    ensures FrameCount(d) >= 2
    ensures MAX_ACTUAL_DATA_LENGTH * (FrameCount(d) - 1) < |d| - CMD_LENGTH <= MAX_ACTUAL_DATA_LENGTH * FrameCount(d)
    ensures 0 < |Slice(d, i)| <= MAX_ACTUAL_DATA_LENGTH
    ensures i + 1 < FrameCount(d) ==> |Slice(d, i)| == MAX_ACTUAL_DATA_LENGTH
  {
  }

  /** The one frame of a short message: the length after STX, then the message as it is. */
  lemma RegularFrameBytes(cs: Checksum, d: seq<byte>)
    requires |d| <= 251
    ensures |Frames(cs, d)| == 1
    ensures var f := Frames(cs, d)[0];
            |f| == |d| + 4 && f[0] == 0x02 && f[1] == |d| + 2 && f[2..|d| + 2] == d && Sealed(cs, f)
  {
    SealSeals(cs, [STX, (|d| + FRAME_FOOTER_LENGTH) % 0x100] + d);
  }

  /** The one frame of a longer message: the marker after STX, the header, three length bytes, the data. */
  lemma ExtendedFrameBytes(cs: Checksum, d: seq<byte>)
    requires 252 <= |d| <= 1030
    ensures |Frames(cs, d)| == 1
    ensures var f := Frames(cs, d)[0];
            && |f| == |d| + 7 && f[0] == 0x02 && f[1] == 0xfe && f[2..5] == d[..3] && f[8..|f| - 2] == d[3..]
            && BigEndian(f[5..8]) == |d| + 5 && Sealed(cs, f)
  {
    hide Sealed, BigEndian, Num24, Bytes24;
    var n := |d| + EXT_LEN_LENGTH + FRAME_FOOTER_LENGTH;
    var body := [STX, EXT_LEN] + d[..CMD_LENGTH] + Bytes24(n) + d[CMD_LENGTH..];
    SealSeals(cs, body);
    FieldsRoundTrip(n);
    FieldsAreBigEndian(Bytes24(n));
    var f := Frames(cs, d)[0];
    assert f[..|body|] == body && body[5..8] == Bytes24(n) && f[5..8] == body[5..8];
  }

  /** A message past the undivided limit becomes at least two frames whose payloads are the
      message data in order; every frame but the last is full, the last is not empty, and the
      header of each frame says which one it is. */
  lemma Fragmentation(cs: Checksum, d: seq<byte>)
    requires |d| >= 1031
    ensures var n := |Frames(cs, d)|; n >= 2 && 1024 * (n - 1) < |d| - 3 <= 1024 * n
    ensures forall i :: 0 <= i < |Frames(cs, d)| ==>
              IsPiece(Frames(cs, d)[i], d, i, |Frames(cs, d)|) && Sealed(cs, Frames(cs, d)[i])
    ensures forall i :: 0 <= i < |Frames(cs, d)| ==>
              if i + 1 < |Frames(cs, d)| then |PayloadOf(Frames(cs, d)[i])| == 1024
              else |PayloadOf(Frames(cs, d)[i])| > 0
    ensures JoinPayloads(Frames(cs, d)) == d[3..]
  {
    var fs := Frames(cs, d);
    hide IsPiece, Sealed, PayloadOf, Slice, SliceStart, Frames, FrameCount;
    CountOf(cs, d);
    forall i | 0 <= i < |fs|
      ensures IsPiece(fs[i], d, i, |fs|) && Sealed(cs, fs[i]) && PayloadOf(fs[i]) == Slice(d, i)
      ensures 0 < |PayloadOf(fs[i])| && (i + 1 < |fs| ==> |PayloadOf(fs[i])| == MAX_ACTUAL_DATA_LENGTH)
    {
      PieceFields(cs, d, i);
    }
    SliceSizes(d, 0);
    PayloadsJoin(fs, d, |fs|);
    assert fs[..|fs|] == fs;
  }

  lemma CountOf(cs: Checksum, d: seq<byte>)
    requires |d| > MAX_EXTENDED_LENGTH - FRAME_FOOTER_LENGTH
    ensures |Frames(cs, d)| == FrameCount(d) >= 1 && SliceStart(d, FrameCount(d)) == |d|
    ensures forall f <- Frames(cs, d) :: |f| >= 14
  {
  }

  lemma PieceFields(cs: Checksum, d: seq<byte>, i: nat)
    requires |d| > MAX_EXTENDED_LENGTH - FRAME_FOOTER_LENGTH && i < FrameCount(d)
    ensures var f := Frames(cs, d)[i];
            && IsPiece(f, d, i, FrameCount(d)) && Sealed(cs, f) && PayloadOf(f) == Slice(d, i)
            && 0 < |PayloadOf(f)| && (i + 1 < FrameCount(d) ==> |PayloadOf(f)| == MAX_ACTUAL_DATA_LENGTH)
  {
    hide IsPiece, Sealed, Slice;
    assert Frames(cs, d)[i] == DividedFrame(cs, d, i);
    DividedFrameFields(cs, d, i);
    DividedFrameIsPiece(cs, d, i);
    SliceSizes(d, i);
  }

  /** Frames that carry consecutive slices carry the data up to the start of the next slice. */
  lemma {:induction false} PayloadsJoin(fs: seq<seq<byte>>, d: seq<byte>, n: nat)
    requires |d| >= CMD_LENGTH
    requires n <= |fs|
    requires forall i :: 0 <= i < |fs| ==> |fs[i]| >= 14 && PayloadOf(fs[i]) == Slice(d, i)
    ensures JoinPayloads(fs[..n]) == d[CMD_LENGTH..SliceStart(d, n)]
  {
    if n > 0 {
      PayloadsJoin(fs, d, n - 1);
      assert fs[..n][..n - 1] == fs[..n - 1];
      assert fs[..n][n - 1] == fs[n - 1];
      var a, b := SliceStart(d, n - 1), SliceStart(d, n);
      assert CMD_LENGTH <= a <= b;
      assert d[CMD_LENGTH..b] == d[CMD_LENGTH..a] + d[a..b];
    }
  }
}
