/** Both machines against each other over a line that loses and damages: what the sender reports and
    what the receiver hands out, one `receive` after the other, for every exchange. */
module StopAndWait {
  import opened Wire
  import opened Device
  import opened Events
  import opened Codec
  import opened FrameParser
  import opened Reassembly
  import opened RoundTrip
  import opened Rounds
  import S = Sender
  import R = Receiver

  // ---------------------------------------------------------------- exchanges

  /** The messages the link can carry. */
  predicate Deliverable(d: seq<byte>) {
    CMD_LENGTH <= |d| <= 1027 || (|d| >= 1031 && FrameCount(d) <= MAX_FRAMES)
  }

  /** What a message arrives as. */
  function Arrival(d: seq<byte>): seq<byte>
    requires Deliverable(d)
  {
    if |d| <= 1027 then d else Marked(d)
  }

  /** The number of frames of a message. */
  function Pieces(d: seq<byte>): (n: nat)
    requires Deliverable(d)
    ensures n >= 1
  {
    if |d| <= 1027 then 1 else FrameCount(d)
  }

  lemma PiecesAreFrames(cs: Checksum, d: seq<byte>)
    requires Deliverable(d)
    ensures |Frames(cs, d)| == Pieces(d) && (|d| >= 1031 ==> Pieces(d) >= 2)
    ensures forall f <- Frames(cs, d) :: |f| >= 4
  {
    if |d| >= 1031 {
      ManyFrames(d);
    }
  }

  /** Bytes that are no frame, and whose length fields, where they have any, are those of frame f. */
  predicate Damaged(cs: Checksum, f: seq<byte>, g: seq<byte>)
    requires |f| >= 2
  {
    && !WellFormed(cs, R.NotDefinedYet, 0, g)
    && (StartOk(g) ==> g[1] == f[1])
    && (StartOk(g) && f[1] == EXT_LEN && |g| >= 8 ==> |f| >= 8 && g[5..8] == f[5..8])
  }

  /** A round the line can produce about frame f: acknowledgements come from the receiver only, damage
      is noticed, and no noise passes for an enquiry. */
  predicate Possible(cs: Checksum, f: seq<byte>, r: Round)
    requires |f| >= 2
  {
    Refused(r.fate) && NoEnquiry(r.wakes) && (Spoilt(r.fate) ==> Damaged(cs, f, r.fate.heard))
  }

  function NextIndex(k: nat, fate: Fate): nat {
    if fate.Delivered? then k + 1 else k
  }

  /** Rounds the line can produce, from frame k on, until the sender has done with the last frame. */
  predicate Exchange(cs: Checksum, fs: seq<seq<byte>>, k: nat, rounds: seq<Round>)
    requires forall f <- fs :: |f| >= 2
    decreases |rounds|
  {
    if rounds == [] then k == |fs|
    else k < |fs| && Possible(cs, fs[k], rounds[0]) && Exchange(cs, fs, NextIndex(k, rounds[0].fate), rounds[1..])
  }

  /** No `receive` runs out of attempts: those of one end when it has the last of n frames. */
  predicate Patient(n: nat, k: nat, spent: nat, rounds: seq<Round>)
    decreases |rounds|
  {
    rounds == [] ||
    var now := spent + RoundDenials(rounds[0]);
    && now < R.MAX_RECV_ATTEMPTS
    && Patient(n, NextIndex(k, rounds[0].fate), if Taken(rounds[0].fate) && k + 1 == n then 0 else now, rounds[1..])
  }

  function TotalRetries(rounds: seq<Round>): nat {
    if rounds == [] then 0 else Retries(rounds[0].fate) + TotalRetries(rounds[1..])
  }

  function TotalDenials(rounds: seq<Round>): nat {
    if rounds == [] then 0 else RoundDenials(rounds[0]) + TotalDenials(rounds[1..])
  }

  /** Everything the sender and the receiver write in these rounds. */
  function AllSenderWrites(fs: seq<seq<byte>>, k: nat, rounds: seq<Round>): seq<seq<byte>>
    decreases |rounds|
  {
    if rounds == [] || k >= |fs| then []
    else SenderWrites(rounds[0].fate, fs[k]) + AllSenderWrites(fs, NextIndex(k, rounds[0].fate), rounds[1..])
  }

  function AllReceiverWrites(rounds: seq<Round>): seq<seq<byte>> {
    if rounds == [] then [] else ReceiverWrites(rounds[0].fate) + AllReceiverWrites(rounds[1..])
  }

  /** What the two devices reply over an exchange. */
  function SendScript(rounds: seq<Round>): seq<Reply> {
    if rounds == [] then [] else SendReplies(rounds[0]) + SendScript(rounds[1..])
  }

  function RecvScript(cs: Checksum, fs: seq<seq<byte>>, st: R.State, c: R.Context, k: nat, rounds: seq<Round>): seq<Reply>
    requires c.Valid()
    decreases |rounds|
  {
    if rounds == [] || k >= |fs| then []
    else
      var r, f := rounds[0], fs[k];
      RecvReplies(cs, st, c, r, f)
      + RecvScript(cs, fs, NextState(cs, st, c, r, f), NextContext(cs, c, f, r.fate), NextIndex(k, r.fate), rounds[1..])
  }

  /** One round of an exchange and what follows it. */
  lemma ExchangeUnfolds(cs: Checksum, fs: seq<seq<byte>>, k: nat, rounds: seq<Round>)
    requires (forall f <- fs :: |f| >= 2) && k < |fs| && Exchange(cs, fs, k, rounds)
    ensures rounds != [] && Possible(cs, fs[k], rounds[0]) && Exchange(cs, fs, NextIndex(k, rounds[0].fate), rounds[1..])
    ensures NextIndex(k, rounds[0].fate) == |fs| <==> rounds[1..] == []
  {
    hide Possible;
  }

  // ---------------------------------------------------------------- the sender

  lemma {:induction false} SendAll(cs: Checksum, s: S.Sender, rounds: seq<Round>, rest: seq<Reply>)
    requires (forall f <- s.frames :: |f| >= 2) && s.current < |s.frames| && !s.result
    requires Exchange(cs, s.frames, s.current, rounds)
    requires s.world.script == SendScript(rounds) + rest && s.r2 + TotalRetries(rounds) < S.MAX_SEND_ATTEMPTS
    ensures var t := S.Run(S.Reenquiry, s);
            && t.result && t.r2 == s.r2 + TotalRetries(rounds) && t.world.script == rest
            && Writes(t.world.log) == Writes(s.world.log) + AllSenderWrites(s.frames, s.current, rounds)
    decreases |rounds|
  {
    hide S.Run, S.Handle, SendReplies, SenderWrites, Writes, Exchange, Retries, Damaged, NoEnquiry;
    var fs, k := s.frames, s.current;
    ExchangeUnfolds(cs, fs, k, rounds);
    var r, later := rounds[0], rounds[1..];
    Assoc(SendReplies(r), SendScript(later), rest);
    var t := SendRound(s, r, SendScript(later) + rest);
    var here, after := SenderWrites(r.fate, fs[k]), AllSenderWrites(fs, NextIndex(k, r.fate), later);
    Assoc(Writes(s.world.log), here, after);
    if later == [] {
      assert t.world.script == rest && here + after == here;
      SendEnds(t);
    } else {
      SendAll(cs, t, later, rest);
    }
  }

  lemma SendEnds(s: S.Sender)
    requires s.Valid()
    ensures var t := S.Run(S.End, s);
            t == s.(world := t.world) && t.world.script == s.world.script && Writes(t.world.log) == Writes(s.world.log)
  {
  }

  /** The sender's half of any exchange within its attempts. */
  lemma SenderSide(cs: Checksum, fs: seq<seq<byte>>, rounds: seq<Round>, rest: seq<Reply>)
    requires fs != [] && (forall f <- fs :: |f| >= 2)
    requires Exchange(cs, fs, 0, rounds) && TotalRetries(rounds) < S.MAX_SEND_ATTEMPTS
    ensures var s := S.Run(S.Idle, S.Start(SendScript(rounds) + rest, fs));
            && s.result && s.r2 == TotalRetries(rounds) && s.world.script == rest
            && Writes(s.world.log) == AllSenderWrites(fs, 0, rounds)
  {
    hide S.Run, Exchange, SendScript, AllSenderWrites, TotalRetries;
    var s := S.Start(SendScript(rounds) + rest, fs);
    SendUnroll(S.Idle, s);
    SendUnroll(S.Enquiry, s);
    assert Writes(s.Do(Lock).world.log) == [];
    SendAll(cs, s.Do(Lock), rounds, rest);
  }

  // ---------------------------------------------------------------- what the receiver holds

  /** A kind that denied attempts at frame f may have left in a parser that has no frame yet. */
  predicate Fits(kind: R.Kind, f: seq<byte>)
    requires |f| >= 2
  {
    f[1] == EXT_LEN ==>
      |f| >= 8 && (kind == R.NotDefinedYet || kind == R.KindOfLength(R.NotDefinedYet, LengthField(f)))
  }

  function Picked(fs: seq<seq<byte>>, held: seq<nat>): (p: seq<seq<byte>>)
    requires forall i :: 0 <= i < |held| ==> held[i] < |fs|
    ensures |p| == |held|
  {
    seq(|held|, i requires 0 <= i < |held| => fs[held[i]])
  }

  /** The receiver holds the frames with these numbers, in this order, and waits for frame k. */
  predicate Holding(cs: Checksum, d: seq<byte>, c: R.Context, held: seq<nat>, k: nat)
    requires Deliverable(d)
  {
    var fs := Frames(cs, d);
    && k < |fs| && (forall i :: 0 <= i < |held| ==> held[i] + 1 < |fs|)
    && c.frames == Picked(fs, held) + [[]] && c.current == |held| && !c.result
    && (held == [] && k + 1 < |fs| ==> k == 0)
    && (held != [] ==> |held| >= k && held[0] == 0)
    && if held == [] then Fits(c.kind, fs[k]) else c.kind.Divided?
  }

  lemma HoldingFresh(cs: Checksum, d: seq<byte>, k: nat)
    requires Deliverable(d) && k < |Frames(cs, d)| && (k + 1 < |Frames(cs, d)| ==> k == 0)
    ensures Holding(cs, d, R.FRESH, [], k)
  {
    LongEnough(cs, d, k);
  }

  /** Frames of undivided messages long enough to need it, and all divided ones, have a length field. */
  lemma LongEnough(cs: Checksum, d: seq<byte>, k: nat)
    requires Deliverable(d) && k < |Frames(cs, d)|
    ensures var f := Frames(cs, d)[k];
            && |f| >= 4
            && (f[1] == EXT_LEN <==> |d| > MAX_FRAME_LENGTH - FRAME_FOOTER_LENGTH)
            && (f[1] == EXT_LEN ==> |f| >= 14 && LengthField(f) == |f| - 2)
  {
    hide Num24, Num16, Seal;
    var f := Frames(cs, d)[k];
    if |d| <= MAX_FRAME_LENGTH - FRAME_FOOTER_LENGTH {
      RegularFrameAccepted(cs, R.FRESH, d);
    } else if |d| <= 1027 {
      ExtendedFrameLayout(cs, d);
    } else {
      assert f == DividedFrame(cs, d, k);
      PieceLayout(cs, d, k);
    }
  }

  lemma HoldingIsValid(cs: Checksum, d: seq<byte>, c: R.Context, held: seq<nat>, k: nat)
    requires Deliverable(d) && Holding(cs, d, c, held, k)
    ensures c.Valid() && c.Frame() == [] && c.frames[c.current := []] == c.frames
  {
  }

  // ---------------------------------------------------------------- damage

  /** What is no frame to a fresh parser is none to a parser that holds frames or has denied some. */
  lemma StillDamaged(cs: Checksum, kind: R.Kind, leftover: nat, f: seq<byte>, g: seq<byte>)
    requires |f| >= 2 && Damaged(cs, f, g)
    requires f[1] == EXT_LEN ==> |f| >= 14 && LengthField(f) >= 12 && (kind.Divided? || Fits(kind, f))
    ensures !WellFormed(cs, kind, leftover, g)
  {
    hide Num24;
    if HeaderOk(kind, g) {
      SizeByLength(kind, leftover, g);
      if HeaderOk(R.NotDefinedYet, g) {
        SizeByLength(R.NotDefinedYet, 0, g);
      }
    }
  }

  /** The announced size follows from the length alone, unless a long header is not looked for. */
  lemma SizeByLength(kind: R.Kind, leftover: nat, g: seq<byte>)
    requires HeaderOk(kind, g) && (g[1] == EXT_LEN ==> !kind.Regular? && LengthField(g) >= 12)
    ensures AnnouncedSize(kind, leftover, g) == 2 + if g[1] == EXT_LEN then LengthField(g) else g[1]
  {
    hide Num24;
  }

  lemma DamageIsHarmless(cs: Checksum, d: seq<byte>, c: R.Context, held: seq<nat>, k: nat, g: seq<byte>)
    requires Deliverable(d) && Holding(cs, d, c, held, k) && |Frames(cs, d)[k]| >= 2 && Damaged(cs, Frames(cs, d)[k], g)
    ensures c.Valid() && !WellFormed(cs, c.kind, c.dataLength, g)
    ensures Holding(cs, d, Settled(c, g).With([]), held, k)
  {
    var f := Frames(cs, d)[k];
    HoldingIsValid(cs, d, c, held, k);
    LongEnough(cs, d, k);
    PiecesAreFrames(cs, d);
    hide Num24, Num16, Frames, WellFormed, Picked;
    StillDamaged(cs, c.kind, c.dataLength, f, g);
    KindAfterDamage(cs, c, f, g);
  }

  /** Damage leaves nothing behind but a kind that fits, and numbers that the next frame replaces. */
  lemma KindAfterDamage(cs: Checksum, c: R.Context, f: seq<byte>, g: seq<byte>)
    requires c.Valid() && c.Frame() == [] && |f| >= 2 && Damaged(cs, f, g)
    ensures var e := Settled(c, g).With([]);
            && e.current == c.current && e.result == c.result && e.frames == c.frames
            && (Fits(c.kind, f) ==> Fits(e.kind, f)) && (f[1] == EXT_LEN && c.kind.Divided? ==> e.kind.Divided?)
  {
    hide Num24, Num16, WellFormed;
    assert c.frames[c.current := []] == c.frames;
  }

  // ---------------------------------------------------------------- what a `receive` makes of them

  /** Slices of a divided message, joined in a given order. */
  function Slices(d: seq<byte>, pieces: seq<nat>): seq<byte>
    requires |d| >= CMD_LENGTH
  {
    if pieces == [] then [] else Slices(d, pieces[..|pieces| - 1]) + Slice(d, pieces[|pieces| - 1])
  }

  function Assembled(d: seq<byte>, pieces: seq<nat>): seq<byte>
    requires |d| >= CMD_LENGTH
  {
    d[..2] + [MoreFollow(d[2])] + Slices(d, pieces)
  }

  /** What `receive` reports when the last frame reaches a receiver that holds `held`. A receiver that
      holds the first frame joins as many frames as the message has, in the order of their arrival.
      A receiver that has already handed the message out has to make sense of the last frame alone:
      it is out of range if its size makes it a divided one, and else a message of its own, numbers
      and all. */
  function Finish(d: seq<byte>, held: seq<nat>): Reception
    requires Deliverable(d) && (held != [] ==> |held| + 1 >= Pieces(d))
  {
    var n := Pieces(d);
    if |d| <= 1027 then Got(d)
    else if held != [] then Got(Assembled(d, (held + [n - 1])[..n]))
    else if |Slice(d, n - 1)| + 12 > MAX_EXTENDED_LENGTH then Throws
    else Got(d[..2] + [LastOne(d[2])] + Bytes16(n - 1) + Bytes16(n) + Slice(d, n - 1))
  }

  lemma PickedPayloads(cs: Checksum, d: seq<byte>, held: seq<nat>)
    requires |d| > MAX_EXTENDED_LENGTH - FRAME_FOOTER_LENGTH
    requires forall i :: 0 <= i < |held| ==> held[i] < |Frames(cs, d)|
    ensures forall f <- Picked(Frames(cs, d), held) :: |f| >= 14
    ensures JoinPayloads(Picked(Frames(cs, d), held)) == Slices(d, held)
  {
    hide Frames, JoinPayloads, Slices, PayloadOf, Slice;
    PieceBytes(cs, d);
    PickedJoin(Frames(cs, d), d, held);
  }

  lemma {:induction false} PickedJoin(fs: seq<seq<byte>>, d: seq<byte>, held: seq<nat>)
    requires |d| >= CMD_LENGTH && forall i :: 0 <= i < |held| ==> held[i] < |fs|
    requires forall j :: 0 <= j < |fs| ==> |fs[j]| >= 14 && PayloadOf(fs[j]) == Slice(d, j)
    ensures forall f <- Picked(fs, held) :: |f| >= 14
    ensures JoinPayloads(Picked(fs, held)) == Slices(d, held)
  {
    hide PayloadOf, Slice;
    if held != [] {
      var n := |held| - 1;
      PickedJoin(fs, d, held[..n]);
      assert Picked(fs, held)[..n] == Picked(fs, held[..n]);
      assert Picked(fs, held)[n] == fs[held[n]];
    }
  }

  lemma PieceBytes(cs: Checksum, d: seq<byte>)
    requires |d| > MAX_EXTENDED_LENGTH - FRAME_FOOTER_LENGTH
    ensures forall f <- Frames(cs, d) :: |f| >= 14
    ensures forall j :: 0 <= j < |Frames(cs, d)| ==> PayloadOf(Frames(cs, d)[j]) == Slice(d, j)
  {
    forall j | 0 <= j < |Frames(cs, d)| ensures |Frames(cs, d)[j]| >= 14 && PayloadOf(Frames(cs, d)[j]) == Slice(d, j) {
      FrameAt(cs, d, j);
      DividedFrameFields(cs, d, j);
    }
  }

  /** A frame that others follow is taken and stored behind those that are held. */
  lemma TakesMore(cs: Checksum, d: seq<byte>, c: R.Context, held: seq<nat>, k: nat, k': nat)
    requires Deliverable(d) && Holding(cs, d, c, held, k) && k + 1 < |Frames(cs, d)| && k <= k' <= k + 1
    ensures c.Valid() && WellFormed(cs, c.kind, c.dataLength, Frames(cs, d)[k])
    ensures Taking(cs, c, Frames(cs, d)[k]).0 == Wait
    ensures Holding(cs, d, Taking(cs, c, Frames(cs, d)[k]).1, held + [k], k')
  {
    hide Frames, Parse, WellFormed, R.Complete, FrameCount, Slice, Fits;
    PiecesAreFrames(cs, d);
    SliceSizes(d, k);
    PieceTaken(cs, d, c, held, k);
    var fs := Frames(cs, d);
    PieceCompletes(Parse(cs, R.Stx, c, fs[k]).ctx);
    assert (Picked(fs, held) + [[]])[|held| := fs[k]] + [[]] == Picked(fs, held + [k]) + [[]];
  }

  /** What the parser makes of a piece. */
  lemma PieceTaken(cs: Checksum, d: seq<byte>, c: R.Context, held: seq<nat>, k: nat)
    requires Deliverable(d) && |d| >= 1031 && Holding(cs, d, c, held, k)
    requires held != [] || |Slice(d, k)| + 12 > MAX_EXTENDED_LENGTH
    ensures c.Valid() && |Frames(cs, d)| == FrameCount(d) <= MAX_FRAMES
    ensures WellFormed(cs, c.kind, c.dataLength, Frames(cs, d)[k])
    ensures var a := Parse(cs, R.Stx, c, Frames(cs, d)[k]).ctx;
            && a.kind == R.Divided && a.frameNumber == k && a.totalFrames == FrameCount(d) && !a.result
            && a.frames == (Picked(Frames(cs, d), held) + [[]])[|held| := Frames(cs, d)[k]] && a.current == |held|
  {
    HoldingIsValid(cs, d, c, held, k);
    PiecesAreFrames(cs, d);
    LongEnough(cs, d, k);
    assert !c.kind.Regular?;
    hide Frames, FrameCount, Parse, WellFormed, Picked, Slice, LengthField;
    PieceRead(cs, c, d, k);
    SmallRemainder(k);
  }

  /** The last frame is taken and ends the `receive`. */
  lemma TakesLast(cs: Checksum, d: seq<byte>, c: R.Context, held: seq<nat>, k: nat)
    requires Deliverable(d) && Holding(cs, d, c, held, k) && k + 1 == |Frames(cs, d)|
    ensures c.Valid() && (held != [] ==> |held| + 1 >= Pieces(d))
    ensures WellFormed(cs, c.kind, c.dataLength, Frames(cs, d)[k])
    ensures var (e, a) := Taking(cs, c, Frames(cs, d)[k]);
            e == Pass && a.result && ReceptionOf(a) == Finish(d, held)
  {
    hide Frames, Parse, WellFormed, R.Complete, FrameCount, Slice, Fits, ReceptionOf, Assembled;
    PiecesAreFrames(cs, d);
    HoldingIsValid(cs, d, c, held, k);
    if |d| <= 1027 {
      SingleIsTaken(cs, d, c, held);
    } else if held != [] {
      LastCompletes(cs, d, c, held, k);
    } else {
      LastAlone(cs, d, c, k);
    }
  }

  lemma SingleIsTaken(cs: Checksum, d: seq<byte>, c: R.Context, held: seq<nat>)
    requires Deliverable(d) && |d| <= 1027 && Holding(cs, d, c, held, 0)
    ensures c.Valid() && |Frames(cs, d)| == 1 && held == [] && WellFormed(cs, c.kind, c.dataLength, Frames(cs, d)[0])
    ensures var (e, a) := Taking(cs, c, Frames(cs, d)[0]); e == Pass && a.result && ReceptionOf(a) == Got(d)
  {
    hide Parse, WellFormed, AnnouncedSize, Num24, Num16, Seal, HeaderKind, RegularFrame, ExtendedFrame, R.Complete;
    hide ReceptionOf;
    PiecesAreFrames(cs, d);
    assert held == [] && c.frames == [[]];
    if |d| <= MAX_FRAME_LENGTH - FRAME_FOOTER_LENGTH {
      RegularFrameAccepted(cs, c, d);
      RegularKind(c, RegularFrame(cs, d));
      SinglePasses(cs, c, RegularFrame(cs, d), d);
    } else {
      LongEnough(cs, d, 0);
      ExtendedFrameAccepted(cs, c, d);
      assert d[..3] + d[3..] == d;
      SinglePasses(cs, c, ExtendedFrame(cs, d), d);
    }
  }

  lemma RegularKind(c: R.Context, f: seq<byte>)
    requires |f| >= 2 && f[1] != EXT_LEN
    ensures HeaderKind(c.kind, f) == R.Regular
  {
  }

  /** One frame that is a message. */
  lemma SinglePasses(cs: Checksum, c: R.Context, f: seq<byte>, d: seq<byte>)
    requires c.Valid() && c.frames == [[]] && c.current == 0 && !c.result
    requires WellFormed(cs, c.kind, c.dataLength, f) && AnnouncedSize(c.kind, c.dataLength, f) == |f|
    requires var kind := HeaderKind(c.kind, f);
             || (kind == R.Regular && |f| >= 7 && f[2..|f| - 2] == d)
             || (kind == R.ExtendedLength && |f| >= 10 && f[2..5] + f[8..|f| - 2] == d)
    ensures var (e, a) := Taking(cs, c, f); e == Pass && a.result && ReceptionOf(a) == Got(d)
  {
    hide Parse, WellFormed, AnnouncedSize, Num24, Num16, HeaderKind;
    WholeFrame(cs, c, f);
    var a := Settled(c, f).With(f);
    assert a.Frame() == f && a.current == 0;
  }

  /** The last frame after others: the message is joined from what came first. */
  lemma LastCompletes(cs: Checksum, d: seq<byte>, c: R.Context, held: seq<nat>, k: nat)
    requires Deliverable(d) && |d| >= 1031 && Holding(cs, d, c, held, k) && k + 1 == |Frames(cs, d)| && held != []
    ensures c.Valid() && |held| + 1 >= Pieces(d) && WellFormed(cs, c.kind, c.dataLength, Frames(cs, d)[k])
    ensures var (e, a) := Taking(cs, c, Frames(cs, d)[k]); e == Pass && a.result && ReceptionOf(a) == Finish(d, held)
  {
    hide Frames, Parse, WellFormed, R.Complete, FrameCount, Slice, Fits, ReceptionOf, Assembled;
    PiecesAreFrames(cs, d);
    PieceTaken(cs, d, c, held, k);
    var fs := Frames(cs, d);
    var a := Parse(cs, R.Stx, c, fs[k]).ctx;
    PieceCompletes(a);
    assert (Picked(fs, held) + [[]])[|held| := fs[k]] == Picked(fs, held + [k]);
    assert (held + [k])[0] == 0;
    JoinsPicked(cs, d, R.Complete(a).1, held + [k]);
  }

  /** Reassembly of a context that holds these pieces. */
  lemma JoinsPicked(cs: Checksum, d: seq<byte>, c: R.Context, pieces: seq<nat>)
    requires Deliverable(d) && |d| >= 1031 && (forall i :: 0 <= i < |pieces| ==> pieces[i] < |Frames(cs, d)|)
    requires |pieces| >= FrameCount(d) && pieces[0] == 0 && FrameCount(d) >= 2
    requires c.frames == Picked(Frames(cs, d), pieces) && c.current + 1 == |pieces| && c.kind == R.Divided && c.result
    requires c.totalFrames == FrameCount(d) && c.frameNumber + 1 == FrameCount(d)
    ensures ReceptionOf(c) == Got(Assembled(d, pieces[..FrameCount(d)]))
  {
    hide Frames, FrameCount, Slice, PayloadOf, JoinPayloads, ReceptionOf, Slices, MoreFollow;
    var fs, n := Frames(cs, d), FrameCount(d);
    PickedPayloads(cs, d, pieces[..n]);
    assert Picked(fs, pieces)[..n] == Picked(fs, pieces[..n]);
    PieceBytes(cs, d);
    FirstHeader(cs, d);
    assert c.frames[0] == fs[0];
    JoinedReception(c);
  }

  lemma JoinedReception(c: R.Context)
    requires c.result && c.kind.Divided? && c.current + 1 == |c.frames| && forall f <- c.frames :: |f| >= 14
    requires 1 < c.totalFrames <= |c.frames| && c.frameNumber + 1 == c.totalFrames
    ensures (forall f <- c.frames[..c.totalFrames] :: |f| >= 14) && |c.frames[0]| >= 5
    ensures ReceptionOf(c) == Got(c.frames[0][2..5] + JoinPayloads(c.frames[..c.totalFrames]))
  {
    hide JoinPayloads;
    assert R.Ready(c);
  }

  lemma FirstHeader(cs: Checksum, d: seq<byte>)
    requires |d| >= 1031
    ensures |Frames(cs, d)| >= 1 && |Frames(cs, d)[0]| >= 5
    ensures Frames(cs, d)[0][2..5] == d[..2] + [MoreFollow(d[2])]
  {
    PiecePayloads(cs, d, 1) by {
      ManyFrames(d);
    }
  }

  /** The last frame of a divided message, to a receiver that has already handed the message out. */
  lemma LastAlone(cs: Checksum, d: seq<byte>, c: R.Context, k: nat)
    requires Deliverable(d) && |d| >= 1031 && Holding(cs, d, c, [], k) && k + 1 == |Frames(cs, d)|
    ensures c.Valid() && WellFormed(cs, c.kind, c.dataLength, Frames(cs, d)[k])
    ensures var (e, a) := Taking(cs, c, Frames(cs, d)[k]); e == Pass && a.result && ReceptionOf(a) == Finish(d, [])
  {
    if |Slice(d, k)| + 12 > MAX_EXTENDED_LENGTH {
      AloneIsDivided(cs, d, c, k);
    } else {
      AloneIsExtended(cs, d, c, k);
    }
  }

  lemma AloneIsDivided(cs: Checksum, d: seq<byte>, c: R.Context, k: nat)
    requires Deliverable(d) && |d| >= 1031 && Holding(cs, d, c, [], k) && k + 1 == |Frames(cs, d)|
    requires |Slice(d, k)| + 12 > MAX_EXTENDED_LENGTH
    ensures c.Valid() && WellFormed(cs, c.kind, c.dataLength, Frames(cs, d)[k])
    ensures var (e, a) := Taking(cs, c, Frames(cs, d)[k]); e == Pass && a.result && ReceptionOf(a) == Finish(d, [])
  {
    hide Frames, Parse, WellFormed, R.Complete, FrameCount, Slice, Fits;
    PiecesAreFrames(cs, d);
    PieceTaken(cs, d, c, [], k);
    var a := Parse(cs, R.Stx, c, Frames(cs, d)[k]).ctx;
    PieceCompletes(a);
    PieceBytes(cs, d);
    var r := R.Complete(a).1;
    assert r.frames == [Frames(cs, d)[k]];
    assert R.Ready(r);
  }

  lemma AloneIsExtended(cs: Checksum, d: seq<byte>, c: R.Context, k: nat)
    requires Deliverable(d) && |d| >= 1031 && Holding(cs, d, c, [], k) && k + 1 == |Frames(cs, d)|
    requires |Slice(d, k)| + 12 <= MAX_EXTENDED_LENGTH
    ensures c.Valid() && WellFormed(cs, c.kind, c.dataLength, Frames(cs, d)[k])
    ensures var (e, a) := Taking(cs, c, Frames(cs, d)[k]); e == Pass && a.result && ReceptionOf(a) == Finish(d, [])
  {
    hide Frames, Parse, WellFormed, R.Complete, FrameCount, Slice, AnnouncedSize, HeaderKind, Num24;
    var f := Frames(cs, d)[k];
    PiecesAreFrames(cs, d);
    HoldingIsValid(cs, d, c, [], k);
    LongEnough(cs, d, k);
    LastBytes(cs, d, k);
    LongFrameAccepted(cs, c, f);
    SinglePasses(cs, c, f, d[..2] + [LastOne(d[2])] + Bytes16(k) + Bytes16(k + 1) + Slice(d, k));
  }

  lemma LastBytes(cs: Checksum, d: seq<byte>, k: nat)
    requires Deliverable(d) && |d| >= 1031 && k + 1 == |Frames(cs, d)|
    ensures var f := Frames(cs, d)[k];
            && |f| == 14 + |Slice(d, k)| && StartOk(f) && f[1] == EXT_LEN && LengthField(f) == |f| - 2
            && f[|f| - 2] == ETX && f[|f| - 1] == cs(f[1..|f| - 1])
            && f[2..5] + f[8..|f| - 2] == d[..2] + [LastOne(d[2])] + Bytes16(k) + Bytes16(k + 1) + Slice(d, k)
  {
    hide Num24, Num16, Bytes16, Bytes24, Slice, Frames, FrameCount, Seal, LastOne;
    PiecesAreFrames(cs, d);
    FrameAt(cs, d, k);
    PieceLayout(cs, d, k);
    var body := DividedBody(d, k);
    SealSeals(cs, body);
    AroundLength([STX, EXT_LEN, d[0], d[1], LastOne(d[2])], Bytes24(|Slice(d, k)| + 12),
                 Bytes16(k), Bytes16(k + 1), Slice(d, k), DividedFrame(cs, d, k));
    assert d[..2] == [d[0], d[1]];
  }

  /** A frame without its header and its length. */
  lemma AroundLength(head: seq<byte>, length: seq<byte>, number: seq<byte>, total: seq<byte>, payload: seq<byte>, f: seq<byte>)
    requires |head| == 5 && |length| == 3 && |f| >= 2 && f[..|f| - 2] == head + length + number + total + payload
    ensures |f| >= 10 && f[2..5] == head[2..5] && f[8..|f| - 2] == number + total + payload
  {
    var body := head + length + number + total + payload;
    assert f[2..5] == f[..|f| - 2][2..5] == body[2..5];
    assert f[8..|f| - 2] == f[..|f| - 2][8..] == body[8..];
  }

  // ---------------------------------------------------------------- one `receive` after the other

  /** What one `receive` comes to. */
  datatype Yield = Yield(reception: Reception, denials: nat, writes: seq<seq<byte>>)

  function YieldOf(m: R.Receiver): Yield {
    Yield(ReceptionOf(m.ctx), m.r1, Writes(m.world.log))
  }

  /** What n calls of `receive` on the same device come to, and the replies they leave. */
  function Receives(cs: Checksum, script: seq<Reply>, n: nat): (seq<Yield>, seq<Reply>)
    decreases n
  {
    if n == 0 then ([], script)
    else
      var m := R.Run(cs, R.Idle, R.Start(script));
      var (more, left) := Receives(cs, m.world.script, n - 1);
      ([YieldOf(m)] + more, left)
  }

  /** A `receive` under way: the frames it holds, the attempts it has denied, what it has written. */
  datatype Basket = Basket(held: seq<nat>, denials: nat, writes: seq<seq<byte>>)

  /** Where a `receive` may stand when the sender is at frame k of n. */
  predicate Started(n: nat, held: seq<nat>, k: nat) {
    if held == [] then k == 0 || k + 1 >= n else |held| >= k
  }

  /** What the receives of an exchange about d come to, from frame k on. */
  function Harvest(d: seq<byte>, b: Basket, k: nat, rounds: seq<Round>): seq<Yield>
    requires Deliverable(d) && Started(Pieces(d), b.held, k)
    decreases |rounds|
  {
    if rounds == [] || k >= Pieces(d) then []
    else
      var r, k' := rounds[0], NextIndex(k, rounds[0].fate);
      var denials, writes := b.denials + RoundDenials(r), b.writes + ReceiverWrites(r.fate);
      if !Taken(r.fate) then Harvest(d, Basket(b.held, denials, writes), k', rounds[1..])
      else if k + 1 < Pieces(d) then Harvest(d, Basket(b.held + [k], denials, writes), k', rounds[1..])
      else [Yield(Finish(d, b.held), denials, writes)] + Harvest(d, Basket([], 0, []), k', rounds[1..])
  }

  /** A finished `receive` and those that follow it. */
  predicate Yields(cs: Checksum, m: R.Receiver, ys: seq<Yield>, rest: seq<Reply>) {
    && ys != []
    && [YieldOf(m)] + Receives(cs, m.world.script, |ys| - 1).0 == ys
    && Receives(cs, m.world.script, |ys| - 1).1 == rest
  }

  /** From the middle of a `receive` to the end of the exchange. */
  lemma {:induction false} RecvAll(cs: Checksum, d: seq<byte>, st: R.State, m: R.Receiver, held: seq<nat>, k: nat,
                                   rounds: seq<Round>, rest: seq<Reply>)
    requires Deliverable(d) && Holding(cs, d, m.ctx, held, k) && (st == R.Polling || st == R.Enquiry) && m.ctx.Valid()
    requires (forall f <- Frames(cs, d) :: |f| >= 2) && Started(Pieces(d), held, k)
    requires Exchange(cs, Frames(cs, d), k, rounds) && Patient(Pieces(d), k, m.r1, rounds)
    requires m.world.script == RecvScript(cs, Frames(cs, d), st, m.ctx, k, rounds) + rest
    ensures Yields(cs, R.Run(cs, st, m), Harvest(d, Basket(held, m.r1, Writes(m.world.log)), k, rounds), rest)
    decreases |rounds|
  {
    hide R.Run, RecvScript, RecvReplies, Exchange, Patient, Harvest, Holding, Frames, Pieces, Deliverable, Yields, Writes;
    hide Possible, Damaged, WellFormed, Taking, NotTaking, NextState, NextContext, Finish, Started, RoundDenials;
    hide NoEnquiry, ReceiverWrites, RoundTrip.ReceptionOf;
    var fs := Frames(cs, d);
    PiecesAreFrames(cs, d);
    HoldingIsValid(cs, d, m.ctx, held, k);
    HoldingIndex(cs, d, m.ctx, held, k);
    ExchangeUnfolds(cs, fs, k, rounds);
    var r, later, f, k' := rounds[0], rounds[1..], fs[k], NextIndex(k, rounds[0].fate);
    var b := Basket(held, m.r1, Writes(m.world.log));
    PatientUnfolds(Pieces(d), k, m.r1, rounds);
    RecvScriptUnfolds(cs, fs, st, m.ctx, k, rounds);
    HarvestUnfolds(d, b, k, rounds);
    PossibleFacts(cs, f, r);
    if Spoilt(r.fate) {
      DamageIsHarmless(cs, d, m.ctx, held, k, r.fate.heard);
    } else if Taken(r.fate) && k + 1 == |fs| {
      TakesLast(cs, d, m.ctx, held, k);
    } else if Taken(r.fate) {
      TakesMore(cs, d, m.ctx, held, k, k');
    }
    var more := RecvScript(cs, fs, NextState(cs, st, m.ctx, r, f), NextContext(cs, m.ctx, f, r.fate), k', later);
    Assoc(RecvReplies(cs, st, m.ctx, r, f), more, rest);
    var n := RecvRound(cs, st, m, r, f, more + rest);
    RoundLeads(cs, st, m.ctx, r, f);
    if !Taken(r.fate) || k + 1 < |fs| {
      var held' := if Taken(r.fate) then held + [k] else held;
      RecvAll(cs, d, NextState(cs, st, m.ctx, r, f), n, held', k', later, rest);
    } else {
      EndYields(cs, n);
      assert YieldOf(n) == Yield(Finish(d, held), b.denials + RoundDenials(r), b.writes + ReceiverWrites(r.fate));
      if later == [] {
        assert more + rest == rest && [YieldOf(n)] + [] == [YieldOf(n)];
        YieldsOne(cs, R.Run(cs, R.End, n));
      } else {
        var next := R.Start(n.world.script);
        BeginsPolling(cs, next);
        HoldingFresh(cs, d, k');
        RecvAll(cs, d, R.Polling, next, [], k', later, rest);
        YieldsMore(cs, R.Run(cs, R.End, n), Harvest(d, Basket([], 0, []), k', later), rest);
      }
    }
  }

  lemma HoldingIndex(cs: Checksum, d: seq<byte>, c: R.Context, held: seq<nat>, k: nat)
    requires Deliverable(d) && Holding(cs, d, c, held, k)
    ensures k < |Frames(cs, d)|
  {
  }

  lemma PossibleFacts(cs: Checksum, f: seq<byte>, r: Round)
    requires |f| >= 2 && Possible(cs, f, r)
    ensures Refused(r.fate) && NoEnquiry(r.wakes) && (Spoilt(r.fate) ==> Damaged(cs, f, r.fate.heard))
  {
  }

  lemma PatientUnfolds(n: nat, k: nat, spent: nat, rounds: seq<Round>)
    requires rounds != [] && Patient(n, k, spent, rounds)
    ensures spent + RoundDenials(rounds[0]) < R.MAX_RECV_ATTEMPTS
    ensures Patient(n, NextIndex(k, rounds[0].fate),
                    if Taken(rounds[0].fate) && k + 1 == n then 0 else spent + RoundDenials(rounds[0]), rounds[1..])
  {
  }

  lemma RecvScriptUnfolds(cs: Checksum, fs: seq<seq<byte>>, st: R.State, c: R.Context, k: nat, rounds: seq<Round>)
    requires c.Valid() && rounds != [] && k < |fs|
    ensures var r, f, later := rounds[0], fs[k], rounds[1..];
            var more := RecvScript(cs, fs, NextState(cs, st, c, r, f), NextContext(cs, c, f, r.fate), NextIndex(k, r.fate), later);
            && RecvScript(cs, fs, st, c, k, rounds) == RecvReplies(cs, st, c, r, f) + more
            && (later == [] ==> more == [])
  {
    hide RecvReplies, NextContext, NextState, NextIndex;
  }

  lemma HarvestUnfolds(d: seq<byte>, b: Basket, k: nat, rounds: seq<Round>)
    requires Deliverable(d) && Started(Pieces(d), b.held, k) && rounds != [] && k < Pieces(d)
    ensures var r, k', later := rounds[0], NextIndex(k, rounds[0].fate), rounds[1..];
            var denials, writes := b.denials + RoundDenials(r), b.writes + ReceiverWrites(r.fate);
            if !Taken(r.fate) then
              && Started(Pieces(d), b.held, k')
              && Harvest(d, b, k, rounds) == Harvest(d, Basket(b.held, denials, writes), k', later)
            else if k + 1 < Pieces(d) then
              && Started(Pieces(d), b.held + [k], k')
              && Harvest(d, b, k, rounds) == Harvest(d, Basket(b.held + [k], denials, writes), k', later)
            else
              && Started(Pieces(d), [], k') && (b.held != [] ==> |b.held| + 1 >= Pieces(d))
              && Harvest(d, b, k, rounds) ==
                 [Yield(Finish(d, b.held), denials, writes)] + Harvest(d, Basket([], 0, []), k', later)
              && (later == [] ==> Harvest(d, Basket([], 0, []), k', later) == [])
  {
    hide RoundDenials, ReceiverWrites, Finish, Pieces;
  }

  /** Where a round leaves the receiver. */
  lemma RoundLeads(cs: Checksum, st: R.State, c: R.Context, r: Round, f: seq<byte>)
    requires c.Valid() && (st == R.Polling || st == R.Enquiry)
    ensures var st' := NextState(cs, st, c, r, f); st' == R.Polling || st' == R.Enquiry
    ensures NotTaking(c, r.fate) == if Spoilt(r.fate) then Settled(c, r.fate.heard).With([]) else c
    ensures !Taken(r.fate) ==>
              && NextContext(cs, c, f, r.fate) == NotTaking(c, r.fate)
              && NextState(cs, st, c, r, f) == if r.fate.EnquiryLost? && r.wakes == [] then st else R.Polling
    ensures Taken(r.fate) && Taking(cs, c, f).0 == Wait ==>
              && NextContext(cs, c, f, r.fate) == Taking(cs, c, f).1
              && NextState(cs, st, c, r, f) == R.Enquiry == R.Next(R.Done, Wait)
    ensures Taken(r.fate) && Taking(cs, c, f).0 == Pass ==>
              && NextContext(cs, c, f, r.fate) == R.FRESH
              && NextState(cs, st, c, r, f) == R.Polling && R.Next(R.Done, Pass) == R.End
  {
    hide Taking, Settled;
  }

  lemma EndYields(cs: Checksum, m: R.Receiver)
    requires m.ctx.Valid()
    ensures YieldOf(R.Run(cs, R.End, m)) == YieldOf(m) && R.Run(cs, R.End, m).world.script == m.world.script
  {
    hide RoundTrip.ReceptionOf;
  }

  lemma BeginsPolling(cs: Checksum, m: R.Receiver)
    requires m == R.Start(m.world.script)
    ensures m.ctx == R.FRESH && m.ctx.Valid() && m.r1 == 0 && Writes(m.world.log) == []
    ensures R.Run(cs, R.Idle, m) == R.Run(cs, R.Polling, m)
  {
    Unroll(cs, R.Idle, m);
  }

  lemma YieldsOne(cs: Checksum, m: R.Receiver)
    ensures Yields(cs, m, [YieldOf(m)], m.world.script)
  {
    hide YieldOf;
  }

  lemma YieldsMore(cs: Checksum, m: R.Receiver, ys: seq<Yield>, rest: seq<Reply>)
    requires Yields(cs, R.Run(cs, R.Idle, R.Start(m.world.script)), ys, rest)
    ensures Yields(cs, m, [YieldOf(m)] + ys, rest)
  {
    hide R.Run, YieldOf;
  }

  // ---------------------------------------------------------------- lost last acknowledgements

  /** The sender gets from frame k to the end of n frames. */
  predicate Covers(n: nat, k: nat, rounds: seq<Round>)
    decreases |rounds|
  {
    if rounds == [] then k == n else k < n && Covers(n, NextIndex(k, rounds[0].fate), rounds[1..])
  }

  lemma {:induction false} ExchangeCovers(cs: Checksum, fs: seq<seq<byte>>, k: nat, rounds: seq<Round>)
    requires (forall f <- fs :: |f| >= 2) && Exchange(cs, fs, k, rounds)
    ensures Covers(|fs|, k, rounds)
    decreases |rounds|
  {
    if rounds != [] {
      ExchangeCovers(cs, fs, NextIndex(k, rounds[0].fate), rounds[1..]);
    }
  }

  /** The numbers of the frames taken before the last one, in the order of their arrival. */
  function Kept(n: nat, k: nat, rounds: seq<Round>): seq<nat>
    decreases |rounds|
  {
    if rounds == [] || k + 1 >= n then []
    else if Taken(rounds[0].fate) then [k] + Kept(n, NextIndex(k, rounds[0].fate), rounds[1..])
    else Kept(n, k, rounds[1..])
  }

  /** How often the last acknowledgement of the last frame is lost. */
  function LastLost(n: nat, k: nat, rounds: seq<Round>): nat
    decreases |rounds|
  {
    if rounds == [] then 0
    else (if rounds[0].fate.LastAckLost? && k + 1 == n then 1 else 0) + LastLost(n, NextIndex(k, rounds[0].fate), rounds[1..])
  }

  /** The first frame whose last acknowledgement is lost. */
  function FirstLost(k: nat, rounds: seq<Round>): Option<nat>
    decreases |rounds|
  {
    if rounds == [] then None
    else if rounds[0].fate.LastAckLost? then Some(k)
    else FirstLost(NextIndex(k, rounds[0].fate), rounds[1..])
  }

  /** The frames kept: the first k of them in order as far as no acknowledgement is lost; behind a
      frame that is kept twice, each place has an earlier frame than its own. */
  lemma {:induction false} KeptShape(n: nat, k: nat, rounds: seq<Round>)
    requires Covers(n, k, rounds) && k < n
    ensures var kept, lost := Kept(n, k, rounds), FirstLost(k, rounds);
            && |kept| >= n - 1 - k && (forall i :: 0 <= i < |kept| ==> k <= kept[i] < n - 1 && kept[i] <= k + i)
            && (lost.Some? ==> k <= lost.value < n)
            && (lost.None? || lost.value == n - 1 ==> |kept| == n - 1 - k && forall i :: 0 <= i < |kept| ==> kept[i] == k + i)
            && (lost.Some? && lost.value < n - 1 ==>
                  && |kept| >= n - k
                  && (forall i :: 0 <= i <= lost.value - k ==> kept[i] == k + i)
                  && (forall i :: lost.value - k < i < |kept| ==> lost.value <= kept[i] < k + i))
    ensures LastLost(n, k, rounds) == 0 || FirstLost(k, rounds).Some?
    ensures FirstLost(k, rounds) == Some(n - 1) ==> LastLost(n, k, rounds) > 0
    decreases |rounds|
  {
    var r, k', later := rounds[0], NextIndex(k, rounds[0].fate), rounds[1..];
    if k' < n {
      KeptShape(n, k', later);
      assert k + 1 < n ==> Kept(n, k, rounds) == if Taken(r.fate) then [k] + Kept(n, k', later) else Kept(n, k', later);
    } else {
      assert later == [];
    }
  }

  /** What the receives of an exchange report, from the frames taken alone: the first of them has those
      it keeps, and each loss at the last frame makes one more `receive` that has nothing but it. */
  lemma {:induction false} HarvestIs(d: seq<byte>, b: Basket, k: nat, rounds: seq<Round>)
    requires Deliverable(d) && Started(Pieces(d), b.held, k) && k < Pieces(d) && Covers(Pieces(d), k, rounds)
    ensures var ys, held := Harvest(d, b, k, rounds), b.held + Kept(Pieces(d), k, rounds);
            && |ys| == 1 + LastLost(Pieces(d), k, rounds)
            && (held != [] ==> |held| + 1 >= Pieces(d)) && ys[0].reception == Finish(d, held)
            && forall i :: 1 <= i < |ys| ==> ys[i].reception == Finish(d, [])
    decreases |rounds|
  {
    hide Finish, RoundDenials, ReceiverWrites, Pieces;
    var n, r, k', later := Pieces(d), rounds[0], NextIndex(k, rounds[0].fate), rounds[1..];
    KeptShape(n, k, rounds);
    HarvestUnfolds(d, b, k, rounds);
    if !Taken(r.fate) {
      HarvestIs(d, Basket(b.held, b.denials + RoundDenials(r), b.writes + ReceiverWrites(r.fate)), k', later);
    } else if k + 1 < n {
      HarvestIs(d, Basket(b.held + [k], b.denials + RoundDenials(r), b.writes + ReceiverWrites(r.fate)), k', later);
      assert b.held + ([k] + Kept(n, k', later)) == b.held + [k] + Kept(n, k', later);
    } else {
      assert b.held + [] == b.held;
      if k' < n {
        HarvestIs(d, Basket([], 0, []), k', later);
      }
    }
  }

  function UpTo(m: nat): (s: seq<nat>)
    ensures |s| == m && forall i :: 0 <= i < m ==> s[i] == i
  {
    seq(m, i => i)
  }

  lemma {:induction false} SlicesInOrder(d: seq<byte>, m: nat)
    requires |d| >= CMD_LENGTH
    ensures Slices(d, UpTo(m)) == d[CMD_LENGTH..SliceStart(d, m)]
  {
    if m > 0 {
      SlicesInOrder(d, m - 1);
      assert UpTo(m)[..m - 1] == UpTo(m - 1);
      var a, b := SliceStart(d, m - 1), SliceStart(d, m);
      assert d[CMD_LENGTH..b] == d[CMD_LENGTH..a] + d[a..b];
    }
  }

  lemma {:induction false} SlicesAlike(d: seq<byte>, p: seq<nat>, q: seq<nat>)
    requires |d| >= CMD_LENGTH && |p| == |q| && forall i :: 0 <= i < |p| ==> Slice(d, p[i]) == Slice(d, q[i])
    ensures Slices(d, p) == Slices(d, q)
  {
    hide Slice;
    if p != [] {
      SlicesAlike(d, p[..|p| - 1], q[..|q| - 1]);
    }
  }

  /** Full slices, joined, can be told apart again. */
  lemma {:induction false} SlicesApart(d: seq<byte>, p: seq<nat>, i: nat)
    requires |d| >= CMD_LENGTH && i < |p|
    requires forall j :: 0 <= j < |p| ==> |Slice(d, p[j])| == MAX_ACTUAL_DATA_LENGTH
    ensures |Slices(d, p)| == MAX_ACTUAL_DATA_LENGTH * |p|
    ensures Slices(d, p)[MAX_ACTUAL_DATA_LENGTH * i..MAX_ACTUAL_DATA_LENGTH * (i + 1)] == Slice(d, p[i])
  {
    hide Slice;
    var front := p[..|p| - 1];
    if front == [] {
      assert Slices(d, front) == [];
    } else {
      SlicesApart(d, front, if i < |front| then i else 0);
      if i < |front| {
        assert front[i] == p[i];
      }
    }
  }

  /** Frames kept in this order behind one that is kept twice. */
  predicate Doubled(p: seq<nat>, n: nat, j: nat) {
    && |p| == n && j + 1 < n
    && (forall i :: 0 <= i <= j ==> p[i] == i) && (forall i :: j < i < n ==> j <= p[i] < i)
  }

  /** All slices from j on are full and the same. */
  predicate SameFrom(d: seq<byte>, j: nat)
    requires |d| >= CMD_LENGTH
  {
    && |d| == CMD_LENGTH + MAX_ACTUAL_DATA_LENGTH * FrameCount(d)
    && forall i :: j <= i < FrameCount(d) ==> Slice(d, i) == Slice(d, j)
  }

  /** Joining frames of which one was kept twice gives the message exactly if the frames from that one
      on cannot be told from each other. */
  lemma DoubledIsWhole(d: seq<byte>, p: seq<nat>, j: nat)
    requires |d| >= 1031 && Doubled(p, FrameCount(d), j)
    ensures Assembled(d, p) == Marked(d) <==> SameFrom(d, j)
  {
    var n := FrameCount(d);
    hide Slice, FrameCount, MoreFollow;
    AllButLast(d);
    assert Assembled(d, p) == Marked(d) <==> Slices(d, p) == d[CMD_LENGTH..] by {
      SameTail(d, Slices(d, p));
    }
    if Slices(d, p) == d[CMD_LENGTH..] {
      SlicesApart(d, p, 0);
      forall i | j <= i < n ensures Slice(d, i) == Slice(d, j) {
        DoubledAlike(d, p, j, i);
      }
    }
    if SameFrom(d, j) {
      SlicesAlike(d, p, UpTo(n));
      SlicesInOrder(d, n);
      assert SliceStart(d, n) == |d|;
    }
  }

  lemma SameTail(d: seq<byte>, tail: seq<byte>)
    requires |d| >= CMD_LENGTH
    ensures d[..2] + [MoreFollow(d[2])] + tail == Marked(d) <==> tail == d[CMD_LENGTH..]
  {
    hide MoreFollow;
    var m := d[..2] + [MoreFollow(d[2])] + tail;
    assert m[CMD_LENGTH..] == tail && Marked(d)[CMD_LENGTH..] == d[CMD_LENGTH..];
    assert m[..CMD_LENGTH] == Marked(d)[..CMD_LENGTH];
    assert Marked(d) == Marked(d)[..CMD_LENGTH] + Marked(d)[CMD_LENGTH..] && m == m[..CMD_LENGTH] + m[CMD_LENGTH..];
  }

  lemma AllButLast(d: seq<byte>)
    requires |d| >= 1031
    ensures FrameCount(d) >= 2
    ensures forall i :: 0 <= i < FrameCount(d) - 1 ==> |Slice(d, i)| == MAX_ACTUAL_DATA_LENGTH
    ensures SliceStart(d, FrameCount(d)) == |d|
  {
    ManyFrames(d);
    forall i | 0 <= i < FrameCount(d) - 1 ensures |Slice(d, i)| == MAX_ACTUAL_DATA_LENGTH {
      SliceSizes(d, i);
    }
  }

  /** Slice i is what stands in its place, an earlier slice, and so back to the doubled one. */
  lemma {:induction false} DoubledAlike(d: seq<byte>, p: seq<nat>, j: nat, i: nat)
    requires |d| >= 1031 && Doubled(p, FrameCount(d), j) && Slices(d, p) == d[CMD_LENGTH..] && j <= i < FrameCount(d)
    ensures Slice(d, i) == Slice(d, j)
    decreases i
  {
    if i > j {
      AllButLast(d);
      SlicesApart(d, p, i);
      SliceByPlace(d, i);
      DoubledAlike(d, p, j, p[i]);
    }
  }

  lemma SliceByPlace(d: seq<byte>, i: nat)
    requires |d| >= CMD_LENGTH && CMD_LENGTH + MAX_ACTUAL_DATA_LENGTH * (i + 1) <= |d|
    ensures Slice(d, i) == d[CMD_LENGTH..][MAX_ACTUAL_DATA_LENGTH * i..MAX_ACTUAL_DATA_LENGTH * (i + 1)]
  {
  }

  // ---------------------------------------------------------------- the theorems

  const EMPTY := Basket([], 0, [])

  /** Every round of an exchange closes: what either side reads of acknowledgements and frames, the
      other has written in that round. */
  predicate AllClose(fs: seq<seq<byte>>, k: nat, rounds: seq<Round>)
    decreases |rounds|
  {
    rounds == [] || (k < |fs| && Closes(rounds[0].fate, fs[k]) && AllClose(fs, NextIndex(k, rounds[0].fate), rounds[1..]))
  }

  lemma {:induction false} ExchangeCloses(cs: Checksum, fs: seq<seq<byte>>, k: nat, rounds: seq<Round>)
    requires (forall f <- fs :: |f| >= 2) && Exchange(cs, fs, k, rounds)
    ensures AllClose(fs, k, rounds)
    decreases |rounds|
  {
    hide Closes, Damaged, NoEnquiry;
    if rounds != [] {
      RoundCloses(rounds[0].fate, fs[k]);
      ExchangeCloses(cs, fs, NextIndex(k, rounds[0].fate), rounds[1..]);
    }
  }

  /** Any exchange, with every kind of loss. Within 240 attempts of the sender and five of each
      `receive`, `send` succeeds, and the receives hand out, one after the other, what the frames that
      reached them make: `HarvestIs` and `ArrivesOnce` say what that is. */
  lemma AnyExchange(cs: Checksum, d: seq<byte>, rounds: seq<Round>, sendRest: seq<Reply>, recvRest: seq<Reply>)
    requires Deliverable(d) && Exchange(cs, Frames(cs, d), 0, rounds)
    requires TotalRetries(rounds) < S.MAX_SEND_ATTEMPTS && Patient(Pieces(d), 0, 0, rounds)
    ensures var s := S.Run(S.Idle, S.Start(SendScript(rounds) + sendRest, Frames(cs, d)));
            && s.result && s.r2 == TotalRetries(rounds) && s.world.script == sendRest
            && Writes(s.world.log) == AllSenderWrites(Frames(cs, d), 0, rounds)
    ensures var script := RecvScript(cs, Frames(cs, d), R.Polling, R.FRESH, 0, rounds) + recvRest;
            var ys := Harvest(d, EMPTY, 0, rounds);
            && Receives(cs, script, |ys|) == (ys, recvRest)
            && ys != [] && Received(cs, script) == ys[0].reception
    ensures AllClose(Frames(cs, d), 0, rounds)
  {
    hide S.Run, R.Run, Exchange, Frames, Harvest, RecvScript, AllSenderWrites, Patient, Received, ReceptionOf;
    SenderSide(cs, Frames(cs, d), rounds, sendRest);
    ExchangeCloses(cs, Frames(cs, d), 0, rounds);
    var m := R.Start(RecvScript(cs, Frames(cs, d), R.Polling, R.FRESH, 0, rounds) + recvRest);
    BeginsPolling(cs, m);
    HoldingFresh(cs, d, 0);
    RecvAll(cs, d, R.Polling, m, [], 0, rounds, recvRest);
    ReceivedIs(cs, m.world.script);
  }

  /** Losing last acknowledgements does no harm: none is lost; or none at the last frame, and the
      frames from the first one lost at on all carry the same full slice. */
  predicate Harmless(d: seq<byte>, rounds: seq<Round>)
    requires Deliverable(d)
  {
    match FirstLost(0, rounds)
    case None => true
    case Some(j) => LastLost(Pieces(d), 0, rounds) == 0 && SameFrom(d, j)
  }

  function Receptions(ys: seq<Yield>): seq<Reception> {
    seq(|ys|, i requires 0 <= i < |ys| => ys[i].reception)
  }

  /** The application gets the message, whole and once, exactly if losing acknowledgements did no harm. */
  lemma ArrivesOnce(d: seq<byte>, rounds: seq<Round>)
    requires Deliverable(d) && Covers(Pieces(d), 0, rounds)
    ensures Receptions(Harvest(d, EMPTY, 0, rounds)) == [Got(Arrival(d))] <==> Harmless(d, rounds)
  {
    hide Harvest, Kept, Finish, SameFrom, Marked;
    var n, ys, kept := Pieces(d), Harvest(d, EMPTY, 0, rounds), Kept(Pieces(d), 0, rounds);
    KeptShape(n, 0, rounds);
    HarvestIs(d, EMPTY, 0, rounds);
    assert EMPTY.held + kept == kept;
    FirstIsWhole(d, rounds);
    if |ys| == 1 {
      assert Receptions(ys) == [ys[0].reception];
    } else {
      assert |Receptions(ys)| == |ys|;
    }
  }

  /** The first `receive` reports the message exactly if no acknowledgement was lost before the last
      frame, or the frames from there on are alike. */
  lemma FirstIsWhole(d: seq<byte>, rounds: seq<Round>)
    requires Deliverable(d) && Covers(Pieces(d), 0, rounds)
    ensures var n, held, lost := Pieces(d), Kept(Pieces(d), 0, rounds), FirstLost(0, rounds);
            && (held != [] ==> |held| + 1 >= n)
            && (Finish(d, held) == Got(Arrival(d)) <==> lost.None? || lost.value + 1 == n || SameFrom(d, lost.value))
  {
    hide Kept, SameFrom, Assembled, Marked, FirstLost, LastLost;
    var n, held, lost := Pieces(d), Kept(Pieces(d), 0, rounds), FirstLost(0, rounds);
    KeptShape(n, 0, rounds);
    if |d| > 1027 {
      ManyFrames(d);
      var p := (held + [n - 1])[..n];
      if lost.None? || lost.value + 1 == n {
        assert p == UpTo(n);
        InOrderIsWhole(d);
      } else {
        assert p == held[..n];
        DoubledIsWhole(d, p, lost.value);
      }
    }
  }

  lemma InOrderIsWhole(d: seq<byte>)
    requires |d| >= 1031
    ensures Assembled(d, UpTo(FrameCount(d))) == Marked(d)
  {
    hide MoreFollow, FrameCount;
    AllButLast(d);
    SlicesInOrder(d, FrameCount(d));
    SameTail(d, d[CMD_LENGTH..]);
  }

  predicate NoLastAckLost(rounds: seq<Round>) {
    forall r <- rounds :: !r.fate.LastAckLost?
  }

  /** Stop and wait, end to end: if no last acknowledgement is lost, one `receive` does, it hands out the
      message, and its counter and writes are those of all the rounds. */
  lemma StopAndWait(cs: Checksum, d: seq<byte>, rounds: seq<Round>, sendRest: seq<Reply>, recvRest: seq<Reply>)
    requires Deliverable(d) && Exchange(cs, Frames(cs, d), 0, rounds)
    requires NoLastAckLost(rounds)
    requires TotalRetries(rounds) < S.MAX_SEND_ATTEMPTS && TotalDenials(rounds) < R.MAX_RECV_ATTEMPTS
    ensures var s := S.Run(S.Idle, S.Start(SendScript(rounds) + sendRest, Frames(cs, d)));
            && s.result && s.r2 == TotalRetries(rounds) && s.world.script == sendRest
            && Writes(s.world.log) == AllSenderWrites(Frames(cs, d), 0, rounds)
    ensures var script := RecvScript(cs, Frames(cs, d), R.Polling, R.FRESH, 0, rounds) + recvRest;
            var m := R.Run(cs, R.Idle, R.Start(script));
            && Received(cs, script) == Got(Arrival(d)) && m.r1 == TotalDenials(rounds) && m.world.script == recvRest
            && Writes(m.world.log) == AllReceiverWrites(rounds)
    ensures AllClose(Frames(cs, d), 0, rounds)
  {
    hide S.Run, R.Run, Exchange, Frames, Harvest, RecvScript, AllSenderWrites, Patient, Received, ReceptionOf, Receptions;
    hide NoLastAckLost, AllClose, TotalDenials, TotalRetries, AllReceiverWrites, SendScript, Harmless;
    var fs, n := Frames(cs, d), Pieces(d);
    PiecesAreFrames(cs, d);
    ExchangeCovers(cs, fs, 0, rounds);
    PatientInAll(n, 0, 0, rounds);
    AnyExchange(cs, d, rounds, sendRest, recvRest);
    NoneLost(0, rounds);
    ArrivesOnce(d, rounds);
    HarmlessIfNoneLost(d, rounds);
    HarvestAtOnce(d, EMPTY, 0, rounds);
    assert [] + AllReceiverWrites(rounds) == AllReceiverWrites(rounds);
    OneReceive(cs, RecvScript(cs, fs, R.Polling, R.FRESH, 0, rounds) + recvRest, Harvest(d, EMPTY, 0, rounds), recvRest);
    assert Receptions(Harvest(d, EMPTY, 0, rounds))[0] == Harvest(d, EMPTY, 0, rounds)[0].reception by {
      ReceptionAt(Harvest(d, EMPTY, 0, rounds));
    }
  }

  lemma ReceptionAt(ys: seq<Yield>)
    requires |ys| >= 1
    ensures |Receptions(ys)| >= 1 && Receptions(ys)[0] == ys[0].reception
  {
  }

  lemma OneReceive(cs: Checksum, script: seq<Reply>, ys: seq<Yield>, rest: seq<Reply>)
    requires |ys| == 1 && Receives(cs, script, |ys|) == (ys, rest)
    ensures var m := R.Run(cs, R.Idle, R.Start(script));
            m.r1 == ys[0].denials && Writes(m.world.log) == ys[0].writes && m.world.script == rest
  {
    hide R.Run, ReceptionOf;
    var m := R.Run(cs, R.Idle, R.Start(script));
    assert Receives(cs, m.world.script, 0) == ([], m.world.script);
    assert Receives(cs, script, 1).0[0] == YieldOf(m);
  }

  lemma HarmlessIfNoneLost(d: seq<byte>, rounds: seq<Round>)
    requires Deliverable(d) && FirstLost(0, rounds).None?
    ensures Harmless(d, rounds)
  {
  }

  lemma {:induction false} NoneLost(k: nat, rounds: seq<Round>)
    requires NoLastAckLost(rounds)
    ensures FirstLost(k, rounds).None?
    decreases |rounds|
  {
    if rounds != [] {
      NoneLost(NextIndex(k, rounds[0].fate), rounds[1..]);
    }
  }

  lemma {:induction false} PatientInAll(n: nat, k: nat, spent: nat, rounds: seq<Round>)
    requires spent + TotalDenials(rounds) < R.MAX_RECV_ATTEMPTS
    ensures Patient(n, k, spent, rounds)
    decreases |rounds|
  {
    hide RoundDenials;
    if rounds != [] {
      var r := rounds[0];
      PatientInAll(n, NextIndex(k, r.fate), if Taken(r.fate) && k + 1 == n then 0 else spent + RoundDenials(r), rounds[1..]);
    }
  }

  /** Without lost acknowledgements all rounds belong to one `receive`. */
  lemma {:induction false} HarvestAtOnce(d: seq<byte>, b: Basket, k: nat, rounds: seq<Round>)
    requires Deliverable(d) && Started(Pieces(d), b.held, k) && k < Pieces(d) && Covers(Pieces(d), k, rounds)
    requires NoLastAckLost(rounds)
    ensures var ys := Harvest(d, b, k, rounds);
            |ys| == 1 && ys[0].denials == b.denials + TotalDenials(rounds) && ys[0].writes == b.writes + AllReceiverWrites(rounds)
    decreases |rounds|
  {
    hide Finish, RoundDenials, ReceiverWrites, Pieces;
    var r, k', later := rounds[0], NextIndex(k, rounds[0].fate), rounds[1..];
    HarvestUnfolds(d, b, k, rounds);
    Assoc(b.writes, ReceiverWrites(r.fate), AllReceiverWrites(later));
    if !Taken(r.fate) || k + 1 < Pieces(d) {
      var held := if Taken(r.fate) then b.held + [k] else b.held;
      HarvestAtOnce(d, Basket(held, b.denials + RoundDenials(r), b.writes + ReceiverWrites(r.fate)), k', later);
    } else {
      assert later == [] && ReceiverWrites(r.fate) + [] == ReceiverWrites(r.fate);
    }
  }

  /** A line that loses nothing: every round delivers. */
  function QuietRounds(n: nat): seq<Round> {
    if n == 0 then [] else [Round([], [], [], Fate.Delivered)] + QuietRounds(n - 1)
  }

  /** The quiet line is one of the exchanges, for any frames, and it costs nothing. */
  lemma {:induction false} QuietExchange(cs: Checksum, fs: seq<seq<byte>>, k: nat)
    requires k <= |fs| && forall f <- fs :: |f| >= 2
    ensures var rounds := QuietRounds(|fs| - k);
            && Exchange(cs, fs, k, rounds) && NoLastAckLost(rounds)
            && TotalRetries(rounds) == 0 && TotalDenials(rounds) == 0
    decreases |fs| - k
  {
    hide Possible, Retries, RoundDenials;
    if k < |fs| {
      var rounds := QuietRounds(|fs| - k);
      assert rounds[0] == Round([], [], [], Fate.Delivered) && rounds[1..] == QuietRounds(|fs| - k - 1);
      QuietRound(cs, fs[k], rounds[0]);
      QuietExchange(cs, fs, k + 1);
    }
  }

  lemma QuietRound(cs: Checksum, f: seq<byte>, r: Round)
    requires |f| >= 2 && r == Round([], [], [], Fate.Delivered)
    ensures Possible(cs, f, r) && Retries(r.fate) == 0 && RoundDenials(r) == 0
  {
  }
}
