/** The parser states of the receive machine, fed from a stream of bytes: what they accept, what
    they store, and what a denied attempt leaves behind. */
module FrameParser {
  import opened Wire
  import opened Device
  import opened Events
  import opened Receiver

  datatype Parsed = Parsed(verdict: Event, ctx: Context, rest: seq<byte>)

  /** A stream answers a read when it has enough bytes; otherwise the read times out. */
  function Serve(bs: seq<byte>, n: nat): Reply {
    if n <= |bs| then Success(bs[..n]) else Timeout
  }

  function Drop(bs: seq<byte>, n: nat): seq<byte> {
    if n <= |bs| then bs[n..] else []
  }

  function Stage(st: State): nat {
    match st
    case Stx => 8
    case Len => 7
    case DataCmd => 6
    case DataExtLen => 5
    case DataFrameNumber => 4
    case Data => 3
    case Etx => 2
    case _ => 1
  }

  function Wanted(st: State, c: Context): nat {
    if Wants(st, c).Some? then Wants(st, c).value else 0
  }

  /** Runs the handlers from `st` to `cs`, as the transition table chains them. */
  function Parse(cs: Checksum, st: State, c: Context, bs: seq<byte>): (p: Parsed)
    requires c.Valid() && Parsing(st)
    ensures p.ctx.Valid() && p.ctx.current == c.current && p.ctx.result == c.result
    ensures p.verdict == Pass || p.verdict == Deny
    decreases Stage(st)
  {
    var n := Wanted(st, c);
    var (e, d) := Absorb(cs, st, c, Serve(bs, n));
    if e == Pass && st != Cs then Parse(cs, Next(st, Pass), d, Drop(bs, n)) else Parsed(e, d, Drop(bs, n))
  }

  /** The replies the device gives on the way. */
  function Replies(cs: Checksum, st: State, c: Context, bs: seq<byte>): seq<Reply>
    requires c.Valid() && Parsing(st)
    decreases Stage(st)
  {
    var n := Wanted(st, c);
    var r := Serve(bs, n);
    var (e, d) := Absorb(cs, st, c, r);
    (if Wants(st, c).Some? then [r] else [])
    + if e == Pass && st != Cs then Replies(cs, Next(st, Pass), d, Drop(bs, n)) else []
  }

  /** A parser state's handler is `Absorb` on the device's next reply. */
  lemma HandleAbsorbs(cs: Checksum, st: State, m: Receiver)
    requires Parsing(st) && m.ctx.Valid()
    ensures Wants(st, m.ctx).None? ==> Handle(cs, st, m) == (Pass, m) && forall r :: Absorb(cs, st, m.ctx, r) == (Pass, m.ctx)
    ensures Wants(st, m.ctx).Some? ==>
              var (e, d) := Absorb(cs, st, m.ctx, m.world.Next());
              Handle(cs, st, m) == (e, Receiver(m.world.After(Read(Wanted(st, m.ctx))), m.r1, d))
  {
  }

  lemma TakeFirst(w: World, r: Reply, more: seq<Reply>, rest: seq<Reply>)
    requires w.script == [r] + more + rest
    ensures w.Next() == r && w.Rest() == more + rest
  {
    assert [r] + more + rest == [r] + (more + rest);
  }

  lemma NextStage(st: State)
    requires Parsing(st)
    ensures st != Cs ==> Parsing(Next(st, Pass)) && Stage(Next(st, Pass)) < Stage(st)
    ensures st == Cs ==> Next(st, Pass) == Ack2
    ensures Next(st, Deny) == Nak
  {
  }

  /** One parser state of the machine's own run. */
  lemma StepParses(cs: Checksum, st: State, m: Receiver, bs: seq<byte>, more: seq<Reply>, rest: seq<Reply>)
    returns (n: Receiver)
    requires Parsing(st) && m.ctx.Valid()
    requires m.world.script == (if Wants(st, m.ctx).Some? then [Serve(bs, Wanted(st, m.ctx))] else []) + more + rest
    ensures Handle(cs, st, m) == (Absorb(cs, st, m.ctx, Serve(bs, Wanted(st, m.ctx))).0, n)
    ensures n.ctx == Absorb(cs, st, m.ctx, Serve(bs, Wanted(st, m.ctx))).1
    ensures n.r1 == m.r1 && n.world.script == more + rest && Writes(n.world.log) == Writes(m.world.log)
  {
    hide Absorb, Handle, Wants, Fill;
    var k := Wanted(st, m.ctx);
    var r := Serve(bs, k);
    HandleAbsorbs(cs, st, m);
    if Wants(st, m.ctx).Some? {
      TakeFirst(m.world, r, more, rest);
      n := Receiver(m.world.After(Read(k)), m.r1, Absorb(cs, st, m.ctx, r).1);
    } else {
      assert [] + more == more;
      n := m;
    }
  }

  /** The machine's own run over those replies is the parse. */
  lemma {:induction false} RunParses(cs: Checksum, st: State, m: Receiver, bs: seq<byte>, rest: seq<Reply>)
    returns (n: Receiver)
    requires Parsing(st) && m.ctx.Valid()
    requires m.world.script == Replies(cs, st, m.ctx, bs) + rest
    ensures n.ctx == Parse(cs, st, m.ctx, bs).ctx && n.r1 == m.r1 && n.world.script == rest
    ensures Writes(n.world.log) == Writes(m.world.log)
    ensures Run(cs, st, m) == Run(cs, if Parse(cs, st, m.ctx, bs).verdict == Pass then Ack2 else Nak, n)
    decreases Stage(st)
  {
    hide Absorb, Handle, Next, Wants, Fill, Writes;
    NextStage(st);
    var k := Wanted(st, m.ctx);
    var (e, d) := Absorb(cs, st, m.ctx, Serve(bs, k));
    var more := if e == Pass && st != Cs then Replies(cs, Next(st, Pass), d, Drop(bs, k)) else [];
    n := StepParses(cs, st, m, bs, more, rest);
    Unroll(cs, st, m);
    if e == Pass && st != Cs {
      n := RunParses(cs, Next(st, Pass), n, Drop(bs, k), rest);
    }
  }

  lemma RepliesTail(cs: Checksum, st: State, c: Context, bs: seq<byte>)
    requires c.Valid() && Parsing(st) && Parse(cs, st, c, bs).verdict == Pass && st != Cs && Parsing(Next(st, Pass))
    ensures var n := Wanted(st, c); var (e, d) := Absorb(cs, st, c, Serve(bs, n));
            var more := Replies(cs, Next(st, Pass), d, Drop(bs, n));
            && e == Pass && Parse(cs, Next(st, Pass), d, Drop(bs, n)).verdict == Pass
            && Replies(cs, st, c, bs) == (if Wants(st, c).Some? then [Serve(bs, n)] else []) + more
  {
    hide Absorb, Wants, Next, Serve, Drop;
    NextStage(st);
  }

  /** The same replies, but the last read, that of the checksum, fails. */
  function Unreadable(cs: Checksum, st: State, c: Context, bs: seq<byte>): seq<Reply>
    requires c.Valid() && Parsing(st)
  {
    var r := Replies(cs, st, c, bs);
    if r == [] then [] else r[..|r| - 1] + [Error]
  }

  lemma {:induction false} ChecksumIsRead(cs: Checksum, st: State, c: Context, bs: seq<byte>)
    requires c.Valid() && Parsing(st) && Parse(cs, st, c, bs).verdict == Pass
    ensures Replies(cs, st, c, bs) != []
    decreases Stage(st)
  {
    if st != Cs {
      hide Absorb, Wants, Parse, Replies;
      NextStage(st);
      RepliesTail(cs, st, c, bs);
      var k := Wanted(st, c);
      ChecksumIsRead(cs, Next(st, Pass), Absorb(cs, st, c, Serve(bs, k)).1, Drop(bs, k));
    }
  }

  lemma UnreadableTail(cs: Checksum, st: State, c: Context, bs: seq<byte>)
    requires c.Valid() && Parsing(st) && Parse(cs, st, c, bs).verdict == Pass && st != Cs && Parsing(Next(st, Pass))
    ensures var n := Wanted(st, c); var (e, d) := Absorb(cs, st, c, Serve(bs, n));
            && e == Pass && Parse(cs, Next(st, Pass), d, Drop(bs, n)).verdict == Pass
            && Unreadable(cs, st, c, bs) ==
               (if Wants(st, c).Some? then [Serve(bs, n)] else []) + Unreadable(cs, Next(st, Pass), d, Drop(bs, n))
  {
    hide Absorb, Wants, Parse, Replies, Next;
    RepliesTail(cs, st, c, bs);
    var n := Wanted(st, c);
    var d := Absorb(cs, st, c, Serve(bs, n)).1;
    ChecksumIsRead(cs, Next(st, Pass), d, Drop(bs, n));
    var read := if Wants(st, c).Some? then [Serve(bs, n)] else [];
    var more := Replies(cs, Next(st, Pass), d, Drop(bs, n));
    assert (read + more)[..|read + more| - 1] == read + more[..|more| - 1];
  }

  /** If the device fails where the checksum is to be read the frame is denied. */
  lemma {:induction false} RunUnreadable(cs: Checksum, st: State, m: Receiver, bs: seq<byte>, rest: seq<Reply>)
    returns (n: Receiver)
    requires Parsing(st) && m.ctx.Valid() && Parse(cs, st, m.ctx, bs).verdict == Pass
    requires m.world.script == Unreadable(cs, st, m.ctx, bs) + rest
    ensures n.ctx.Valid() && n.r1 == m.r1 && n.world.script == rest && Writes(n.world.log) == Writes(m.world.log)
    ensures Run(cs, st, m) == Run(cs, Nak, n)
    decreases Stage(st)
  {
    if st == Cs {
      n := ReadFails(cs, m, bs, rest);
    } else {
      hide Absorb, Handle, Next, Wants, Fill, Writes, Parse, Replies, Run, Serve, Unreadable;
      NextStage(st);
      UnreadableTail(cs, st, m.ctx, bs);
      var k := Wanted(st, m.ctx);
      var d := Absorb(cs, st, m.ctx, Serve(bs, k)).1;
      n := StepParses(cs, st, m, bs, Unreadable(cs, Next(st, Pass), d, Drop(bs, k)), rest);
      Unroll(cs, st, m);
      n := RunUnreadable(cs, Next(st, Pass), n, Drop(bs, k), rest);
    }
  }

  lemma ReadFails(cs: Checksum, m: Receiver, bs: seq<byte>, rest: seq<Reply>) returns (n: Receiver)
    requires m.ctx.Valid() && m.world.script == Unreadable(cs, Cs, m.ctx, bs) + rest
    ensures n.ctx.Valid() && n.r1 == m.r1 && n.world.script == rest && Writes(n.world.log) == Writes(m.world.log)
    ensures Run(cs, Cs, m) == Run(cs, Nak, n)
  {
    hide Run;
    assert m.world.script == [Error] + rest;
    Unroll(cs, Cs, m);
    n := Handle(cs, Cs, m).1;
  }

  lemma Unroll(cs: Checksum, st: State, m: Receiver)
    requires m.ctx.Valid() && st != End
    ensures var (e, n) := Handle(cs, st, m); Run(cs, st, m) == Run(cs, Next(st, e), n)
  {
  }

  // ---------------------------------------------------------------- what is accepted

  /** Does the header carry an extended length? After a regular frame was begun the parser no
      longer looks for one. */
  predicate LongHeader(kind: Kind, bs: seq<byte>)
    requires |bs| >= 2
  {
    bs[1] == EXT_LEN && !kind.Regular?
  }

  function LengthField(bs: seq<byte>): nat
    requires |bs| >= 8
  {
    Num24(bs[5..8])
  }

  function HeaderKind(kind: Kind, bs: seq<byte>): Kind
    requires |bs| >= 2 && (LongHeader(kind, bs) ==> |bs| >= 8)
  {
    if LongHeader(kind, bs) then KindOfLength(kind, LengthField(bs)) else Regular
  }

  predicate HeaderOk(kind: Kind, bs: seq<byte>) {
    && |bs| >= 5 && bs[0] == STX
    && (bs[1] == EXT_LEN || MIN_FRAME_LENGTH <= bs[1] <= MAX_FRAME_LENGTH)
    && (LongHeader(kind, bs) ==> |bs| >= 8)
    && |bs| >= HeaderSize(HeaderKind(kind, bs))
  }

  /** The size of the whole frame, from STX to checksum, that the header announces. `leftover` is
      the data length an earlier regular frame left in the context. */
  function AnnouncedSize(kind: Kind, leftover: nat, bs: seq<byte>): nat
    requires HeaderOk(kind, bs)
  {
    match HeaderKind(kind, bs)
    case Regular => if bs[1] == EXT_LEN then 7 + U32(leftover - 3) else bs[1] + 2
    case ExtendedLength => 10 + U32(LengthField(bs) - 8)
    case _ => 14 + U32(LengthField(bs) - 12)
  }

  /** STX, a valid length, a body of exactly the announced size, ETX and a matching checksum. */
  predicate WellFormed(cs: Checksum, kind: Kind, leftover: nat, bs: seq<byte>) {
    && HeaderOk(kind, bs)
    && var n := AnnouncedSize(kind, leftover, bs);
       n <= |bs| && bs[n - 2] == ETX && bs[n - 1] == cs(bs[1..n - 1])
  }

  predicate StartOk(bs: seq<byte>) {
    |bs| >= 2 && bs[0] == STX && (bs[1] == EXT_LEN || MIN_FRAME_LENGTH <= bs[1] <= MAX_FRAME_LENGTH)
  }

  /** What an attempt on `bs` writes into the context besides the frame itself, whether it ends
      well or not: as much of the header as it got to see. */
  function Settled(c: Context, bs: seq<byte>): (d: Context)
    requires c.Valid()
    ensures d.Valid()
  {
    var d := AfterLength(c, bs);
    if d.kind.Divided? && StartOk(bs) && bs[1] == EXT_LEN && |bs| >= 12
    then d.(frameNumber := Num16(bs[8..10]), totalFrames := Num16(bs[10..12])) else d
  }

  function AfterLength(c: Context, bs: seq<byte>): (d: Context)
    requires c.Valid()
    ensures d.Valid()
  {
    if !StartOk(bs) then c
    else if bs[1] != EXT_LEN then c.(kind := Regular, dataLength := bs[1] - FRAME_FOOTER_LENGTH)
    else if c.kind.Regular? || |bs| < 8 then c
    else c.(kind := KindOfLength(c.kind, LengthField(bs)), dataLength := U32(LengthField(bs) - FRAME_FOOTER_LENGTH))
  }

  lemma Rewrite(c: Context, a: seq<byte>, b: seq<byte>)
    requires c.Valid()
    ensures c.With(a).With(b) == c.With(b)
    ensures c.With(a).Put(b) == c.With(a + b)
  {
    assert c.frames[c.current := a][c.current := b] == c.frames[c.current := b];
    assert c.frames[c.current := a][c.current := a + b] == c.frames[c.current := a + b];
  }

  lemma Cut(bs: seq<byte>, n: nat, k: nat)
    requires n + k <= |bs|
    ensures Serve(bs[n..], k) == Success(bs[n..n + k]) && Drop(bs[n..], k) == bs[n + k..]
    ensures bs[..n] + bs[n..n + k] == bs[..n + k]
    ensures k == 1 ==> bs[n..n + 1] == [bs[n]]
  {
  }

  /** One parser state with `bs[..n]` stored and the rest still to come. */
  function From(cs: Checksum, st: State, c: Context, bs: seq<byte>, n: nat): Parsed
    requires c.Valid() && Parsing(st) && n <= |bs|
  {
    Parse(cs, st, c.With(bs[..n]), bs[n..])
  }

  /** What follows a parser state that reports e and leaves d. */
  function Onwards(cs: Checksum, st: State, e: Event, d: Context, bs: seq<byte>): Parsed
    requires d.Valid() && Parsing(st)
  {
    if e == Pass && st != Cs then (NextStage(st); Parse(cs, Next(st, Pass), d, bs)) else Parsed(e, d, bs)
  }

  /** One step of `Parse`. */
  lemma Once(cs: Checksum, st: State, c: Context, bs: seq<byte>, n: nat)
    requires c.Valid() && Parsing(st) && n <= |bs|
    ensures var d := c.With(bs[..n]); var k := Wanted(st, d); var r := Absorb(cs, st, d, Serve(bs[n..], k));
            From(cs, st, c, bs, n) == Onwards(cs, st, r.0, r.1, Drop(bs[n..], k))
  {
  }

  lemma FromStx(cs: Checksum, c: Context, bs: seq<byte>)
    requires c.Valid()
    ensures var p := From(cs, Stx, c, bs, 0);
            if |bs| >= 1 && bs[0] == STX then p == From(cs, Len, c, bs, 1)
            else p.verdict == Deny && p.ctx.With([]) == c.With([])
  {
    hide Parse;
    Once(cs, Stx, c, bs, 0);
    Rewrite(c, bs[..0], []);
    if |bs| >= 1 {
      Cut(bs, 0, 1);
      Rewrite(c, bs[..0], [bs[0]]);
    }
  }

  lemma FromLen(cs: Checksum, c: Context, bs: seq<byte>)
    requires c.Valid() && |bs| >= 1 && bs[0] == STX
    ensures var p := From(cs, Len, c, bs, 1);
            if StartOk(bs) then
              p == From(cs, DataCmd, if bs[1] == EXT_LEN then c else AfterLength(c, bs), bs, 2)
            else p.verdict == Deny && p.ctx.With([]) == c.With([])
  {
    hide Parse, BodySize, KindOfLength, LengthField;
    Once(cs, Len, c, bs, 1);
    if |bs| < 2 {
      Rewrite(c, bs[..1], []);
    } else {
      Cut(bs, 1, 1);
      if !StartOk(bs) {
        Rewrite(c, bs[..1], []);
      } else if bs[1] == EXT_LEN {
        Rewrite(c, bs[..1], [bs[1]]);
      } else {
        Rewrite(AfterLength(c, bs), bs[..1], [bs[1]]);
      }
    }
  }

  lemma FromCmd(cs: Checksum, c: Context, bs: seq<byte>)
    requires c.Valid() && |bs| >= 2
    ensures var p := From(cs, DataCmd, c, bs, 2);
            if |bs| >= 5 then p == From(cs, DataExtLen, c, bs, 5)
            else p.verdict == Deny && p.ctx.With([]) == c.With([])
  {
    hide Parse;
    Once(cs, DataCmd, c, bs, 2);
    if |bs| >= 5 {
      Cut(bs, 2, 3);
      Rewrite(c, bs[..2], bs[2..5]);
    } else {
      Rewrite(c, bs[..2], Fill([], 3));
      Rewrite(c, bs[..2] + Fill([], 3), []);
    }
  }

  lemma FromExtLen(cs: Checksum, c: Context, bs: seq<byte>)
    requires c.Valid() && |bs| >= 5 && StartOk(bs) && (bs[1] != EXT_LEN ==> c.kind.Regular?)
    ensures var p := From(cs, DataExtLen, c, bs, 5);
            if c.kind.Regular? then p == From(cs, DataFrameNumber, c, bs, 5)
            else if |bs| >= 8 then p == From(cs, DataFrameNumber, AfterLength(c, bs), bs, 8)
            else p.verdict == Deny && p.ctx.With([]) == c.With([])
  {
    hide Parse;
    Once(cs, DataExtLen, c, bs, 5);
    if c.kind.Regular? {
      assert bs[5..][0..] == bs[5..];
    } else if |bs| >= 8 {
      Cut(bs, 5, 3);
      Rewrite(c, bs[..5], bs[5..8]);
      assert AfterLength(c, bs).With(bs[..8]) == AfterLength(c.With(bs[..8]), bs);
    } else {
      Rewrite(c, bs[..5], Fill([], 3));
      Rewrite(c, bs[..5] + Fill([], 3), []);
    }
  }

  lemma FromNumber(cs: Checksum, c: Context, bs: seq<byte>, h: nat)
    requires c.Valid() && h <= |bs| && (c.kind.Divided? ==> h == 8)
    ensures var p := From(cs, DataFrameNumber, c, bs, h);
            if !c.kind.Divided? then p == From(cs, Data, c, bs, h)
            else if |bs| >= 12 then
              p == From(cs, Data, c.(frameNumber := Num16(bs[8..10]), totalFrames := Num16(bs[10..12])), bs, 12)
            else p.verdict == Deny && p.ctx.With([]) == c.With([])
  {
    hide Parse;
    Once(cs, DataFrameNumber, c, bs, h);
    if !c.kind.Divided? {
      assert bs[h..][0..] == bs[h..];
    } else if |bs| >= 12 {
      Cut(bs, 8, 4);
      Rewrite(c, bs[..8], bs[8..12]);
      assert bs[8..12][..2] == bs[8..10] && bs[8..12][2..4] == bs[10..12];
    } else {
      Rewrite(c, bs[..8], Fill([], 4));
      Rewrite(c, bs[..8] + Fill([], 4), []);
    }
  }

  /** Body, ETX and checksum after a header of h bytes. */
  lemma FromData(cs: Checksum, c: Context, bs: seq<byte>, h: nat)
    requires c.Valid() && 1 <= h <= |bs|
    ensures Ends(cs, c, bs, h + BodySize(c) + 2, From(cs, Data, c, bs, h))
  {
    hide BodySize, From;
    BodyRead(cs, c, bs, h);
    if h + BodySize(c) <= |bs| {
      FromEtx(cs, c, bs, h + BodySize(c));
    }
  }

  lemma BodyRead(cs: Checksum, c: Context, bs: seq<byte>, h: nat)
    requires c.Valid() && 1 <= h <= |bs|
    ensures var p := From(cs, Data, c, bs, h); var k := BodySize(c);
            if h + k <= |bs| then p == From(cs, Etx, c, bs, h + k)
            else p.verdict == Deny && p.ctx.With([]) == c.With([])
  {
    hide Parse, BodySize, Fill;
    Once(cs, Data, c, bs, h);
    var k := BodySize(c);
    SameBody(c, bs[..h]);
    if h + k <= |bs| {
      Cut(bs, h, k);
      Rewrite(c, bs[..h], bs[h..h + k]);
    } else {
      Rewrite(c, bs[..h], Fill([], k));
      Rewrite(c, bs[..h] + Fill([], k), []);
    }
  }

  lemma SameBody(c: Context, frame: seq<byte>)
    requires c.Valid()
    ensures BodySize(c.With(frame)) == BodySize(c)
  {
  }

  /** An attempt that reached the body of a frame of n bytes. */
  predicate Ends(cs: Checksum, c: Context, bs: seq<byte>, n: nat, p: Parsed)
    requires c.Valid() && n >= 2 && p.ctx.Valid()
  {
    && p.ctx.With([]) == c.With([])
    && (p.verdict == Pass <==> n <= |bs| && bs[n - 2] == ETX && bs[n - 1] == cs(bs[1..n - 1]))
    && (p.verdict == Deny <==> p.verdict != Pass)
    && (p.verdict == Pass ==> p.ctx == c.With(bs[..n]) && p.rest == bs[n..])
  }

  lemma FromEtx(cs: Checksum, c: Context, bs: seq<byte>, h: nat)
    requires c.Valid() && 1 <= h <= |bs|
    ensures Ends(cs, c, bs, h + 2, From(cs, Etx, c, bs, h))
  {
    hide Parse;
    Once(cs, Etx, c, bs, h);
    Rewrite(c, bs[..h], []);
    if |bs| > h {
      Cut(bs, h, 1);
      if bs[h] == ETX {
        Rewrite(c, bs[..h], [ETX]);
        FromCs(cs, c, bs, h + 1);
      }
    }
  }

  lemma FromCs(cs: Checksum, c: Context, bs: seq<byte>, h: nat)
    requires c.Valid() && 1 <= h <= |bs|
    ensures var p := From(cs, Cs, c, bs, h);
            && p.ctx.With([]) == c.With([])
            && (p.verdict == Pass <==> h < |bs| && bs[h] == cs(bs[1..h]))
            && (p.verdict == Pass ==> p.ctx == c.With(bs[..h + 1]) && p.rest == bs[h + 1..])
  {
    hide Parse;
    Once(cs, Cs, c, bs, h);
    assert Tail(bs[..h]) == bs[1..h];
    Rewrite(c, bs[..h], []);
    if |bs| > h {
      Cut(bs, h, 1);
      Rewrite(c, bs[..h], [bs[h]]);
      Rewrite(c, bs[..h + 1], []);
    }
  }

  lemma FromTheStart(cs: Checksum, c: Context, bs: seq<byte>)
    requires c.Valid() && c.Frame() == []
    ensures From(cs, Stx, c, bs, 0) == Parse(cs, Stx, c, bs)
  {
    hide Parse;
    assert c.frames[c.current := []] == c.frames;
    assert bs[0..] == bs;
  }

  /** After the header the context knows the kind and the size the header announces. */
  lemma HeaderSettles(c: Context, bs: seq<byte>)
    requires c.Valid() && HeaderOk(c.kind, bs)
    ensures var d := Settled(c, bs);
            && d.kind == HeaderKind(c.kind, bs)
            && HeaderSize(d.kind) + BodySize(d) + 2 == AnnouncedSize(c.kind, c.dataLength, bs)
  {
    if LongHeader(c.kind, bs) {
      Wraps(LengthField(bs), 6);
      Wraps(LengthField(bs), 10);
    }
  }

  lemma Wraps(length: nat, k: nat)
    ensures U32(U32(length - 2) - k) == U32(length - 2 - k)
  {
  }

  /** The parser accepts a stream exactly when it starts with a well-formed frame; it stores that
      frame and leaves the rest. Accepted or denied, what remains in the context is the same
      function of the bytes seen. */
  lemma Acceptance(cs: Checksum, c: Context, bs: seq<byte>)
    requires c.Valid() && c.Frame() == []
    ensures var p := Parse(cs, Stx, c, bs);
            && p.ctx.With([]) == Settled(c, bs).With([])
            && (p.verdict == Pass <==> WellFormed(cs, c.kind, c.dataLength, bs))
            && (p.verdict == Pass ==>
                  var n := AnnouncedSize(c.kind, c.dataLength, bs);
                  p.ctx == Settled(c, bs).With(bs[..n]) && p.rest == bs[n..])
  {
    hide From, Parse, Settled, HeaderOk, AnnouncedSize, BodySize, HeaderSize, HeaderKind;
    FromTheStart(cs, c, bs);
    if HeaderOk(c.kind, bs) {
      HeaderSettles(c, bs);
      HeaderAccepted(cs, c, bs);
    } else {
      HeaderDenied(cs, c, bs);
    }
  }

  lemma HeaderAccepted(cs: Checksum, c: Context, bs: seq<byte>)
    requires c.Valid() && HeaderOk(c.kind, bs)
    ensures var d := Settled(c, bs); var h := HeaderSize(d.kind);
            h <= |bs| && From(cs, Stx, c, bs, 0) == From(cs, Data, d, bs, h)
                      && Ends(cs, d, bs, h + BodySize(d) + 2, From(cs, Data, d, bs, h))
  {
    hide From, Ends, BodySize, Num24, Num16, U32;
    var d := if bs[1] == EXT_LEN then c else AfterLength(c, bs);
    FromStx(cs, c, bs);
    FromLen(cs, c, bs);
    FromCmd(cs, d, bs);
    FromExtLen(cs, d, bs);
    if d.kind.Regular? {
      FromNumber(cs, d, bs, 5);
    } else {
      FromNumber(cs, AfterLength(c, bs), bs, 8);
    }
    FromData(cs, Settled(c, bs), bs, HeaderSize(Settled(c, bs).kind));
  }

  lemma HeaderDenied(cs: Checksum, c: Context, bs: seq<byte>)
    requires c.Valid() && !HeaderOk(c.kind, bs)
    ensures var p := From(cs, Stx, c, bs, 0);
            p.verdict == Deny && p.ctx.With([]) == Settled(c, bs).With([])
  {
    hide From, BodySize, Num24, Num16, U32;
    FromStx(cs, c, bs);
    if |bs| >= 1 && bs[0] == STX {
      FromLen(cs, c, bs);
      if StartOk(bs) {
        var d := if bs[1] == EXT_LEN then c else AfterLength(c, bs);
        FromCmd(cs, d, bs);
        if |bs| >= 5 {
          FromExtLen(cs, d, bs);
          if |bs| >= 8 {
            FromNumber(cs, AfterLength(c, bs), bs, 8);
          }
        }
      }
    }
  }

  /** The length field of an accepted frame is the frame size less two, except for extended lengths
      too small for their own header, where the unsigned subtraction wraps. */
  lemma LengthFieldIsSize(kind: Kind, leftover: nat, bs: seq<byte>)
    requires HeaderOk(kind, bs)
    ensures bs[1] != EXT_LEN ==> AnnouncedSize(kind, leftover, bs) == bs[1] + 2
    ensures LongHeader(kind, bs) ==>
              (AnnouncedSize(kind, leftover, bs) == LengthField(bs) + 2
               <==> LengthField(bs) >= if HeaderKind(kind, bs).Divided? then 12 else 8)
  {
  }

  /** A denied attempt is transparent for a regular frame, whatever it left behind. For a frame with
      extended length it is transparent exactly when the kind left behind is not regular and gives
      the same reading of the length as the kind the frame was meant for. */
  lemma DeniedAttemptsTransparent(cs: Checksum, c: Context, kind: Kind, leftover: nat, f: seq<byte>)
    requires c.Valid() && c.Frame() == []
    requires WellFormed(cs, kind, leftover, f) && AnnouncedSize(kind, leftover, f) == |f|
    requires f[1] == EXT_LEN ==> !kind.Regular?
    ensures var p := Parse(cs, Stx, c, f);
            (p.verdict == Pass && p.ctx.Frame() == f && p.ctx.kind == HeaderKind(kind, f))
            <==> (f[1] == EXT_LEN ==> !c.kind.Regular? && KindOfLength(c.kind, LengthField(f)) == KindOfLength(kind, LengthField(f)))
  {
    hide Parse, Num24, U32;
    Acceptance(cs, c, f);
    if HeaderOk(c.kind, f) {
      HeaderSettles(c, f);
    }
    assert f[..|f|] == f;
  }

  /** Contexts left behind by a series of attempts, each of them cleared by the retry state. */
  function AfterAttempts(c: Context, attempts: seq<seq<byte>>): (d: Context)
    requires c.Valid() && c.Frame() == []
    ensures d.Valid() && d.Frame() == [] && d.current == c.current && d.result == c.result
    decreases |attempts|
  {
    if attempts == [] then c else AfterAttempts(Settled(c, attempts[0]).With([]), attempts[1..])
  }

  /** A denied regular frame leaves its kind behind, and then a well-formed frame with extended
      length is not read as one any more. */
  lemma StickyKind(cs: Checksum, attempt: seq<byte>, f: seq<byte>)
    requires StartOk(attempt) && attempt[1] != EXT_LEN
    requires WellFormed(cs, NotDefinedYet, 0, f) && AnnouncedSize(NotDefinedYet, 0, f) == |f| && f[1] == EXT_LEN
    ensures Parse(cs, Stx, FRESH, f).verdict == Pass && Parse(cs, Stx, FRESH, f).ctx.Frame() == f
    ensures var p := Parse(cs, Stx, AfterAttempts(FRESH, [attempt]), f);
            !(p.verdict == Pass && !p.ctx.kind.Regular?)
  {
    hide Parse, Num24, U32;
    DeniedAttemptsTransparent(cs, FRESH, NotDefinedYet, 0, f);
    var c := AfterAttempts(FRESH, [attempt]);
    var once := Settled(FRESH, attempt).With([]);
    assert AfterAttempts(once, []) == once && [attempt][1..] == [];
    assert c == Settled(FRESH, attempt).With([]);
    Acceptance(cs, c, f);
    if HeaderOk(c.kind, f) {
      HeaderSettles(c, f);
    }
  }
}
