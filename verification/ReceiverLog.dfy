/** Why the receiver does what it does, read off its log alone: every byte it writes, every attempt it
    counts and the way it ends have their reason in what the device delivered. */
module ReceiverLog {
  import opened Wire
  import opened Device
  import opened Events
  import opened Receiver
  import opened Reassembly
  import opened FrameParser

  // ---------------------------------------------------------------- what a log says

  /** The device fell silent, and the last thing read before was this byte. */
  predicate Heard(log: Log, b: byte) {
    && log.Then? && log.act == Call(Read(1), Timeout)
    && log.before.Then? && log.before.act.Call? && log.before.act.op == Read(1) && Hears(log.before.act.reply, b)
  }

  /** The device fell silent after a byte that is neither ENQ nor NAK. */
  predicate HeardStray(log: Log) {
    && log.Then? && log.act == Call(Read(1), Timeout)
    && log.before.Then? && log.before.act.Call? && log.before.act.op == Read(1) && log.before.act.reply.Success?
    && !Hears(log.before.act.reply, 0x05) && !Hears(log.before.act.reply, 0x15)
  }

  /** The bytes read since the last write. */
  function ReadSince(log: Log): seq<byte> {
    if log.Nothing? then []
    else match log.act
         case Call(Write(_), _) => []
         case Call(Read(n), Success(data)) => ReadSince(log.before) + Fill(data, n)
         case _ => ReadSince(log.before)
  }

  /** The last write granted an enquiry. */
  predicate Granted(log: Log) {
    log.Then? &&
    if log.act.Call? && log.act.op.Write? then log.act.op.bytes == [0x06] && Heard(log.before, 0x05)
    else Granted(log.before)
  }

  /** These bytes are a frame, to a parser that may have denied others before. */
  ghost predicate IsFrame(cs: Checksum, bs: seq<byte>) {
    exists kind, leftover :: WellFormed(cs, kind, leftover, bs) && AnnouncedSize(kind, leftover, bs) == |bs|
  }

  /** No frame begins with these bytes, to such a parser. */
  ghost predicate NoFrame(cs: Checksum, bs: seq<byte>) {
    exists kind, leftover :: NoFrameTo(cs, kind, leftover, bs)
  }

  ghost predicate NoFrameTo(cs: Checksum, kind: Kind, leftover: nat, bs: seq<byte>) {
    forall tail :: !WellFormed(cs, kind, leftover, bs + tail)
  }

  /** The last read timed out, or delivered what cannot belong to a frame, or failed where only the
      checksum was missing. */
  ghost predicate Denied(cs: Checksum, log: Log) {
    && log.Then? && log.act.Call? && log.act.op.Read?
    && match log.act.reply
       case Timeout => true
       case Success(_) => NoFrame(cs, ReadSince(log))
       case Error => exists b: byte :: IsFrame(cs, ReadSince(log) + [b])
  }

  /** Every write has its reason: ACK grants an enquiry that was the last thing heard, or acknowledges a
      frame read since the grant; NAK denies an attempt at one. Nothing else is written. */
  ghost predicate Explained(cs: Checksum, log: Log) {
    log.Then? ==>
      && Explained(cs, log.before)
      && (log.act.Call? && log.act.op.Write? ==>
            || (log.act.op.bytes == [0x06] && Heard(log.before, 0x05))
            || (log.act.op.bytes == [0x06] && Granted(log.before) && IsFrame(cs, ReadSince(log.before)))
            || (log.act.op.bytes == [0x15] && Granted(log.before) && Denied(cs, log.before)))
  }

  /** The denied attempts: NAKs written, and enquiries that turned out to be a stray byte. */
  function Denials(log: Log): nat {
    if log.Nothing? then 0
    else Denials(log.before) +
         match log.act
         case Call(Write(bytes), Success(_)) => if bytes == [0x15] then 1 else 0
         case Unlock => if HeardStray(log.before) then 1 else 0
         case _ => 0
  }

  predicate Failing(act: Act) {
    act.Call? &&
    match act.op
    case Read(_) => act.reply.Error?
    case _ => !act.reply.Success?
  }

  /** A failing call is the last one: the lock is released and that is all. Only a checksum that could
      not be read is denied like a wrong one. */
  predicate StopsAtFailure(log: Log) {
    log.Then? && log.before.Then? ==>
      && StopsAtFailure(log.before)
      && (Failing(log.before.act) ==>
            log.act == Unlock || (log.before.act.op.Read? && log.act.Call? && log.act.op == Write([0x15])))
      && !Stopped(log.before)
  }

  /** A failure has ended the run. */
  predicate Stopped(log: Log) {
    log.Then? && log.act == Unlock && log.before.Then? && Failing(log.before.act)
  }

  predicate AckedLast(log: Log) {
    log.Then? && log.act.Call? && log.act.op == Write([0x06]) && log.act.reply.Success?
  }

  /** What the log of a finished run shows. `receive` succeeds exactly if it has not denied five attempts
      and the last thing it did was to acknowledge a frame. */
  ghost predicate Accounts(cs: Checksum, m: Receiver) {
    && Explained(cs, m.world.log) && StopsAtFailure(m.world.log)
    && m.r1 == Denials(m.world.log) && m.r1 <= 5
    && m.world.log.Then? && m.world.log.act == Unlock
    && (m.ctx.result <==> m.r1 < 5 && AckedLast(m.world.log.before))
    && (!m.ctx.result ==> m.r1 == 5 || (m.world.log.before.Then? && Failing(m.world.log.before.act)))
  }

  // ---------------------------------------------------------------- the parser's path

  /** The parser has got from `first` to c over the bytes of the frame so far. */
  ghost predicate Path(cs: Checksum, first: Context, st: State, c: Context)
    requires first.Valid() && c.Valid() && Parsing(st)
  {
    forall tail :: Parse(cs, Stx, first, c.Frame() + tail) == Parse(cs, st, c, tail)
  }

  lemma PathBegins(cs: Checksum, c: Context)
    requires c.Valid() && c.Frame() == []
    ensures Path(cs, c, Stx, c)
  {
    forall tail ensures Parse(cs, Stx, c, c.Frame() + tail) == Parse(cs, Stx, c, tail) {
      assert c.Frame() + tail == tail;
    }
  }

  /** A successful read is as good as its bytes standing first in the stream. */
  lemma AbsorbsBytes(cs: Checksum, st: State, c: Context, r: Reply, tail: seq<byte>)
    requires c.Valid() && Parsing(st) && (Wants(st, c).Some? ==> r.Success?)
    ensures var k := Wanted(st, c); var x := if Wants(st, c).Some? then Fill(r.data, k) else [];
            var (e, d) := Absorb(cs, st, c, r);
            && |x| == k && (e == Pass || e == Deny)
            && (e == Pass ==> d.Frame() == c.Frame() + x) && (e == Deny ==> d == c)
            && Parse(cs, st, c, x + tail) == Onwards(cs, st, e, d, tail)
  {
    hide Parse;
    var k := Wanted(st, c);
    var x := if Wants(st, c).Some? then Fill(r.data, k) else [];
    SameAnswer(cs, st, c, r, x + tail);
    Steps1(cs, st, c, x + tail);
    assert Drop(x + tail, k) == tail;
    FrameGrows(cs, st, c, r);
  }

  lemma Steps1(cs: Checksum, st: State, c: Context, bs: seq<byte>)
    requires c.Valid() && Parsing(st)
    ensures var k := Wanted(st, c); var (e, d) := Absorb(cs, st, c, Serve(bs, k));
            Parse(cs, st, c, bs) == Onwards(cs, st, e, d, Drop(bs, k))
  {
  }

  lemma SameAnswer(cs: Checksum, st: State, c: Context, r: Reply, bs: seq<byte>)
    requires c.Valid() && Parsing(st) && Wanted(st, c) <= |bs|
    requires Wants(st, c).Some? ==> r.Success? && Fill(r.data, Wanted(st, c)) == bs[..Wanted(st, c)]
    ensures Absorb(cs, st, c, Serve(bs, Wanted(st, c))) == Absorb(cs, st, c, r)
  {
    hide BodySize, Num16, Num24, U32;
  }

  lemma FrameGrows(cs: Checksum, st: State, c: Context, r: Reply)
    requires c.Valid() && Parsing(st) && (Wants(st, c).Some? ==> r.Success?)
    ensures var k := Wanted(st, c); var x := if Wants(st, c).Some? then Fill(r.data, k) else [];
            var (e, d) := Absorb(cs, st, c, r);
            && (e == Pass || e == Deny)
            && (e == Pass ==> d.Frame() == c.Frame() + x) && (e == Deny ==> d == c)
  {
    hide Num16, Num24, U32;
  }

  lemma PathSteps(cs: Checksum, first: Context, st: State, c: Context, r: Reply)
    requires first.Valid() && c.Valid() && Parsing(st) && st != Cs && Path(cs, first, st, c)
    requires (Wants(st, c).Some? ==> r.Success?) && Absorb(cs, st, c, r).0 == Pass
    ensures Parsing(Next(st, Pass)) && Path(cs, first, Next(st, Pass), Absorb(cs, st, c, r).1)
  {
    hide Parse, Absorb, Wants;
    NextStage(st);
    var d := Absorb(cs, st, c, r).1;
    var x := if Wants(st, c).Some? then Fill(r.data, Wanted(st, c)) else [];
    forall tail ensures Parse(cs, Stx, first, d.Frame() + tail) == Parse(cs, Next(st, Pass), d, tail) {
      AbsorbsBytes(cs, st, c, r, tail);
      assert c.Frame() + (x + tail) == d.Frame() + tail;
      assert Parse(cs, Stx, first, c.Frame() + (x + tail)) == Parse(cs, st, c, x + tail);
    }
  }

  /** A byte that does not fit ends every hope of a frame. */
  lemma PathDenied(cs: Checksum, first: Context, st: State, c: Context, r: Reply)
    requires first.Valid() && first.Frame() == [] && c.Valid() && Parsing(st) && Path(cs, first, st, c)
    requires Wants(st, c).Some? && r.Success? && Absorb(cs, st, c, r).0 == Deny
    ensures NoFrame(cs, c.Frame() + Fill(r.data, Wanted(st, c)))
  {
    hide Parse, Absorb, Wants, WellFormed;
    var x := Fill(r.data, Wanted(st, c));
    forall tail ensures !WellFormed(cs, first.kind, first.dataLength, c.Frame() + x + tail) {
      AbsorbsBytes(cs, st, c, r, tail);
      assert c.Frame() + (x + tail) == c.Frame() + x + tail;
      Acceptance(cs, first, c.Frame() + x + tail);
    }
    assert NoFrameTo(cs, first.kind, first.dataLength, c.Frame() + x);
  }

  lemma PathEnds(cs: Checksum, first: Context, c: Context, r: Reply)
    requires first.Valid() && first.Frame() == [] && c.Valid() && Path(cs, first, Cs, c)
    requires r.Success? && Absorb(cs, Cs, c, r).0 == Pass
    ensures IsFrame(cs, c.Frame() + Fill(r.data, 1))
  {
    hide Parse, Absorb, AnnouncedSize, HeaderOk, Settled;
    var bs := c.Frame() + Fill(r.data, 1);
    AbsorbsBytes(cs, Cs, c, r, []);
    assert bs == c.Frame() + (Fill(r.data, 1) + []) && Fill(r.data, 1) + [] == Fill(r.data, 1);
    Acceptance(cs, first, bs);
    var n := AnnouncedSize(first.kind, first.dataLength, bs);
    assert |bs[n..]| == 0;
  }

  /** Before the checksum all that is missing is the checksum. */
  lemma PathWaits(cs: Checksum, first: Context, c: Context)
    requires first.Valid() && first.Frame() == [] && c.Valid() && Path(cs, first, Cs, c)
    ensures exists b: byte :: IsFrame(cs, c.Frame() + [b])
  {
    hide Parse, WellFormed;
    var b := cs(Tail(c.Frame()));
    var r := Success([b]);
    assert Fill(r.data, 1) == [b];
    PathEnds(cs, first, c, r);
  }

  // ---------------------------------------------------------------- the machine's log

  /** The states in which a stray byte has been heard but the lock is still held. */
  predicate Settling(st: State) {
    st == Retry || st == Repoll || st == Failed || st == End
  }

  /** What the log shows on entry to a state. `first` is the context the current frame was begun with. */
  ghost predicate Tracks(cs: Checksum, first: Context, st: State, m: Receiver)
    requires first.Valid() && m.ctx.Valid()
  {
    var log := m.world.log;
    && first.Frame() == []
    && Explained(cs, log) && StopsAtFailure(log) && !Stopped(log)
    && m.r1 + (if st == Retry then 1 else 0) == Denials(log) + (if Settling(st) && HeardStray(log) then 1 else 0)
    && (Parsing(st) ==> Granted(log) && ReadSince(log) == m.ctx.Frame() && Path(cs, first, st, m.ctx))
    && (st != Failed && st != End && st != Nak && log.Then? ==> !Failing(log.act))
    && match st
       case Idle => log == Nothing && m.r1 == 0
       case Enquiry => log.Then? && (log.act == Lock || AckedLast(log))
       case Ack => Heard(log, 0x05)
       case Ack2 => Granted(log) && IsFrame(cs, ReadSince(log))
       case Nak => Granted(log) && Denied(cs, log)
       case Done => AckedLast(log)
       case Failed => m.r1 == 5 || (log.Then? && Failing(log.act))
       case End => if m.ctx.result then AckedLast(log) else m.r1 == 5 || (log.Then? && Failing(log.act))
       case _ => true
  }

  /** Where a hearing leaves the log, whatever was heard. */
  lemma {:induction false} HearTracks(cs: Checksum, w: World, heard: Reply)
    requires Explained(cs, w.log) && StopsAtFailure(w.log) && !Stopped(w.log) && w.log.Then? && !Failing(w.log.act)
    requires if heard.Success?
             then w.log.act.Call? && w.log.act.op == Read(1) && w.log.act.reply.Success?
                  && Fill(w.log.act.reply.data, 1)[0] == Fill(heard.data, 1)[0]
             else heard.Timeout? && !(w.log.act.Call? && w.log.act.op.Read?)
    ensures var (r, v) := Hear(w, heard);
            && Explained(cs, v.log) && StopsAtFailure(v.log) && !Stopped(v.log) && Denials(v.log) == Denials(w.log)
            && v.log.Then? && (r.Error? <==> Failing(v.log.act))
            && (forall b :: Heard(v.log, b) <==> r.Success? && Fill(r.data, 1)[0] == b)
            && (HeardStray(v.log) <==> r.Success? && Fill(r.data, 1)[0] != 0x05 && Fill(r.data, 1)[0] != 0x15)
    decreases |w.script|
  {
    if w.Next().Success? {
      HearTracks(cs, w.After(Read(1)), Success([Fill(w.Next().data, 1)[0]]));
    }
  }

  lemma EnquiryTracks(cs: Checksum, first: Context, m: Receiver)
    requires first.Valid() && m.ctx.Valid() && Tracks(cs, first, Enquiry, m)
    ensures var (e, n) := Handle(cs, Enquiry, m); Tracks(cs, first, Next(Enquiry, e), n)
  {
    hide Explained, StopsAtFailure, Denials;
    HearTracks(cs, m.world, Timeout);
  }

  /** A parser state's read adds itself to the log and changes nothing that is on record. */
  lemma ReadTracks(cs: Checksum, log: Log, n: nat, r: Reply)
    requires Explained(cs, log) && StopsAtFailure(log) && !Stopped(log) && Granted(log)
    requires log.Then? && !Failing(log.act)
    ensures var l := Then(log, Call(Read(n), r));
            && Explained(cs, l) && StopsAtFailure(l) && !Stopped(l) && Granted(l) && Denials(l) == Denials(log)
            && (Failing(l.act) <==> r.Error?)
            && ReadSince(l) == if r.Success? then ReadSince(log) + Fill(r.data, n) else ReadSince(log)
  {
    hide Fill, IsFrame, NoFrame, WellFormed;
  }

  lemma GrantedIsThere(log: Log)
    requires Granted(log)
    ensures log.Then?
  {
  }

  lemma ParserTracks(cs: Checksum, first: Context, st: State, m: Receiver)
    requires first.Valid() && m.ctx.Valid() && Parsing(st) && Tracks(cs, first, st, m)
    ensures var (e, n) := Handle(cs, st, m); n.ctx.Valid() && Tracks(cs, first, Next(st, e), n)
  {
    hide Handle, Tracks;
    if Wants(st, m.ctx).None? {
      ParserPasses(cs, first, st, m);
    } else if m.world.Next().Success? {
      ParserReads(cs, first, st, m);
    } else {
      ParserFails(cs, first, st, m);
    }
  }

  lemma ParserPasses(cs: Checksum, first: Context, st: State, m: Receiver)
    requires first.Valid() && m.ctx.Valid() && Parsing(st) && Tracks(cs, first, st, m) && Wants(st, m.ctx).None?
    ensures var (e, n) := Handle(cs, st, m); n.ctx.Valid() && Tracks(cs, first, Next(st, e), n)
  {
    hide Parse, Absorb, Fill, IsFrame, NoFrame, Path, Handle, Wants, Explained, StopsAtFailure, Granted, ReadSince, Denials;
    hide Stopped, Failing, HeardStray, Heard, AckedLast;
    HandleAbsorbs(cs, st, m);
    NextStage(st);
    NothingWanted(st, m.ctx);
    PathSteps(cs, first, st, m.ctx, m.world.Next());
  }

  lemma ParserReads(cs: Checksum, first: Context, st: State, m: Receiver)
    requires first.Valid() && m.ctx.Valid() && Parsing(st) && Tracks(cs, first, st, m)
    requires Wants(st, m.ctx).Some? && m.world.Next().Success?
    ensures var (e, n) := Handle(cs, st, m); n.ctx.Valid() && Tracks(cs, first, Next(st, e), n)
  {
    hide Parse, Absorb, Fill, IsFrame, NoFrame, Path, Handle, Wants, Explained, StopsAtFailure, Granted, ReadSince, Denials;
    hide Stopped, Failing, HeardStray, Heard, AckedLast;
    HandleAbsorbs(cs, st, m);
    NextStage(st);
    GrantedIsThere(m.world.log);
    var r := m.world.Next();
    ReadTracks(cs, m.world.log, Wanted(st, m.ctx), r);
    FrameGrows(cs, st, m.ctx, r);
    if Absorb(cs, st, m.ctx, r).0 == Deny {
      PathDenied(cs, first, st, m.ctx, r);
    } else if st == Cs {
      OneWanted(m.ctx);
      PathEnds(cs, first, m.ctx, r);
    } else {
      PathSteps(cs, first, st, m.ctx, r);
    }
  }

  lemma ParserFails(cs: Checksum, first: Context, st: State, m: Receiver)
    requires first.Valid() && m.ctx.Valid() && Parsing(st) && Tracks(cs, first, st, m)
    requires Wants(st, m.ctx).Some? && !m.world.Next().Success?
    ensures var (e, n) := Handle(cs, st, m); n.ctx.Valid() && Tracks(cs, first, Next(st, e), n)
  {
    hide Parse, Absorb, Fill, IsFrame, NoFrame, Path, Handle, Wants, Explained, StopsAtFailure, Granted, ReadSince, Denials;
    hide Stopped, Heard, AckedLast;
    HandleAbsorbs(cs, st, m);
    GrantedIsThere(m.world.log);
    var r := m.world.Next();
    ReadTracks(cs, m.world.log, Wanted(st, m.ctx), r);
    FailureJudged(cs, st, m.ctx, r);
    if st == Cs {
      PathWaits(cs, first, m.ctx);
    }
  }

  lemma NothingWanted(st: State, c: Context)
    requires Parsing(st) && Wants(st, c).None?
    ensures st != Cs
  {
  }

  lemma OneWanted(c: Context)
    ensures Wanted(Cs, c) == 1
  {
  }

  /** A read that fails is denied if it timed out, or if the checksum was to be read, and else ends the run. */
  lemma FailureJudged(cs: Checksum, st: State, c: Context, r: Reply)
    requires c.Valid() && Parsing(st) && Wants(st, c).Some? && !r.Success?
    ensures Absorb(cs, st, c, r).0 == if r.Timeout? then Deny else Fail
    ensures Next(st, Deny) == Nak && Next(st, Fail) == if st == Cs then Nak else Failed
  {
    hide BodySize;
  }

  /** Waiting to be woken. */
  lemma PollTracks(cs: Checksum, first: Context, m: Receiver)
    requires first.Valid() && m.ctx.Valid() && Tracks(cs, first, Polling, m)
    ensures var (e, n) := Handle(cs, Polling, m); n.ctx.Valid() && Tracks(cs, first, Next(Polling, e), n)
  {
    hide Parse, IsFrame, NoFrame, WellFormed, Fill, Path, Denied, Granted;
    var polled := m.world.After(Poll);
    assert Explained(cs, polled.log) && StopsAtFailure(polled.log) && !Stopped(polled.log);
    assert Denials(polled.log) == Denials(m.world.log) && !HeardStray(polled.log);
  }

  /** Letting go of the lock, a stray byte now counted. */
  lemma RepollTracks(cs: Checksum, first: Context, m: Receiver)
    requires first.Valid() && m.ctx.Valid() && Tracks(cs, first, Repoll, m)
    ensures var (e, n) := Handle(cs, Repoll, m); n.ctx.Valid() && Tracks(cs, first, Next(Repoll, e), n)
  {
    hide Parse, IsFrame, NoFrame, WellFormed, Fill, Path, Denied, Granted, HeardStray;
    var log := m.world.log;
    var freed := Then(log, Unlock);
    assert Explained(cs, freed) && StopsAtFailure(freed) && !Stopped(freed);
    assert Denials(freed) == Denials(log) + if HeardStray(log) then 1 else 0;
  }

  lemma IdleTracks(cs: Checksum, first: Context, m: Receiver)
    requires first.Valid() && m.ctx.Valid() && Tracks(cs, first, Idle, m)
    ensures var (e, n) := Handle(cs, Idle, m); n.ctx.Valid() && Tracks(cs, first, Next(Idle, e), n)
  {
    hide Parse, IsFrame, NoFrame, WellFormed, Fill, Path;
  }

  /** Granting an enquiry. */
  lemma GrantTracks(cs: Checksum, first: Context, m: Receiver)
    requires first.Valid() && m.ctx.Valid() && Tracks(cs, first, Ack, m) && Inv(Ack, m)
    ensures var (e, n) := Handle(cs, Ack, m); var to := Next(Ack, e);
            n.ctx.Valid() && Tracks(cs, if to == Stx then n.ctx else first, to, n)
  {
    hide Parse, IsFrame, NoFrame, WellFormed, Fill, Path, Locked, Ready;
    var (e, n) := Handle(cs, Ack, m);
    var log := n.world.log;
    assert Explained(cs, log) && StopsAtFailure(log) && !Stopped(log) && Denials(log) == Denials(m.world.log);
    if Next(Ack, e) == Stx {
      PathBegins(cs, n.ctx);
    }
  }

  /** Answering a frame, and what comes of it. */
  lemma AnswerTracks(cs: Checksum, first: Context, st: State, m: Receiver)
    requires first.Valid() && m.ctx.Valid() && Tracks(cs, first, st, m) && Inv(st, m)
    requires st == Ack2 || st == Nak
    ensures var (e, n) := Handle(cs, st, m); n.ctx.Valid() && Tracks(cs, first, Next(st, e), n)
  {
    hide Parse, IsFrame, NoFrame, WellFormed, Fill, Path, Locked, Ready;
    var (e, n) := Handle(cs, st, m);
    var to, log := Next(st, e), n.world.log;
    assert Explained(cs, log) && StopsAtFailure(log) && !Stopped(log);
    assert n.r1 + (if to == Retry then 1 else 0) == Denials(log) + (if Settling(to) && HeardStray(log) then 1 else 0);
  }

  /** Counting, finishing and giving up leave the log alone. */
  lemma CountingTracks(cs: Checksum, first: Context, st: State, m: Receiver)
    requires first.Valid() && m.ctx.Valid() && Tracks(cs, first, st, m) && Inv(st, m)
    requires st == Retry || st == Done || st == Failed
    ensures var (e, n) := Handle(cs, st, m); n.ctx.Valid() && Tracks(cs, first, Next(st, e), n)
  {
    hide Parse, IsFrame, NoFrame, WellFormed, Fill, Path, Locked, Ready, Explained, StopsAtFailure, Stopped, Denials;
    hide HeardStray;
    var (e, n) := Handle(cs, st, m);
    assert n.world.log == m.world.log;
    if st == Done {
      NoStrayBehindWrite(m.world.log);
    }
  }

  lemma NoStrayBehindWrite(log: Log)
    requires AckedLast(log)
    ensures !HeardStray(log)
  {
  }

  lemma {:induction false} RunTracks(cs: Checksum, first: Context, st: State, m: Receiver)
    requires first.Valid() && m.ctx.Valid() && Inv(st, m) && Tracks(cs, first, st, m)
    ensures Accounts(cs, Run(cs, st, m))
    decreases Potential(st, m)
  {
    hide Tracks, Inv, Accounts;
    if st == End {
      EndAccounts(cs, first, m);
    } else {
      var (e, n) := Handle(cs, st, m);
      StepDescends(cs, st, m);
      InvKept(cs, st, m);
      if Parsing(st) {
        ParserTracks(cs, first, st, m);
        RunTracks(cs, first, Next(st, e), n);
      } else if st == Enquiry {
        EnquiryTracks(cs, first, m);
        RunTracks(cs, first, Next(st, e), n);
      } else if st == Retry || st == Done || st == Failed {
        CountingTracks(cs, first, st, m);
        RunTracks(cs, first, Next(st, e), n);
      } else if st == Ack2 || st == Nak {
        AnswerTracks(cs, first, st, m);
        RunTracks(cs, first, Next(st, e), n);
      } else if st == Ack {
        GrantTracks(cs, first, m);
        RunTracks(cs, if Next(st, e) == Stx then n.ctx else first, Next(st, e), n);
      } else if st == Repoll {
        RepollTracks(cs, first, m);
        RunTracks(cs, first, Next(st, e), n);
      } else if st == Polling {
        PollTracks(cs, first, m);
        RunTracks(cs, first, Next(st, e), n);
      } else {
        IdleTracks(cs, first, m);
        RunTracks(cs, first, Next(st, e), n);
      }
    }
  }

  lemma InvKept(cs: Checksum, st: State, m: Receiver)
    requires Inv(st, m) && st != End
    ensures m.ctx.Valid() && var (e, n) := Handle(cs, st, m); Inv(Next(st, e), n)
  {
    hide Handle, Next;
    StepKeepsLocked(cs, st, m);
    StepKeepsShape(cs, st, m);
  }

  lemma EndAccounts(cs: Checksum, first: Context, m: Receiver)
    requires first.Valid() && m.ctx.Valid() && Inv(End, m) && Tracks(cs, first, End, m)
    ensures Accounts(cs, Run(cs, End, m))
  {
    hide IsFrame, NoFrame, WellFormed, Path, Ready, Locked, Shaped;
    var n := Run(cs, End, m);
    assert n == m.(world := m.world.Do(Unlock));
    assert Explained(cs, n.world.log) && StopsAtFailure(n.world.log);
    assert Denials(n.world.log) == m.r1;
    assert Counted(End, m);
  }

  /** Every receive run, on every device, accounts for itself. */
  lemma ReceiveAccounts(cs: Checksum, script: seq<Reply>)
    ensures Accounts(cs, Run(cs, Idle, Start(script)))
  {
    assert FRESH.Valid() && FRESH.Frame() == [];
    RunTracks(cs, FRESH, Idle, Start(script));
  }

  /** `receive` reports no message exactly if five attempts were denied or the last frame was not acknowledged. */
  lemma ReportsTheAcknowledged(cs: Checksum, script: seq<Reply>)
    ensures var log := Run(cs, Idle, Start(script)).world.log;
            && log.Then?
            && (Received(cs, script) == NoMessage <==> Denials(log) >= 5 || !AckedLast(log.before))
  {
    hide Run, Explained, StopsAtFailure, Message;
    ReceiveAccounts(cs, script);
    ReceiveRun(cs, script);
  }

  // ---------------------------------------------------------------- nobody enquires

  predicate NoEnquiryHeard(log: Log) {
    log.Then? ==> NoEnquiryHeard(log.before) && (log.act.Call? ==> !Hears(log.act.reply, 0x05))
  }

  predicate NoEnquiryComes(script: seq<Reply>) {
    forall r <- script :: !Hears(r, 0x05)
  }

  lemma {:induction false} HearHearsNone(w: World, heard: Reply)
    requires NoEnquiryComes(w.script) && NoEnquiryHeard(w.log)
    ensures var (_, v) := Hear(w, heard); NoEnquiryComes(v.script) && NoEnquiryHeard(v.log)
    decreases |w.script|
  {
    if w.Next().Success? {
      HearHearsNone(w.After(Read(1)), Success([Fill(w.Next().data, 1)[0]]));
    }
  }

  lemma StepHearsNone(cs: Checksum, st: State, m: Receiver)
    requires m.ctx.Valid() && NoEnquiryComes(m.world.script) && NoEnquiryHeard(m.world.log)
    ensures var (_, n) := Handle(cs, st, m); NoEnquiryComes(n.world.script) && NoEnquiryHeard(n.world.log)
  {
    hide Absorb, Complete, Fill;
    if st == Enquiry {
      HearHearsNone(m.world, Timeout);
    } else if st == Polling {
      var polled := m.world.After(Poll);
      assert NoEnquiryHeard(polled.log) && NoEnquiryHeard(polled.Do(Lock).log);
    }
  }

  lemma {:induction false} RunHearsNone(cs: Checksum, st: State, m: Receiver)
    requires m.ctx.Valid() && NoEnquiryComes(m.world.script) && NoEnquiryHeard(m.world.log)
    ensures NoEnquiryHeard(Run(cs, st, m).world.log)
    decreases Potential(st, m)
  {
    hide Handle, NoEnquiryComes, NoEnquiryHeard;
    StepHearsNone(cs, st, m);
    if st != End {
      StepDescends(cs, st, m);
      RunHearsNone(cs, Next(st, Handle(cs, st, m).0), Handle(cs, st, m).1);
    }
  }

  lemma {:induction false} NothingGranted(cs: Checksum, log: Log)
    requires NoEnquiryHeard(log) && Explained(cs, log)
    ensures !Granted(log) && Writes(log) == []
  {
    hide IsFrame, Denied, Fill;
    if log.Then? {
      NothingGranted(cs, log.before);
    }
  }

  /** If nobody enquires, the receiver writes nothing and reports no message. */
  lemma NoEnquiryNoAnswer(cs: Checksum, script: seq<Reply>)
    requires NoEnquiryComes(script)
    ensures var m := Run(cs, Idle, Start(script)); Writes(m.world.log) == [] && !m.ctx.result
  {
    hide Run, Denied, IsFrame;
    ReceiveAccounts(cs, script);
    RunHearsNone(cs, Idle, Start(script));
    var log := Run(cs, Idle, Start(script)).world.log;
    NothingGranted(cs, log);
    NothingAckedLast(log);
  }

  lemma NothingAckedLast(log: Log)
    requires log.Then? && log.act == Unlock && Writes(log) == []
    ensures !AckedLast(log.before)
  {
  }
}
