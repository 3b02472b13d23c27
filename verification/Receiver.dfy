/** The receive machine: nineteen states around an incremental frame parser. */
module Receiver {
  import opened Wire
  import opened Device
  import opened Events

  const MAX_RECV_ATTEMPTS := 5

  datatype Kind = NotDefinedYet | Regular | ExtendedLength | Divided

  datatype State =
    | Idle | Polling | Repoll | Enquiry | Ack
    | Stx | Len | DataCmd | DataExtLen | DataFrameNumber | Data | Etx | Cs
    | Ack2 | Nak | Retry | Done | Failed | End

  /** The receive context. */
  datatype Context = Context(frames: seq<seq<byte>>, current: nat, result: bool, kind: Kind,
                             dataLength: nat, frameNumber: nat, totalFrames: nat) {

    predicate Valid() {
      current + 1 == |frames|
    }

    function Frame(): seq<byte>
      requires Valid()
    {
      frames[current]
    }

    function With(frame: seq<byte>): (c: Context)
      requires Valid()
      ensures c.Valid() && c.Frame() == frame
    {
      this.(frames := frames[current := frame])
    }

    function Put(bytes: seq<byte>): (c: Context)
      requires Valid()
      ensures c.Valid() && c.Frame() == Frame() + bytes
    {
      With(Frame() + bytes)
    }
  }

  const FRESH := Context([[]], 0, false, NotDefinedYet, 0, 0, 0)

  datatype Receiver = Receiver(world: World, r1: nat, ctx: Context)

  function Start(script: seq<Reply>): Receiver {
    Receiver(World(script, Nothing), 0, FRESH)
  }

  predicate Parsing(st: State) {
    st.Stx? || st.Len? || st.DataCmd? || st.DataExtLen? || st.DataFrameNumber? || st.Data? || st.Etx? || st.Cs?
  }

  function Next(st: State, e: Event): State {
    match (st, e)
    case (Idle, Pass) => Polling
    case (Polling, Pass) => Enquiry
    case (Repoll, Pass) => Polling
    case (Enquiry, Pass) => Ack
    case (Enquiry, Busy) => Repoll
    case (Enquiry, Deny) => Retry
    case (Ack, Pass) => Stx
    case (Stx, Pass) => Len
    case (Len, Pass) => DataCmd
    case (DataCmd, Pass) => DataExtLen
    case (DataExtLen, Pass) => DataFrameNumber
    case (DataFrameNumber, Pass) => Data
    case (Data, Pass) => Etx
    case (Etx, Pass) => Cs
    case (Cs, Pass) => Ack2
    case (Cs, Fail) => Nak
    case (_, Deny) => if Parsing(st) then Nak else if st.Done? || st.Failed? || st.End? then End else Failed
    case (Ack2, Pass) => Done
    case (Nak, Pass) => Retry
    case (Retry, Pass) => Repoll
    case (Done, Wait) => Enquiry
    case (Done, _) => End
    case (Failed, _) => End
    case (End, _) => End
    case (_, _) => Failed
  }

  // ---------------------------------------------------------------- the frame parser

  /** How many bytes of data a frame still owes once its header is read; unsigned arithmetic. */
  function BodySize(c: Context): nat {
    match c.kind
    case Regular => U32(c.dataLength - CMD_LENGTH)
    case ExtendedLength => U32(c.dataLength - (CMD_LENGTH + EXT_LEN_LENGTH))
    case _ => U32(c.dataLength - (CMD_LENGTH + EXT_LEN_LENGTH + FRAME_NUMBER_LENGTH + TOTAL_FRAMES_LENGTH))
  }

  /** How much the parser asks the device for in each state; None where it does not touch it. */
  function Wants(st: State, c: Context): Option<nat> {
    match st
    case DataCmd => Some(CMD_LENGTH)
    case DataExtLen => if c.kind.Regular? then None else Some(EXT_LEN_LENGTH)
    case DataFrameNumber => if c.kind.Divided? then Some(FRAME_NUMBER_LENGTH + TOTAL_FRAMES_LENGTH) else None
    case Data => Some(BodySize(c))
    case _ => Some(1)
  }

  function Judge(r: Reply): Event {
    match r
    case Success(_) => Pass
    case Timeout => Deny
    case Error => Fail
  }

  /** The frame grows by the size of the field before the device is asked to fill it. */
  function Field(c: Context, n: nat, r: Reply): Context
    requires c.Valid()
  {
    c.Put(if r.Success? then Fill(r.data, n) else Fill([], n))
  }

  function Tail(s: seq<byte>): seq<byte> {
    if s == [] then [] else s[1..]
  }

  function KindOfLength(kind: Kind, length: nat): Kind {
    if length > MAX_EXTENDED_LENGTH || kind.Divided? then Divided else ExtendedLength
  }

  /** The parser handlers, given the reply of the device. */
  function Absorb(cs: Checksum, st: State, c: Context, r: Reply): (p: (Event, Context))
    requires c.Valid() && Parsing(st)
    ensures p.1.Valid() && p.1.current == c.current && p.1.result == c.result
    ensures p.1.frames[..c.current] == c.frames[..c.current]
  {
    match st
    case Stx => Exactly(STX, c, r)
    case Etx => Exactly(ETX, c, r)
    case Cs => Exactly(cs(Tail(c.Frame())), c, r)
    case Len =>
      if !r.Success? then (Judge(r), c)
      else
        var b := Fill(r.data, 1)[0];
        if b == EXT_LEN then (Pass, c.Put([b]))
        else if MIN_FRAME_LENGTH <= b <= MAX_FRAME_LENGTH then
          (Pass, c.(kind := Regular, dataLength := b - FRAME_FOOTER_LENGTH).Put([b]))
        else (Deny, c)
    case DataCmd => (Judge(r), Field(c, CMD_LENGTH, r))
    case DataExtLen =>
      if c.kind.Regular? then (Pass, c)
      else
        var d := Field(c, EXT_LEN_LENGTH, r);
        if !r.Success? then (Judge(r), d)
        else
          var length := Num24(Fill(r.data, EXT_LEN_LENGTH));
          (Pass, d.(dataLength := U32(length - FRAME_FOOTER_LENGTH), kind := KindOfLength(c.kind, length)))
    case DataFrameNumber =>
      if !c.kind.Divided? then (Pass, c)
      else
        var d := Field(c, FRAME_NUMBER_LENGTH + TOTAL_FRAMES_LENGTH, r);
        if !r.Success? then (Judge(r), d)
        else
          var fields := Fill(r.data, FRAME_NUMBER_LENGTH + TOTAL_FRAMES_LENGTH);
          (Pass, d.(totalFrames := Num16(fields[2..4]), frameNumber := Num16(fields[..2])))
    case Data => (Judge(r), Field(c, BodySize(c), r))
  }

  /** One byte that has to be the expected one. */
  function Exactly(b: byte, c: Context, r: Reply): (p: (Event, Context))
    requires c.Valid()
    ensures p.1.Valid()
  {
    if !r.Success? then (Judge(r), c)
    else if Fill(r.data, 1)[0] == b then (Pass, c.Put([b]))
    else (Deny, c)
  }

  // ---------------------------------------------------------------- the machine

  /** Reads until the device has nothing more and keeps the last byte; a silent device is a
      timeout, a device that fails after some bytes is a failure. */
  function Hear(w: World, heard: Reply): (r: (Reply, World))
    ensures |r.1.script| <= |w.script| && (w.script != [] ==> |r.1.script| < |w.script|)
    ensures w.script == [] ==> r.0.Error?
    decreases |w.script|
  {
    var r := w.Next();
    if r.Success? then Hear(w.After(Read(1)), Success([Fill(r.data, 1)[0]]))
    else (if r.Timeout? && heard.Success? then heard else r, w.After(Read(1)))
  }

  function Enquired(r: Reply): Event {
    match r
    case Success(data) =>
      var b := Fill(data, 1)[0];
      if b == ENQ then Pass else if b == NAK then Busy else Deny
    case Timeout => Busy
    case Error => Fail
  }

  function Complete(c: Context): (p: (Event, Context))
    requires c.Valid()
    ensures p.1.Valid()
  {
    match c.kind
    case NotDefinedYet => (Fail, c)
    case Divided =>
      if c.frameNumber == U32(c.totalFrames - 1) then (Pass, c.(result := true))
      else (Wait, c.(frames := c.frames + [[]], current := c.current + 1))
    case _ => (Pass, c.(result := true))
  }

  /** The handler of each state: the event it reports and what it leaves behind. */
  function Handle(cs: Checksum, st: State, m: Receiver): (p: (Event, Receiver))
    requires m.ctx.Valid()
    ensures p.1.ctx.Valid()
  {
    var w := m.world;
    match st
    case Idle => (Pass, m.(r1 := 0))
    case Polling =>
      if w.Next().Success? then (Pass, m.(world := w.After(Poll).Do(Lock)))
      else (Fail, m.(world := w.After(Poll)))
    case Repoll => (Pass, m.(world := w.Do(Unlock)))
    case Enquiry =>
      var (heard, w') := Hear(w, Timeout);
      (Enquired(heard), m.(world := w'))
    case Ack => (Written(w.Next()), m.(world := w.After(Write([ACK]))))
    case Ack2 => (Written(w.Next()), m.(world := w.After(Write([ACK]))))
    case Nak => (Written(w.Next()), m.(world := w.After(Write([NAK]))))
    case Retry =>
      var n := m.(r1 := m.r1 + 1, ctx := m.ctx.With([]));
      (if n.r1 < MAX_RECV_ATTEMPTS then Pass else Fail, n)
    case Done =>
      var (e, c) := Complete(m.ctx);
      (e, m.(ctx := c))
    case Failed => (Pass, m.(ctx := m.ctx.(result := false)))
    case End => (Pass, m.(world := w.Do(Unlock)))
    case _ =>
      match Wants(st, m.ctx)
      case None => (Pass, m)
      case Some(n) =>
        var (e, c) := Absorb(cs, st, m.ctx, w.Next());
        (e, m.(world := w.After(Read(n)), ctx := c))
  }

  function Rank(st: State): nat {
    match st
    case End => 0
    case Failed => 1
    case Polling | Enquiry | Ack | Ack2 | Nak | Stx | Len | DataCmd | Data | Etx => 2
    case Idle | Repoll | DataFrameNumber | Cs | Done => 3
    case DataExtLen | Retry => 4
  }

  function Potential(st: State, m: Receiver): nat {
    3 * |m.world.script| + Rank(st)
  }

  lemma StepDescends(cs: Checksum, st: State, m: Receiver)
    requires m.ctx.Valid() && st != End
    ensures var (e, n) := Handle(cs, st, m); Potential(Next(st, e), n) < Potential(st, m)
  {
  }

  /** Runs the machine from state `st` until the final state's handler has run. */
  function Run(cs: Checksum, st: State, m: Receiver): (n: Receiver)
    requires m.ctx.Valid()
    ensures n.ctx.Valid()
    decreases Potential(st, m)
  {
    var (e, n) := Handle(cs, st, m);
    if st == End then n else (StepDescends(cs, st, m); Run(cs, Next(st, e), n))
  }

  /** The retry counter of an earlier run does not matter. */
  lemma IdleForgets(cs: Checksum, m: Receiver)
    requires m.ctx.Valid()
    ensures Run(cs, Idle, m) == Run(cs, Idle, m.(r1 := 0))
  {
  }

  function Steps(cs: Checksum, st: State, m: Receiver): nat
    requires m.ctx.Valid()
    decreases Potential(st, m)
  {
    var (e, n) := Handle(cs, st, m);
    if st == End then 1 else (StepDescends(cs, st, m); 1 + Steps(cs, Next(st, e), n))
  }

  /** Every run halts: the repoll loop that no counter bounds uses up replies. */
  lemma RunsHalt(cs: Checksum, script: seq<Reply>)
    ensures Steps(cs, Idle, Start(script)) <= 3 * |script| + 4
  {
    StepsBound(cs, Idle, Start(script));
  }

  lemma {:induction false} StepsBound(cs: Checksum, st: State, m: Receiver)
    requires m.ctx.Valid()
    ensures Steps(cs, st, m) <= Potential(st, m) + 1
    decreases Potential(st, m)
  {
    if st != End {
      StepDescends(cs, st, m);
      var (e, n) := Handle(cs, st, m);
      StepsBound(cs, Next(st, e), n);
    }
  }

  // ---------------------------------------------------------------- invariants of a run

  /** No poll of this run failed. */
  predicate PollsSucceed(log: Log) {
    log.Then? ==> PollsSucceed(log.before) && (log.act.Call? && log.act.op.Poll? ==> log.act.reply.Success?)
  }

  /** The lock is held on entry to every state but idle and poll, until a poll fails. */
  predicate Locked(st: State, m: Receiver) {
    && Disciplined(m.world.log)
    && (if PollsSucceed(m.world.log) then Holds(m.world.log) == (st != Idle && st != Polling)
        else (st == Failed || st == End) && !Holds(m.world.log))
  }

  predicate Counted(st: State, m: Receiver) {
    && m.r1 <= MAX_RECV_ATTEMPTS
    && (m.r1 == MAX_RECV_ATTEMPTS ==> (st == Failed || st == End) && !(st == End && m.ctx.result))
  }

  function HeaderSize(kind: Kind): nat {
    match kind
    case Regular => 5
    case ExtendedLength => 8
    case _ => 12
  }

  /** How far the current frame has got, and that a frame is only completed once its kind is
      known and its size covers header and footer. */
  predicate Shaped(st: State, c: Context) {
    && c.Valid()
    && (forall i :: 0 <= i < c.current ==> |c.frames[i]| >= 14)
    && c.frameNumber < 0x1_0000 && c.totalFrames < 0x1_0000
    && (c.result ==> st == End && Ready(c))
    && match st
       case Idle | Polling | Repoll | Enquiry | Ack | Stx => c.Frame() == []
       case Len => |c.Frame()| == 1
       case DataCmd => |c.Frame()| == 2
       case DataExtLen => |c.Frame()| == 5
       case DataFrameNumber => c.kind != NotDefinedYet && |c.Frame()| == (if c.kind.Regular? then 5 else 8)
       case Data => c.kind != NotDefinedYet && |c.Frame()| == HeaderSize(c.kind)
       case Etx => c.kind != NotDefinedYet && |c.Frame()| >= HeaderSize(c.kind)
       case Cs => c.kind != NotDefinedYet && |c.Frame()| >= HeaderSize(c.kind) + 1
       case Ack2 | Done => c.kind != NotDefinedYet && |c.Frame()| >= HeaderSize(c.kind) + 2
       case _ => true
  }

  /** A context from which a message can be put together. */
  predicate Ready(c: Context) {
    && c.Valid()
    && (forall i :: 0 <= i < c.current ==> |c.frames[i]| >= 14)
    && c.kind != NotDefinedYet && |c.Frame()| >= HeaderSize(c.kind) + 2
    && (c.kind.Divided? ==> c.totalFrames >= 1 && c.frameNumber + 1 == c.totalFrames)
  }

  predicate Inv(st: State, m: Receiver) {
    Locked(st, m) && Counted(st, m) && Shaped(st, m.ctx)
  }

  lemma {:induction false} HearTraces(w: World, heard: Reply)
    requires Holds(w.log)
    ensures var (_, v) := Hear(w, heard);
            Holds(v.log) && Disciplined(v.log) == Disciplined(w.log) && PollsSucceed(v.log) == PollsSucceed(w.log)
    decreases |w.script|
  {
    if w.Next().Success? {
      HearTraces(w.After(Read(1)), Success([Fill(w.Next().data, 1)[0]]));
    }
  }

  lemma StepKeepsLocked(cs: Checksum, st: State, m: Receiver)
    requires Locked(st, m) && m.ctx.Valid() && st != End
    ensures var (e, n) := Handle(cs, st, m); Locked(Next(st, e), n)
  {
    if Parsing(st) {
      ParsingLocked(cs, st, m);
    } else {
      TalkingLocked(cs, st, m);
    }
  }

  lemma ParsingLocked(cs: Checksum, st: State, m: Receiver)
    requires Locked(st, m) && m.ctx.Valid() && Parsing(st)
    ensures var (e, n) := Handle(cs, st, m); Locked(Next(st, e), n)
  {
  }

  lemma TalkingLocked(cs: Checksum, st: State, m: Receiver)
    requires Locked(st, m) && m.ctx.Valid() && !Parsing(st) && st != End
    ensures var (e, n) := Handle(cs, st, m); Locked(Next(st, e), n)
  {
    if st.Enquiry? {
      HearTraces(m.world, Timeout);
    } else if st.Polling? {
      var w := m.world.After(Poll);
      assert PollsSucceed(w.log) == (PollsSucceed(m.world.log) && m.world.Next().Success?);
      assert PollsSucceed(w.Do(Lock).log) == PollsSucceed(w.log);
    }
  }

  lemma StepKeepsShape(cs: Checksum, st: State, m: Receiver)
    requires Counted(st, m) && Shaped(st, m.ctx) && st != End
    ensures var (e, n) := Handle(cs, st, m); Counted(Next(st, e), n) && Shaped(Next(st, e), n.ctx)
  {
    if Parsing(st) && Wants(st, m.ctx).Some? {
      AbsorbKeepsShape(cs, st, m.ctx, m.world.Next());
    }
  }

  lemma AbsorbKeepsShape(cs: Checksum, st: State, c: Context, r: Reply)
    requires Parsing(st) && Shaped(st, c)
    ensures var (e, d) := Absorb(cs, st, c, r); Shaped(Next(st, e), d)
  {
    var (e, d) := Absorb(cs, st, c, r);
    forall i | 0 <= i < c.current
      ensures d.frames[i] == c.frames[i]
    {
      assert d.frames[..c.current][i] == c.frames[..c.current][i];
    }
  }

  /** What holds of a finished run. */
  predicate Finished(m: Receiver) {
    && (Disciplined(m.world.log) <==> PollsSucceed(m.world.log))
    && m.world.log.Then? && m.world.log.act == Unlock && Disciplined(m.world.log.before)
    && m.r1 <= MAX_RECV_ATTEMPTS
    && (m.ctx.result ==> Ready(m.ctx) && m.r1 < MAX_RECV_ATTEMPTS)
  }

  lemma {:induction false} RunKeepsInv(cs: Checksum, st: State, m: Receiver)
    requires Inv(st, m)
    ensures Finished(Run(cs, st, m))
    decreases Potential(st, m)
  {
    if st != End {
      var (e, n) := Handle(cs, st, m);
      StepDescends(cs, st, m);
      StepKeepsLocked(cs, st, m);
      StepKeepsShape(cs, st, m);
      RunKeepsInv(cs, Next(st, e), n);
    }
  }

  /** Every receive run, on every device: the lock is free at the end and was used properly
      exactly when no poll failed, no more than five attempts are denied, and a run that reports
      success leaves complete frames of a known kind. */
  lemma ReceiveRun(cs: Checksum, script: seq<Reply>)
    ensures Finished(Run(cs, Idle, Start(script)))
  {
    RunKeepsInv(cs, Idle, Start(script));
  }
}
