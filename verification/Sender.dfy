/** The send machine: twelve states, a stop-and-wait handshake for every frame. */
module Sender {
  import opened Wire
  import opened Device
  import opened Events

  const MAX_SEND_ATTEMPTS := 240
  const ATTEMPTS_FOR_REINIT := 6

  datatype State =
    | Idle | Enquiry | Reenquiry | Ack | Frame | Ack2 | Retry | Nak | Waiting | Done | Failed | End

  /** The send context together with the device, the lock and the retry counter. */
  datatype Sender = Sender(world: World, r2: nat, frames: seq<seq<byte>>, current: nat, result: bool) {

    predicate Valid() {
      current < |frames|
    }

    function After(op: Op): Sender {
      this.(world := world.After(op))
    }

    function Do(act: Act): Sender {
      this.(world := world.Do(act))
    }
  }

  function Start(script: seq<Reply>, frames: seq<seq<byte>>): Sender {
    Sender(World(script, Nothing), 0, frames, 0, false)
  }

  function Next(st: State, e: Event): State {
    match (st, e)
    case (Idle, Pass) => Enquiry
    case (Enquiry, Pass) => Reenquiry
    case (Reenquiry, Pass) => Ack
    case (Reenquiry, Wait) => Nak
    case (Ack, Pass) => Frame
    case (Ack, Busy) => Reenquiry
    case (Ack, Wait) => Nak
    case (Frame, Pass) => Ack2
    case (Ack2, Pass) => Done
    case (Retry, Pass) => Enquiry
    case (Retry, Fail) => Failed
    case (Nak, Pass) => Waiting
    case (Waiting, Pass) => Enquiry
    case (Done, Wait) => Reenquiry
    case (Done, _) => End
    case (Failed, _) => End
    case (End, _) => End
    case (_, _) => Retry
  }

  /** Reads until the device has nothing more; the last reply is the one that is not a byte. */
  function Drain(w: World): (r: (Reply, World))
    ensures !r.0.Success?
    ensures |r.1.script| <= |w.script| && (w.script != [] ==> |r.1.script| < |w.script|)
    decreases |w.script|
  {
    if w.Next().Success? then Drain(w.After(Read(1))) else (w.Next(), w.After(Read(1)))
  }

  function Answer(r: Reply): Event {
    match r
    case Success(data) =>
      var b := Fill(data, 1)[0];
      if b == ACK then Pass else if b == NAK then Busy else if b == ENQ then Wait else Deny
    case Timeout => Deny
    case Error => Fail
  }

  /** The handler of each state: the event it reports and what it leaves behind. */
  function Handle(st: State, s: Sender): (r: (Event, Sender))
    requires s.Valid()
    ensures r.1.Valid() && r.1.frames == s.frames
  {
    match st
    case Idle => (Pass, s.(r2 := 0))
    case Enquiry => (Pass, s.Do(Lock))
    case Reenquiry =>
      var (reply, w) := Drain(s.world);
      if reply.Timeout? then (Written(w.Next()), s.(world := w.After(Write([ENQ]))))
      else (Fail, s.(world := w))
    case Ack => (Answer(s.world.Next()), s.After(Read(1)))
    case Frame => (Written(s.world.Next()), s.After(Write(s.frames[s.current])))
    case Ack2 => (Answer(s.world.Next()), s.After(Read(1)))
    case Retry =>
      var t := s.(r2 := s.r2 + 1);
      if t.r2 < MAX_SEND_ATTEMPTS then
        var u := t.Do(Unlock);
        (Pass, if u.r2 % ATTEMPTS_FOR_REINIT == 0 then u.Do(Reopen) else u)
      else (Fail, t)
    case Nak => (Written(s.world.Next()), s.After(Write([NAK])))
    case Waiting => (Pass, s.Do(Unlock))
    case Done =>
      if s.current < |s.frames| - 1 then (Wait, s.(current := s.current + 1))
      else (Pass, s.(result := true))
    case Failed => (Pass, s.(result := false))
    case End => (Pass, s.Do(Unlock))
  }

  // ---------------------------------------------------------------- termination

  function Rank(st: State): nat {
    match st
    case End => 0
    case Failed => 1
    case Retry => 2
    case Reenquiry | Ack | Frame | Ack2 | Nak => 3
    case Enquiry => 4
    case Waiting | Done => 5
    case Idle => 6
  }

  /** Replies still to come plus attempts still allowed, refined by the state. */
  function Potential(st: State, s: Sender): nat {
    var attempts := if st.Idle? then MAX_SEND_ATTEMPTS
                    else if s.r2 < MAX_SEND_ATTEMPTS then MAX_SEND_ATTEMPTS - s.r2 else 0;
    6 * (|s.world.script| + attempts) + Rank(st)
  }

  lemma StepDescends(st: State, s: Sender)
    requires s.Valid() && st != End
    ensures var (e, t) := Handle(st, s); Potential(Next(st, e), t) < Potential(st, s)
  {
  }

  /** Runs the machine from state `st` until the final state's handler has run. */
  function Run(st: State, s: Sender): (t: Sender)
    requires s.Valid()
    ensures t.Valid() && t.frames == s.frames
    decreases Potential(st, s)
  {
    var (e, t) := Handle(st, s);
    if st == End then t else (StepDescends(st, s); Run(Next(st, e), t))
  }

  /** The retry counter of an earlier run does not matter. */
  lemma IdleForgets(s: Sender)
    requires s.Valid()
    ensures Run(Idle, s) == Run(Idle, s.(r2 := 0))
  {
  }

  /** The number of handlers a run executes. */
  function Steps(st: State, s: Sender): nat
    requires s.Valid()
    decreases Potential(st, s)
  {
    var (e, t) := Handle(st, s);
    if st == End then 1 else (StepDescends(st, s); 1 + Steps(Next(st, e), t))
  }

  /** Every run halts, whatever the device replies, and the script bounds how soon: the NAK and
      collision loops that no counter bounds each use up a reply. */
  lemma RunsHalt(script: seq<Reply>, frames: seq<seq<byte>>)
    requires frames != []
    ensures Steps(Idle, Start(script, frames)) <= 6 * (|script| + MAX_SEND_ATTEMPTS) + 7
  {
    StepsBound(Idle, Start(script, frames));
  }

  lemma {:induction false} StepsBound(st: State, s: Sender)
    requires s.Valid()
    ensures Steps(st, s) <= Potential(st, s) + 1
    decreases Potential(st, s)
  {
    if st != End {
      StepDescends(st, s);
      var (e, t) := Handle(st, s);
      StepsBound(Next(st, e), t);
    }
  }

  // ---------------------------------------------------------------- what the log tells

  predicate IsFrameWrite(act: Act) {
    act.Call? && act.op.Write? && |act.op.bytes| > 1
  }

  /** The last act put a whole frame on the line. */
  predicate FrameIsOut(log: Log) {
    log.Then? && IsFrameWrite(log.act) && log.act.reply.Success?
  }

  /** A successful read of the byte ACK. */
  predicate IsAckRead(act: Act) {
    act.Call? && act.op == Read(1) && Hears(act.reply, 0x06)
  }

  /** The last act put an ENQ on the line. */
  predicate EnquiryIsOut(log: Log) {
    log.Then? && log.act.Call? && log.act.op == Write([0x05]) && log.act.reply.Success?
  }

  /** The frames that were acknowledged: written whole, and the next thing read was ACK. */
  function Acked(log: Log): seq<seq<byte>> {
    if log.Nothing? then []
    else if FrameIsOut(log.before) && IsAckRead(log.act) then Acked(log.before) + [log.before.act.op.bytes]
    else Acked(log.before)
  }

  /** Every frame write is of the frame that follows the acknowledged ones. */
  predicate InOrder(log: Log, frames: seq<seq<byte>>) {
    log.Then? ==>
      && InOrder(log.before, frames)
      && (IsFrameWrite(log.act) ==>
            |Acked(log.before)| < |frames| && log.act.op.bytes == frames[|Acked(log.before)|])
  }

  function FrameWrites(log: Log): nat {
    if log.Nothing? then 0 else FrameWrites(log.before) + if IsFrameWrite(log.act) then 1 else 0
  }

  function Reopens(log: Log): nat {
    if log.Nothing? then 0 else Reopens(log.before) + if log.act.Reopen? then 1 else 0
  }

  /** What costs an attempt: a write that fails; anything but ACK, NAK or ENQ in answer to an enquiry;
      anything but ACK in answer to a frame; and a device that fails while it is drained. */
  predicate Fails(before: Log, act: Act) {
    act.Call? &&
    match act.op
    case Write(_) => !act.reply.Success?
    case Read(_) =>
      if EnquiryIsOut(before) then !Hears(act.reply, 0x06) && !Hears(act.reply, 0x15) && !Hears(act.reply, 0x05)
      else if FrameIsOut(before) then !Hears(act.reply, 0x06)
      else act.reply.Error?
    case Poll => false
  }

  function Failures(log: Log): nat {
    if log.Nothing? then 0 else Failures(log.before) + if Fails(log.before, log.act) then 1 else 0
  }

  /** The last act read this byte in answer to an enquiry. */
  predicate Answered(log: Log, b: byte) {
    log.Then? && log.act.Call? && log.act.op == Read(1) && Hears(log.act.reply, b) && EnquiryIsOut(log.before)
  }

  /** Every write has its reason: an enquiry follows silence, a frame follows ACK to an enquiry, and NAK
      follows ENQ in answer to an enquiry. Nothing else is written. */
  predicate Orderly(log: Log) {
    log.Then? ==>
      && Orderly(log.before)
      && (log.act.Call? && log.act.op.Write? ==>
            if log.act.op.bytes == [0x05] then
              log.before.Then? && log.before.act.Call? && log.before.act.op == Read(1) && log.before.act.reply.Timeout?
            else if |log.act.op.bytes| > 1 then Answered(log.before, 0x06)
            else log.act.op.bytes == [0x15] && Answered(log.before, 0x05))
  }

  // ---------------------------------------------------------------- invariants of a run

  /** The lock is held on entry to every state but idle and enquiry. */
  predicate Locked(st: State, s: Sender) {
    && Disciplined(s.world.log)
    && Holds(s.world.log) == (st != Idle && st != Enquiry)
  }

  /** The current frame is the first one not acknowledged yet, and only that one is written. */
  predicate Ordered(st: State, s: Sender) {
    && s.Valid()
    && (forall f <- s.frames :: |f| > 1)
    && InOrder(s.world.log, s.frames)
    && FrameIsOut(s.world.log) == st.Ack2?
    && (s.result ==> st.End?)
    && Acked(s.world.log) == (if st.Done? || s.result then s.frames[..s.current + 1] else s.frames[..s.current])
    && (s.result ==> s.current == |s.frames| - 1)
  }

  /** Retries and what they cost. */
  predicate Bounded(st: State, s: Sender) {
    && s.r2 <= MAX_SEND_ATTEMPTS
    && (s.r2 == MAX_SEND_ATTEMPTS <==> st.Failed? || (st.End? && !s.result))
    && FrameWrites(s.world.log) <= |Acked(s.world.log)| + s.r2 + (if st.Retry? || st.Ack2? then 1 else 0)
    && Reopens(s.world.log) == (if s.r2 < MAX_SEND_ATTEMPTS then s.r2 else MAX_SEND_ATTEMPTS - 1) / ATTEMPTS_FOR_REINIT
    && (st.Idle? ==> s.r2 == 0)
  }

  /** The retry counter is the number of failures on record, and what is written has its reasons. */
  predicate Accounted(st: State, s: Sender) {
    && s.r2 + (if st.Retry? then 1 else 0) == Failures(s.world.log)
    && Orderly(s.world.log)
    && EnquiryIsOut(s.world.log) == st.Ack?
    && (st.Frame? ==> Answered(s.world.log, 0x06)) && (st.Nak? ==> Answered(s.world.log, 0x05))
  }

  predicate Inv(st: State, s: Sender) {
    Locked(st, s) && Ordered(st, s) && Bounded(st, s) && Accounted(st, s)
  }

  /** Draining only reads. */
  lemma {:induction false} DrainTraces(w: World, frames: seq<seq<byte>>)
    requires Holds(w.log) && !FrameIsOut(w.log)
    ensures var (_, v) := Drain(w);
            && Holds(v.log) && !FrameIsOut(v.log) && Disciplined(v.log) == Disciplined(w.log)
            && Acked(v.log) == Acked(w.log) && InOrder(v.log, frames) == InOrder(w.log, frames)
            && FrameWrites(v.log) == FrameWrites(w.log) && Reopens(v.log) == Reopens(w.log)
    decreases |w.script|
  {
    if w.Next().Success? {
      DrainTraces(w.After(Read(1)), frames);
    }
  }

  lemma {:induction false} DrainAccounts(w: World)
    requires !FrameIsOut(w.log) && !EnquiryIsOut(w.log)
    ensures var (r, v) := Drain(w);
            && v.log.Then? && v.log.act == Call(Read(1), r)
            && Failures(v.log) == Failures(w.log) + (if r.Error? then 1 else 0)
            && Orderly(v.log) == Orderly(w.log)
    decreases |w.script|
  {
    if w.Next().Success? {
      DrainAccounts(w.After(Read(1)));
    }
  }

  lemma EnquiryAccounted(s: Sender)
    requires Inv(Reenquiry, s)
    ensures var (e, t) := Handle(Reenquiry, s); Accounted(Next(Reenquiry, e), t)
  {
    hide Locked, InOrder, Acked, FrameWrites, Reopens;
    assert FrameIsOut(s.world.log) == Reenquiry.Ack2?;
    DrainAccounts(s.world);
  }

  lemma StepAccounted(st: State, s: Sender)
    requires Inv(st, s) && st != End && st != Reenquiry
    ensures var (e, t) := Handle(st, s); Accounted(Next(st, e), t)
  {
    hide Locked, InOrder, Acked, FrameWrites, Reopens;
    assert s.frames[s.current] in s.frames && FrameIsOut(s.world.log) == st.Ack2?;
    var (e, t) := Handle(st, s);
    var to := Next(st, e);
    assert t.r2 + (if to.Retry? then 1 else 0) == Failures(t.world.log) && Orderly(t.world.log);
    assert EnquiryIsOut(t.world.log) == to.Ack?;
    assert (to.Frame? ==> Answered(t.world.log, 0x06)) && (to.Nak? ==> Answered(t.world.log, 0x05));
  }

  lemma StepKeepsLocked(st: State, s: Sender)
    requires Locked(st, s) && Ordered(st, s) && st != End
    ensures var (e, t) := Handle(st, s); Locked(Next(st, e), t)
  {
    if st.Reenquiry? {
      DrainTraces(s.world, s.frames);
    }
    assert s.frames[s.current] in s.frames;
  }

  lemma EnquiryKeepsInv(s: Sender)
    requires Inv(Reenquiry, s)
    ensures var (e, t) := Handle(Reenquiry, s); Ordered(Next(Reenquiry, e), t) && Bounded(Next(Reenquiry, e), t)
  {
    DrainTraces(s.world, s.frames);
  }

  /** The states between the enquiry and its frame's acknowledgement. */
  predicate Ahead(st: State) {
    st == Ack || st == Frame || st == Ack2 || st == Done
  }

  lemma StepKeepsOrdered(st: State, s: Sender)
    requires Inv(st, s) && st != End && st != Reenquiry
    ensures var (e, t) := Handle(st, s); Ordered(Next(st, e), t)
  {
    if Ahead(st) {
      AheadOrdered(st, s);
    } else {
      AsideOrdered(st, s);
    }
  }

  lemma AheadOrdered(st: State, s: Sender)
    requires Inv(st, s) && Ahead(st)
    ensures var (e, t) := Handle(st, s); Ordered(Next(st, e), t)
  {
    assert s.frames[s.current] in s.frames;
  }

  lemma AsideOrdered(st: State, s: Sender)
    requires Inv(st, s) && !Ahead(st) && st != End && st != Reenquiry
    ensures var (e, t) := Handle(st, s); Ordered(Next(st, e), t)
  {
    assert s.frames[s.current] in s.frames;
  }

  lemma StepKeepsBounded(st: State, s: Sender)
    requires Inv(st, s) && st != End && st != Reenquiry
    ensures var (e, t) := Handle(st, s); Bounded(Next(st, e), t)
  {
    if Ahead(st) {
      AheadBounded(st, s);
    } else {
      AsideBounded(st, s);
    }
  }

  lemma AheadBounded(st: State, s: Sender)
    requires Inv(st, s) && Ahead(st)
    ensures var (e, t) := Handle(st, s); Bounded(Next(st, e), t)
  {
    assert s.frames[s.current] in s.frames;
  }

  lemma AsideBounded(st: State, s: Sender)
    requires Inv(st, s) && !Ahead(st) && st != End && st != Reenquiry
    ensures var (e, t) := Handle(st, s); Bounded(Next(st, e), t)
  {
    assert s.frames[s.current] in s.frames;
  }

  /** What holds of a finished run. */
  predicate Finished(s: Sender) {
    && Disciplined(s.world.log) && !Holds(s.world.log)
    && InOrder(s.world.log, s.frames)
    && Acked(s.world.log) <= s.frames
    && (s.result <==> Acked(s.world.log) == s.frames)
    && (s.result <==> s.r2 < 240) && s.r2 <= 240 && s.r2 == Failures(s.world.log)
    && Orderly(s.world.log)
    && FrameWrites(s.world.log) <= |s.frames| + 239
    && Reopens(s.world.log) == (if s.r2 < 240 then s.r2 else 239) / 6
    && Reopens(s.world.log) <= 39
  }

  lemma {:induction false} RunKeepsInv(st: State, s: Sender)
    requires Inv(st, s)
    ensures Finished(Run(st, s))
    decreases Potential(st, s)
  {
    var (e, t) := Handle(st, s);
    if st != End {
      StepDescends(st, s);
      StepKeepsLocked(st, s);
      if st.Reenquiry? {
        EnquiryKeepsInv(s);
        EnquiryAccounted(s);
      } else {
        StepAccounted(st, s);
        StepKeepsOrdered(st, s);
        StepKeepsBounded(st, s);
      }
      RunKeepsInv(Next(st, e), t);
    }
  }

  /** Every send run, on every device: the lock is used properly and free at the end; each frame write is
      of the first frame not acknowledged yet; the run reports success exactly when all frames were
      acknowledged, each once and in order, and that is unless it has failed 240 times; every failure
      counts, whatever is written has its reason, and the retry bounds hold. */
  lemma SendRun(script: seq<Reply>, frames: seq<seq<byte>>)
    requires frames != [] && forall f <- frames :: |f| > 1
    ensures Finished(Run(Idle, Start(script, frames)))
  {
    RunKeepsInv(Idle, Start(script, frames));
  }

  lemma {:induction false} DrainExtends(w: World)
    ensures IsPrefix(w.log, Drain(w).1.log)
    decreases |w.script|
  {
    if w.Next().Success? {
      DrainExtends(w.After(Read(1)));
      PrefixTransitive(w.log, w.After(Read(1)).log, Drain(w).1.log);
    }
  }

  /** A run only ever adds to the log. */
  lemma {:induction false} RunExtends(st: State, s: Sender)
    requires s.Valid()
    ensures IsPrefix(s.world.log, Run(st, s).world.log)
    decreases Potential(st, s)
  {
    var (e, t) := Handle(st, s);
    if st.Reenquiry? {
      DrainExtends(s.world);
    }
    assert IsPrefix(s.world.log, t.world.log);
    if st != End {
      StepDescends(st, s);
      RunExtends(Next(st, e), t);
      PrefixTransitive(s.world.log, t.world.log, Run(st, s).world.log);
    }
  }

  // ---------------------------------------------------------------- nobody answers

  /** No read has delivered an ACK. */
  predicate NoAckHeard(log: Log) {
    log.Then? ==> NoAckHeard(log.before) && (log.act.Call? ==> !Hears(log.act.reply, 0x06))
  }

  predicate NoAckComes(script: seq<Reply>) {
    forall r <- script :: !Hears(r, 0x06)
  }

  lemma {:induction false} DrainHearsNone(w: World)
    requires NoAckComes(w.script) && NoAckHeard(w.log)
    ensures var (_, v) := Drain(w); NoAckComes(v.script) && NoAckHeard(v.log)
    decreases |w.script|
  {
    if w.Next().Success? {
      DrainHearsNone(w.After(Read(1)));
    }
  }

  lemma {:induction false} RunHearsNone(st: State, s: Sender)
    requires s.Valid() && NoAckComes(s.world.script) && NoAckHeard(s.world.log)
    ensures NoAckHeard(Run(st, s).world.log)
    decreases Potential(st, s)
  {
    var (e, t) := Handle(st, s);
    if st.Reenquiry? {
      DrainHearsNone(s.world);
    }
    if st != End {
      StepDescends(st, s);
      RunHearsNone(Next(st, e), t);
    }
  }

  lemma {:induction false} NothingAcked(log: Log)
    requires NoAckHeard(log)
    ensures Acked(log) == []
  {
    if log.Then? {
      NothingAcked(log.before);
    }
  }

  /** If the other side never says ACK, nothing is reported as sent. */
  lemma SilenceIsNoSuccess(script: seq<Reply>, frames: seq<seq<byte>>)
    requires frames != [] && (forall f <- frames :: |f| > 1) && NoAckComes(script)
    ensures !Run(Idle, Start(script, frames)).result
  {
    SendRun(script, frames);
    RunHearsNone(Idle, Start(script, frames));
    NothingAcked(Run(Idle, Start(script, frames)).world.log);
  }
}
