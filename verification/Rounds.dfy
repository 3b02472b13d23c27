/** One enquiry at a time: what a round of the handshake is to the sender and to the receiver, over a
    line that loses and damages. */
module Rounds {
  import opened Wire
  import opened Device
  import opened Events
  import opened FrameParser
  import S = Sender
  import R = Receiver

  /** What becomes of one enquiry. `answer` is what the sender reads where it waits for an ACK that
      does not come: nothing, the receiver's NAK, or line noise, which may look like a NAK or like an
      enquiry of the other side. `heard` is what reaches the receiver where it waits for a frame:
      nothing, part of the frame, or the frame with damaged bytes. */
  datatype Fate =
    | EnquiryLost(answer: Reply)
    | AckLost(heard: seq<byte>, answer: Reply)
    | FrameDamaged(heard: seq<byte>, answer: Reply)
    | LastAckLost(answer: Reply)
    | Delivered

  /** The receiver has the frame; with a lost last acknowledgement the sender does not know. */
  predicate Taken(fate: Fate) {
    fate.LastAckLost? || fate.Delivered?
  }

  /** The receiver is offered something that it does not take. */
  predicate Spoilt(fate: Fate) {
    fate.AckLost? || fate.FrameDamaged?
  }

  /** One enquiry of the sender. Before it the sender drains `stale` bytes and the receiver wakes up
      over each of `wakes`; `ahead` arrives just before the enquiry and is drained with it. */
  datatype Round = Round(stale: seq<byte>, wakes: seq<seq<byte>>, ahead: seq<byte>, fate: Fate)

  function Each(bytes: seq<byte>): seq<Reply> {
    if bytes == [] then [] else [Success([bytes[0]])] + Each(bytes[1..])
  }

  const DONE: Reply := Success([])

  // ---------------------------------------------------------------- the sender's side

  /** The replies the sender's device gives during a round. */
  function SendReplies(r: Round): seq<Reply> {
    Each(r.stale) + [Timeout, DONE] + SendAnswers(r.fate)
  }

  function SendAnswers(fate: Fate): seq<Reply> {
    match fate
    case EnquiryLost(a) => Refusal(a)
    case AckLost(_, a) => Refusal(a)
    case FrameDamaged(_, a) => [Success([ACK]), DONE, a]
    case LastAckLost(a) => [Success([ACK]), DONE, a]
    case Delivered => [Success([ACK]), DONE, Success([ACK])]
  }

  /** A colliding enquiry is answered with NAK. */
  function Refusal(a: Reply): seq<Reply> {
    if Hears(a, ENQ) then [a, DONE] else [a]
  }

  /** How many retries a round costs the sender: NAK and collisions are free while it enquires. */
  function Retries(fate: Fate): nat {
    match fate
    case EnquiryLost(a) => if Hears(a, NAK) || Hears(a, ENQ) then 0 else 1
    case AckLost(_, a) => if Hears(a, NAK) || Hears(a, ENQ) then 0 else 1
    case FrameDamaged(_, _) => 1
    case LastAckLost(_) => 1
    case Delivered => 0
  }

  /** What the sender writes during a round about frame f. */
  function SenderWrites(fate: Fate, f: seq<byte>): seq<seq<byte>> {
    match fate
    case EnquiryLost(a) => if Hears(a, ENQ) then [[ENQ], [NAK]] else [[ENQ]]
    case AckLost(_, a) => if Hears(a, ENQ) then [[ENQ], [NAK]] else [[ENQ]]
    case _ => [[ENQ], f]
  }

  /** The sender goes on only when it reads both acknowledgements. */
  predicate Refused(fate: Fate) {
    fate.Delivered? || !Hears(fate.answer, ACK)
  }

  lemma {:induction false} DrainEach(w: World, bytes: seq<byte>, rest: seq<Reply>)
    requires w.script == Each(bytes) + [Timeout] + rest
    ensures var (r, v) := S.Drain(w); r == Timeout && v.script == rest && Writes(v.log) == Writes(w.log)
    decreases bytes
  {
    if bytes != [] {
      assert w.script == [Success([bytes[0]])] + (Each(bytes[1..]) + [Timeout] + rest);
      DrainEach(w.After(Read(1)), bytes[1..], rest);
    }
  }

  lemma SendUnroll(st: S.State, s: S.Sender)
    requires s.Valid() && st != S.End
    ensures var (e, t) := S.Handle(st, s); S.Run(st, s) == S.Run(S.Next(st, e), t)
  {
  }

  /** From the enquiry to the wait for its answer. */
  lemma SendEnquires(s: S.Sender, stale: seq<byte>, rest: seq<Reply>) returns (t: S.Sender)
    requires s.Valid() && s.world.script == Each(stale) + [Timeout, DONE] + rest
    ensures t == s.(world := t.world) && t.world.script == rest
    ensures Writes(t.world.log) == Writes(s.world.log) + [[ENQ]]
    ensures S.Run(S.Reenquiry, s) == S.Run(S.Ack, t)
  {
    hide S.Run;
    assert s.world.script == Each(stale) + [Timeout] + ([DONE] + rest);
    DrainEach(s.world, stale, [DONE] + rest);
    SendUnroll(S.Reenquiry, s);
    t := S.Handle(S.Reenquiry, s).1;
  }

  /** A retry within the budget leads back to the enquiry. */
  lemma SendRetries(s: S.Sender) returns (t: S.Sender)
    requires s.Valid() && s.r2 + 1 < S.MAX_SEND_ATTEMPTS
    ensures t == s.(world := t.world, r2 := s.r2 + 1) && t.world.script == s.world.script
    ensures Writes(t.world.log) == Writes(s.world.log)
    ensures S.Run(S.Retry, s) == S.Run(S.Reenquiry, t)
  {
    hide S.Run;
    SendUnroll(S.Retry, s);
    var u := S.Handle(S.Retry, s).1;
    assert Writes(u.world.log) == Writes(s.world.log) by {
      var w := s.world.Do(Unlock);
      assert Writes(w.log) == Writes(s.world.log) && Writes(w.Do(Reopen).log) == Writes(w.log);
    }
    SendUnroll(S.Enquiry, u);
    t := u.Do(Lock);
  }

  /** Reading an answer leads where the transition table says. */
  lemma SendReads(st: S.State, s: S.Sender, a: Reply, rest: seq<Reply>) returns (t: S.Sender)
    requires s.Valid() && (st == S.Ack || st == S.Ack2) && s.world.script == [a] + rest
    ensures t == s.(world := t.world) && t.world.script == rest && Writes(t.world.log) == Writes(s.world.log)
    ensures S.Run(st, s) == S.Run(S.Next(st, S.Answer(a)), t)
  {
    hide S.Run;
    SendUnroll(st, s);
    t := S.Handle(st, s).1;
  }

  lemma SendWrites(st: S.State, s: S.Sender, rest: seq<Reply>) returns (t: S.Sender)
    requires s.Valid() && (st == S.Frame || st == S.Nak) && s.world.script == [DONE] + rest
    ensures t == s.(world := t.world) && t.world.script == rest
    ensures Writes(t.world.log) == Writes(s.world.log) + [if st == S.Nak then [NAK] else s.frames[s.current]]
    ensures S.Run(st, s) == S.Run(S.Next(st, Pass), t)
  {
    hide S.Run;
    SendUnroll(st, s);
    t := S.Handle(st, s).1;
  }

  /** After a collision the sender lets go of the device and starts over. */
  lemma SendWaits(s: S.Sender) returns (t: S.Sender)
    requires s.Valid()
    ensures t == s.(world := t.world) && t.world.script == s.world.script && Writes(t.world.log) == Writes(s.world.log)
    ensures S.Run(S.Waiting, s) == S.Run(S.Reenquiry, t)
  {
    hide S.Run;
    SendUnroll(S.Waiting, s);
    SendUnroll(S.Enquiry, s.Do(Unlock));
    t := s.Do(Unlock).Do(Lock);
  }

  /** What the sender makes of a reply: the byte decides, a line that stays silent denies. */
  lemma AnswerByByte(a: Reply)
    ensures S.Answer(a) == if Hears(a, ACK) then Pass else if Hears(a, NAK) then Busy else if Hears(a, ENQ) then Wait
                           else if a.Error? then Fail else Deny
    ensures Hears(a, ENQ) ==> !Hears(a, ACK) && !Hears(a, NAK)
  {
  }

  lemma AckIsAck()
    ensures S.Answer(Success([ACK])) == Pass
  {
  }

  /** The enquiry is not granted. */
  lemma SendRefused(s: S.Sender, a: Reply, rest: seq<Reply>) returns (t: S.Sender)
    requires s.Valid() && !Hears(a, ACK) && s.world.script == Refusal(a) + rest
    requires s.r2 + Retries(EnquiryLost(a)) < S.MAX_SEND_ATTEMPTS
    ensures t == s.(world := t.world, r2 := s.r2 + Retries(EnquiryLost(a))) && t.world.script == rest
    ensures Writes(t.world.log) == Writes(s.world.log) + if Hears(a, ENQ) then [[NAK]] else []
    ensures S.Run(S.Ack, s) == S.Run(S.Reenquiry, t)
  {
    hide S.Run, S.Answer, Hears, Writes;
    AnswerByByte(a);
    var more := if Hears(a, ENQ) then [DONE] + rest else rest;
    assert Refusal(a) + rest == [a] + more;
    var u := SendReads(S.Ack, s, a, more);
    match S.Answer(a) {
      case Busy => t := u;
      case Wait =>
        var v := SendWrites(S.Nak, u, rest);
        t := SendWaits(v);
      case _ =>
        t := SendRetries(u);
    }
  }

  /** The enquiry is granted and the frame goes out; then its answer is read. */
  lemma SendGranted(s: S.Sender, a: Reply, rest: seq<Reply>) returns (t: S.Sender)
    requires s.Valid() && s.world.script == [Success([ACK]), DONE, a] + rest
    ensures t == s.(world := t.world) && t.world.script == rest
    ensures Writes(t.world.log) == Writes(s.world.log) + [s.frames[s.current]]
    ensures S.Run(S.Ack, s) == S.Run(S.Next(S.Ack2, S.Answer(a)), t)
  {
    hide S.Run, Writes;
    assert s.world.script == [Success([ACK])] + ([DONE, a] + rest) && [DONE, a] + rest == [DONE] + ([a] + rest);
    var u := SendReads(S.Ack, s, Success([ACK]), [DONE, a] + rest);
    var v := SendWrites(S.Frame, u, [a] + rest);
    t := SendReads(S.Ack2, v, a, rest);
  }

  /** One round of the sender. After it the sender is about to enquire again, about the same frame
      or the next one, or it is done. */
  lemma SendRound(s: S.Sender, r: Round, rest: seq<Reply>) returns (t: S.Sender)
    requires s.Valid() && Refused(r.fate) && s.world.script == SendReplies(r) + rest
    requires s.r2 + Retries(r.fate) < S.MAX_SEND_ATTEMPTS
    ensures t.world.script == rest && t.frames == s.frames && t.r2 == s.r2 + Retries(r.fate) && t.Valid()
    ensures Writes(t.world.log) == Writes(s.world.log) + SenderWrites(r.fate, s.frames[s.current])
    ensures if !r.fate.Delivered? then
              t.current == s.current && t.result == s.result && S.Run(S.Reenquiry, s) == S.Run(S.Reenquiry, t)
            else if s.current < |s.frames| - 1 then
              t.current == s.current + 1 && t.result == s.result && S.Run(S.Reenquiry, s) == S.Run(S.Reenquiry, t)
            else t.result && S.Run(S.Reenquiry, s) == S.Run(S.End, t)
  {
    hide S.Run, S.Answer, Each, Writes, Hears;
    var answers := SendAnswers(r.fate);
    assert s.world.script == Each(r.stale) + [Timeout, DONE] + (answers + rest);
    var u := SendEnquires(s, r.stale, answers + rest);
    match r.fate
    case EnquiryLost(a) => t := SendRefused(u, a, rest);
    case AckLost(_, a) => t := SendRefused(u, a, rest);
    case FrameDamaged(_, a) =>
      var v := SendGranted(u, a, rest);
      AnswerByByte(a);
      t := SendRetries(v);
    case LastAckLost(a) =>
      var v := SendGranted(u, a, rest);
      AnswerByByte(a);
      t := SendRetries(v);
    case Delivered =>
      var v := SendGranted(u, Success([ACK]), rest);
      AckIsAck();
      SendUnroll(S.Done, v);
      t := S.Handle(S.Done, v).1;
  }

  // ---------------------------------------------------------------- the receiver's side

  function PollReply(st: R.State): seq<Reply> {
    if st == R.Polling then [DONE] else []
  }

  function WakeReplies(st: R.State, wakes: seq<seq<byte>>): seq<Reply>
    decreases |wakes|
  {
    if wakes == [] then []
    else PollReply(st) + Each(wakes[0]) + [Timeout] + WakeReplies(R.Polling, wakes[1..])
  }

  /** What the receiver hears when it wakes up: the last of the pending bytes. */
  function Heard(bytes: seq<byte>): Reply {
    if bytes == [] then Timeout else Success([bytes[|bytes| - 1]])
  }

  predicate EndsIn(bytes: seq<byte>, b: byte) {
    bytes != [] && bytes[|bytes| - 1] == b
  }

  /** A wake-up that is neither an enquiry nor a refusal nor silence. */
  predicate Stray(bytes: seq<byte>) {
    bytes != [] && !EndsIn(bytes, ENQ) && !EndsIn(bytes, NAK)
  }

  function Denials(wakes: seq<seq<byte>>): nat {
    if wakes == [] then 0 else (if Stray(wakes[0]) then 1 else 0) + Denials(wakes[1..])
  }

  /** A wake-up that is taken for an enquiry is one. */
  predicate NoEnquiry(wakes: seq<seq<byte>>) {
    forall w <- wakes :: !EndsIn(w, ENQ)
  }

  /** What the receiver makes of a wake-up. */
  lemma EnquiredByByte(bytes: seq<byte>)
    ensures R.Enquired(Heard(bytes)) == if EndsIn(bytes, ENQ) then Pass else if Stray(bytes) then Deny else Busy
  {
  }

  /** The replies the receiver's device gives during a round about frame f. */
  function RecvReplies(cs: Checksum, st: R.State, c: R.Context, r: Round, f: seq<byte>): seq<Reply>
    requires c.Valid()
  {
    var woken := WakeReplies(st, r.wakes);
    var st' := if r.wakes == [] then st else R.Polling;
    match r.fate
    case EnquiryLost(_) => woken
    case AckLost(g, _) => woken + EnquiryReplies(st', r.ahead) + Replies(cs, R.Stx, c, g) + [DONE]
    case FrameDamaged(g, _) => woken + EnquiryReplies(st', r.ahead) + Replies(cs, R.Stx, c, g) + [DONE]
    case _ => woken + EnquiryReplies(st', r.ahead) + Replies(cs, R.Stx, c, f) + [DONE]
  }

  function EnquiryReplies(st: R.State, ahead: seq<byte>): seq<Reply> {
    PollReply(st) + Each(ahead + [ENQ]) + [Timeout, DONE]
  }

  /** How many denials a round costs the receiver, and what it writes. */
  function RoundDenials(r: Round): nat {
    Denials(r.wakes) + if Spoilt(r.fate) then 1 else 0
  }

  function ReceiverWrites(fate: Fate): seq<seq<byte>> {
    match fate
    case EnquiryLost(_) => []
    case AckLost(_, _) => [[ACK], [NAK]]
    case FrameDamaged(_, _) => [[ACK], [NAK]]
    case _ => [[ACK], [ACK]]
  }

  lemma {:induction false} HearEach(w: World, heard: Reply, bytes: seq<byte>, rest: seq<Reply>)
    requires w.script == Each(bytes) + [Timeout] + rest
    ensures var (r, v) := R.Hear(w, heard);
            && r == (if bytes == [] && heard.Success? then heard else Heard(bytes))
            && v.script == rest && Writes(v.log) == Writes(w.log)
    decreases bytes
  {
    if bytes != [] {
      assert w.script == [Success([bytes[0]])] + (Each(bytes[1..]) + [Timeout] + rest);
      HearEach(w.After(Read(1)), Success([bytes[0]]), bytes[1..], rest);
    }
  }

  /** From poll or enquiry to what the enquiry state makes of the pending bytes. */
  lemma RecvListens(cs: Checksum, st: R.State, m: R.Receiver, bytes: seq<byte>, rest: seq<Reply>) returns (n: R.Receiver)
    requires m.ctx.Valid() && (st == R.Polling || st == R.Enquiry)
    requires m.world.script == PollReply(st) + Each(bytes) + [Timeout] + rest
    ensures n == m.(world := n.world) && n.world.script == rest && Writes(n.world.log) == Writes(m.world.log)
    ensures R.Run(cs, st, m) == R.Run(cs, R.Next(R.Enquiry, R.Enquired(Heard(bytes))), n)
  {
    hide R.Run;
    var u := m;
    if st == R.Polling {
      assert m.world.script == [DONE] + (Each(bytes) + [Timeout] + rest);
      Unroll(cs, R.Polling, m);
      u := R.Handle(cs, R.Polling, m).1;
      assert u.world.script == Each(bytes) + [Timeout] + rest;
      assert Writes(m.world.After(Poll).log) == Writes(m.world.log) == Writes(u.world.log);
    } else {
      assert PollReply(st) + Each(bytes) == Each(bytes);
    }
    HearEach(u.world, Timeout, bytes, rest);
    Unroll(cs, R.Enquiry, u);
    n := R.Handle(cs, R.Enquiry, u).1;
  }

  /** A retry within the budget clears the frame and goes back to polling. */
  lemma RecvRetries(cs: Checksum, m: R.Receiver) returns (n: R.Receiver)
    requires m.ctx.Valid() && m.r1 + 1 < R.MAX_RECV_ATTEMPTS
    ensures n == R.Receiver(n.world, m.r1 + 1, m.ctx.With([]))
    ensures n.world.script == m.world.script && Writes(n.world.log) == Writes(m.world.log)
    ensures R.Run(cs, R.Retry, m) == R.Run(cs, R.Polling, n)
  {
    hide R.Run;
    Unroll(cs, R.Retry, m);
    var u := R.Handle(cs, R.Retry, m).1;
    Unroll(cs, R.Repoll, u);
    n := R.Handle(cs, R.Repoll, u).1;
  }

  lemma {:induction false} RecvWakes(cs: Checksum, st: R.State, m: R.Receiver, wakes: seq<seq<byte>>, rest: seq<Reply>)
    returns (n: R.Receiver)
    requires m.ctx.Valid() && m.ctx.Frame() == [] && (st == R.Polling || st == R.Enquiry) && NoEnquiry(wakes)
    requires m.world.script == WakeReplies(st, wakes) + rest && m.r1 + Denials(wakes) < R.MAX_RECV_ATTEMPTS
    ensures n == R.Receiver(n.world, m.r1 + Denials(wakes), m.ctx)
    ensures n.world.script == rest && Writes(n.world.log) == Writes(m.world.log)
    ensures R.Run(cs, st, m) == R.Run(cs, if wakes == [] then st else R.Polling, n)
    decreases wakes
  {
    hide R.Run, R.Handle, Each;
    if wakes == [] {
      n := m;
    } else {
      var more := WakeReplies(R.Polling, wakes[1..]) + rest;
      assert m.world.script == PollReply(st) + Each(wakes[0]) + [Timeout] + more;
      var u := RecvListens(cs, st, m, wakes[0], more);
      EnquiredByByte(wakes[0]);
      if Stray(wakes[0]) {
        u := RecvRetries(cs, u);
        assert m.ctx.frames[m.ctx.current := []] == m.ctx.frames;
      } else {
        u := RecvRepolls(cs, u);
      }
      n := RecvWakes(cs, R.Polling, u, wakes[1..], rest);
    }
  }

  lemma RecvRepolls(cs: Checksum, m: R.Receiver) returns (n: R.Receiver)
    requires m.ctx.Valid()
    ensures n == m.(world := n.world) && n.world.script == m.world.script && Writes(n.world.log) == Writes(m.world.log)
    ensures R.Run(cs, R.Repoll, m) == R.Run(cs, R.Polling, n)
  {
    hide R.Run;
    Unroll(cs, R.Repoll, m);
    n := R.Handle(cs, R.Repoll, m).1;
  }

  /** The enquiry is heard and answered. */
  lemma RecvGrants(cs: Checksum, st: R.State, m: R.Receiver, ahead: seq<byte>, rest: seq<Reply>) returns (n: R.Receiver)
    requires m.ctx.Valid() && (st == R.Polling || st == R.Enquiry)
    requires m.world.script == EnquiryReplies(st, ahead) + rest
    ensures n == m.(world := n.world) && n.world.script == rest
    ensures Writes(n.world.log) == Writes(m.world.log) + [[ACK]]
    ensures R.Run(cs, st, m) == R.Run(cs, R.Stx, n)
  {
    hide R.Run, Each;
    assert m.world.script == PollReply(st) + Each(ahead + [ENQ]) + [Timeout] + ([DONE] + rest);
    var u := RecvListens(cs, st, m, ahead + [ENQ], [DONE] + rest);
    Unroll(cs, R.Ack, u);
    n := R.Handle(cs, R.Ack, u).1;
  }

  /** A frame is offered; it is acknowledged or denied. */
  lemma RecvFrame(cs: Checksum, m: R.Receiver, bs: seq<byte>, rest: seq<Reply>) returns (n: R.Receiver)
    requires m.ctx.Valid() && m.ctx.Frame() == []
    requires m.world.script == Replies(cs, R.Stx, m.ctx, bs) + [DONE] + rest
    requires !WellFormed(cs, m.ctx.kind, m.ctx.dataLength, bs) ==> m.r1 + 1 < R.MAX_RECV_ATTEMPTS
    ensures n.world.script == rest
    ensures if WellFormed(cs, m.ctx.kind, m.ctx.dataLength, bs) then
              && n.r1 == m.r1 && n.ctx == Parse(cs, R.Stx, m.ctx, bs).ctx
              && Writes(n.world.log) == Writes(m.world.log) + [[ACK]] && R.Run(cs, R.Stx, m) == R.Run(cs, R.Done, n)
            else
              && n.r1 == m.r1 + 1 && n.ctx == Settled(m.ctx, bs).With([])
              && Writes(n.world.log) == Writes(m.world.log) + [[NAK]] && R.Run(cs, R.Stx, m) == R.Run(cs, R.Polling, n)
  {
    hide R.Run, Parse, Replies, WellFormed, Settled;
    Acceptance(cs, m.ctx, bs);
    assert m.world.script == Replies(cs, R.Stx, m.ctx, bs) + ([DONE] + rest);
    var u := RunParses(cs, R.Stx, m, bs, [DONE] + rest);
    if Parse(cs, R.Stx, m.ctx, bs).verdict == Pass {
      Unroll(cs, R.Ack2, u);
      n := R.Handle(cs, R.Ack2, u).1;
    } else {
      Unroll(cs, R.Nak, u);
      var v := R.Handle(cs, R.Nak, u).1;
      n := RecvRetries(cs, v);
    }
  }

  /** A frame arrives whole but for its checksum, which cannot be read: it is denied like a damaged one. */
  lemma RecvUnreadable(cs: Checksum, m: R.Receiver, f: seq<byte>, rest: seq<Reply>) returns (n: R.Receiver)
    requires m.ctx.Valid() && m.ctx.Frame() == [] && m.r1 + 1 < R.MAX_RECV_ATTEMPTS
    requires WellFormed(cs, m.ctx.kind, m.ctx.dataLength, f)
    requires m.world.script == Unreadable(cs, R.Stx, m.ctx, f) + [DONE] + rest
    ensures n.ctx.Valid() && n.ctx.Frame() == [] && n.r1 == m.r1 + 1 && n.world.script == rest
    ensures Writes(n.world.log) == Writes(m.world.log) + [[NAK]] && R.Run(cs, R.Stx, m) == R.Run(cs, R.Polling, n)
  {
    hide R.Run, Parse, Unreadable, WellFormed;
    Acceptance(cs, m.ctx, f);
    assert m.world.script == Unreadable(cs, R.Stx, m.ctx, f) + ([DONE] + rest);
    var u := RunUnreadable(cs, R.Stx, m, f, [DONE] + rest);
    Unroll(cs, R.Nak, u);
    var v := R.Handle(cs, R.Nak, u).1;
    n := RecvRetries(cs, v);
  }

  /** One round of the receiver. */
  lemma RecvRound(cs: Checksum, st: R.State, m: R.Receiver, r: Round, f: seq<byte>, rest: seq<Reply>)
    returns (n: R.Receiver)
    requires m.ctx.Valid() && m.ctx.Frame() == [] && (st == R.Polling || st == R.Enquiry) && NoEnquiry(r.wakes)
    requires m.world.script == RecvReplies(cs, st, m.ctx, r, f) + rest
    requires m.r1 + RoundDenials(r) < R.MAX_RECV_ATTEMPTS
    requires Spoilt(r.fate) ==> !WellFormed(cs, m.ctx.kind, m.ctx.dataLength, r.fate.heard)
    requires Taken(r.fate) ==> WellFormed(cs, m.ctx.kind, m.ctx.dataLength, f)
    ensures n.world.script == rest && n.r1 == m.r1 + RoundDenials(r)
    ensures Writes(n.world.log) == Writes(m.world.log) + ReceiverWrites(r.fate)
    ensures n.ctx == if Taken(r.fate) then Taking(cs, m.ctx, f).1 else NotTaking(m.ctx, r.fate)
    ensures R.Run(cs, st, m) == R.Run(cs, if Taken(r.fate) then R.Next(R.Done, Taking(cs, m.ctx, f).0)
                                          else if r.fate.EnquiryLost? && r.wakes == [] then st else R.Polling, n)
  {
    hide R.Run, R.Handle, Parse, Replies, WellFormed, Settled, WakeReplies, Each, Denials, EnquiryReplies, Writes;
    hide R.Complete;
    var woken := WakeReplies(st, r.wakes);
    var st' := if r.wakes == [] then st else R.Polling;
    if r.fate.EnquiryLost? {
      n := RecvWakes(cs, st, m, r.wakes, rest);
    } else {
      var bs := if Taken(r.fate) then f else r.fate.heard;
      var enquiry, frame := EnquiryReplies(st', r.ahead), Replies(cs, R.Stx, m.ctx, bs);
      assert m.world.script == woken + (enquiry + (frame + [DONE] + rest)) by {
        Assoc(woken, enquiry, frame);
        Assoc(woken, enquiry + frame, [DONE]);
        Assoc(woken, enquiry + frame + [DONE], rest);
        Assoc(enquiry, frame, [DONE]);
        Assoc(enquiry, frame + [DONE], rest);
      }
      var u := RecvWakes(cs, st, m, r.wakes, enquiry + (frame + [DONE] + rest));
      var v := RecvGrants(cs, st', u, r.ahead, frame + [DONE] + rest);
      n := RecvFrame(cs, v, bs, rest);
      assert Writes(m.world.log) + [[ACK]] + [[NAK]] == Writes(m.world.log) + [[ACK], [NAK]];
      assert Writes(m.world.log) + [[ACK]] + [[ACK]] == Writes(m.world.log) + [[ACK], [ACK]];
      if Taken(r.fate) {
        n := RecvCompletes(cs, n);
      }
    }
  }

  lemma Assoc<T>(a: seq<T>, b: seq<T>, c: seq<T>)
    ensures a + b + c == a + (b + c)
  {
  }

  lemma RecvCompletes(cs: Checksum, m: R.Receiver) returns (n: R.Receiver)
    requires m.ctx.Valid()
    ensures n == m.(ctx := R.Complete(m.ctx).1)
    ensures R.Run(cs, R.Done, m) == R.Run(cs, R.Next(R.Done, R.Complete(m.ctx).0), n)
  {
    hide R.Run;
    Unroll(cs, R.Done, m);
    n := R.Handle(cs, R.Done, m).1;
  }

  /** What the receiver makes of a frame it takes. */
  function Taking(cs: Checksum, c: R.Context, f: seq<byte>): (p: (Event, R.Context))
    requires c.Valid()
    ensures p.1.Valid()
  {
    R.Complete(Parse(cs, R.Stx, c, f).ctx)
  }

  /** What a round leaves behind in which nothing is taken. */
  function NotTaking(c: R.Context, fate: Fate): (d: R.Context)
    requires c.Valid()
    ensures d.Valid()
  {
    if Spoilt(fate) then Settled(c, fate.heard).With([]) else c
  }

  /** The receiver's context after a round about frame f; after the last frame the next `receive`
      begins with a fresh one. */
  function NextContext(cs: Checksum, c: R.Context, f: seq<byte>, fate: Fate): (d: R.Context)
    requires c.Valid()
    ensures d.Valid()
  {
    if !Taken(fate) then NotTaking(c, fate)
    else if Taking(cs, c, f).0 == Wait then Taking(cs, c, f).1
    else R.FRESH
  }

  function NextState(cs: Checksum, st: R.State, c: R.Context, r: Round, f: seq<byte>): R.State
    requires c.Valid()
  {
    if Taken(r.fate) then (if Taking(cs, c, f).0 == Wait then R.Enquiry else R.Polling)
    else if r.fate.EnquiryLost? && r.wakes == [] then st else R.Polling
  }

  // ---------------------------------------------------------------- the two sides together

  /** How often the sender reads ACK in a round, and how often the receiver writes it. */
  function AcksRead(replies: seq<Reply>): nat {
    if replies == [] then 0 else (if Hears(replies[0], ACK) then 1 else 0) + AcksRead(replies[1..])
  }

  function AcksWritten(writes: seq<seq<byte>>): nat {
    if writes == [] then 0 else (if writes[0] == [ACK] then 1 else 0) + AcksWritten(writes[1..])
  }

  /** What the receiver is offered as a frame in a round about f. */
  function Offered(fate: Fate, f: seq<byte>): Option<seq<byte>> {
    if Taken(fate) then Some(f) else if Spoilt(fate) then Some(fate.heard) else None
  }

  /** The round closes. Every ACK the sender reads was written by the receiver in the same round, and
      it reads two exactly if the frame is delivered; when the receiver acknowledges an enquiry the
      sender has written it; the frame goes out exactly if an ACK was read; and the frame the
      receiver takes is the last thing the sender wrote. */
  predicate Closes(fate: Fate, f: seq<byte>) {
    var sent, answers, written := SenderWrites(fate, f), AcksRead(SendAnswers(fate)), AcksWritten(ReceiverWrites(fate));
    && answers <= written
    && (answers == 2 <==> fate.Delivered?)
    && (written == 2 <==> Taken(fate))
    && (written >= 1 ==> sent[0] == [ENQ])
    && (answers >= 1 <==> f in sent)
    && (Taken(fate) ==> |sent| == 2 && Offered(fate, f) == Some(sent[1]))
  }

  lemma RoundCloses(fate: Fate, f: seq<byte>)
    requires Refused(fate) && |f| >= 2
    ensures Closes(fate, f)
  {
    var replies := SendAnswers(fate);
    ReadUpToThree(replies);
    WrittenUpToTwo(ReceiverWrites(fate));
    var sent := SenderWrites(fate, f);
    assert Taken(fate) || fate.FrameDamaged? ==> sent == [[ENQ], f] && sent[1] == f;
  }

  lemma ReadUpToThree(replies: seq<Reply>)
    requires 1 <= |replies| <= 3
    ensures AcksRead(replies) ==
            (if Hears(replies[0], ACK) then 1 else 0)
            + (if |replies| > 1 && Hears(replies[1], ACK) then 1 else 0)
            + (if |replies| > 2 && Hears(replies[2], ACK) then 1 else 0)
  {
    var more := replies[1..];
    if |replies| > 1 {
      assert more[0] == replies[1] && AcksRead(more) == (if Hears(more[0], ACK) then 1 else 0) + AcksRead(more[1..]);
      assert |replies| > 2 ==> more[1..][0] == replies[2] && more[1..][1..] == [];
    }
  }

  lemma WrittenUpToTwo(writes: seq<seq<byte>>)
    requires |writes| == 0 || |writes| == 2
    ensures AcksWritten(writes) ==
            (if |writes| == 2 && writes[0] == [ACK] then 1 else 0) + (if |writes| == 2 && writes[1] == [ACK] then 1 else 0)
  {
    assert |writes| == 2 ==> writes[1..][0] == writes[1] && writes[1..][1..] == [];
  }
}
