/** The link protocol as the source writes it: objects whose handlers update the device, the lock,
    the retry counters and the contexts in place. Every handler is proved against the pure
    machines of `Sender` and `Receiver`. */
module Protocol {
  import opened Wire
  import opened Device
  import opened Events
  import opened Codec
  import opened Reassembly
  import S = Sender
  import R = Receiver

  /** The serial device and the access lock, as used by one run. */
  class Line {
    var script: seq<Reply>
    ghost var log: Log

    constructor (script: seq<Reply>)
      ensures this.script == script && log == Nothing
    {
      this.script := script;
      log := Nothing;
    }

    ghost function View(): World
      reads this
    {
      World(script, log)
    }

    method Reply(op: Op) returns (r: Reply)
      modifies this
      ensures r == old(View()).Next() && View() == old(View()).After(op)
    {
      if script == [] {
        r := Error;
      } else {
        r := script[0];
        script := script[1..];
      }
      log := Then(log, Call(op, r));
    }

    method Do(ghost act: Act)
      modifies this`log
      ensures View() == old(View()).Do(act)
    {
      log := Then(log, act);
    }

    ghost method Begin()
      modifies this`log
      ensures log == Nothing
    {
      log := Nothing;
    }
  }

  class SendContext {
    var frames: seq<seq<byte>>
    var current: nat
    var result: bool

    constructor (frames: seq<seq<byte>>)
      ensures this.frames == frames && current == 0 && !result
    {
      this.frames := frames;
      current := 0;
      result := false;
    }

    method OnFrameCompleted()
      requires current + 1 < |frames|
      modifies this`current
      ensures current == old(current) + 1 && current < |frames|
    {
      current := current + 1;
      assert current < |frames|;
    }
  }

  class RecvContext {
    var frames: seq<seq<byte>>
    var current: nat
    var result: bool
    var kind: R.Kind
    var dataLength: nat
    var frameNumber: nat
    var totalFrames: nat

    constructor ()
      ensures View() == R.FRESH
    {
      frames := [[]];
      current := 0;
      result := false;
      kind := R.NotDefinedYet;
      dataLength := 0;
      frameNumber := 0;
      totalFrames := 0;
    }

    function View(): R.Context
      reads this
    {
      R.Context(frames, current, result, kind, dataLength, frameNumber, totalFrames)
    }

    method SetFrame(frame: seq<byte>)
      requires View().Valid()
      modifies this`frames
      ensures View() == old(View()).With(frame) && View().Valid()
    {
      frames := frames[current := frame];
    }

    method OnFrameCompleted()
      requires View().Valid()
      modifies this`frames, this`current
      ensures View() == old(View()).(frames := old(frames) + [[]], current := old(current) + 1) && View().Valid()
    {
      frames := frames + [[]];
      current := current + 1;
      assert current < |frames|;
    }
  }

  class Protocol {
    const checksum: Checksum
    const device: Line
    var r1: nat
    var r2: nat

    constructor (checksum: Checksum, device: Line)
      ensures this.checksum == checksum && this.device == device && r1 == 0 && r2 == 0
    {
      this.checksum := checksum;
      this.device := device;
      r1 := 0;
      r2 := 0;
    }

    // -------------------------------------------------------------- sending

    ghost function Sending(ctx: SendContext): S.Sender
      reads this, device, ctx
    {
      S.Sender(device.View(), r2, ctx.frames, ctx.current, ctx.result)
    }

    method SendIdle(ctx: SendContext) returns (e: Event)
      requires ctx.current < |ctx.frames|
      modifies `r2
      ensures (e, Sending(ctx)) == S.Handle(S.Idle, old(Sending(ctx)))
    {
      r2 := 0;
      return Pass;
    }

    method SendEnquiry(ctx: SendContext) returns (e: Event)
      requires ctx.current < |ctx.frames|
      modifies device
      ensures (e, Sending(ctx)) == S.Handle(S.Enquiry, old(Sending(ctx)))
    {
      device.Do(Lock);
      return Pass;
    }

    method SendReenquiry(ctx: SendContext) returns (e: Event)
      requires ctx.current < |ctx.frames|
      modifies device
      ensures (e, Sending(ctx)) == S.Handle(S.Reenquiry, old(Sending(ctx)))
    {
      var r := Success([]);
      while r.Success?
        invariant S.Drain(old(device.View())) == if r.Success? then S.Drain(device.View()) else (r, device.View())
        decreases |device.script|, r.Success?
      {
        r := device.Reply(Read(1));
      }
      if r.Timeout? {
        r := device.Reply(Write([ENQ]));
        e := if r.Success? then Pass else Fail;
      } else {
        e := Fail;
      }
    }

    method SendAcknowledgement(ctx: SendContext, ghost st: S.State) returns (e: Event)
      requires ctx.current < |ctx.frames| && (st == S.Ack || st == S.Ack2)
      modifies device
      ensures (e, Sending(ctx)) == S.Handle(st, old(Sending(ctx)))
    {
      var r := device.Reply(Read(1));
      match r
      case Success(data) =>
        var b := Fill(data, 1)[0];
        if b == ACK {
          e := Pass;
        } else if b == NAK {
          e := Busy;
        } else if b == ENQ {
          e := Wait;
        } else {
          e := Deny;
        }
      case Timeout => e := Deny;
      case Error => e := Fail;
    }

    method SendFrame(ctx: SendContext) returns (e: Event)
      requires ctx.current < |ctx.frames|
      modifies device
      ensures (e, Sending(ctx)) == S.Handle(S.Frame, old(Sending(ctx)))
    {
      var r := device.Reply(Write(ctx.frames[ctx.current]));
      e := if r.Success? then Pass else Fail;
    }

    method SendRetry(ctx: SendContext) returns (e: Event)
      requires ctx.current < |ctx.frames|
      modifies `r2, device
      ensures (e, Sending(ctx)) == S.Handle(S.Retry, old(Sending(ctx)))
    {
      r2 := r2 + 1;
      if r2 < S.MAX_SEND_ATTEMPTS {
        device.Do(Unlock);
        if r2 % S.ATTEMPTS_FOR_REINIT == 0 {
          device.Do(Reopen);
        }
        e := Pass;
      } else {
        e := Fail;
      }
    }

    method SendNak(ctx: SendContext) returns (e: Event)
      requires ctx.current < |ctx.frames|
      modifies device
      ensures (e, Sending(ctx)) == S.Handle(S.Nak, old(Sending(ctx)))
    {
      var r := device.Reply(Write([NAK]));
      e := if r.Success? then Pass else Fail;
    }

    method SendWait(ctx: SendContext) returns (e: Event)
      requires ctx.current < |ctx.frames|
      modifies device
      ensures (e, Sending(ctx)) == S.Handle(S.Waiting, old(Sending(ctx)))
    {
      device.Do(Unlock);
      return Pass;
    }

    method SendDone(ctx: SendContext) returns (e: Event)
      requires ctx.current < |ctx.frames|
      modifies ctx
      ensures (e, Sending(ctx)) == S.Handle(S.Done, old(Sending(ctx)))
    {
      if ctx.current < |ctx.frames| - 1 {
        ctx.OnFrameCompleted();
        return Wait;
      }
      ctx.result := true;
      return Pass;
    }

    method SendError(ctx: SendContext) returns (e: Event)
      requires ctx.current < |ctx.frames|
      modifies ctx
      ensures (e, Sending(ctx)) == S.Handle(S.Failed, old(Sending(ctx)))
    {
      ctx.result := false;
      return Pass;
    }

    method SendEnd(ctx: SendContext) returns (e: Event)
      requires ctx.current < |ctx.frames|
      modifies device
      ensures (e, Sending(ctx)) == S.Handle(S.End, old(Sending(ctx)))
    {
      device.Do(Unlock);
      return Pass;
    }

    /** Executes the handler of one state. */
    method SendStep(st: S.State, ctx: SendContext) returns (e: Event)
      requires ctx.current < |ctx.frames|
      modifies `r2, device, ctx
      ensures (e, Sending(ctx)) == S.Handle(st, old(Sending(ctx)))
    {
      match st
      case Idle => e := SendIdle(ctx);
      case Enquiry => e := SendEnquiry(ctx);
      case Reenquiry => e := SendReenquiry(ctx);
      case Ack => e := SendAcknowledgement(ctx, S.Ack);
      case Frame => e := SendFrame(ctx);
      case Ack2 => e := SendAcknowledgement(ctx, S.Ack2);
      case Retry => e := SendRetry(ctx);
      case Nak => e := SendNak(ctx);
      case Waiting => e := SendWait(ctx);
      case Done => e := SendDone(ctx);
      case Failed => e := SendError(ctx);
      case End => e := SendEnd(ctx);
    }

    /** Sends a message: the frames are prepared and the machine runs to its end. */
    method Send(data: seq<byte>) returns (sent: bool)
      requires 2 < |data| < 0x1_0000_0000
      modifies `r2, device
      ensures var s := S.Run(S.Idle, S.Start(old(device.script), Frames(checksum, data)));
              sent == s.result && r2 == s.r2 && device.View() == s.world
    {
      var frames := PrepareFrames(checksum, data);
      var ctx := new SendContext(frames);
      device.Begin();
      ghost var start := Sending(ctx);
      assert S.Run(S.Idle, start) == S.Run(S.Idle, S.Start(device.script, frames)) by {
        S.IdleForgets(start);
      }
      var st := S.Idle;
      while st != S.End
        invariant ctx.current < |ctx.frames|
        invariant S.Run(S.Idle, start) == S.Run(st, Sending(ctx))
        decreases S.Potential(st, Sending(ctx))
      {
        S.StepDescends(st, Sending(ctx));
        var e := SendStep(st, ctx);
        st := S.Next(st, e);
      }
      var _ := SendStep(st, ctx);
      return ctx.result;
    }

    // -------------------------------------------------------------- receiving

    ghost function Receiving(ctx: RecvContext): R.Receiver
      reads this, device, ctx
    {
      R.Receiver(device.View(), r1, ctx.View())
    }

    method RecvIdle(ctx: RecvContext) returns (e: Event)
      requires ctx.View().Valid()
      modifies `r1
      ensures (e, Receiving(ctx)) == R.Handle(checksum, R.Idle, old(Receiving(ctx)))
    {
      r1 := 0;
      return Pass;
    }

    method RecvPoll(ctx: RecvContext) returns (e: Event)
      requires ctx.View().Valid()
      modifies device
      ensures (e, Receiving(ctx)) == R.Handle(checksum, R.Polling, old(Receiving(ctx)))
    {
      var r := device.Reply(Poll);
      if r.Success? {
        device.Do(Lock);
        e := Pass;
      } else {
        e := Fail;
      }
    }

    method RecvRepoll(ctx: RecvContext) returns (e: Event)
      requires ctx.View().Valid()
      modifies device
      ensures (e, Receiving(ctx)) == R.Handle(checksum, R.Repoll, old(Receiving(ctx)))
    {
      device.Do(Unlock);
      return Pass;
    }

    method RecvEnquiry(ctx: RecvContext) returns (e: Event)
      requires ctx.View().Valid()
      modifies device
      ensures (e, Receiving(ctx)) == R.Handle(checksum, R.Enquiry, old(Receiving(ctx)))
    {
      var b: byte := 0;
      var deviceResult := device.Reply(Read(1));
      if deviceResult.Success? {
        b := Fill(deviceResult.data, 1)[0];
      }
      var r := deviceResult;
      while r.Success?
        invariant deviceResult.Success? ==> Fill([b], 1)[0] == b
        invariant if r.Success?
                  then deviceResult.Success? && R.Hear(old(device.View()), Timeout) == R.Hear(device.View(), Success([b]))
                  else R.Hear(old(device.View()), Timeout) == (if deviceResult.Success? then Success([b]) else deviceResult, device.View())
        decreases |device.script|, r.Success?
      {
        r := device.Reply(Read(1));
        if r.Success? {
          b := Fill(r.data, 1)[0];
        }
        if r.Timeout? {
          deviceResult := Success([b]);
        } else {
          deviceResult := r;
        }
      }
      match deviceResult
      case Success(_) =>
        if b == ENQ {
          e := Pass;
        } else if b == NAK {
          e := Busy;
        } else {
          e := Deny;
        }
      case Timeout => e := Busy;
      case Error => e := Fail;
    }

    method RecvAcknowledgement(ctx: RecvContext, ghost st: R.State) returns (e: Event)
      requires ctx.View().Valid() && (st == R.Ack || st == R.Ack2)
      modifies device
      ensures (e, Receiving(ctx)) == R.Handle(checksum, st, old(Receiving(ctx)))
    {
      var r := device.Reply(Write([ACK]));
      return if r.Success? then Pass else Fail;
    }

    method RecvNak(ctx: RecvContext) returns (e: Event)
      requires ctx.View().Valid()
      modifies device
      ensures (e, Receiving(ctx)) == R.Handle(checksum, R.Nak, old(Receiving(ctx)))
    {
      var r := device.Reply(Write([NAK]));
      return if r.Success? then Pass else Fail;
    }

    method RecvRetry(ctx: RecvContext) returns (e: Event)
      requires ctx.View().Valid()
      modifies `r1, ctx`frames
      ensures (e, Receiving(ctx)) == R.Handle(checksum, R.Retry, old(Receiving(ctx)))
    {
      r1 := r1 + 1;
      ctx.SetFrame([]);
      e := if r1 < R.MAX_RECV_ATTEMPTS then Pass else Fail;
    }

    method RecvControlCode(code: byte, ctx: RecvContext, ghost st: R.State) returns (e: Event)
      requires ctx.View().Valid() && ((st == R.Stx && code == STX) || (st == R.Etx && code == ETX))
      modifies device, ctx`frames
      ensures (e, Receiving(ctx)) == R.Handle(checksum, st, old(Receiving(ctx)))
    {
      var r := device.Reply(Read(1));
      match r
      case Success(data) =>
        var b := Fill(data, 1)[0];
        if b == code {
          ctx.SetFrame(ctx.frames[ctx.current] + [b]);
          e := Pass;
        } else {
          e := Deny;
        }
      case Timeout => e := Deny;
      case Error => e := Fail;
    }

    method RecvLength(ctx: RecvContext) returns (e: Event)
      requires ctx.View().Valid()
      modifies device, ctx
      ensures (e, Receiving(ctx)) == R.Handle(checksum, R.Len, old(Receiving(ctx)))
    {
      var r := device.Reply(Read(1));
      match r
      case Success(data) =>
        var b := Fill(data, 1)[0];
        if b == EXT_LEN {
          ctx.SetFrame(ctx.frames[ctx.current] + [b]);
          e := Pass;
        } else if MIN_FRAME_LENGTH <= b <= MAX_FRAME_LENGTH {
          ctx.kind := R.Regular;
          ctx.dataLength := b - FRAME_FOOTER_LENGTH;
          ctx.SetFrame(ctx.frames[ctx.current] + [b]);
          e := Pass;
        } else {
          e := Deny;
        }
      case Timeout => e := Deny;
      case Error => e := Fail;
    }

    /** Makes room for n bytes in the current frame and lets the device fill it. */
    method ReadField(ctx: RecvContext, n: nat) returns (r: Reply)
      requires ctx.View().Valid()
      modifies device, ctx`frames
      ensures r == old(device.View()).Next() && device.View() == old(device.View()).After(Read(n))
      ensures ctx.View() == R.Field(old(ctx.View()), n, r) && ctx.View().Valid()
    {
      var frame := ctx.frames[ctx.current];
      ctx.SetFrame(frame + Fill([], n));
      r := device.Reply(Read(n));
      if r.Success? {
        ctx.SetFrame(frame + Fill(r.data, n));
      }
      assert ctx.frames == old(ctx.frames)[ctx.current := frame + if r.Success? then Fill(r.data, n) else Fill([], n)];
    }

    method RecvDataCommand(ctx: RecvContext) returns (e: Event)
      requires ctx.View().Valid()
      modifies device, ctx`frames
      ensures (e, Receiving(ctx)) == R.Handle(checksum, R.DataCmd, old(Receiving(ctx)))
    {
      var r := ReadField(ctx, CMD_LENGTH);
      e := match r case Success(_) => Pass case Timeout => Deny case Error => Fail;
    }

    method RecvDataExtLen(ctx: RecvContext) returns (e: Event)
      requires ctx.View().Valid()
      modifies device, ctx
      ensures (e, Receiving(ctx)) == R.Handle(checksum, R.DataExtLen, old(Receiving(ctx)))
    {
      e := Pass;
      if ctx.kind != R.Regular {
        var r := ReadField(ctx, EXT_LEN_LENGTH);
        e := match r case Success(_) => Pass case Timeout => Deny case Error => Fail;
        if e == Pass {
          var length := Num24(Fill(r.data, EXT_LEN_LENGTH));
          ctx.dataLength := U32(length - FRAME_FOOTER_LENGTH);
          if length > MAX_EXTENDED_LENGTH || ctx.kind == R.Divided {
            ctx.kind := R.Divided;
          } else {
            ctx.kind := R.ExtendedLength;
          }
        }
      }
    }

    method RecvDataFrameNumber(ctx: RecvContext) returns (e: Event)
      requires ctx.View().Valid()
      modifies device, ctx
      ensures (e, Receiving(ctx)) == R.Handle(checksum, R.DataFrameNumber, old(Receiving(ctx)))
    {
      e := Pass;
      if ctx.kind == R.Divided {
        var r := ReadField(ctx, FRAME_NUMBER_LENGTH + TOTAL_FRAMES_LENGTH);
        e := match r case Success(_) => Pass case Timeout => Deny case Error => Fail;
        if e == Pass {
          var fields := Fill(r.data, FRAME_NUMBER_LENGTH + TOTAL_FRAMES_LENGTH);
          ctx.totalFrames := Num16(fields[2..4]);
          ctx.frameNumber := Num16(fields[..2]);
        }
      }
    }

    method RecvData(ctx: RecvContext) returns (e: Event)
      requires ctx.View().Valid()
      modifies device, ctx`frames
      ensures (e, Receiving(ctx)) == R.Handle(checksum, R.Data, old(Receiving(ctx)))
    {
      var size := ctx.dataLength;
      if ctx.kind == R.Regular {
        size := U32(size - CMD_LENGTH);
      } else if ctx.kind == R.ExtendedLength {
        size := U32(size - (CMD_LENGTH + EXT_LEN_LENGTH));
      } else {
        size := U32(size - (CMD_LENGTH + EXT_LEN_LENGTH + FRAME_NUMBER_LENGTH + TOTAL_FRAMES_LENGTH));
      }
      var r := ReadField(ctx, size);
      e := match r case Success(_) => Pass case Timeout => Deny case Error => Fail;
    }

    method RecvChecksum(ctx: RecvContext) returns (e: Event)
      requires ctx.View().Valid()
      modifies device, ctx`frames
      ensures (e, Receiving(ctx)) == R.Handle(checksum, R.Cs, old(Receiving(ctx)))
    {
      var calculated := checksum(R.Tail(ctx.frames[ctx.current]));
      var r := device.Reply(Read(1));
      match r
      case Success(data) =>
        var b := Fill(data, 1)[0];
        if b == calculated {
          ctx.SetFrame(ctx.frames[ctx.current] + [b]);
          e := Pass;
        } else {
          e := Deny;
        }
      case Timeout => e := Deny;
      case Error => e := Fail;
    }

    /** The last branch stands for the source's assertion failure; no run reaches it. */
    method RecvDone(ctx: RecvContext) returns (e: Event)
      requires ctx.View().Valid()
      modifies ctx
      ensures (e, Receiving(ctx)) == R.Handle(checksum, R.Done, old(Receiving(ctx)))
      ensures ctx.View().Valid()
    {
      if ctx.kind == R.Regular {
        ctx.result := true;
        e := Pass;
      } else if ctx.kind == R.ExtendedLength {
        ctx.result := true;
        e := Pass;
      } else if ctx.kind == R.Divided {
        if ctx.frameNumber == U32(ctx.totalFrames - 1) {
          ctx.result := true;
          e := Pass;
        } else {
          ctx.OnFrameCompleted();
          e := Wait;
        }
      } else {
        e := Fail;
      }
    }

    method RecvError(ctx: RecvContext) returns (e: Event)
      requires ctx.View().Valid()
      modifies ctx`result
      ensures (e, Receiving(ctx)) == R.Handle(checksum, R.Failed, old(Receiving(ctx)))
    {
      ctx.result := false;
      return Pass;
    }

    method RecvEnd(ctx: RecvContext) returns (e: Event)
      requires ctx.View().Valid()
      modifies device
      ensures (e, Receiving(ctx)) == R.Handle(checksum, R.End, old(Receiving(ctx)))
    {
      device.Do(Unlock);
      return Pass;
    }

    /** Executes the handler of one state. */
    method RecvStep(st: R.State, ctx: RecvContext) returns (e: Event)
      requires ctx.View().Valid()
      modifies `r1, device, ctx
      ensures (e, Receiving(ctx)) == R.Handle(checksum, st, old(Receiving(ctx)))
    {
      match st
      case Idle => e := RecvIdle(ctx);
      case Polling => e := RecvPoll(ctx);
      case Repoll => e := RecvRepoll(ctx);
      case Enquiry => e := RecvEnquiry(ctx);
      case Ack => e := RecvAcknowledgement(ctx, R.Ack);
      case Stx => e := RecvControlCode(STX, ctx, R.Stx);
      case Len => e := RecvLength(ctx);
      case DataCmd => e := RecvDataCommand(ctx);
      case DataExtLen => e := RecvDataExtLen(ctx);
      case DataFrameNumber => e := RecvDataFrameNumber(ctx);
      case Data => e := RecvData(ctx);
      case Etx => e := RecvControlCode(ETX, ctx, R.Etx);
      case Cs => e := RecvChecksum(ctx);
      case Ack2 => e := RecvAcknowledgement(ctx, R.Ack2);
      case Nak => e := RecvNak(ctx);
      case Retry => e := RecvRetry(ctx);
      case Done => e := RecvDone(ctx);
      case Failed => e := RecvError(ctx);
      case End => e := RecvEnd(ctx);
    }

    /** Receives a message: the machine runs to its end and the frames are put together. */
    method Receive() returns (received: Reception)
      modifies `r1, device
      ensures var m := R.Run(checksum, R.Idle, R.Start(old(device.script)));
              received == Received(checksum, old(device.script)) && r1 == m.r1 && device.View() == m.world
    {
      var ctx := new RecvContext();
      device.Begin();
      ghost var start := Receiving(ctx);
      assert R.Run(checksum, R.Idle, start) == R.Run(checksum, R.Idle, R.Start(device.script)) by {
        R.IdleForgets(checksum, start);
      }
      R.ReceiveRun(checksum, device.script);
      var st := R.Idle;
      while st != R.End
        invariant ctx.View().Valid()
        invariant R.Run(checksum, R.Idle, start) == R.Run(checksum, st, Receiving(ctx))
        decreases R.Potential(st, Receiving(ctx))
      {
        R.StepDescends(checksum, st, Receiving(ctx));
        var e := RecvStep(st, ctx);
        st := R.Next(st, e);
      }
      var _ := RecvStep(st, ctx);
      if ctx.result {
        var message := Extract(ctx.View());
        received := match message case Some(m) => Got(m) case None => Throws;
      } else {
        received := NoMessage;
      }
    }
  }
}
