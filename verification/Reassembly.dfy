/** The receiving half of the frame codec: from the frames of a finished run to the message. */
module Reassembly {
  import opened Wire
  import opened Device
  import opened Codec
  import opened Receiver

  /** The message in a completed context; None where the source indexes past the received frames. */
  function Message(c: Context): Option<seq<byte>>
    requires Ready(c)
  {
    var f := c.Frame();
    if c.kind.Divided? then
      if c.totalFrames > |c.frames| then None
      else
        var joined := c.frames[0][2..5] + JoinPayloads(c.frames[..c.totalFrames]);
        Some(if c.totalFrames == 1 then joined[..|joined| - 2] else joined)
    else if c.kind.ExtendedLength? then Some(f[2..5] + f[8..|f| - 2])
    else Some(f[2..|f| - 2])
  }

  /** Joins the payloads of a divided message. The footer of the last frame is left on; a divided
      message of one single frame loses it here already. */
  method JoinFrames(c: Context) returns (joined: Option<seq<byte>>)
    requires Ready(c) && c.kind.Divided?
    ensures joined.None? <==> c.totalFrames > |c.frames|
    ensures c.totalFrames <= |c.frames| ==> joined == Some(Joined(c, c.totalFrames))
  {
    var data: seq<byte> := [];
    var i := 0;
    while i < c.totalFrames
      invariant 0 <= i <= c.totalFrames && i <= |c.frames|
      invariant i > 0 ==> data == Joined(c, i)
    {
      if i >= |c.frames| {
        return None;
      }
      if i == 0 {
        data := c.frames[i];
        data := data[..5] + data[12..];
        data := data[..|data| - 2];
        JoinedFirst(c);
      } else {
        var frame := c.frames[i];
        var end := |frame| - 2;
        if i == c.totalFrames - 1 {
          end := |frame|;
        }
        data := data + frame[12..end];
        JoinedNext(c, i);
      }
      i := i + 1;
    }
    return Some(data);
  }

  /** The joined data after i frames, still with its two header bytes. */
  function Joined(c: Context, i: nat): seq<byte>
    requires Ready(c) && c.kind.Divided? && 0 < i <= |c.frames|
  {
    var f := c.frames[i - 1];
    c.frames[0][..5] + JoinPayloads(c.frames[..i])
    + if i == c.totalFrames && i > 1 then f[|f| - 2..] else []
  }

  lemma JoinedFirst(c: Context)
    requires Ready(c) && c.kind.Divided? && c.totalFrames >= 1
    ensures var f := c.frames[0]; var data := f[..5] + f[12..]; Joined(c, 1) == data[..|data| - 2]
  {
    var f := c.frames[0];
    assert c.frames[..1] == [f];
    assert JoinPayloads([f]) == JoinPayloads([]) + PayloadOf(f);
  }

  lemma JoinedNext(c: Context, i: nat)
    requires Ready(c) && c.kind.Divided? && 0 < i < c.totalFrames && i < |c.frames|
    ensures var f := c.frames[i];
            Joined(c, i + 1) == Joined(c, i) + f[12..if i == c.totalFrames - 1 then |f| else |f| - 2]
  {
    var f := c.frames[i];
    assert c.frames[..i + 1][..i] == c.frames[..i];
    assert f[12..] == PayloadOf(f) + f[|f| - 2..];
  }

  /** Strips the frames in place. */
  method Extract(c: Context) returns (message: Option<seq<byte>>)
    requires Ready(c)
    ensures message == Message(c)
  {
    var data: seq<byte>;
    if c.kind.Divided? {
      var joined := JoinFrames(c);
      if joined.None? {
        return None;
      }
      data := joined.value;
      JoinedIsMessage(c, data);
    } else if c.kind.ExtendedLength? {
      data := c.Frame();
      data := data[..5] + data[8..];
      assert data[2..][..|data| - 4] == c.Frame()[2..5] + c.Frame()[8..|c.Frame()| - 2];
    } else {
      data := c.Frame();
      assert data[2..][..|data| - 4] == c.Frame()[2..|c.Frame()| - 2];
    }
    data := data[2..];
    data := data[..|data| - 2];
    return Some(data);
  }

  lemma JoinedIsMessage(c: Context, data: seq<byte>)
    requires Ready(c) && c.kind.Divided? && c.totalFrames <= |c.frames|
    requires data == Joined(c, c.totalFrames)
    ensures |data| >= 4 && Message(c) == Some(data[2..][..|data| - 4])
  {
    var n := c.totalFrames;
    var joined := c.frames[0][2..5] + JoinPayloads(c.frames[..n]);
    var head := c.frames[0][..5] + JoinPayloads(c.frames[..n]);
    assert head[2..] == joined;
    if n > 1 {
      assert data[2..] == joined + c.frames[n - 1][|c.frames[n - 1]| - 2..];
    } else {
      assert data == head;
    }
  }

  /** What `receive` reports; indexing past the received frames throws. */
  datatype Reception = NoMessage | Got(message: seq<byte>) | Throws

  /** What `receive` reports on a device with this script. */
  function Received(cs: Checksum, script: seq<Reply>): Reception {
    ReceiveRun(cs, script);
    var m := Run(cs, Idle, Start(script));
    if !m.ctx.result then NoMessage
    else match Message(m.ctx)
         case Some(message) => Got(message)
         case None => Throws
  }
}
