/** The two ends of the link: commands with their data, packed into messages and checked on
    arrival. */
module Endpoint {
  import opened Wire
  import opened Codec
  import opened Device
  import opened RoundTrip
  import opened Reassembly
  import opened Rounds
  import opened StopAndWait
  import opened QuietLine
  import opened Protocol
  import S = Sender
  import R = Receiver

  const ADDRESS_VCPU: byte := 0x01
  const ADDRESS_MCPU: byte := 0x02

  function Codebit(sender: byte, receiver: byte): byte {
    (sender * 0x20 + receiver * 4) % 0x100
  }

  /** Codebit of messages sent to `address`. */
  function SendCodebit(address: byte): byte {
    Codebit(if address == ADDRESS_VCPU then ADDRESS_MCPU else ADDRESS_VCPU, address)
  }

  /** Codebit of messages received from `address`. */
  function ReceiveCodebit(address: byte): byte {
    Codebit(address, if address == ADDRESS_VCPU then ADDRESS_MCPU else ADDRESS_VCPU)
  }

  /** What the bits of a codebit say, for a processor whose peer has this address: who sends in the top
      three, who receives in the next three, and no division. The processor's own address is 2 if its
      peer is 1, and else 1. */
  lemma CodebitFields(address: byte)
    requires address < 8
    ensures var own := if address == 1 then 2 else 1;
            && Marks(SendCodebit(address), own, address) && Marks(ReceiveCodebit(address), address, own)
  {
  }

  predicate Marks(codebit: byte, sender: nat, receiver: nat) {
    codebit / 0x20 == sender && codebit / 4 % 8 == receiver && codebit % 4 == 0
  }

  /** The codebits on the wire between the two processors. */
  lemma CodebitValues()
    ensures SendCodebit(0x01) == 0x44 && ReceiveCodebit(0x01) == 0x28
    ensures SendCodebit(0x02) == 0x28 && ReceiveCodebit(0x02) == 0x44
  {
    CodebitFields(0x01);
    CodebitFields(0x02);
  }

  /** The two processors agree on the codebit of either direction, the directions differ, and no
      codebit carries a division flag. */
  lemma CodebitsMatch()
    ensures SendCodebit(ADDRESS_VCPU) == ReceiveCodebit(ADDRESS_MCPU)
    ensures SendCodebit(ADDRESS_MCPU) == ReceiveCodebit(ADDRESS_VCPU)
    ensures SendCodebit(ADDRESS_VCPU) != SendCodebit(ADDRESS_MCPU)
    ensures MoreFollow(SendCodebit(ADDRESS_VCPU)) != SendCodebit(ADDRESS_VCPU)
    ensures MoreFollow(SendCodebit(ADDRESS_MCPU)) != SendCodebit(ADDRESS_MCPU)
  {
    hide Or;
    OrTwo(SendCodebit(ADDRESS_VCPU));
    OrTwo(SendCodebit(ADDRESS_MCPU));
  }

  function Packed(command: Command, codebit: byte, data: seq<byte>): seq<byte> {
    [command.first, command.second, codebit] + data
  }

  method Pack(command: Command, codebit: byte, data: seq<byte>) returns (out: seq<byte>)
    ensures out == Packed(command, codebit, data)
  {
    out := [];
    out := out + [command.first];
    out := out + [command.second];
    out := out + [codebit];
    out := out + data;
  }

  /** A frame of this command, from and to whom the codebit says; only its division flags are the frame's own. */
  predicate Carries(f: seq<byte>, command: Command, codebit: byte) {
    |f| >= 5 && f[2] == command.first && f[3] == command.second && f[4] / 4 == codebit / 4
  }

  /** Every frame of a packed message carries its command and its addresses, and in an undivided
      message the codebit as it is. */
  lemma FramesCarry(cs: Checksum, command: Command, codebit: byte, data: seq<byte>)
    ensures var fs := Frames(cs, Packed(command, codebit, data));
            forall f <- fs :: Carries(f, command, codebit) && (|data| <= 1027 ==> f[4] == codebit)
  {
    hide Frames, IsPiece, Sealed, BigEndian;
    var d := Packed(command, codebit, data);
    if |d| <= 251 {
      RegularFrameBytes(cs, d);
      var f := Frames(cs, d)[0];
      assert f[2] == f[2..|d| + 2][0] && f[3] == f[2..|d| + 2][1] && f[4] == f[2..|d| + 2][2];
    } else if |d| <= 1030 {
      ExtendedFrameBytes(cs, d);
      var f := Frames(cs, d)[0];
      assert f[2] == f[2..5][0] && f[3] == f[2..5][1] && f[4] == f[2..5][2];
    } else {
      Fragmentation(cs, d);
      forall i | 0 <= i < |Frames(cs, d)| ensures Carries(Frames(cs, d)[i], command, codebit) {
        PieceCarries(Frames(cs, d)[i], d, i, |Frames(cs, d)|);
      }
    }
  }

  lemma PieceCarries(f: seq<byte>, d: seq<byte>, i: nat, n: nat)
    requires |d| >= 3 && IsPiece(f, d, i, n)
    ensures Carries(f, Command(d[0], d[1]), d[2])
  {
  }

  /** What is written in order is nothing but frames of the message. */
  lemma {:induction false} OnlyFrames(log: Log, frames: seq<seq<byte>>)
    requires S.InOrder(log, frames)
    ensures forall w <- Writes(log) :: |w| > 1 ==> w in frames
  {
    if log.Then? {
      OnlyFrames(log.before, frames);
    }
  }

  /** What reading an endpoint gives. The source unpacks without looking at the size of the message;
      a message too short for it is undefined behaviour. */
  datatype Reading = NoReading | Value(command: Command, data: seq<byte>) | Throws | Undefined

  function Accepted(received: Reception, codebit: byte): Reading {
    match received
    case NoMessage => NoReading
    case Throws => Reading.Throws
    case Got(m) =>
      if |m| < CMD_LENGTH then Undefined
      else if m[2] == codebit then Value(Command(m[0], m[1]), m[CMD_LENGTH..])
      else NoReading
  }

  /** A value is read exactly if what was received is that command and data packed with the expected codebit. */
  lemma AcceptedExactly(received: Reception, codebit: byte, command: Command, data: seq<byte>)
    ensures Accepted(received, codebit) == Value(command, data) <==> received == Got(Packed(command, codebit, data))
  {
    if received.Got? && |received.message| >= CMD_LENGTH {
      var m := received.message;
      assert m == [m[0], m[1], m[2]] + m[CMD_LENGTH..];
      assert Packed(command, codebit, data)[CMD_LENGTH..] == data;
    }
  }

  class CPU {
    const protocol: Protocol
    const sendCodebit: byte
    const receiveCodebit: byte

    constructor (protocol: Protocol, address: byte)
      ensures this.protocol == protocol
      ensures sendCodebit == SendCodebit(address) && receiveCodebit == ReceiveCodebit(address)
      ensures address < 8 ==>
                var own := if address == 1 then 2 else 1;
                Marks(sendCodebit, own, address) && Marks(receiveCodebit, address, own)
    {
      if address < 8 {
        CodebitFields(address);
      }
      this.protocol := protocol;
      sendCodebit := SendCodebit(address);
      receiveCodebit := ReceiveCodebit(address);
    }

    method Write(command: Command, data: seq<byte>) returns (sent: bool)
      requires |data| < 0x1_0000_0000 - CMD_LENGTH
      modifies protocol`r2, protocol.device
      ensures var frames := Frames(protocol.checksum, Packed(command, sendCodebit, data));
              var s := S.Run(S.Idle, S.Start(old(protocol.device.script), frames));
              && sent == s.result && protocol.device.View() == s.world
              && (sent <==> S.Acked(protocol.device.View().log) == frames)
      ensures forall w <- Writes(protocol.device.View().log) :: |w| > 1 ==>
                Carries(w, command, sendCodebit) && (|data| <= 1027 ==> w[4] == sendCodebit)
    {
      hide Frames, S.Run, Carries, S.InOrder, S.Acked;
      var message := Pack(command, sendCodebit, data);
      sent := protocol.Send(message);
      FramesCarry(protocol.checksum, command, sendCodebit, data);
      S.SendRun(old(protocol.device.script), Frames(protocol.checksum, message));
      OnlyFrames(protocol.device.View().log, Frames(protocol.checksum, message));
    }

    method Read() returns (reading: Reading)
      modifies protocol`r1, protocol.device
      ensures reading == Accepted(Received(protocol.checksum, old(protocol.device.script)), receiveCodebit)
      ensures protocol.device.View() == R.Run(protocol.checksum, R.Idle, R.Start(old(protocol.device.script))).world
    {
      var received := protocol.Receive();
      match received
      case NoMessage => reading := NoReading;
      case Throws => reading := Reading.Throws;
      case Got(m) =>
        if |m| < CMD_LENGTH {
          reading := Undefined;
        } else {
          var command := Command(m[0], m[1]);
          var codebit := m[2];
          var data := m[CMD_LENGTH..];
          reading := if codebit == receiveCodebit then Value(command, data) else NoReading;
        }
    }
  }

  /** What the M-CPU reads of the command and data that its peer writes on a quiet line. */
  function QuietReading(cs: Checksum, command: Command, data: seq<byte>): Reading {
    Accepted(Received(cs, QuietReceive(cs, ToVCPU(command, data))), ReceiveCodebit(ADDRESS_MCPU))
  }

  function ToVCPU(command: Command, data: seq<byte>): seq<byte> {
    Packed(command, SendCodebit(ADDRESS_VCPU), data)
  }

  /** What one endpoint writes the other reads, exactly up to 1024 bytes of data. Longer data that is
      divided is refused, because the delivered codebit carries the division flag. The writer is told
      in every case that all went well. */
  lemma EndpointDelivery(cs: Checksum, command: Command, data: seq<byte>)
    ensures var d := ToVCPU(command, data); S.Run(S.Idle, S.Start(QuietSend(cs, d), Frames(cs, d))).result
    ensures QuietReading(cs, command, data) == Value(command, data) <==> |data| <= 1024
    ensures |data| >= 1028 ==> !QuietReading(cs, command, data).Value?
  {
    hide Sent, MoreFollow, FrameCount, S.Run, QuietSend, QuietReceive, Received, Frames;
    var d := ToVCPU(command, data);
    assert d[CMD_LENGTH..] == data;
    CodebitsMatch();
    CodecRoundTrip(cs, d);
    QuietDelivery(cs, d);
  }

  /** Between 1025 and 1027 bytes the receiver takes the first four bytes of the data for a frame
      number and a total. If they read as frame 0 of 1, the rest of the data, short of its last two
      bytes, is read as if it were what was written. */
  lemma WrongDelivery(cs: Checksum, command: Command, data: seq<byte>)
    requires 1025 <= |data| <= 1027 && data[..4] == [0, 0, 0, 1]
    ensures QuietReading(cs, command, data) == Value(command, data[4..|data| - 2])
  {
    hide Collect, Frames, Num16, Codebit, Or, MoreFollow, SendCodebit, ReceiveCodebit, S.Run, Received, QuietReceive;
    var d := ToVCPU(command, data);
    CodebitsMatch();
    GapMessage(cs, d);
    QuietDelivery(cs, d);
    Behind([command.first, command.second, SendCodebit(ADDRESS_VCPU)], data);
    SmallNumbers();
  }

  /** Where the data of a packed message is, and what is left of it without its first four bytes and
      its last two. */
  lemma Behind(header: seq<byte>, data: seq<byte>)
    requires |header| == CMD_LENGTH && |data| >= 6 && data[..4] == [0, 0, 0, 1]
    ensures var d := header + data; var m := d[..3] + d[7..|d| - 2];
            && d[3..5] == [0, 0] && d[5..7] == [0, 1]
            && m[..CMD_LENGTH] == header && m[CMD_LENGTH..] == data[4..|data| - 2]
  {
    var d := header + data;
    assert data == data[..4] + data[4..];
    assert d[3..7] == [0, 0, 0, 1];
    assert d[3..5] == d[3..7][..2] && d[5..7] == d[3..7][2..];
    assert d[7..|d| - 2] == data[4..|data| - 2];
  }

  lemma SmallNumbers()
    ensures Num16([0, 0]) == 0 && Num16([0, 1]) == 1
  {
  }

  /** The same over a line that loses and damages, within the attempts of both sides. */
  lemma EndpointDeliveryOverLine(cs: Checksum, command: Command, data: seq<byte>, rounds: seq<Round>,
                                 sendRest: seq<Reply>, recvRest: seq<Reply>)
    requires |data| <= 1024 && Exchange(cs, Frames(cs, ToVCPU(command, data)), 0, rounds) && NoLastAckLost(rounds)
    requires TotalRetries(rounds) < S.MAX_SEND_ATTEMPTS && TotalDenials(rounds) < R.MAX_RECV_ATTEMPTS
    ensures S.Run(S.Idle, S.Start(SendScript(rounds) + sendRest, Frames(cs, ToVCPU(command, data)))).result
    ensures var script := RecvScript(cs, Frames(cs, ToVCPU(command, data)), R.Polling, R.FRESH, 0, rounds) + recvRest;
            Accepted(Received(cs, script), ReceiveCodebit(ADDRESS_MCPU)) == Value(command, data)
  {
    hide S.Run, R.Run, RecvScript, Exchange, Frames, Received, SendScript, AllClose;
    var d := ToVCPU(command, data);
    assert d[CMD_LENGTH..] == data;
    CodebitsMatch();
    StopAndWait.StopAndWait(cs, d, rounds, sendRest, recvRest);
  }
}
