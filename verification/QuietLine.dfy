/** The machines over a line that loses nothing, for every message, those that cannot be delivered
    included. */
module QuietLine {
  import opened Wire
  import opened Device
  import opened Events
  import opened Codec
  import opened FrameParser
  import opened Reassembly
  import opened RoundTrip
  import opened Rounds
  import opened StopAndWait
  import S = Sender
  import R = Receiver

  /** What the devices reply on a quiet line. */
  function QuietSend(cs: Checksum, d: seq<byte>): seq<Reply> {
    SendScript(QuietRounds(|Frames(cs, d)|))
  }

  function QuietReceive(cs: Checksum, d: seq<byte>): seq<Reply> {
    assert R.FRESH.Valid();
    RecvScript(cs, Frames(cs, d), R.Polling, R.FRESH, 0, QuietRounds(|Frames(cs, d)|))
  }

  /** The line has nothing more to say and the message is not complete. */
  lemma Starves(cs: Checksum, st: R.State, m: R.Receiver)
    requires m.ctx.Valid() && (st == R.Polling || st == R.Enquiry) && m.world.script == []
    ensures ReceptionOf(R.Run(cs, st, m).ctx) == NoMessage
  {
    hide R.Run;
    Unroll(cs, st, m);
    var n := R.Handle(cs, st, m).1;
    Unroll(cs, R.Failed, n);
    EndYields(cs, R.Handle(cs, R.Failed, n).1);
  }

  /** The receiver on a quiet line does with the frames what collecting them does. */
  lemma {:induction false} CollectsAll(cs: Checksum, st: R.State, m: R.Receiver, fs: seq<seq<byte>>, k: nat)
    requires m.ctx.Valid() && m.ctx.Frame() == [] && (st == R.Polling || st == R.Enquiry) && m.r1 == 0
    requires k <= |fs| && Collect(cs, m.ctx, fs[k..]) != Rejected
    requires m.world.script == RecvScript(cs, fs, st, m.ctx, k, QuietRounds(|fs| - k))
    ensures ReceptionOf(R.Run(cs, st, m).ctx) == AsReception(Collect(cs, m.ctx, fs[k..]))
    decreases |fs| - k
  {
    hide R.Run, R.Complete, RecvScript, RecvReplies, Parse, WellFormed, Writes, Deliver, NextState, NextContext, Collect;
    hide ReceptionOf, ReceiverWrites;
    if k == |fs| {
      NothingCollected(cs, st, m.ctx, fs);
      Starves(cs, st, m);
    } else {
      var r, f, rounds := Round([], [], [], Fate.Delivered), fs[k], QuietRounds(|fs| - k);
      assert rounds[0] == r && rounds[1..] == QuietRounds(|fs| - (k + 1));
      CollectedNext(cs, m.ctx, fs, k);
      RecvScriptUnfolds(cs, fs, st, m.ctx, k, rounds);
      RoundLeads(cs, st, m.ctx, r, f);
      Acceptance(cs, m.ctx, f);
      var more := RecvScript(cs, fs, NextState(cs, st, m.ctx, r, f), NextContext(cs, m.ctx, f, r.fate), k + 1, rounds[1..]);
      var n := RecvRound(cs, st, m, r, f, more);
      if Taking(cs, m.ctx, f).0 == Wait {
        CollectsAll(cs, R.Enquiry, n, fs, k + 1);
      } else {
        EndYields(cs, n);
      }
    }
  }

  lemma NothingCollected(cs: Checksum, st: R.State, c: R.Context, fs: seq<seq<byte>>)
    requires c.Valid() && c.Frame() == []
    ensures AsReception(Collect(cs, c, fs[|fs|..])) == NoMessage && RecvScript(cs, fs, st, c, |fs|, []) == []
  {
    assert fs[|fs|..] == [];
  }

  /** What a frame that is not rejected does to the collection. */
  lemma CollectedNext(cs: Checksum, c: R.Context, fs: seq<seq<byte>>, k: nat)
    requires c.Valid() && c.Frame() == [] && k < |fs| && Collect(cs, c, fs[k..]) != Rejected
    ensures Parse(cs, R.Stx, c, fs[k]).verdict == Pass
    ensures var (e, n) := Taking(cs, c, fs[k]);
            if e == Wait then n.Frame() == [] && Collect(cs, c, fs[k..]) == Collect(cs, n, fs[k + 1..])
            else e == Pass && ReceptionOf(n) == AsReception(Collect(cs, c, fs[k..]))
  {
    hide Parse, Deliver;
    assert fs[k..][0] == fs[k] && fs[k..][1..] == fs[k + 1..];
  }

  /** On a quiet line `send` succeeds for every message, and `receive` reports what its frames, parsed
      and put together, make. */
  lemma QuietDelivery(cs: Checksum, d: seq<byte>)
    requires |d| >= CMD_LENGTH
    ensures S.Run(S.Idle, S.Start(QuietSend(cs, d), Frames(cs, d))).result
    ensures Received(cs, QuietReceive(cs, d)) == AsReception(Sent(cs, d))
  {
    hide S.Run, R.Run, RecvScript, SendScript, Frames, Collect, Received, ReceptionOf, Exchange, TotalRetries;
    var fs := Frames(cs, d);
    QuietExchange(cs, fs, 0);
    SenderSide(cs, fs, QuietRounds(|fs|), []);
    assert SendScript(QuietRounds(|fs|)) + [] == SendScript(QuietRounds(|fs|));
    CodecRoundTrip(cs, d);
    var m := R.Start(QuietReceive(cs, d));
    BeginsPolling(cs, m);
    assert fs[0..] == fs;
    CollectsAll(cs, R.Polling, m, fs, 0);
    ReceivedIs(cs, QuietReceive(cs, d));
  }
}
