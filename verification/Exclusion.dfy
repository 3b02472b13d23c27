/** Mutual exclusion: a sending and a receiving thread that share one device and one lock. */
module Exclusion {
  import opened Wire
  import opened Device
  import opened Codec
  import S = Sender
  import R = Receiver

  datatype Thread = SendThread | RecvThread

  /** What both threads have done, in the order in which it happened, latest outermost. */
  datatype History = Start | And(before: History, who: Thread, act: Act)

  /** One thread's own view of a history. */
  function Of(h: History, t: Thread): Log {
    if h.Start? then Nothing
    else if h.who == t then Then(Of(h.before, t), h.act)
    else Of(h.before, t)
  }

  /** Whose session the history is in: who locked last and has not been unlocked since. */
  function Owner(h: History): Option<Thread> {
    if h.Start? then None
    else match h.act
         case Lock => Some(h.who)
         case Unlock => None
         case _ => Owner(h.before)
  }

  /** The mutex lets a thread lock only while nobody owns it. Nothing else is ruled out. */
  predicate Feasible(h: History) {
    h.And? ==> Feasible(h.before) && (h.act.Lock? ==> Owner(h.before) == None)
  }

  /** Reads, writes and unlocks are all done by the thread whose session it is. */
  predicate Exclusive(h: History) {
    h.And? ==>
      && Exclusive(h.before)
      && ((h.act.Call? && !h.act.op.Poll?) || h.act.Unlock? ==> Owner(h.before) == Some(h.who))
  }

  lemma {:induction false} DisciplineExcludes(h: History)
    requires Feasible(h) && Disciplined(Of(h, SendThread)) && Disciplined(Of(h, RecvThread))
    ensures Exclusive(h)
    ensures forall t :: Owner(h) == Some(t) <==> Holds(Of(h, t))
  {
    if h.And? {
      DisciplineExcludes(h.before);
    }
  }

  // ---------------------------------------------------------------- any number of runs

  /** The log of a thread that sends one message after another. */
  function SendLog(cs: Checksum, runs: seq<(seq<byte>, seq<Reply>)>): Log {
    if runs == [] then Nothing
    else
      var (d, script) := runs[|runs| - 1];
      Append(SendLog(cs, runs[..|runs| - 1]), S.Run(S.Idle, S.Start(script, Frames(cs, d))).world.log)
  }

  /** The log of a thread that receives one message after another. */
  function RecvLog(cs: Checksum, runs: seq<seq<Reply>>): Log {
    if runs == [] then Nothing
    else Append(RecvLog(cs, runs[..|runs| - 1]), R.Run(cs, R.Idle, R.Start(runs[|runs| - 1])).world.log)
  }

  predicate NoPollFails(cs: Checksum, runs: seq<seq<Reply>>) {
    forall i :: 0 <= i < |runs| ==> R.PollsSucceed(R.Run(cs, R.Idle, R.Start(runs[i])).world.log)
  }

  lemma {:induction false} SendLogDisciplined(cs: Checksum, runs: seq<(seq<byte>, seq<Reply>)>)
    ensures Disciplined(SendLog(cs, runs)) && !Holds(SendLog(cs, runs))
  {
    if runs != [] {
      var (d, script) := runs[|runs| - 1];
      SendLogDisciplined(cs, runs[..|runs| - 1]);
      S.SendRun(script, Frames(cs, d));
      AppendDisciplined(SendLog(cs, runs[..|runs| - 1]), S.Run(S.Idle, S.Start(script, Frames(cs, d))).world.log);
    }
  }

  lemma {:induction false} RecvLogDisciplined(cs: Checksum, runs: seq<seq<Reply>>)
    requires NoPollFails(cs, runs)
    ensures Disciplined(RecvLog(cs, runs)) && !Holds(RecvLog(cs, runs))
  {
    if runs != [] {
      var front, last := runs[..|runs| - 1], runs[|runs| - 1];
      assert forall i :: 0 <= i < |front| ==> front[i] == runs[i];
      RecvLogDisciplined(cs, front);
      R.ReceiveRun(cs, last);
      AppendDisciplined(RecvLog(cs, front), R.Run(cs, R.Idle, R.Start(last)).world.log);
    }
  }

  /** A history of two threads that are each somewhere in their runs. */
  predicate Interleaves(cs: Checksum, h: History, sends: seq<(seq<byte>, seq<Reply>)>, receives: seq<seq<Reply>>) {
    && Feasible(h)
    && IsPrefix(Of(h, SendThread), SendLog(cs, sends))
    && IsPrefix(Of(h, RecvThread), RecvLog(cs, receives))
  }

  /** As long as no poll fails, every interleaving of any sends with any receives keeps the bytes of
      one direction out of the sessions of the other. */
  lemma MutualExclusion(cs: Checksum, h: History, sends: seq<(seq<byte>, seq<Reply>)>, receives: seq<seq<Reply>>)
    requires Interleaves(cs, h, sends, receives)
    requires NoPollFails(cs, receives)
    ensures Exclusive(h)
  {
    SendLogDisciplined(cs, sends);
    RecvLogDisciplined(cs, receives);
    PrefixDisciplined(Of(h, SendThread), SendLog(cs, sends));
    PrefixDisciplined(Of(h, RecvThread), RecvLog(cs, receives));
    DisciplineExcludes(h);
  }

  // ---------------------------------------------------------------- a failed poll

  /** A history in which one thread is alone. */
  function Alone(log: Log, t: Thread): History {
    if log.Nothing? then Start else And(Alone(log.before, t), t, log.act)
  }

  lemma {:induction false} AloneIsFeasible(log: Log, t: Thread, u: Thread)
    requires Disciplined(log) && t != u
    ensures var h := Alone(log, t);
            Feasible(h) && Of(h, t) == log && Of(h, u) == Nothing && Owner(h) == if Holds(log) then Some(t) else None
  {
    if log.Then? {
      AloneIsFeasible(log.before, t, u);
    }
  }

  lemma {:induction false} AppendExtends(a: Log, b: Log)
    ensures IsPrefix(a, Append(a, b))
  {
    if b.Then? {
      AppendExtends(a, b.before);
    }
  }

  lemma AppendNothing(b: Log)
    ensures Append(Nothing, b) == b
  {
  }

  /** The first thing any send does is to lock. */
  lemma RunLocksFirst(script: seq<Reply>, frames: seq<seq<byte>>)
    requires frames != []
    ensures IsPrefix(Then(Nothing, Lock), S.Run(S.Idle, S.Start(script, frames)).world.log)
  {
    var s := S.Start(script, frames);
    S.RunExtends(S.Reenquiry, s.Do(Lock));
    assert S.Run(S.Idle, s) == S.Run(S.Enquiry, s) == S.Run(S.Reenquiry, s.Do(Lock));
  }

  lemma {:induction false} SendLocksFirst(cs: Checksum, sends: seq<(seq<byte>, seq<Reply>)>)
    requires sends != []
    ensures IsPrefix(Then(Nothing, Lock), SendLog(cs, sends))
  {
    hide S.Run, IsPrefix, Append;
    var front := sends[..|sends| - 1];
    var (d, script) := sends[|sends| - 1];
    var log := S.Run(S.Idle, S.Start(script, Frames(cs, d))).world.log;
    if front == [] {
      RunLocksFirst(script, Frames(cs, d));
      AppendNothing(log);
    } else {
      SendLocksFirst(cs, front);
      AppendExtends(SendLog(cs, front), log);
      PrefixTransitive(Then(Nothing, Lock), SendLog(cs, front), SendLog(cs, sends));
    }
  }

  /** Earlier receives come first. */
  lemma {:induction false} RecvLogGrows(cs: Checksum, receives: seq<seq<Reply>>, k: nat)
    requires k <= |receives|
    ensures IsPrefix(RecvLog(cs, receives[..k]), RecvLog(cs, receives))
  {
    hide R.Run, Append;
    if k == |receives| {
      assert receives[..k] == receives;
    } else {
      var front := receives[..|receives| - 1];
      RecvLogGrows(cs, front, k);
      assert front[..k] == receives[..k];
      AppendExtends(RecvLog(cs, front), R.Run(cs, R.Idle, R.Start(receives[|receives| - 1])).world.log);
      PrefixTransitive(RecvLog(cs, receives[..k]), RecvLog(cs, front), RecvLog(cs, receives));
    }
  }

  lemma {:induction false} FirstFailure(cs: Checksum, receives: seq<seq<Reply>>) returns (i: nat)
    requires !NoPollFails(cs, receives)
    ensures i < |receives| && NoPollFails(cs, receives[..i])
    ensures !R.PollsSucceed(R.Run(cs, R.Idle, R.Start(receives[i])).world.log)
  {
    hide R.Run;
    var front := receives[..|receives| - 1];
    if NoPollFails(cs, front) {
      i := |front|;
      assert forall j :: 0 <= j < |front| ==> front[j] == receives[j];
    } else {
      i := FirstFailure(cs, front);
      assert front[..i] == receives[..i] && front[i] == receives[i];
    }
  }

  /** What the receiving thread has done when a poll has just failed: everything but the unlocking, all
      of it in order, and without the lock. */
  lemma FailedReceive(cs: Checksum, receives: seq<seq<Reply>>) returns (before: Log)
    requires !NoPollFails(cs, receives)
    ensures Disciplined(before) && !Holds(before)
    ensures IsPrefix(Then(before, Unlock), RecvLog(cs, receives))
  {
    hide R.Run;
    var i := FirstFailure(cs, receives);
    var front := receives[..i];
    var log := R.Run(cs, R.Idle, R.Start(receives[i])).world.log;
    RecvLogDisciplined(cs, front);
    R.ReceiveRun(cs, receives[i]);
    before := Append(RecvLog(cs, front), log.before);
    AppendDisciplined(RecvLog(cs, front), log.before);
    assert receives[..i + 1][..i] == front && receives[..i + 1][i] == receives[i];
    assert RecvLog(cs, receives[..i + 1]) == Append(RecvLog(cs, front), log) == Then(before, Unlock);
    RecvLogGrows(cs, receives, i + 1);
  }

  /** A receive whose poll fails releases, at its end, a lock that a sender may have taken. */
  lemma FailedPollBreaksIn(cs: Checksum, sends: seq<(seq<byte>, seq<Reply>)>, receives: seq<seq<Reply>>)
    returns (h: History)
    requires sends != [] && !NoPollFails(cs, receives)
    ensures Interleaves(cs, h, sends, receives) && !Exclusive(h)
  {
    hide RecvLog, SendLog, NoPollFails;
    var before := FailedReceive(cs, receives);
    AloneIsFeasible(before, RecvThread, SendThread);
    var locked := And(Alone(before, RecvThread), SendThread, Lock);
    h := And(locked, RecvThread, Unlock);
    assert Feasible(locked) && Of(locked, RecvThread) == before && Of(locked, SendThread) == Then(Nothing, Lock);
    SendLocksFirst(cs, sends);
    assert Of(h, SendThread) == Then(Nothing, Lock) && Of(h, RecvThread) == Then(before, Unlock);
    assert h.act.Unlock? && Owner(h.before) == Some(SendThread);
  }

  /** For any messages sent, at least one, and any receives: exclusion is guaranteed in every
      interleaving exactly when no poll fails. */
  lemma ExclusionExactly(cs: Checksum, sends: seq<(seq<byte>, seq<Reply>)>, receives: seq<seq<Reply>>)
    requires sends != []
    ensures (forall h :: Interleaves(cs, h, sends, receives) ==> Exclusive(h)) <==> NoPollFails(cs, receives)
  {
    hide Interleaves, Exclusive;
    if NoPollFails(cs, receives) {
      forall h | Interleaves(cs, h, sends, receives) ensures Exclusive(h) {
        MutualExclusion(cs, h, sends, receives);
      }
    } else {
      var h := FailedPollBreaksIn(cs, sends, receives);
    }
  }
}
