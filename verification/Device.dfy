/** The serial device and the access lock, as one thread meets them: replies come from a script
    that nobody controls, and everything the thread does is logged. */
module Device {
  import opened Wire

  datatype Reply = Success(data: seq<byte>) | Timeout | Error

  /** `Read(n)` stands for `read` (n == 1) and `readMulti`. */
  datatype Op = Read(n: nat) | Write(bytes: seq<byte>) | Poll

  /** `Reopen` is a close followed by an open. */
  datatype Act = Call(op: Op, reply: Reply) | Lock | Unlock | Reopen

  /** The bytes a successful read of n bytes delivers: whatever the script says, padded or cut to
      the size of the caller's buffer. */
  function Fill(data: seq<byte>, n: nat): (filled: seq<byte>)
    ensures |filled| == n
    ensures |data| == n ==> filled == data
  {
    seq(n, i requires 0 <= i < n => if i < |data| then data[i] else 0)
  }

  /** A read of one byte that delivers this one. */
  predicate Hears(r: Reply, b: byte) {
    r.Success? && Fill(r.data, 1)[0] == b
  }

  /** What a thread has done, latest act outermost. */
  datatype Log = Nothing | Then(before: Log, act: Act)

  datatype World = World(script: seq<Reply>, log: Log) {

    /** The reply to the next call. A device whose script has run out keeps failing. */
    function Next(): Reply {
      if script == [] then Error else script[0]
    }

    function Rest(): seq<Reply> {
      if script == [] then [] else script[1..]
    }

    function After(op: Op): World {
      World(Rest(), Then(log, Call(op, Next())))
    }

    function Do(act: Act): World {
      World(script, Then(log, act))
    }
  }

  /** Everything the thread has written, in order. */
  function Writes(log: Log): seq<seq<byte>> {
    if log.Nothing? then []
    else if log.act.Call? && log.act.op.Write? then Writes(log.before) + [log.act.op.bytes]
    else Writes(log.before)
  }

  // ---------------------------------------------------------------- lock discipline

  /** Does the thread hold the lock after this log? */
  predicate Holds(log: Log) {
    log.Then? && (log.act.Lock? || (!log.act.Unlock? && Holds(log.before)))
  }

  /** What a thread may do, given whether it holds the lock: reads and writes only while holding
      it, unlock only what it holds, never lock twice, reopen the port only outside. */
  predicate Allowed(holds: bool, act: Act) {
    match act
    case Call(Poll, _) => true
    case Call(_, _) => holds
    case Lock => !holds
    case Unlock => holds
    case Reopen => !holds
  }

  predicate Disciplined(log: Log) {
    log.Then? ==> Disciplined(log.before) && Allowed(Holds(log.before), log.act)
  }

  /** The log of an earlier moment. */
  predicate IsPrefix(early: Log, late: Log) {
    early == late || (late.Then? && IsPrefix(early, late.before))
  }

  lemma {:induction false} PrefixTransitive(a: Log, b: Log, c: Log)
    requires IsPrefix(a, b) && IsPrefix(b, c)
    ensures IsPrefix(a, c)
    decreases c
  {
    if b != c {
      PrefixTransitive(a, b, c.before);
    }
  }

  lemma {:induction false} PrefixDisciplined(early: Log, late: Log)
    requires IsPrefix(early, late) && Disciplined(late)
    ensures Disciplined(early)
    decreases late
  {
    if early != late {
      PrefixDisciplined(early, late.before);
    }
  }

  /** One run after another. */
  function Append(a: Log, b: Log): Log {
    if b.Nothing? then a else Then(Append(a, b.before), b.act)
  }

  lemma {:induction false} AppendDisciplined(a: Log, b: Log)
    requires Disciplined(a) && !Holds(a) && Disciplined(b)
    ensures Disciplined(Append(a, b)) && Holds(Append(a, b)) == Holds(b)
  {
    if b.Then? {
      AppendDisciplined(a, b.before);
    }
  }
}
