/** The broker as data: who has subscribed to what, which requests wait for an answer, and the steps
    that change it. A step is what a handler does while it holds one of the two mutexes, or the
    sending of one message, so every sequence of steps is an interleaving of the handlers. */
module Broker {
  import opened Wire

  type Session = nat
  type Id = nat

  datatype Pending = Pending(id: Id, command: Command, session: Session)

  /** What the broker tells a client. */
  datatype Message =
    | Notification(command: Command, data: seq<byte>)
    | Response(id: Id, data: seq<byte>)
    | DeliveryStatus(id: Id, delivered: bool)
    | SendFailed(command: Command)

  datatype Envelope = Envelope(session: Session, message: Message)

  /** Where the thread that serves the V-CPU stands between its two locked sections. */
  datatype Phase =
    | Waiting
    | Notifying(todo: set<Session>, command: Command, data: seq<byte>)
    | Responding(request: Pending, data: seq<byte>)

  type Table = map<Command, set<Session>>

  datatype State = State(subscribers: Table, requests: seq<Pending>, phase: Phase)

  const START := State(map[], [], Waiting)

  datatype Step =
    | Subscribe(session: Session, command: Command)
    | Unsubscribe(session: Session, command: Command)
    | ForgetSubscriptions(session: Session)
    | Register(session: Session, id: Id, command: Command)
    | Cancel(id: Id)
    | ForgetRequests(session: Session)
    | Snapshot(command: Command, data: seq<byte>)
    | Notify(session: Session)
    | TakeOldest
    | Respond
    | Report(session: Session, message: Message)

  function Holders(table: Table, command: Command): set<Session> {
    if command in table then table[command] else {}
  }

  /** Reading an entry of the table creates it. */
  function Opened(table: Table, command: Command): Table {
    table[command := Holders(table, command)]
  }

  function WithoutHolder(table: Table, session: Session): Table {
    map command | command in table :: table[command] - {session}
  }

  function RemoveId(requests: seq<Pending>, id: Id): seq<Pending> {
    if requests == [] then []
    else if requests[0].id == id then requests[1..]
    else [requests[0]] + RemoveId(requests[1..], id)
  }

  /** The first request with the id goes, and nothing else. */
  lemma {:induction false} RemovesFirst(requests: seq<Pending>, id: Id, i: nat)
    requires i < |requests| && requests[i].id == id && forall p <- requests[..i] :: p.id != id
    ensures RemoveId(requests, id) == requests[..i] + requests[i + 1..]
  {
    if i > 0 {
      assert requests[1..][..i - 1] == requests[..i][1..] && requests[0] == requests[..i][0];
      RemovesFirst(requests[1..], id, i - 1);
      assert requests[1..][i..] == requests[i + 1..] && requests[..i] == [requests[0]] + requests[1..][..i - 1];
    }
  }

  function RemoveSession(requests: seq<Pending>, session: Session): seq<Pending> {
    if requests == [] then []
    else if requests[0].session == session then RemoveSession(requests[1..], session)
    else [requests[0]] + RemoveSession(requests[1..], session)
  }

  function Oldest(requests: seq<Pending>, command: Command): Option<Pending> {
    if requests == [] then None
    else if requests[0].command == command then Some(requests[0])
    else Oldest(requests[1..], command)
  }

  function RemoveOldest(requests: seq<Pending>, command: Command): seq<Pending> {
    if requests == [] then []
    else if requests[0].command == command then requests[1..]
    else [requests[0]] + RemoveOldest(requests[1..], command)
  }

  /** One step: the new state and the messages sent. A step of the V-CPU thread that is not its turn
      changes nothing. */
  function Next(d: State, step: Step): (State, seq<Envelope>) {
    match step
    case Subscribe(s, c) => (d.(subscribers := d.subscribers[c := Holders(d.subscribers, c) + {s}]), [])
    case Unsubscribe(s, c) => (d.(subscribers := d.subscribers[c := Holders(d.subscribers, c) - {s}]), [])
    case ForgetSubscriptions(s) => (d.(subscribers := WithoutHolder(d.subscribers, s)), [])
    case Register(s, id, c) => (d.(requests := d.requests + [Pending(id, c, s)]), [])
    case Cancel(id) => (d.(requests := RemoveId(d.requests, id)), [])
    case ForgetRequests(s) => (d.(requests := RemoveSession(d.requests, s)), [])
    case Snapshot(c, data) =>
      if !d.phase.Waiting? then (d, [])
      else (d.(subscribers := Opened(d.subscribers, c), phase := Notifying(Holders(d.subscribers, c), c, data)), [])
    case Notify(s) =>
      if !d.phase.Notifying? || s !in d.phase.todo then (d, [])
      else (d.(phase := d.phase.(todo := d.phase.todo - {s})), [Envelope(s, Notification(d.phase.command, d.phase.data))])
    case TakeOldest =>
      if !d.phase.Notifying? || d.phase.todo != {} then (d, [])
      else (match Oldest(d.requests, d.phase.command)
            case None => (d.(phase := Waiting), [])
            case Some(p) =>
              (d.(requests := RemoveOldest(d.requests, d.phase.command), phase := Responding(p, d.phase.data)), []))
    case Respond =>
      if !d.phase.Responding? then (d, [])
      else (d.(phase := Waiting), [Envelope(d.phase.request.session, Response(d.phase.request.id, d.phase.data))])
    case Report(s, m) => (d, [Envelope(s, m)])
  }

  /** The state after a history, and everything sent in it. */
  function After(history: seq<Step>): State {
    if history == [] then START else Next(After(Before(history)), Last(history)).0
  }

  function Sent(history: seq<Step>): seq<Envelope> {
    if history == [] then [] else Sent(Before(history)) + Next(After(Before(history)), Last(history)).1
  }

  function Before(history: seq<Step>): seq<Step>
    requires history != []
  {
    history[..|history| - 1]
  }

  function Last(history: seq<Step>): Step
    requires history != []
  {
    history[|history| - 1]
  }

  /** The same from any state. */
  function From(d: State, steps: seq<Step>): (State, seq<Envelope>) {
    if steps == [] then (d, [])
    else
      var (e, sent) := From(d, Before(steps));
      var (r, out) := Next(e, Last(steps));
      (r, sent + out)
  }

  lemma {:induction false} Continues(history: seq<Step>, steps: seq<Step>)
    ensures From(After(history), steps).0 == After(history + steps)
    ensures Sent(history) + From(After(history), steps).1 == Sent(history + steps)
  {
    hide Next;
    if steps == [] {
      assert history + steps == history;
    } else {
      Continues(history, Before(steps));
      assert Before(history + steps) == history + Before(steps) && Last(history + steps) == Last(steps);
      var (e, sent) := From(After(history), Before(steps));
      var out := Next(e, Last(steps)).1;
      assert Sent(history) + (sent + out) == Sent(history) + sent + out;
    }
  }

  lemma FromTwice(d: State, a: seq<Step>, s: Step)
    ensures From(d, a + [s]) == (Next(From(d, a).0, s).0, From(d, a).1 + Next(From(d, a).0, s).1)
  {
    assert Before(a + [s]) == a;
  }

  /** Whether the latest step of a history about this session and command was a subscription. */
  predicate Subscribed(history: seq<Step>, session: Session, command: Command) {
    if history == [] then false
    else match Last(history)
         case Subscribe(s, c) => (s == session && c == command) || Subscribed(Before(history), session, command)
         case Unsubscribe(s, c) => !(s == session && c == command) && Subscribed(Before(history), session, command)
         case ForgetSubscriptions(s) => s != session && Subscribed(Before(history), session, command)
         case _ => Subscribed(Before(history), session, command)
  }

  /** The table refines the history. */
  lemma {:induction false} TableIsHistory(history: seq<Step>, session: Session, command: Command)
    ensures session in Holders(After(history).subscribers, command) <==> Subscribed(history, session, command)
  {
    if history != [] {
      TableIsHistory(Before(history), session, command);
    }
  }

  /** How many notifications with this command and data a session should get in a history: one for
      each time the V-CPU thread picked them up while the session was subscribed. */
  function Due(history: seq<Step>, session: Session, command: Command, data: seq<byte>): nat {
    if history == [] then 0
    else Due(Before(history), session, command, data) +
         if Last(history) == Snapshot(command, data) && After(Before(history)).phase.Waiting?
            && Subscribed(Before(history), session, command) then 1 else 0
  }

  predicate Owed(d: State, session: Session, command: Command, data: seq<byte>) {
    d.phase.Notifying? && d.phase.command == command && d.phase.data == data && session in d.phase.todo
  }

  /** A session is notified exactly once for each snapshot that found it subscribed, whatever other
      sessions and other threads do meanwhile; no Report is a notification. */
  lemma {:induction false} NotifiedExactlyOnce(history: seq<Step>, session: Session, command: Command, data: seq<byte>)
    requires forall i :: 0 <= i < |history| && history[i].Report? ==> !history[i].message.Notification?
    ensures var notification := Envelope(session, Notification(command, data));
            multiset(Sent(history))[notification] + (if Owed(After(history), session, command, data) then 1 else 0)
            == Due(history, session, command, data)
  {
    if history != [] {
      var h := Before(history);
      NotifiedExactlyOnce(h, session, command, data);
      TableIsHistory(h, session, command);
      NotifiedStep(After(h), Last(history), session, command, data);
    }
  }

  lemma NotifiedStep(d: State, step: Step, session: Session, command: Command, data: seq<byte>)
    requires step.Report? ==> !step.message.Notification?
    ensures var (r, out) := Next(d, step);
            multiset(out)[Envelope(session, Notification(command, data))] + (if Owed(r, session, command, data) then 1 else 0)
            == (if Owed(d, session, command, data) then 1 else 0) +
               if step == Snapshot(command, data) && d.phase.Waiting? && session in Holders(d.subscribers, command) then 1 else 0
  {
    match step
    case Notify(s) =>
      if d.phase.Notifying? && s in d.phase.todo {
        assert Next(d, step).1 == [Envelope(s, Notification(d.phase.command, d.phase.data))];
      }
    case _ =>
  }

  // Requests, against an account that forgets nothing

  datatype Fate = Open | Answered | Cancelled | Dropped

  datatype Entry = Entry(request: Pending, fate: Fate)

  function OpenOnes(book: seq<Entry>): seq<Pending> {
    if book == [] then []
    else if book[0].fate.Open? then [book[0].request] + OpenOnes(book[1..])
    else OpenOnes(book[1..])
  }

  function CancelIn(book: seq<Entry>, id: Id): (r: seq<Entry>)
    ensures |r| == |book|
  {
    seq(|book|, i requires 0 <= i < |book| =>
      if book[i].fate.Open? && book[i].request.id == id then book[i].(fate := Cancelled) else book[i])
  }

  function DropIn(book: seq<Entry>, session: Session): (r: seq<Entry>)
    ensures |r| == |book|
  {
    seq(|book|, i requires 0 <= i < |book| =>
      if book[i].fate.Open? && book[i].request.session == session then book[i].(fate := Dropped) else book[i])
  }

  /** The index of the earliest open request for a command, if any. */
  function Earliest(book: seq<Entry>, command: Command): (i: nat)
    ensures i <= |book|
    ensures forall j :: 0 <= j < i ==> !(book[j].fate.Open? && book[j].request.command == command)
    ensures i < |book| ==> book[i].fate.Open? && book[i].request.command == command
  {
    if book == [] then 0
    else if book[0].fate.Open? && book[0].request.command == command then 0
    else 1 + Earliest(book[1..], command)
  }

  function AnswerIn(book: seq<Entry>, command: Command): (r: seq<Entry>)
    ensures |r| == |book|
  {
    var i := Earliest(book, command);
    if i < |book| then book[i := book[i].(fate := Answered)] else book
  }

  function Booked(book: seq<Entry>, d: State, step: Step): seq<Entry> {
    match step
    case Register(s, id, c) => book + [Entry(Pending(id, c, s), Open)]
    case Cancel(id) => CancelIn(book, id)
    case ForgetRequests(s) => DropIn(book, s)
    case TakeOldest => if d.phase.Notifying? && d.phase.todo == {} then AnswerIn(book, d.phase.command) else book
    case _ => book
  }

  /** Every request ever registered, in order, each with what has become of it. */
  function Account(history: seq<Step>): seq<Entry> {
    if history == [] then [] else Booked(Account(Before(history)), After(Before(history)), Last(history))
  }

  /** Request ids are unique. */
  predicate FreshIds(history: seq<Step>) {
    forall i, j :: 0 <= i < j < |history| && history[i].Register? && history[j].Register? ==> history[i].id != history[j].id
  }

  predicate DistinctIds(book: seq<Entry>) {
    forall i, j :: 0 <= i < j < |book| ==> book[i].request.id != book[j].request.id
  }

  /** The requests registered in a history, in order. */
  function Registered(history: seq<Step>): seq<Pending> {
    if history == [] then []
    else Registered(Before(history)) + match Last(history)
                                       case Register(s, id, c) => [Pending(id, c, s)]
                                       case _ => []
  }

  lemma {:induction false} OpenAppend(book: seq<Entry>, e: Entry)
    ensures OpenOnes(book + [e]) == OpenOnes(book) + if e.fate.Open? then [e.request] else []
  {
    if book == [] {
      assert book + [e] == [e];
    } else {
      assert (book + [e])[1..] == book[1..] + [e];
      OpenAppend(book[1..], e);
    }
  }

  lemma {:induction false} CancelOpens(book: seq<Entry>, id: Id)
    requires DistinctIds(book)
    ensures OpenOnes(CancelIn(book, id)) == RemoveId(OpenOnes(book), id)
  {
    if book != [] {
      assert CancelIn(book, id)[1..] == CancelIn(book[1..], id);
      if book[0].request.id == id && book[0].fate.Open? {
        assert CancelIn(book[1..], id) == book[1..];
      } else {
        assert ([book[0].request] + OpenOnes(book[1..]))[1..] == OpenOnes(book[1..]);
        CancelOpens(book[1..], id);
      }
    }
  }

  lemma {:induction false} DropOpens(book: seq<Entry>, session: Session)
    ensures OpenOnes(DropIn(book, session)) == RemoveSession(OpenOnes(book), session)
  {
    if book != [] {
      assert DropIn(book, session)[1..] == DropIn(book[1..], session);
      assert ([book[0].request] + OpenOnes(book[1..]))[1..] == OpenOnes(book[1..]);
      DropOpens(book[1..], session);
    }
  }

  lemma {:induction false} AnswerOpens(book: seq<Entry>, command: Command)
    ensures OpenOnes(AnswerIn(book, command)) == RemoveOldest(OpenOnes(book), command)
    ensures var i := Earliest(book, command);
            Oldest(OpenOnes(book), command) == if i < |book| then Some(book[i].request) else None
  {
    if book != [] {
      if book[0].fate.Open? && book[0].request.command == command {
        assert AnswerIn(book, command)[1..] == book[1..];
      } else {
        assert AnswerIn(book, command)[1..] == AnswerIn(book[1..], command);
        assert ([book[0].request] + OpenOnes(book[1..]))[1..] == OpenOnes(book[1..]);
        AnswerOpens(book[1..], command);
      }
    }
  }

  /** The account is complete: it lists the registered requests, in order. */
  lemma {:induction false} AccountIsComplete(history: seq<Step>)
    ensures |Account(history)| == |Registered(history)|
    ensures forall i :: 0 <= i < |Account(history)| ==> Account(history)[i].request == Registered(history)[i]
  {
    if history != [] {
      AccountIsComplete(Before(history));
    }
  }

  lemma {:induction false} IdsAreDistinct(history: seq<Step>)
    requires FreshIds(history)
    ensures forall i :: 0 <= i < |Registered(history)| ==>
              exists k :: 0 <= k < |history| && history[k].Register? && history[k].id == Registered(history)[i].id
    ensures DistinctIds(Account(history))
  {
    AccountIsComplete(history);
    if history != [] {
      var h := Before(history);
      IdsAreDistinct(h);
      AccountIsComplete(h);
      forall i | 0 <= i < |Registered(history)|
        ensures exists k :: 0 <= k < |history| && history[k].Register? && history[k].id == Registered(history)[i].id
      {
        if i < |Registered(h)| {
          var k :| 0 <= k < |h| && h[k].Register? && h[k].id == Registered(h)[i].id;
          assert history[k] == h[k];
        } else {
          assert history[|h|].Register?;
        }
      }
    }
  }

  lemma BookedIsOpen(book: seq<Entry>, d: State, step: Step)
    requires DistinctIds(book) && d.requests == OpenOnes(book)
    ensures Next(d, step).0.requests == OpenOnes(Booked(book, d, step))
  {
    match step
    case Register(s, id, c) => OpenAppend(book, Entry(Pending(id, c, s), Open));
    case Cancel(id) => CancelOpens(book, id);
    case ForgetRequests(s) => DropOpens(book, s);
    case TakeOldest =>
      if d.phase.Notifying? && d.phase.todo == {} {
        AnswerOpens(book, d.phase.command);
      }
    case _ =>
  }

  /** Conservation, and order: the requests the broker holds are exactly the registered ones that
      were neither answered, cancelled nor dropped, in the order of their registration. */
  lemma {:induction false} PendingIsOpen(history: seq<Step>)
    requires FreshIds(history)
    ensures After(history).requests == OpenOnes(Account(history))
  {
    if history != [] {
      hide Next, Booked, OpenOnes;
      var h := Before(history);
      PendingIsOpen(h);
      IdsAreDistinct(h);
      BookedIsOpen(Account(h), After(h), Last(history));
    } else {
      assert OpenOnes([]) == [];
    }
  }

  /** What has become of a request never changes again. */
  lemma {:induction false} FateIsFinal(history: seq<Step>, k: nat, i: nat)
    requires k <= |history| && i < |Account(history[..k])|
    ensures i < |Account(history)|
    ensures !Account(history[..k])[i].fate.Open? ==> Account(history)[i] == Account(history[..k])[i]
  {
    if k == |history| {
      assert history[..k] == history;
    } else {
      assert Before(history)[..k] == history[..k];
      FateIsFinal(Before(history), k, i);
    }
  }

  /** First come, first served: no request is answered while an earlier one for the same command is
      still open, whatever cancels and disconnections come between. */
  lemma {:induction false} NoOvertaking(history: seq<Step>, i: nat, j: nat)
    requires i < j < |Account(history)| && Account(history)[i].request.command == Account(history)[j].request.command
    requires Account(history)[j].fate.Answered?
    ensures !Account(history)[i].fate.Open?
  {
    var h := Before(history);
    AccountIsComplete(h);
    AccountIsComplete(history);
    if j < |Account(h)| && Account(h)[j].fate.Answered? {
      NoOvertaking(h, i, j);
    }
  }

  /** The messages that answer a request id. */
  function Answers(sent: seq<Envelope>, id: Id): nat {
    if sent == [] then 0
    else Answers(sent[..|sent| - 1], id) +
         if sent[|sent| - 1].message.Response? && sent[|sent| - 1].message.id == id then 1 else 0
  }

  function Held(d: State, id: Id): nat {
    if d.phase.Responding? && d.phase.request.id == id then 1 else 0
  }

  /** The step at which a request leaves the pending ones to be answered. */
  predicate Takes(d: State, step: Step, id: Id) {
    && step.TakeOldest? && d.phase.Notifying? && d.phase.todo == {}
    && var p := Oldest(d.requests, d.phase.command); p.Some? && p.value.id == id
  }

  lemma AnswerStep(d: State, step: Step, sent: seq<Envelope>, id: Id)
    requires step.Report? ==> !step.message.Response?
    ensures var (r, out) := Next(d, step);
            Answers(sent + out, id) + Held(r, id) ==
            Answers(sent, id) + Held(d, id) + if Takes(d, step, id) then 1 else 0
  {
    hide Next, Held, Takes, Answers;
    var (r, out) := Next(d, step);
    AnswersMore(sent, out, id) by {
      SendsOne(d, step);
    }
    match step
    case TakeOldest => TakingHolds(d, id);
    case Respond => RespondingAnswers(d, id);
    case _ => OtherSteps(d, step, id);
  }

  lemma SendsOne(d: State, step: Step)
    ensures |Next(d, step).1| <= 1
  {
  }

  lemma AnswersMore(sent: seq<Envelope>, out: seq<Envelope>, id: Id)
    requires |out| <= 1
    ensures Answers(sent + out, id) == Answers(sent, id) + Answers(out, id)
  {
    if out == [] {
      assert sent + out == sent;
    } else {
      assert (sent + out)[..|sent|] == sent && out[..0] == [];
    }
  }

  lemma TakingHolds(d: State, id: Id)
    ensures var (r, out) := Next(d, TakeOldest);
            Answers(out, id) == 0 && Held(r, id) == Held(d, id) + if Takes(d, TakeOldest, id) then 1 else 0
  {
  }

  lemma RespondingAnswers(d: State, id: Id)
    ensures var (r, out) := Next(d, Respond);
            Answers(out, id) + Held(r, id) == Held(d, id) && !Takes(d, Respond, id)
  {
    assert |Next(d, Respond).1| <= 1 && Next(d, Respond).1[..0] == [];
  }

  lemma OtherSteps(d: State, step: Step, id: Id)
    requires !step.TakeOldest? && !step.Respond? && (step.Report? ==> !step.message.Response?)
    ensures var (r, out) := Next(d, step);
            Answers(out, id) == 0 && Held(r, id) == Held(d, id) && !Takes(d, step, id)
  {
    var out := Next(d, step).1;
    assert out == [] || (out == [out[0]] && !out[0].message.Response? && out[..0] == []);
  }

  lemma {:induction false} UnknownIsUnanswered(history: seq<Step>, id: Id)
    requires FreshIds(history) && forall i :: 0 <= i < |Account(history)| ==> Account(history)[i].request.id != id
    requires forall k :: 0 <= k < |history| && history[k].Report? ==> !history[k].message.Response?
    ensures Answers(Sent(history), id) + Held(After(history), id) == 0
  {
    if history != [] {
      var h := Before(history);
      AccountIsComplete(h);
      AccountIsComplete(history);
      assert forall i :: 0 <= i < |Account(h)| ==> Account(h)[i].request == Account(history)[i].request;
      UnknownIsUnanswered(h, id);
      PendingIsOpen(h);
      AnswerStep(After(h), Last(history), Sent(h), id);
      if Last(history).TakeOldest? && After(h).phase.Notifying? {
        AnswerOpens(Account(h), After(h).phase.command);
      }
    }
  }

  lemma TakenIsMarked(book: seq<Entry>, command: Command, i: nat)
    requires DistinctIds(book) && i < |book|
    ensures var p := Oldest(OpenOnes(book), command);
            if p.Some? && p.value.id == book[i].request.id then book[i].fate.Open? && AnswerIn(book, command)[i].fate.Answered?
            else AnswerIn(book, command)[i] == book[i]
  {
    AnswerOpens(book, command);
  }

  lemma FreshBefore(history: seq<Step>)
    requires FreshIds(history) && history != []
    ensures FreshIds(Before(history))
  {
  }

  lemma AccountGrows(history: seq<Step>)
    requires history != []
    ensures |Account(Before(history))| <= |Account(history)|
    ensures forall i :: 0 <= i < |Account(Before(history))| ==>
              Account(history)[i].request == Account(Before(history))[i].request
  {
    AccountIsComplete(Before(history));
    AccountIsComplete(history);
  }

  /** A request's fate becomes Answered in the step that takes it, and in no other. */
  lemma AnsweredWhenTaken(history: seq<Step>, i: nat)
    requires FreshIds(history) && history != [] && i < |Account(Before(history))|
    ensures var h := Before(history);
            && i < |Account(history)| && Account(history)[i].request == Account(h)[i].request
            && (Account(history)[i].fate.Answered? <==>
                Account(h)[i].fate.Answered? || Takes(After(h), Last(history), Account(h)[i].request.id))
            && (Takes(After(h), Last(history), Account(h)[i].request.id) ==> Account(h)[i].fate.Open?)
  {
    hide Next, OpenOnes, Earliest, Oldest, AnswerIn, Registered, FreshIds;
    var h := Before(history);
    var d := After(h);
    FreshBefore(history);
    IdsAreDistinct(h);
    PendingIsOpen(h);
    AccountGrows(history);
    if Last(history).TakeOldest? && d.phase.Notifying? && d.phase.todo == {} {
      TakenIsMarked(Account(h), d.phase.command, i);
    }
  }

  /** The answered requests are those whose response is sent, or about to be, and it is sent once. */
  lemma {:induction false} AnsweredExactlyOnce(history: seq<Step>, i: nat)
    requires FreshIds(history) && i < |Account(history)|
    requires forall k :: 0 <= k < |history| && history[k].Report? ==> !history[k].message.Response?
    ensures Answers(Sent(history), Account(history)[i].request.id) + Held(After(history), Account(history)[i].request.id)
            == if Account(history)[i].fate.Answered? then 1 else 0
  {
    var h := Before(history);
    var id := Account(history)[i].request.id;
    IdsAreDistinct(history);
    AccountIsComplete(h);
    AccountIsComplete(history);
    assert Sent(history) == Sent(h) + Next(After(h), Last(history)).1;
    hide Next, Answers, Takes, AnswerIn;
    AnswerStep(After(h), Last(history), Sent(h), id);
    if i < |Account(h)| {
      AnsweredExactlyOnce(h, i);
      AnsweredWhenTaken(history, i);
    } else {
      assert Last(history).Register?;
      assert forall k :: 0 <= k < |Account(h)| ==> Account(h)[k].request == Account(history)[k].request;
      UnknownIsUnanswered(h, id);
      NotTaken(After(h), Last(history), id);
    }
  }

  lemma NotTaken(d: State, step: Step, id: Id)
    requires !step.TakeOldest?
    ensures !Takes(d, step, id)
  {
  }

  predicate Heard(history: seq<Step>, command: Command, data: seq<byte>) {
    Snapshot(command, data) in history
  }

  predicate WasAnswered(history: seq<Step>, request: Pending) {
    Entry(request, Answered) in Account(history)
  }

  predicate Justified(history: seq<Step>, command: Command, e: Envelope)
    requires e.message.Response?
  {
    WasAnswered(history, Pending(e.message.id, command, e.session)) && Heard(history, command, e.message.data)
  }

  lemma StaysJustified(history: seq<Step>, request: Pending, data: seq<byte>)
    requires history != [] && WasAnswered(Before(history), request) && Heard(Before(history), request.command, data)
    ensures WasAnswered(history, request) && Heard(history, request.command, data)
  {
    var h := Before(history);
    var i :| 0 <= i < |Account(h)| && Account(h)[i] == Entry(request, Answered);
    FateIsFinal(history, |h|, i);
  }

  /** The V-CPU thread carries data that was heard, and answers a request with it. */
  predicate Carries(history: seq<Step>) {
    var phase := After(history).phase;
    && (phase.Notifying? ==> Heard(history, phase.command, phase.data))
    && (phase.Responding? ==>
          WasAnswered(history, phase.request) && Heard(history, phase.request.command, phase.data))
  }

  lemma StaysHeard(history: seq<Step>, command: Command, data: seq<byte>)
    requires history != [] && (Heard(Before(history), command, data) || Last(history) == Snapshot(command, data))
    ensures Heard(history, command, data)
  {
  }

  lemma {:induction false} CarriesAlways(history: seq<Step>)
    requires FreshIds(history)
    ensures Carries(history)
  {
    if history != [] {
      var h, d, step := Before(history), After(Before(history)), Last(history);
      CarriesAlways(h);
      PhaseSteps(d, step);
      hide Next, Heard, WasAnswered, Account;
      if d.phase.Responding? {
        StaysJustified(history, d.phase.request, d.phase.data);
      } else if d.phase.Notifying? {
        StaysHeard(history, d.phase.command, d.phase.data);
        if Next(d, step).0.phase.Responding? {
          TakenIsAnswered(history);
        }
      } else if Next(d, step).0.phase.Notifying? {
        StaysHeard(history, step.command, step.data);
      }
    }
  }

  /** How the phase of the V-CPU thread changes. */
  lemma PhaseSteps(d: State, step: Step)
    ensures var p := Next(d, step).0.phase;
            && (d.phase.Waiting? ==>
                  p.Waiting? || (step.Snapshot? && p.Notifying? && p.command == step.command && p.data == step.data))
            && (d.phase.Responding? ==> p.Waiting? || p == d.phase)
            && (d.phase.Notifying? ==>
                  || p.Waiting?
                  || (p.Notifying? && p.command == d.phase.command && p.data == d.phase.data)
                  || (p.Responding? && step.TakeOldest? && d.phase.todo == {} && p.data == d.phase.data
                      && Oldest(d.requests, d.phase.command) == Some(p.request)))
  {
  }

  /** The request taken is an answered one of the account. */
  lemma TakenIsAnswered(history: seq<Step>)
    requires FreshIds(history) && history != [] && Last(history).TakeOldest?
    requires var d := After(Before(history));
             d.phase.Notifying? && d.phase.todo == {} && Oldest(d.requests, d.phase.command).Some?
    ensures var d := After(Before(history)); var p := Oldest(d.requests, d.phase.command).value;
            WasAnswered(history, p) && p.command == d.phase.command
  {
    var h, d := Before(history), After(Before(history));
    PendingIsOpen(h);
    AnswerOpens(Account(h), d.phase.command);
    var i := Earliest(Account(h), d.phase.command);
    assert Account(history)[i] == Entry(Account(h)[i].request, Answered);
  }

  /** A response goes to the session that registered the request, and carries data the V-CPU sent
      with the command the request asked for. */
  lemma {:induction false} ResponsesAreJustified(history: seq<Step>)
    requires FreshIds(history)
    requires forall k :: 0 <= k < |history| && history[k].Report? ==> !history[k].message.Response?
    ensures forall e :: e in Sent(history) && e.message.Response? ==> exists c :: Justified(history, c, e)
  {
    if history != [] {
      var h, d := Before(history), After(Before(history));
      ResponsesAreJustified(h);
      CarriesAlways(h);
      ResponseSent(d, Last(history));
      hide Next, Heard, WasAnswered, After;
      forall e | e in Sent(history) && e.message.Response? ensures exists c :: Justified(history, c, e) {
        if e in Sent(h) {
          var c :| Justified(h, c, e);
          StaysJustified(history, Pending(e.message.id, c, e.session), e.message.data);
          assert Justified(history, c, e);
        } else {
          assert e in Next(d, Last(history)).1;
          StaysJustified(history, d.phase.request, d.phase.data);
          assert Justified(history, d.phase.request.command, e);
        }
      }
    }
  }

  /** A step that sends a response sends the one that is held. */
  lemma ResponseSent(d: State, step: Step)
    requires step.Report? ==> !step.message.Response?
    ensures forall e :: e in Next(d, step).1 && e.message.Response? ==>
              d.phase.Responding? && e == Envelope(d.phase.request.session, Response(d.phase.request.id, d.phase.data))
  {
  }
}
