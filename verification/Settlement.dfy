/** What becomes of every request, every tracked send and every command, over whole runs of a client and the
    daemon with crossings and reconnections. */
module Settlement {
  import opened Wire
  import opened Broker
  import opened Client
  import opened Server
  import opened Agreement
  import opened History

  // ---------------------------------------------------------------- the client's part of a run

  /** The events a move means for the client. */
  function TookIn(w: World, m: Move): seq<Event> {
    match m
    case Call(e) => [e]
    case Deliver => if w.down == [] then [] else [Incoming(w.down[0])]
    case _ => []
  }

  function Took(w: World, moves: seq<Move>, keeps: bool): seq<Event>
    decreases |moves|
  {
    if moves == [] then [] else TookIn(w, moves[0]) + Took(Do(w, moves[0], keeps), moves[1..], keeps)
  }

  lemma ActsSingle(t: Tables, e: Event)
    ensures Acts(t, []) == Outcome(t, [], []) && Acts(t, [e]) == Act(t, e)
  {
    hide Act;
    ActsOne(t, [], e);
    var o := Act(t, e);
    assert [] + [e] == [e] && [] + o.up == o.up && [] + o.effects == o.effects;
  }

  lemma ActsNone(t: Tables, effects: seq<Effect>)
    ensures Acts(t, []) == Outcome(t, [], []) && effects + [] == effects
  {
  }

  lemma {:induction false} ActsTwice(t: Tables, a: seq<Event>, b: seq<Event>)
    ensures var before := Acts(t, a); var after := Acts(before.tables, b);
            Acts(t, a + b) == Outcome(after.tables, before.up + after.up, before.effects + after.effects)
  {
    hide Act, Acts;
    var before := Acts(t, a);
    if b == [] {
      assert a + b == a;
      ActsNone(before.tables, before.effects);
      assert before.up + [] == before.up;
    } else {
      var front, e := b[..|b| - 1], b[|b| - 1];
      assert b == front + [e] && a + b == a + front + [e];
      ActsTwice(t, a, front);
      ActsOne(t, a + front, e);
      ActsOne(before.tables, front, e);
      var middle := Acts(before.tables, front);
      var o := Act(middle.tables, e);
      Assoc(before.up, middle.up, o.up);
      Assoc(before.effects, middle.effects, o.effects);
    }
  }

  lemma MoveActs(w: World, m: Move, keeps: bool)
    ensures var o := Acts(w.tables, TookIn(w, m)); var r := Do(w, m, keeps);
            r.tables == o.tables && r.effects == w.effects + o.effects
  {
    hide Act, Acts, Next, For, Handed, Resumed;
    ActsNone(w.tables, w.effects);
    match m
    case Call(e) =>
      ActsSingle(w.tables, e);
      CallDoes(w, e, keeps);
    case Deliver =>
      if w.down != [] {
        ActsSingle(w.tables, Incoming(w.down[0]));
      }
    case _ =>
  }

  lemma Unroll(w: World, moves: seq<Move>, keeps: bool)
    requires moves != []
    ensures var w' := Do(w, moves[0], keeps);
            && Run(w, moves, keeps) == Run(w', moves[1..], keeps)
            && Took(w, moves, keeps) == TookIn(w, moves[0]) + Took(w', moves[1..], keeps)
            && (LegalRun(w, moves, keeps) <==> Legal(w, moves[0]) && LegalRun(w', moves[1..], keeps))
  {
    hide Do, TookIn, Legal;
  }

  lemma Assoc<T>(a: seq<T>, b: seq<T>, c: seq<T>)
    ensures a + b + c == a + (b + c)
  {
  }

  lemma RunNone(w: World, keeps: bool)
    ensures Run(w, [], keeps) == w && Took(w, [], keeps) == []
  {
  }

  /** In a run the client does what it does alone, given the same events. */
  lemma {:induction false} RunActs(w: World, moves: seq<Move>, keeps: bool)
    ensures var o := Acts(w.tables, Took(w, moves, keeps)); var r := Run(w, moves, keeps);
            r.tables == o.tables && r.effects == w.effects + o.effects
    decreases |moves|
  {
    hide Do, TookIn, Run, Took, Act;
    if moves == [] {
      RunNone(w, keeps);
    } else {
      var w' := Do(w, moves[0], keeps);
      Unroll(w, moves, keeps);
      MoveActs(w, moves[0], keeps);
      RunActs(w', moves[1..], keeps);
      var a, b := TookIn(w, moves[0]), Took(w', moves[1..], keeps);
      hide Acts;
      ActsTwice(w.tables, a, b);
      Assoc(w.effects, Acts(w.tables, a).effects, Acts(w'.tables, b).effects);
    }
  }

  lemma MoveDraws(w: World, m: Move, keeps: bool)
    requires Legal(w, m)
    ensures forall e <- TookIn(w, m) :: Drawn(e) !! w.used && Drawn(e) <= Do(w, m, keeps).used
    ensures w.used <= Do(w, m, keeps).used
  {
    hide Act;
  }

  lemma {:induction false} TookFresh(w: World, moves: seq<Move>, keeps: bool)
    requires LegalRun(w, moves, keeps)
    ensures FreshDraws(Took(w, moves, keeps)) && forall e <- Took(w, moves, keeps) :: Drawn(e) !! w.used
    decreases |moves|
  {
    if moves != [] {
      hide Do, Legal, Drawn;
      var w' := Do(w, moves[0], keeps);
      MoveDraws(w, moves[0], keeps);
      TookFresh(w', moves[1..], keeps);
      assert |TookIn(w, moves[0])| <= 1;
      FreshJoin(TookIn(w, moves[0]), Took(w', moves[1..], keeps), w'.used);
    }
  }

  lemma FreshJoin(a: seq<Event>, b: seq<Event>, used: set<Id>)
    requires |a| <= 1 && FreshDraws(b)
    requires (forall e <- a :: Drawn(e) <= used) && forall e <- b :: Drawn(e) !! used
    ensures FreshDraws(a + b)
  {
    hide Drawn;
  }

  /** What the application calls the client takes, and it takes no calls but those. */
  lemma {:induction false} TookCalls(w: World, moves: seq<Move>, keeps: bool, e: Event)
    requires LegalRun(w, moves, keeps) && !e.Incoming?
    ensures e in Took(w, moves, keeps) <==> Call(e) in moves
    decreases |moves|
  {
    if moves != [] {
      hide Do;
      TookCalls(Do(w, moves[0], keeps), moves[1..], keeps, e);
      assert moves == [moves[0]] + moves[1..];
    }
  }

  /** What the client of a run is, by the events it took. */
  lemma RunIsHistory(start: World, moves: seq<Move>, keeps: bool)
    requires Initial(start) && LegalRun(start, moves, keeps)
    ensures var w := Run(start, moves, keeps); var events := Took(start, moves, keeps);
            && FreshDraws(events)
            && Reflects(w.tables, start.tables.onError, events) && w.effects == Shown(start.tables.onError, events)
  {
    hide Run, LegalRun, Reflects, Shown, Took, Acts, FreshDraws;
    RunActs(start, moves, keeps);
    TookFresh(start, moves, keeps);
    ClientIsItsHistory(start.tables.onError, Took(start, moves, keeps));
  }

  // ---------------------------------------------------------------- every request is settled

  /** Every id that was drawn for a request is exactly one of: waited for, given up by dropping the response
      while it was waited for, and answered. It is waited for exactly if it is in the table, and answered
      exactly if its promise has been set, with the data that came for it. */
  lemma RequestsSettle(start: World, moves: seq<Move>, keeps: bool, id: Id)
    requires Initial(start) && LegalRun(start, moves, keeps)
    ensures var w := Run(start, moves, keeps); var s := StandingOf(Took(start, moves, keeps), id);
            && (!s.Unasked? <==> exists c, data, response :: Call(Request(id, c, data, response)) in moves)
            && (s.Awaited? <==> id in w.tables.requests)
            && (s.GivenUp? ==> Call(DropResponse(id)) in moves)
            && (forall data :: s == Fulfilled(data) <==> PromiseSet(id, data) in w.effects)
  {
    hide Run, LegalRun, Shown, FreshDraws;
    var events := Took(start, moves, keeps);
    RunIsHistory(start, moves, keeps);
    RequestTraced(events, id);
    RequestSettled(start.tables.onError, events, id);
    if e :| e in events && Asks(e, id) {
      TookCalls(start, moves, keeps, e);
    }
    if c, data, response :| Call(Request(id, c, data, response)) in moves {
      TookCalls(start, moves, keeps, Request(id, c, data, response));
      assert Asks(Request(id, c, data, response), id);
    }
    TookCalls(start, moves, keeps, DropResponse(id));
  }

  /** The same for tracked sends: each is exactly one of due, with the callback given for it, and reported;
      it is reported exactly if that callback has been called, unless it was empty. */
  lemma SendsSettle(start: World, moves: seq<Move>, keeps: bool, id: Id, command: Command, data: seq<byte>, callback: Callback)
    requires Initial(start) && LegalRun(start, moves, keeps) && Call(SendTracked(id, command, data, callback)) in moves
    ensures var w := Run(start, moves, keeps); var s := TrackingOf(Took(start, moves, keeps), id);
            && !s.Untracked? && s.callback == callback
            && (s.Due? <==> id in w.tables.deliveries) && (s.Due? ==> w.tables.deliveries[id] == callback)
            && (forall cb: nat, delivered :: DeliveryCalled(id, cb, delivered) in w.effects <==>
                  s == Reported(callback, delivered) && callback == Some(cb))
  {
    hide Run, LegalRun, Shown, FreshDraws;
    var events := Took(start, moves, keeps);
    RunIsHistory(start, moves, keeps);
    SendTraced(events, id);
    SendSettled(start.tables.onError, events, id);
    TookCalls(start, moves, keeps, SendTracked(id, command, data, callback));
    assert Tracks(SendTracked(id, command, data, callback), id);
  }

  /** Nobody is forgotten: over one connection, whenever nothing is on its way, a request that was neither
      given up nor answered is one the daemon holds, and the other way round; every tracked send has been
      reported. */
  lemma NobodyForgotten(start: World, moves: seq<Move>, keeps: bool, id: Id)
    requires Initial(start) && LegalRun(start, moves, keeps) && Disconnect !in moves && Quiet(Run(start, moves, keeps))
    ensures var w := Run(start, moves, keeps); var events := Took(start, moves, keeps);
            && (id in Mine(w.daemon.requests, w.session) <==> StandingOf(events, id).Awaited?)
            && !TrackingOf(events, id).Due?
  {
    hide Run, LegalRun;
    RunIsHistory(start, moves, keeps);
    RequestAgreementConnected(start, moves, keeps);
    DeliveryAgreement(start, moves, keeps);
    NothingLost(start, moves, keeps);
  }

  // ---------------------------------------------------------------- one delivery

  /** A message that arrives is acted on: an answer sets the promise that waits for it, a notification calls
      the callback on record with its command and data, a report calls the callback given for its send with
      the outcome, and a failed send the error callback. Nothing else is shown. */
  lemma DeliverShows(w: World, keeps: bool)
    requires w.down != []
    ensures var r := Do(w, Deliver, keeps);
            match w.down[0]
            case Response(id, data) =>
              r.effects == w.effects + (if id in w.tables.requests then [PromiseSet(id, data)] else []) && id !in r.tables.requests
            case Notification(command, data) =>
              r.effects == w.effects + if command !in w.tables.callbacks || w.tables.callbacks[command].None? then []
                                       else [CommandCalled(w.tables.callbacks[command].value, command, data)]
            case DeliveryStatus(id, delivered) =>
              && id !in r.tables.deliveries
              && r.effects == w.effects + if id !in w.tables.deliveries || w.tables.deliveries[id].None? then []
                                          else [DeliveryCalled(id, w.tables.deliveries[id].value, delivered)]
            case SendFailed(command) =>
              r.effects == w.effects + if w.tables.onError.None? then [] else [ErrorCalled(w.tables.onError.value, command)]
  {
  }

  /** The daemon tells the client what came of a send it reads: a plain one only if it failed, a tracked one
      in either case. */
  lemma ServeTells(w: World, accepted: bool, keeps: bool)
    requires w.up != [] && w.session.Some?
    ensures var r := Do(w, Serve(accepted), keeps);
            r.down == w.down + match w.up[0]
                               case AskSend(command, _) => if accepted then [] else [SendFailed(command)]
                               case AskTracked(id, _, _) => [DeliveryStatus(id, accepted)]
                               case _ => []
  {
    var s := w.session.value;
    forall m: Message ensures For(w.session, [Envelope(s, m)]) == [m] {
      assert [Envelope(s, m)][1..] == [];
    }
  }

  // ---------------------------------------------------------------- commands reach the V-CPU

  /** The command and data a call of the application wants written. */
  function Wanted(m: Move): seq<(Command, seq<byte>)> {
    match m
    case Call(Request(_, command, data, _)) => [(command, data)]
    case Call(Send(command, data)) => [(command, data)]
    case Call(SendTracked(_, command, data, _)) => [(command, data)]
    case _ => []
  }

  function WantedAll(moves: seq<Move>): seq<(Command, seq<byte>)> {
    if moves == [] then [] else WantedAll(moves[..|moves| - 1]) + Wanted(moves[|moves| - 1])
  }

  /** What the daemon is to write once it has read what is on its way. */
  function HandedAll(up: seq<Up>): seq<(Command, seq<byte>)> {
    if up == [] then [] else HandedAll(up[..|up| - 1]) + Handed(up[|up| - 1])
  }

  lemma {:induction false} HandedTwice(a: seq<Up>, b: seq<Up>)
    ensures HandedAll(a + b) == HandedAll(a) + HandedAll(b)
  {
    hide Handed;
    if b == [] {
      assert a + b == a;
    } else {
      var n := |b| - 1;
      HandedTwice(a, b[..n]);
      assert (a + b)[..|a + b| - 1] == a + b[..n] && (a + b)[|a + b| - 1] == b[n];
      assert HandedAll(a) + (HandedAll(b[..n]) + Handed(b[n])) == HandedAll(a) + HandedAll(b[..n]) + Handed(b[n]);
    }
  }

  lemma HandedOne(m: Up)
    ensures HandedAll([m]) == Handed(m)
  {
    assert [m][..0] == [] && HandedAll([]) == [];
  }

  lemma {:induction false} SubscribesNothing(order: seq<Command>)
    ensures HandedAll(Resubscribes(order)) == []
  {
    if order != [] {
      var n := |order| - 1;
      SubscribesNothing(order[..n]);
      assert Resubscribes(order)[..n] == Resubscribes(order[..n]);
    }
  }

  /** All that was or will be written for the client. */
  function Outgoing(w: World): seq<(Command, seq<byte>)> {
    w.handed + HandedAll(w.up)
  }

  /** What a move does to that: a call adds what it wants written, unless there is no connection and nothing
      is kept for one; closing the connection takes back what was not yet read. */
  lemma MoveOutgoing(w: World, m: Move, keeps: bool)
    requires Legal(w, m)
    ensures Outgoing(Do(w, m, keeps)) == if m.Disconnect? then w.handed
                                         else Outgoing(w) + if w.session.Some? || keeps then Wanted(m) else []
  {
    hide Act, Next, For, Outgoing, Resumed, Handed;
    NothingAdded(w);
    match m
    case Call(e) => CallOutgoing(w, e, keeps);
    case Deliver => OutgoingOnly(w, Do(w, m, keeps));
    case Serve(accepted) => ServeOutgoing(w, accepted, keeps);
    case Work(step) => OutgoingOnly(w, Do(w, m, keeps));
    case Disconnect => DroppedOutgoing(Do(w, m, keeps));
    case Resume(s, order, first) => ResumeOutgoing(w, s, order, first, keeps);
  }

  lemma NothingAdded(w: World)
    ensures Outgoing(w) + [] == Outgoing(w)
  {
  }

  lemma OutgoingOnly(a: World, b: World)
    requires a.handed == b.handed && a.up == b.up
    ensures Outgoing(a) == Outgoing(b)
  {
  }

  lemma DroppedOutgoing(w: World)
    requires w.up == []
    ensures Outgoing(w) == w.handed
  {
    assert HandedAll([]) == [];
  }

  lemma ResumeOutgoing(w: World, s: Session, order: seq<Command>, first: bool, keeps: bool)
    ensures Outgoing(Do(w, Resume(s, order, first), keeps)) == Outgoing(w)
  {
    hide HandedAll, Resubscribes, Act, Next, For;
    SubscribesNothing(order);
    HandedTwice(w.up, Resubscribes(order));
    HandedTwice(Resubscribes(order), w.up);
    assert HandedAll(w.up) + [] == HandedAll(w.up) && [] + HandedAll(w.up) == HandedAll(w.up);
  }

  lemma CallHands(t: Tables, e: Event)
    ensures HandedAll(Act(t, e).up) == Wanted(Call(e))
  {
    var up := Act(t, e).up;
    assert |up| <= 1;
    if up != [] {
      assert up == [up[0]];
      HandedOne(up[0]);
    }
  }

  lemma CallOutgoing(w: World, e: Event, keeps: bool)
    requires Legal(w, Call(e))
    ensures Outgoing(Do(w, Call(e), keeps)) == Outgoing(w) + if w.session.Some? || keeps then Wanted(Call(e)) else []
  {
    var o := Act(w.tables, e);
    hide Do, Act, Wanted, HandedAll;
    CallHands(w.tables, e);
    CallDoes(w, e, keeps);
    HandedTwice(w.up, o.up);
    assert w.handed + (HandedAll(w.up) + HandedAll(o.up)) == Outgoing(w) + HandedAll(o.up);
    assert w.up + [] == w.up && Outgoing(w) + [] == Outgoing(w);
  }

  lemma ServeOutgoing(w: World, accepted: bool, keeps: bool)
    requires w.up != [] && w.session.Some?
    ensures Outgoing(Do(w, Serve(accepted), keeps)) == Outgoing(w)
  {
    hide HandedAll, Handed, Next, For;
    assert w.up == [w.up[0]] + w.up[1..];
    HandedTwice([w.up[0]], w.up[1..]);
    HandedOne(w.up[0]);
    assert w.handed + (Handed(w.up[0]) + HandedAll(w.up[1..])) == w.handed + Handed(w.up[0]) + HandedAll(w.up[1..]);
  }

  lemma {:induction false} WantedFront(moves: seq<Move>)
    requires moves != []
    ensures WantedAll(moves) == Wanted(moves[0]) + WantedAll(moves[1..])
  {
    hide Wanted;
    var n := |moves| - 1;
    if n == 0 {
      assert WantedAll(moves[..0]) == [] == WantedAll(moves[1..]);
    } else {
      WantedFront(moves[..n]);
      assert moves[..n][1..] == moves[1..][..n - 1] && moves[1..][n - 1] == moves[n] && moves[..n][0] == moves[0];
      Assoc(Wanted(moves[0]), WantedAll(moves[1..][..n - 1]), Wanted(moves[n]));
    }
  }

  /** Over one connection every command the application calls for is written, or on its way to be, with its
      data, once, and in the order of the calls; and nothing else is. */
  lemma {:induction false} WrittenInOrder(w: World, moves: seq<Move>, keeps: bool)
    requires LegalRun(w, moves, keeps) && w.session.Some? && Disconnect !in moves
    ensures Outgoing(Run(w, moves, keeps)) == Outgoing(w) + WantedAll(moves)
    decreases |moves|
  {
    hide Outgoing, Wanted, WantedAll, Do, Run, LegalRun;
    if moves != [] {
      var w' := Do(w, moves[0], keeps);
      Unroll(w, moves, keeps);
      StaysConnected(w, moves[0], keeps);
      MoveOutgoing(w, moves[0], keeps);
      WrittenInOrder(w', moves[1..], keeps);
      WantedFront(moves);
      assert Outgoing(w) + (Wanted(moves[0]) + WantedAll(moves[1..])) == Outgoing(w) + Wanted(moves[0]) + WantedAll(moves[1..]);
    } else {
      RunNone(w, keeps);
      NothingWanted();
    }
  }

  lemma StaysConnected(w: World, m: Move, keeps: bool)
    requires w.session.Some? && !m.Disconnect?
    ensures Do(w, m, keeps).session.Some?
  {
    hide Act, Next, For;
  }

  /** a is left of b when some of it is struck out. */
  ghost predicate Subsequence<T>(a: seq<T>, b: seq<T>) {
    a == [] ||
    (b != [] && ((a[|a| - 1] == b[|b| - 1] && Subsequence(a[..|a| - 1], b[..|b| - 1])) || Subsequence(a, b[..|b| - 1])))
  }

  lemma {:induction false} SubsequenceMore<T>(a: seq<T>, b: seq<T>, more: seq<T>, both: bool)
    requires Subsequence(a, b) && |more| <= 1
    ensures Subsequence(if both then a + more else a, b + more)
  {
    if more == [] {
      assert a + more == a && b + more == b;
    } else {
      assert (a + more)[..|a|] == a && (b + more)[..|b|] == b;
    }
  }

  lemma {:induction false} SubsequencePrefix<T>(a: seq<T>, b: seq<T>, k: nat)
    requires Subsequence(a, b) && k <= |a|
    ensures Subsequence(a[..k], b)
    decreases b
  {
    if k == |a| {
      assert a[..k] == a;
    } else if k > 0 {
      if a[|a| - 1] == b[|b| - 1] && Subsequence(a[..|a| - 1], b[..|b| - 1]) {
        SubsequencePrefix(a[..|a| - 1], b[..|b| - 1], k);
        assert a[..|a| - 1][..k] == a[..k];
      } else {
        SubsequencePrefix(a, b[..|b| - 1], k);
      }
    }
  }

  lemma {:induction false} OutgoingKept(w: World, moves: seq<Move>, keeps: bool, asked: seq<(Command, seq<byte>)>)
    requires LegalRun(w, moves, keeps) && Subsequence(Outgoing(w), asked)
    ensures Subsequence(Outgoing(Run(w, moves, keeps)), asked + WantedAll(moves))
    decreases |moves|
  {
    hide Outgoing, Wanted, WantedAll, Subsequence, Do, Run, LegalRun;
    if moves != [] {
      Unroll(w, moves, keeps);
      var m, w' := moves[0], Do(w, moves[0], keeps);
      MoveOutgoing(w, m, keeps);
      OutgoingIsShort(w, m);
      SubsequenceMore(Outgoing(w), asked, Wanted(m), !m.Disconnect? && (w.session.Some? || keeps));
      if m.Disconnect? {
        SubsequencePrefix(Outgoing(w), asked, |w.handed|);
        assert Outgoing(w)[..|w.handed|] == w.handed && asked + Wanted(m) == asked;
      }
      OutgoingKept(w', moves[1..], keeps, asked + Wanted(m));
      WantedFront(moves);
      assert asked + (Wanted(m) + WantedAll(moves[1..])) == asked + Wanted(m) + WantedAll(moves[1..]);
    } else {
      RunNone(w, keeps);
      NothingWanted();
      assert asked + [] == asked;
    }
  }

  lemma OutgoingIsShort(w: World, m: Move)
    ensures w.handed <= Outgoing(w) && |Wanted(m)| <= 1 && (m.Disconnect? ==> Wanted(m) == [])
    ensures Outgoing(w) + [] == Outgoing(w)
  {
  }

  lemma NothingWanted()
    ensures WantedAll([]) == []
  {
  }

  /** Across reconnections commands may be lost, but what is written for the client is what the application
      called for, in that order, and nothing twice. */
  lemma WrittenOnce(start: World, moves: seq<Move>, keeps: bool)
    requires Initial(start) && LegalRun(start, moves, keeps)
    ensures Subsequence(Run(start, moves, keeps).handed, WantedAll(moves))
  {
    hide LegalRun, Run, WantedAll;
    assert Outgoing(start) == [];
    OutgoingKept(start, moves, keeps, []);
    var w := Run(start, moves, keeps);
    assert [] + WantedAll(moves) == WantedAll(moves);
    SubsequencePrefix(Outgoing(w), WantedAll(moves), |w.handed|);
    assert Outgoing(w)[..|w.handed|] == w.handed;
  }
}
