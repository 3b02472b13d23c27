/** The daemon's handlers. Each runs its locked sections one after the other; module Broker has the
    same sections as steps that may interleave. */
module Daemon {
  import opened Wire
  import opened Broker

  /** The notifications for the sessions of an iteration order. */
  function Notifies(order: seq<Session>): seq<Step> {
    seq(|order|, i requires 0 <= i < |order| => Notify(order[i]))
  }

  function ReceiveSteps(order: seq<Session>, command: Command, data: seq<byte>): seq<Step> {
    [Snapshot(command, data)] + Notifies(order) + [TakeOldest] + [Respond]
  }

  function Notifications(order: seq<Session>, command: Command, data: seq<byte>): seq<Envelope> {
    seq(|order|, i requires 0 <= i < |order| => Envelope(order[i], Notification(command, data)))
  }

  function Responses(request: Option<Pending>, data: seq<byte>): seq<Envelope> {
    match request
    case None => []
    case Some(p) => [Envelope(p.session, Response(p.id, data))]
  }

  class Daemon {
    var subscribers: Table
    var requests: seq<Pending>
    var outbox: seq<Envelope>
    var written: seq<(Command, seq<byte>)>

    constructor ()
      ensures View() == START && outbox == [] && written == []
    {
      subscribers, requests, outbox, written := map[], [], [], [];
    }

    function View(): State
      reads this
    {
      State(subscribers, requests, Waiting)
    }

    method OnSubscribe(session: Session, command: Command)
      modifies `subscribers
      ensures View() == Next(old(View()), Subscribe(session, command)).0
    {
      if command !in subscribers {
        subscribers := subscribers[command := {}];
      }
      subscribers := subscribers[command := subscribers[command] + {session}];
    }

    method OnUnsubscribe(session: Session, command: Command)
      modifies `subscribers
      ensures View() == Next(old(View()), Unsubscribe(session, command)).0
    {
      if command !in subscribers {
        subscribers := subscribers[command := {}];
      }
      subscribers := subscribers[command := subscribers[command] - {session}];
    }

    method OnRequest(session: Session, id: Id, command: Command, data: seq<byte>, response: Command)
      modifies `requests, `written
      ensures View() == Next(old(View()), Register(session, id, response)).0
      ensures written == old(written) + [(command, data)]
    {
      requests := requests + [Pending(id, response, session)];
      written := written + [(command, data)];
    }

    method OnCancelRequest(session: Session, id: Id)
      modifies `requests
      ensures View() == Next(old(View()), Cancel(id)).0
    {
      var i := 0;
      while i < |requests| && requests[i].id != id
        invariant i <= |requests|
        invariant RemoveId(requests, id) == requests[..i] + RemoveId(requests[i..], id)
      {
        assert requests[i..][1..] == requests[i + 1..];
        assert requests[..i] + ([requests[i]] + RemoveId(requests[i + 1..], id)) == requests[..i + 1] + RemoveId(requests[i + 1..], id);
        i := i + 1;
      }
      if i < |requests| {
        assert requests[i..][1..] == requests[i + 1..];
        requests := requests[..i] + requests[i + 1..];
      }
    }

    /** Two sections: the session's subscriptions go first, then its requests. */
    method OnClientDisconnected(session: Session)
      modifies `subscribers, `requests
      ensures View() == From(old(View()), [ForgetSubscriptions(session)] + [ForgetRequests(session)]).0
    {
      FromTwice(View(), [], ForgetSubscriptions(session));
      FromTwice(View(), [ForgetSubscriptions(session)], ForgetRequests(session));
      assert [] + [ForgetSubscriptions(session)] == [ForgetSubscriptions(session)];
      ForgetSubscriber(session);
      ForgetPending(session);
    }

    method ForgetSubscriber(session: Session)
      modifies `subscribers
      ensures subscribers == WithoutHolder(old(subscribers), session)
    {
      var todo := subscribers.Keys;
      while todo != {}
        invariant todo <= subscribers.Keys == old(subscribers).Keys
        invariant forall c :: c in subscribers ==>
          subscribers[c] == if c in todo then old(subscribers)[c] else old(subscribers)[c] - {session}
        decreases |todo|
      {
        var c :| c in todo;
        subscribers := subscribers[c := subscribers[c] - {session}];
        todo := todo - {c};
      }
    }

    method ForgetPending(session: Session)
      modifies `requests
      ensures requests == RemoveSession(old(requests), session)
    {
      var kept := [];
      var i := 0;
      while i < |requests|
        invariant i <= |requests|
        invariant RemoveSession(requests, session) == kept + RemoveSession(requests[i..], session)
      {
        assert requests[i..][1..] == requests[i + 1..];
        if requests[i].session != session {
          assert kept + ([requests[i]] + RemoveSession(requests[i + 1..], session)) ==
                 kept + [requests[i]] + RemoveSession(requests[i + 1..], session);
          kept := kept + [requests[i]];
        }
        i := i + 1;
      }
      assert requests[i..] == [];
      requests := kept;
    }

    /** Notifies the subscribers found when the handler starts, each once, then answers the oldest
        request that waits for the command. */
    method OnReceiveCommand(command: Command, data: seq<byte>) returns (ghost order: seq<Session>)
      modifies `subscribers, `requests, `outbox
      ensures Visits(order, Holders(old(subscribers), command))
      ensures From(old(View()), ReceiveSteps(order, command, data)).0 == View()
      ensures old(outbox) + From(old(View()), ReceiveSteps(order, command, data)).1 == outbox
      ensures requests == RemoveOldest(old(requests), command)
      ensures outbox == old(outbox) + Notifications(order, command, data) + Responses(Oldest(old(requests), command), data)
    {
      ghost var before := View();
      var todo := CopySubscribers(command);
      order := NotifyEach(todo, command, data);
      var request := TakeRequest(command);
      if request.Some? {
        outbox := outbox + [Envelope(request.value.session, Response(request.value.id, data))];
      }
      NotifyAll(before, order, command, data);
      hide *;
      assert outbox == old(outbox) + (Notifications(order, command, data) + Responses(Oldest(old(requests), command), data));
    }

    /** The first locked section: the subscribers of a command. */
    method CopySubscribers(command: Command) returns (sessions: set<Session>)
      modifies `subscribers
      ensures subscribers == Opened(old(subscribers), command) && sessions == Holders(old(subscribers), command)
    {
      if command !in subscribers {
        subscribers := subscribers[command := {}];
      }
      sessions := subscribers[command];
    }

    method NotifyEach(sessions: set<Session>, command: Command, data: seq<byte>) returns (ghost order: seq<Session>)
      modifies `outbox
      ensures Visits(order, sessions) && outbox == old(outbox) + Notifications(order, command, data)
    {
      var todo := sessions;
      order := [];
      while todo != {}
        invariant todo <= sessions && Visits(order, sessions - todo)
        invariant outbox == old(outbox) + Notifications(order, command, data)
        decreases |todo|
      {
        var session :| session in todo;
        outbox := outbox + [Envelope(session, Notification(command, data))];
        assert Notifications(order + [session], command, data) ==
               Notifications(order, command, data) + [Envelope(session, Notification(command, data))];
        order := order + [session];
        todo := todo - {session};
      }
    }

    /** The second locked section: the oldest request for a command, taken out of the list. */
    method TakeRequest(command: Command) returns (request: Option<Pending>)
      modifies `requests
      ensures request == Oldest(old(requests), command) && requests == RemoveOldest(old(requests), command)
    {
      var i := 0;
      while i < |requests| && requests[i].command != command
        invariant i <= |requests| && requests == old(requests)
        invariant RemoveOldest(requests, command) == requests[..i] + RemoveOldest(requests[i..], command)
        invariant Oldest(requests, command) == Oldest(requests[i..], command)
      {
        assert requests[i..][1..] == requests[i + 1..];
        assert requests[..i] + ([requests[i]] + RemoveOldest(requests[i + 1..], command)) ==
               requests[..i + 1] + RemoveOldest(requests[i + 1..], command);
        i := i + 1;
      }
      request := None;
      if i < |requests| {
        request := Some(requests[i]);
        assert requests[i..][1..] == requests[i + 1..];
        requests := requests[..i] + requests[i + 1..];
      }
    }

    /** `accepted` is what writing to the V-CPU returns. */
    method OnSendCommand(session: Session, command: Command, data: seq<byte>, accepted: bool)
      modifies `outbox, `written
      ensures written == old(written) + [(command, data)]
      ensures outbox == old(outbox) + if accepted then [] else [Envelope(session, SendFailed(command))]
    {
      written := written + [(command, data)];
      if !accepted {
        outbox := outbox + [Envelope(session, SendFailed(command))];
      }
    }

    method OnSendCommandWithDeliveryStatus(session: Session, id: Id, command: Command, data: seq<byte>, accepted: bool)
      modifies `outbox, `written
      ensures written == old(written) + [(command, data)]
      ensures outbox == old(outbox) + [Envelope(session, DeliveryStatus(id, accepted))]
    {
      written := written + [(command, data)];
      outbox := outbox + [Envelope(session, DeliveryStatus(id, accepted))];
    }
  }

  lemma {:induction false} NotifySome(d: State, order: seq<Session>, command: Command, data: seq<byte>)
    requires d.phase.Waiting? && forall s :: s in order ==> s in Holders(d.subscribers, command)
    requires forall i, j :: 0 <= i < j < |order| ==> order[i] != order[j]
    ensures From(d, [Snapshot(command, data)] + Notifies(order)) ==
            (Notified(d, order, command, data), Notifications(order, command, data))
  {
    if order == [] {
      assert [Snapshot(command, data)] + Notifies(order) == [] + [Snapshot(command, data)];
      FromTwice(d, [], Snapshot(command, data));
      assert Holders(d.subscribers, command) - (set s | s in order) == Holders(d.subscribers, command);
      assert Notifications(order, command, data) == [];
      var sent: seq<Envelope> := [];
      assert sent + [] == [];
      assert Next(d, Snapshot(command, data)) == (Notified(d, order, command, data), []);
    } else {
      var n := |order| - 1;
      var rest, s := order[..n], order[n];
      NotifySome(d, rest, command, data);
      assert [Snapshot(command, data)] + Notifies(order) == [Snapshot(command, data)] + Notifies(rest) + [Notify(s)];
      FromTwice(d, [Snapshot(command, data)] + Notifies(rest), Notify(s));
      assert order == rest + [s];
      hide From;
      NotifyOne(d, rest, s, command, data);
      assert Notifications(order, command, data) == Notifications(rest, command, data) + [Envelope(s, Notification(command, data))];
    }
  }

  /** The broker after the sessions of `order` have been notified. */
  ghost function Notified(d: State, order: seq<Session>, command: Command, data: seq<byte>): State {
    State(Opened(d.subscribers, command), d.requests,
          Notifying(Holders(d.subscribers, command) - (set s | s in order), command, data))
  }

  lemma NotifyOne(d: State, rest: seq<Session>, s: Session, command: Command, data: seq<byte>)
    requires s in Holders(d.subscribers, command) && s !in rest
    ensures Next(Notified(d, rest, command, data), Notify(s)) ==
            (Notified(d, rest + [s], command, data), [Envelope(s, Notification(command, data))])
  {
    VisitOne(d.subscribers, rest, s, command);
  }

  lemma VisitOne(table: Table, rest: seq<Session>, s: Session, command: Command)
    requires s in Holders(table, command) && s !in rest
    ensures s in Holders(table, command) - (set x | x in rest)
    ensures Holders(table, command) - (set x | x in rest) - {s} == Holders(table, command) - (set x | x in rest + [s])
  {
  }

  /** What the steps of a whole receive come to. */
  lemma NotifyAll(d: State, order: seq<Session>, command: Command, data: seq<byte>)
    requires d.phase.Waiting? && Visits(order, Holders(d.subscribers, command))
    ensures From(d, ReceiveSteps(order, command, data)) ==
            (State(Opened(d.subscribers, command), RemoveOldest(d.requests, command), Waiting),
             Notifications(order, command, data) + Responses(Oldest(d.requests, command), data))
  {
    NotifySome(d, order, command, data);
    var steps := [Snapshot(command, data)] + Notifies(order);
    FromTwice(d, steps, TakeOldest);
    FromTwice(d, steps + [TakeOldest], Respond);
    assert Holders(d.subscribers, command) - (set s | s in order) == {};
    hide From;
    var e := Notified(d, order, command, data);
    var sent := Notifications(order, command, data);
    TakeAndRespond(e);
    assert sent + [] == sent && forall out: seq<Envelope> :: sent + [] + out == sent + out;
  }

  lemma TakeAndRespond(d: State)
    requires d.phase.Notifying? && d.phase.todo == {}
    ensures var (taken, none) := Next(d, TakeOldest);
            && none == []
            && Next(taken, Respond) == (State(d.subscribers, RemoveOldest(d.requests, d.phase.command), Waiting),
                                        Responses(Oldest(d.requests, d.phase.command), d.phase.data))
  {
    if Oldest(d.requests, d.phase.command).None? {
      NothingToTake(d.requests, d.phase.command);
    }
  }

  lemma {:induction false} NothingToTake(requests: seq<Pending>, command: Command)
    requires Oldest(requests, command).None?
    ensures RemoveOldest(requests, command) == requests
  {
    if requests != [] {
      NothingToTake(requests[1..], command);
    }
  }
}
