/** The second version of the client library: requests with futures, one callback for each command,
    and sends that report their delivery. */
module Client {
  import opened Wire
  import opened Broker

  /** A callback of the application; None is an empty one. */
  type Callback = Option<nat>

  /** What a client tells the daemon. */
  datatype Up =
    | AskSubscribe(command: Command)
    | AskUnsubscribe(command: Command)
    | AskRequest(id: Id, command: Command, data: seq<byte>, response: Command)
    | AskCancel(id: Id)
    | AskSend(command: Command, data: seq<byte>)
    | AskTracked(id: Id, command: Command, data: seq<byte>)

  /** What the application sees. */
  datatype Effect =
    | PromiseSet(id: Id, data: seq<byte>)
    | CommandCalled(callback: nat, command: Command, data: seq<byte>)
    | DeliveryCalled(id: Id, callback: nat, delivered: bool)
    | ErrorCalled(callback: nat, command: Command)

  datatype Tables = Tables(requests: set<Id>, callbacks: map<Command, Callback>, deliveries: map<Id, Callback>,
                           onError: Callback)

  function Initialized(onError: Callback): Tables {
    Tables({}, map[], map[], onError)
  }

  /** Calls of the application, and messages from the daemon. Request and SendTracked carry the
      identifier the library draws for them. */
  datatype Event =
    | Request(id: Id, command: Command, data: seq<byte>, response: Command)
    | DropResponse(id: Id)
    | Send(command: Command, data: seq<byte>)
    | SendTracked(id: Id, command: Command, data: seq<byte>, callback: Callback)
    | SubscribeTo(command: Command, callback: Callback)
    | UnsubscribeFrom(command: Command)
    | Incoming(message: Message)

  /** The identifiers an event draws. */
  function Drawn(e: Event): set<Id> {
    match e
    case Request(id, _, _, _) => {id}
    case SendTracked(id, _, _, _) => {id}
    case _ => {}
  }

  datatype Outcome = Outcome(tables: Tables, up: seq<Up>, effects: seq<Effect>)

  function Act(t: Tables, e: Event): Outcome {
    match e
    case Request(id, command, data, response) =>
      Outcome(t.(requests := t.requests + {id}), [AskRequest(id, command, data, response)], [])
    case DropResponse(id) =>
      if id in t.requests then Outcome(t.(requests := t.requests - {id}), [AskCancel(id)], []) else Outcome(t, [], [])
    case Send(command, data) => Outcome(t, [AskSend(command, data)], [])
    case SendTracked(id, command, data, callback) =>
      Outcome(t.(deliveries := if id in t.deliveries then t.deliveries else t.deliveries[id := callback]),
              [AskTracked(id, command, data)], [])
    case SubscribeTo(command, callback) =>
      if command in t.callbacks then Outcome(t, [], [])
      else Outcome(t.(callbacks := t.callbacks[command := callback]), [AskSubscribe(command)], [])
    case UnsubscribeFrom(command) =>
      Outcome(t.(callbacks := t.callbacks - {command}), [AskUnsubscribe(command)], [])
    case Incoming(Notification(command, data)) =>
      Outcome(t, [], if command in t.callbacks && t.callbacks[command].Some?
                     then [CommandCalled(t.callbacks[command].value, command, data)] else [])
    case Incoming(Response(id, data)) =>
      Outcome(t.(requests := t.requests - {id}), [], if id in t.requests then [PromiseSet(id, data)] else [])
    case Incoming(DeliveryStatus(id, delivered)) =>
      Outcome(t.(deliveries := t.deliveries - {id}), [],
              if id in t.deliveries && t.deliveries[id].Some? then [DeliveryCalled(id, t.deliveries[id].value, delivered)] else [])
    case Incoming(SendFailed(command)) =>
      Outcome(t, [], if t.onError.Some? then [ErrorCalled(t.onError.value, command)] else [])
  }

  /** A series of events: the tables at the end, all that was sent and all that was seen. */
  function Acts(t: Tables, events: seq<Event>): Outcome {
    if events == [] then Outcome(t, [], [])
    else
      var before := Acts(t, events[..|events| - 1]);
      var o := Act(before.tables, events[|events| - 1]);
      Outcome(o.tables, before.up + o.up, before.effects + o.effects)
  }

  lemma ActsOne(t: Tables, events: seq<Event>, e: Event)
    ensures var before := Acts(t, events); var o := Act(before.tables, e);
            Acts(t, events + [e]) == Outcome(o.tables, before.up + o.up, before.effects + o.effects)
  {
    hide Act;
    assert (events + [e])[..|events|] == events;
  }

  /** What resuming a connection sends, for an order of the subscribed commands. */
  function Resubscribes(order: seq<Command>): seq<Up> {
    seq(|order|, i requires 0 <= i < |order| => AskSubscribe(order[i]))
  }

  /** What closing a client does to the futures that still wait. */
  function Abandons(order: seq<Id>): seq<Effect> {
    seq(|order|, i requires 0 <= i < |order| => PromiseSet(order[i], []))
  }

  class CpuCom {
    var requests: set<Id>
    var callbacks: map<Command, Callback>
    var deliveries: map<Id, Callback>
    var up: seq<Up>
    var effects: seq<Effect>
    const onError: Callback

    constructor (onError: Callback)
      ensures View() == Initialized(onError) && up == [] && effects == []
    {
      this.onError := onError;
      requests, callbacks, deliveries, up, effects := {}, map[], map[], [], [];
    }

    function View(): Tables
      reads this
    {
      Tables(requests, callbacks, deliveries, onError)
    }

    /** The new state is what the event makes of the old one. */
    twostate predicate Did(e: Event)
      reads this
    {
      var o := Act(old(View()), e);
      View() == o.tables && up == old(up) + o.up && effects == old(effects) + o.effects
    }

    method SendCommand(command: Command, data: seq<byte>)
      modifies this
      ensures Did(Send(command, data))
    {
      up := up + [AskSend(command, data)];
    }

    method SendWithStatus(id: Id, command: Command, data: seq<byte>, callback: Callback)
      modifies this
      ensures Did(SendTracked(id, command, data, callback))
    {
      if id !in deliveries {
        deliveries := deliveries[id := callback];
      }
      up := up + [AskTracked(id, command, data)];
    }

    method MakeRequest(id: Id, command: Command, data: seq<byte>, response: Command)
      modifies this
      ensures Did(Request(id, command, data, response))
    {
      requests := requests + {id};
      up := up + [AskRequest(id, command, data, response)];
    }

    /** Runs when the response object of a request is destroyed. */
    method CancelRequest(id: Id)
      modifies this
      ensures Did(DropResponse(id))
    {
      var cancelled := id in requests;
      requests := requests - {id};
      if cancelled {
        up := up + [AskCancel(id)];
      }
    }

    method Subscribe(command: Command, callback: Callback)
      modifies this
      ensures Did(SubscribeTo(command, callback))
    {
      if command !in callbacks {
        callbacks := callbacks[command := callback];
        up := up + [AskSubscribe(command)];
      }
    }

    method Unsubscribe(command: Command)
      modifies this
      ensures Did(UnsubscribeFrom(command))
    {
      callbacks := callbacks - {command};
      up := up + [AskUnsubscribe(command)];
    }

    method OnNotification(command: Command, data: seq<byte>)
      modifies this
      ensures Did(Incoming(Notification(command, data)))
    {
      var callback := None;
      if command in callbacks {
        callback := callbacks[command];
      }
      if callback.Some? {
        effects := effects + [CommandCalled(callback.value, command, data)];
      }
    }

    method OnSendCommandResult(command: Command)
      modifies this
      ensures Did(Incoming(SendFailed(command)))
    {
      if onError.Some? {
        effects := effects + [ErrorCalled(onError.value, command)];
      }
    }

    method OnRequestResponse(id: Id, data: seq<byte>)
      modifies this
      ensures Did(Incoming(Response(id, data)))
    {
      if id in requests {
        effects := effects + [PromiseSet(id, data)];
      }
      requests := requests - {id};
    }

    /** Looking the callback up creates an empty one if there is none. */
    method OnDeliveryStatus(id: Id, delivered: bool)
      modifies this
      ensures Did(Incoming(DeliveryStatus(id, delivered)))
    {
      if id !in deliveries {
        deliveries := deliveries[id := None];
      }
      var callback := deliveries[id];
      deliveries := deliveries - {id};
      if callback.Some? {
        effects := effects + [DeliveryCalled(id, callback.value, delivered)];
      }
      assert deliveries == old(deliveries) - {id};
    }

    /** Hands an event to the method that is there for it. */
    method Take(e: Event)
      modifies this
      ensures Did(e)
    {
      match e
      case Request(id, command, data, response) => MakeRequest(id, command, data, response);
      case DropResponse(id) => CancelRequest(id);
      case Send(command, data) => SendCommand(command, data);
      case SendTracked(id, command, data, callback) => SendWithStatus(id, command, data, callback);
      case SubscribeTo(command, callback) => Subscribe(command, callback);
      case UnsubscribeFrom(command) => Unsubscribe(command);
      case Incoming(Notification(command, data)) => OnNotification(command, data);
      case Incoming(Response(id, data)) => OnRequestResponse(id, data);
      case Incoming(DeliveryStatus(id, delivered)) => OnDeliveryStatus(id, delivered);
      case Incoming(SendFailed(command)) => OnSendCommandResult(command);
    }

    /** A client driven by any series of calls and messages. */
    method TakeAll(events: seq<Event>)
      modifies this
      ensures var o := Acts(old(View()), events);
              View() == o.tables && up == old(up) + o.up && effects == old(effects) + o.effects
    {
      ghost var start, sent, seen := View(), up, effects;
      assert sent + [] == sent && seen + [] == seen;
      for i := 0 to |events|
        invariant var o := Acts(start, events[..i]); View() == o.tables && up == sent + o.up && effects == seen + o.effects
      {
        hide Act;
        assert events[..i + 1] == events[..i] + [events[i]];
        ActsOne(start, events[..i], events[i]);
        Take(events[i]);
      }
      assert events[..|events|] == events;
    }

    method OnConnectionResumed() returns (ghost order: seq<Command>)
      modifies `up
      ensures Visits(order, callbacks.Keys) && up == old(up) + Resubscribes(order)
    {
      var todo := callbacks.Keys;
      order := [];
      while todo != {}
        invariant todo <= callbacks.Keys && Visits(order, callbacks.Keys - todo)
        invariant up == old(up) + Resubscribes(order)
        decreases |todo|
      {
        var command :| command in todo;
        up := up + [AskSubscribe(command)];
        assert Resubscribes(order + [command]) == Resubscribes(order) + [AskSubscribe(command)];
        order := order + [command];
        todo := todo - {command};
      }
    }

    /** The destructor: whoever still waits gets an empty answer. */
    method Close() returns (ghost order: seq<Id>)
      modifies `effects
      ensures Visits(order, requests) && effects == old(effects) + Abandons(order)
      ensures |effects| == |old(effects)| + |order|
      ensures forall i :: 0 <= i < |order| ==> effects[|old(effects)| + i] == PromiseSet(order[i], [])
    {
      var todo := requests;
      order := [];
      while todo != {}
        invariant todo <= requests && Visits(order, requests - todo)
        invariant effects == old(effects) + Abandons(order)
        decreases |todo|
      {
        var id :| id in todo;
        effects := effects + [PromiseSet(id, [])];
        assert Abandons(order + [id]) == Abandons(order) + [PromiseSet(id, [])];
        order := order + [id];
        todo := todo - {id};
      }
    }
  }
}
