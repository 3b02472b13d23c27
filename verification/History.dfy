/** A client of the second version against its history: its tables, what it tells the daemon and what the
    application sees are read off the events it has taken, with no tables at all. */
module History {
  import opened Wire
  import opened Broker
  import opened Client

  // ---------------------------------------------------------------- what has become of an id or a command

  /** What has become of a request. Only an answer that finds it awaited counts. */
  datatype Standing = Unasked | Awaited | GivenUp | Fulfilled(data: seq<byte>)

  function StandingOf(events: seq<Event>, id: Id): Standing {
    if events == [] then Unasked
    else
      var before := StandingOf(events[..|events| - 1], id);
      match events[|events| - 1]
      case Request(id', _, _, _) => if id' == id then Awaited else before
      case DropResponse(id') => if id' == id && before.Awaited? then GivenUp else before
      case Incoming(Response(id', data)) => if id' == id && before.Awaited? then Fulfilled(data) else before
      case _ => before
  }

  /** What has become of a tracked send. */
  datatype Tracking = Untracked | Due(callback: Callback) | Reported(callback: Callback, delivered: bool)

  function TrackingOf(events: seq<Event>, id: Id): Tracking {
    if events == [] then Untracked
    else
      var before := TrackingOf(events[..|events| - 1], id);
      match events[|events| - 1]
      case SendTracked(id', _, _, callback) => if id' == id && !before.Due? then Due(callback) else before
      case Incoming(DeliveryStatus(id', delivered)) =>
        if id' == id && before.Due? then Reported(before.callback, delivered) else before
      case _ => before
  }

  /** The callback a command has: the first one given since it last had none. */
  function BoundTo(events: seq<Event>, command: Command): Option<Callback> {
    if events == [] then None
    else
      var before := BoundTo(events[..|events| - 1], command);
      match events[|events| - 1]
      case SubscribeTo(c, callback) => if c == command && before.None? then Some(callback) else before
      case UnsubscribeFrom(c) => if c == command then None else before
      case _ => before
  }

  // ---------------------------------------------------------------- what the client says and shows

  /** What an event makes the client tell the daemon, after these events. */
  function Says(before: seq<Event>, e: Event): seq<Up> {
    match e
    case Request(id, command, data, response) => [AskRequest(id, command, data, response)]
    case DropResponse(id) => if StandingOf(before, id).Awaited? then [AskCancel(id)] else []
    case Send(command, data) => [AskSend(command, data)]
    case SendTracked(id, command, data, _) => [AskTracked(id, command, data)]
    case SubscribeTo(command, _) => if BoundTo(before, command).None? then [AskSubscribe(command)] else []
    case UnsubscribeFrom(command) => [AskUnsubscribe(command)]
    case Incoming(_) => []
  }

  /** What an event makes the application see, after these events. */
  function Shows(onError: Callback, before: seq<Event>, e: Event): seq<Effect> {
    match e
    case Incoming(Response(id, data)) => if StandingOf(before, id).Awaited? then [PromiseSet(id, data)] else []
    case Incoming(Notification(command, data)) =>
      (match BoundTo(before, command)
       case Some(Some(callback)) => [CommandCalled(callback, command, data)]
       case _ => [])
    case Incoming(DeliveryStatus(id, delivered)) =>
      (match TrackingOf(before, id)
       case Due(Some(callback)) => [DeliveryCalled(id, callback, delivered)]
       case _ => [])
    case Incoming(SendFailed(command)) => if onError.Some? then [ErrorCalled(onError.value, command)] else []
    case _ => []
  }

  function Said(events: seq<Event>): seq<Up> {
    if events == [] then []
    else Said(events[..|events| - 1]) + Says(events[..|events| - 1], events[|events| - 1])
  }

  function Shown(onError: Callback, events: seq<Event>): seq<Effect> {
    if events == [] then []
    else Shown(onError, events[..|events| - 1]) + Shows(onError, events[..|events| - 1], events[|events| - 1])
  }

  /** The tables are what the history says. */
  ghost predicate Reflects(t: Tables, onError: Callback, events: seq<Event>) {
    && t.onError == onError
    && (forall id :: id in t.requests <==> StandingOf(events, id).Awaited?)
    && (forall id :: id in t.deliveries <==> TrackingOf(events, id).Due?)
    && (forall id :: id in t.deliveries ==> TrackingOf(events, id) == Due(t.deliveries[id]))
    && (forall c :: BoundTo(events, c) == if c in t.callbacks then Some(t.callbacks[c]) else None)
  }

  lemma ActReflects(t: Tables, onError: Callback, before: seq<Event>, e: Event)
    requires Reflects(t, onError, before)
    ensures Reflects(Act(t, e).tables, onError, before + [e])
  {
    var events := before + [e];
    assert events[..|events| - 1] == before && events[|events| - 1] == e;
  }

  lemma ActSays(t: Tables, onError: Callback, before: seq<Event>, e: Event)
    requires Reflects(t, onError, before)
    ensures Act(t, e).up == Says(before, e) && Act(t, e).effects == Shows(onError, before, e)
  {
    hide StandingOf, TrackingOf, BoundTo;
  }

  /** A client is its history: the tables hold what the events have left open, and all it ever told the
      daemon and showed to the application follows from the events. */
  lemma {:induction false} ClientIsItsHistory(onError: Callback, events: seq<Event>)
    ensures var o := Acts(Initialized(onError), events);
            Reflects(o.tables, onError, events) && o.up == Said(events) && o.effects == Shown(onError, events)
  {
    if events != [] {
      var before, e := events[..|events| - 1], events[|events| - 1];
      ClientIsItsHistory(onError, before);
      hide Act, Reflects, Says, Shows;
      ActReflects(Acts(Initialized(onError), before).tables, onError, before, e);
      ActSays(Acts(Initialized(onError), before).tables, onError, before, e);
      assert before + [e] == events;
    }
  }

  // ---------------------------------------------------------------- with fresh ids

  predicate FreshDraws(events: seq<Event>) {
    forall i, j :: 0 <= i < j < |events| ==> Drawn(events[i]) !! Drawn(events[j])
  }

  predicate Asks(e: Event, id: Id) {
    e.Request? && e.id == id
  }

  predicate Tracks(e: Event, id: Id) {
    e.SendTracked? && e.id == id
  }

  /** Once asked for, a request is exactly one of awaited, given up and fulfilled. */
  lemma {:induction false} RequestTraced(events: seq<Event>, id: Id)
    requires FreshDraws(events)
    ensures var s := StandingOf(events, id);
            && (s.Unasked? <==> forall e <- events :: !Asks(e, id))
            && (s.GivenUp? ==> DropResponse(id) in events)
            && (s.Fulfilled? ==> Incoming(Response(id, s.data)) in events)
  {
    if events != [] {
      var before, e := events[..|events| - 1], events[|events| - 1];
      assert forall i :: 0 <= i < |before| ==> before[i] == events[i];
      RequestTraced(before, id);
      assert forall x :: x in events <==> x in before || x == e;
      assert StandingOf(events, id).Unasked? <==> StandingOf(before, id).Unasked? && !Asks(e, id);
    }
  }

  lemma ShowsAnswer(onError: Callback, before: seq<Event>, e: Event, id: Id)
    ensures forall data :: PromiseSet(id, data) in Shows(onError, before, e) <==>
              StandingOf(before, id).Awaited? && e == Incoming(Response(id, data))
  {
    hide StandingOf;
  }

  /** It is fulfilled exactly if its promise has been set, with just that data. */
  lemma {:induction false} RequestSettled(onError: Callback, events: seq<Event>, id: Id)
    requires FreshDraws(events)
    ensures forall data :: PromiseSet(id, data) in Shown(onError, events) <==> StandingOf(events, id) == Fulfilled(data)
  {
    hide Shows;
    if events != [] {
      var before, e := events[..|events| - 1], events[|events| - 1];
      assert forall i :: 0 <= i < |before| ==> before[i] == events[i];
      RequestSettled(onError, before, id);
      RequestTraced(before, id);
      ShowsAnswer(onError, before, e, id);
      assert forall x :: x in Shown(onError, events) <==> x in Shown(onError, before) || x in Shows(onError, before, e);
      if Asks(e, id) {
        AskedOnce(events, id);
      }
    }
  }

  lemma AskedOnce(events: seq<Event>, id: Id)
    requires FreshDraws(events) && events != [] && id in Drawn(events[|events| - 1])
    ensures forall e <- events[..|events| - 1] :: !Asks(e, id) && !Tracks(e, id)
  {
  }

  /** A tracked send is exactly one of still due, with the callback given for it, and reported. */
  lemma {:induction false} SendTraced(events: seq<Event>, id: Id)
    requires FreshDraws(events)
    ensures var s := TrackingOf(events, id);
            && (s.Untracked? <==> forall e <- events :: !Tracks(e, id))
            && (forall e <- events :: Tracks(e, id) ==> !s.Untracked? && s.callback == e.callback)
            && (s.Reported? ==> Incoming(DeliveryStatus(id, s.delivered)) in events)
  {
    if events != [] {
      var before, e := events[..|events| - 1], events[|events| - 1];
      assert forall i :: 0 <= i < |before| ==> before[i] == events[i];
      SendTraced(before, id);
      assert forall x :: x in events <==> x in before || x == e;
      if Tracks(e, id) {
        AskedOnce(events, id);
      }
    }
  }

  lemma ShowsReport(onError: Callback, before: seq<Event>, e: Event, id: Id)
    ensures forall callback, delivered :: DeliveryCalled(id, callback, delivered) in Shows(onError, before, e) <==>
              TrackingOf(before, id) == Due(Some(callback)) && e == Incoming(DeliveryStatus(id, delivered))
  {
  }

  /** It is reported exactly if its callback, where it has one, was called with just that outcome. */
  lemma {:induction false} SendSettled(onError: Callback, events: seq<Event>, id: Id)
    requires FreshDraws(events)
    ensures forall callback, delivered :: DeliveryCalled(id, callback, delivered) in Shown(onError, events) <==>
              TrackingOf(events, id) == Reported(Some(callback), delivered)
  {
    hide Shows;
    if events != [] {
      var before, e := events[..|events| - 1], events[|events| - 1];
      assert forall i :: 0 <= i < |before| ==> before[i] == events[i];
      SendSettled(onError, before, id);
      SendTraced(before, id);
      ShowsReport(onError, before, e, id);
      assert forall x :: x in Shown(onError, events) <==> x in Shown(onError, before) || x in Shows(onError, before, e);
      if Tracks(e, id) {
        AskedOnce(events, id);
      }
    }
  }
}
