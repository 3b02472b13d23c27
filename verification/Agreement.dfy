/** One client of the second version and the daemon, over the two channels of a connection that may
    close and come back, among any other sessions: their tables agree. */
module Agreement {
  import opened Wire
  import opened Broker
  import opened Client
  import opened Server

  /** `handed` is what the daemon has written to the V-CPU for this client. `used` has every id ever drawn,
      `owned` those the client drew for the current connection, and `lost` those it drew for connections
      that have closed, or for messages that were never sent. The four are bookkeeping: no step depends
      on them. */
  datatype World = World(
    tables: Tables, up: seq<Up>, down: seq<Message>, effects: seq<Effect>,
    daemon: State, session: Option<Session>, handed: seq<(Command, seq<byte>)>,
    owned: set<Id>, used: set<Id>, lost: set<Id>)

  /** A connection that has just been made. */
  predicate Initial(w: World) {
    && w.tables == Initialized(w.tables.onError) && w.up == [] && w.down == [] && w.effects == []
    && w.session.Some? && w.handed == []
    && Unknown(w.daemon, w.session.value) && DistinctPending(w.daemon.requests)
    && w.owned == {} && w.lost == {} && forall p :: p in w.daemon.requests ==> p.id in w.used
  }

  datatype Move =
    | Call(event: Event)
    | Deliver
    | Serve(accepted: bool)
    | Work(step: Step)
    | Disconnect
    | Resume(session: Session, order: seq<Command>, first: bool)

  predicate DistinctPending(requests: seq<Pending>) {
    forall i, j :: 0 <= i < j < |requests| ==> requests[i].id != requests[j].id
  }

  /** The daemon holds nothing of a session. */
  predicate Unknown(d: State, s: Session) {
    && (forall c :: c in d.subscribers ==> s !in d.subscribers[c])
    && (forall p :: p in d.requests ==> p.session != s)
    && (d.phase.Notifying? ==> s !in d.phase.todo)
    && (d.phase.Responding? ==> d.phase.request.session != s)
  }

  /** A step that the V-CPU thread or a session other than this client's may take. */
  predicate Foreign(w: World, step: Step) {
    match step
    case Subscribe(s, _) => w.session != Some(s)
    case Unsubscribe(s, _) => w.session != Some(s)
    case ForgetSubscriptions(s) => w.session != Some(s)
    case ForgetRequests(s) => w.session != Some(s)
    case Report(s, _) => w.session != Some(s)
    case Register(s, id, _) => w.session != Some(s) && id !in w.owned && forall p :: p in w.daemon.requests ==> p.id != id
    case Cancel(id) => id !in w.owned
    case _ => true
  }

  /** What can happen: identifiers are fresh, sessions are new, and the channels are first in, first
      out. */
  ghost predicate Legal(w: World, m: Move) {
    match m
    case Call(Request(id, _, _, _)) => id !in w.used
    case Call(SendTracked(id, _, _, _)) => id !in w.used
    case Call(Incoming(_)) => false
    case Call(_) => true
    case Deliver => w.down != []
    case Serve(_) => w.up != [] && w.session.Some?
    case Work(step) => Foreign(w, step)
    case Disconnect => w.session.Some?
    case Resume(s, order, _) => w.session.None? && Unknown(w.daemon, s) && Visits(order, w.tables.callbacks.Keys)
  }

  /** The messages for a session, in order. */
  function For(s: Option<Session>, sent: seq<Envelope>): seq<Message> {
    if sent == [] then []
    else if s == Some(sent[0].session) then [sent[0].message] + For(s, sent[1..])
    else For(s, sent[1..])
  }

  function StepIds(s: Step): set<Id> {
    match s
    case Register(_, id, _) => {id}
    case _ => {}
  }

  /** What is kept for a new connection and the subscriptions it begins with, in either order. */
  function Resumed(up: seq<Up>, order: seq<Command>, first: bool): seq<Up> {
    if first then Resubscribes(order) + up else up + Resubscribes(order)
  }

  /** `keeps` says whether the library keeps what the client sends while the connection is down, or
      loses it. */
  function Do(w: World, m: Move, keeps: bool): World {
    match m
    case Call(e) =>
      var o := Act(w.tables, e);
      var w' := w.(tables := o.tables, effects := w.effects + o.effects, used := w.used + Drawn(e));
      if w.session.Some? || keeps then w'.(up := w.up + o.up, owned := w.owned + Drawn(e))
      else w'.(lost := w.lost + Drawn(e))
    case Deliver =>
      if w.down == [] then w
      else
        var o := Act(w.tables, Incoming(w.down[0]));
        w.(tables := o.tables, effects := w.effects + o.effects, down := w.down[1..])
    case Serve(accepted) =>
      if w.up == [] || w.session.None? then w
      else
        (match ServeStep(w.session.value, w.up[0], accepted)
         case None => w.(up := w.up[1..], handed := w.handed + Handed(w.up[0]))
         case Some(step) => Daemonic(w.(up := w.up[1..], handed := w.handed + Handed(w.up[0])), step))
    case Work(step) => Daemonic(w.(used := w.used + StepIds(step)), step)
    case Disconnect => w.(session := None, up := [], down := [], owned := {}, lost := w.lost + w.owned)
    case Resume(s, order, first) => w.(session := Some(s), up := Resumed(w.up, order, first))
  }

  function Daemonic(w: World, step: Step): World {
    var (d, out) := Next(w.daemon, step);
    w.(daemon := d, down := w.down + For(w.session, out))
  }

  ghost predicate LegalRun(w: World, moves: seq<Move>, keeps: bool)
    decreases |moves|
  {
    moves == [] || (Legal(w, moves[0]) && LegalRun(Do(w, moves[0], keeps), moves[1..], keeps))
  }

  function Run(w: World, moves: seq<Move>, keeps: bool): World
    decreases |moves|
  {
    if moves == [] then w else Run(Do(w, moves[0], keeps), moves[1..], keeps)
  }

  // Requests

  /** The client's requests that the daemon holds. */
  function Mine(requests: seq<Pending>, s: Option<Session>): set<Id> {
    set p | p in requests && s == Some(p.session) :: p.id
  }

  /** The requests on their way to the daemon. */
  function Asked(up: seq<Up>): set<Id> {
    set m | m in up && m.AskRequest? :: m.id
  }

  /** The answers on their way to the client. */
  function Answering(down: seq<Message>, phase: Phase, s: Option<Session>): set<Id> {
    (set m | m in down && m.Response? :: m.id) +
    if phase.Responding? && s == Some(phase.request.session) then {phase.request.id} else {}
  }

  /** What the daemon will hold once it has read what is on its way. */
  function Expected(held: set<Id>, up: seq<Up>): set<Id> {
    if up == [] then held else Applied(Expected(held, up[..|up| - 1]), up[|up| - 1])
  }

  function Applied(held: set<Id>, m: Up): set<Id> {
    match m
    case AskRequest(id, _, _, _) => held + {id}
    case AskCancel(id) => held - {id}
    case _ => held
  }

  predicate DistinctAsks(up: seq<Up>) {
    forall i, j :: 0 <= i < j < |up| && up[i].AskRequest? && up[j].AskRequest? ==> up[i].id != up[j].id
  }

  /** Identifiers are where they should be, and nowhere twice. */
  predicate Tidy(w: World, keeps: bool) {
    && DistinctPending(w.daemon.requests) && DistinctAsks(w.up)
    && (forall p :: p in w.daemon.requests ==> p.id in w.used && p.id !in Asked(w.up))
    && Mine(w.daemon.requests, w.session) + Asked(w.up) + Answering(w.down, w.daemon.phase, w.session) <= w.owned
    && w.owned + w.lost + w.tables.requests <= w.used && w.owned !! w.lost
    && Answering(w.down, w.daemon.phase, w.session) !! Asked(w.up)
    && (w.session.None? ==> w.down == [] && (keeps || w.up == []))
  }

  /** The client waits for what the daemon holds or will hold, for what is being answered, and for
      what is lost. */
  predicate Waits(w: World) {
    var expected := Expected(Mine(w.daemon.requests, w.session), w.up);
    var answering := Answering(w.down, w.daemon.phase, w.session);
    expected <= w.tables.requests <= expected + answering + w.lost && expected !! answering
  }

  lemma ExpectedOne(held: set<Id>, up: seq<Up>, m: Up)
    ensures Expected(held, up + [m]) == Applied(Expected(held, up), m)
  {
    assert (up + [m])[..|up|] == up;
  }

  lemma {:induction false} ExpectedFront(held: set<Id>, up: seq<Up>)
    requires up != []
    ensures Expected(held, up) == Expected(Applied(held, up[0]), up[1..])
  {
    var n := |up| - 1;
    if n > 0 {
      ExpectedFront(held, up[..n]);
      assert up[..n][1..] == up[1..][..n - 1];
    }
  }

  lemma {:induction false} ExpectedWithout(held: set<Id>, up: seq<Up>, id: Id)
    requires id !in Asked(up)
    ensures Expected(held - {id}, up) == Expected(held, up) - {id}
  {
    if up != [] {
      var n := |up| - 1;
      assert forall m :: m in up[..n] ==> m in up;
      ExpectedWithout(held, up[..n], id);
    }
  }

  lemma {:induction false} ExpectedWithin(held: set<Id>, up: seq<Up>)
    ensures Expected(held, up) <= held + Asked(up)
  {
    if up != [] {
      var n := |up| - 1;
      assert forall m :: m in up[..n] ==> m in up;
      ExpectedWithin(held, up[..n]);
    }
  }

  lemma {:induction false} ExpectedTwice(held: set<Id>, a: seq<Up>, b: seq<Up>)
    ensures Expected(held, a + b) == Expected(Expected(held, a), b)
  {
    if b == [] {
      assert a + b == a;
    } else {
      var n := |b| - 1;
      ExpectedTwice(held, a, b[..n]);
      assert a + b == a + b[..n] + [b[n]];
      ExpectedOne(held, a + b[..n], b[n]);
    }
  }

  lemma {:induction false} ExpectedResubscribed(held: set<Id>, order: seq<Command>)
    ensures Expected(held, Resubscribes(order)) == held
  {
    if order != [] {
      var n := |order| - 1;
      ExpectedResubscribed(held, order[..n]);
      assert Resubscribes(order) == Resubscribes(order[..n]) + [AskSubscribe(order[n])];
    }
  }

  lemma InFront(requests: seq<Pending>, p: Pending)
    requires requests != []
    ensures p in requests <==> p == requests[0] || p in requests[1..]
  {
    assert requests == [requests[0]] + requests[1..];
  }

  lemma DistinctCons(p: Pending, requests: seq<Pending>)
    requires DistinctPending(requests) && forall q :: q in requests ==> q.id != p.id
    ensures DistinctPending([p] + requests)
  {
  }

  lemma {:induction false} RemoveIdMembers(requests: seq<Pending>, id: Id)
    requires DistinctPending(requests)
    ensures DistinctPending(RemoveId(requests, id))
    ensures forall p :: p in RemoveId(requests, id) <==> p in requests && p.id != id
  {
    if requests != [] {
      RemoveIdMembers(requests[1..], id);
      forall p ensures p in requests <==> p == requests[0] || p in requests[1..] {
        InFront(requests, p);
      }
      if requests[0].id != id {
        DistinctCons(requests[0], RemoveId(requests[1..], id));
      }
    }
  }

  lemma {:induction false} RemoveSessionMembers(requests: seq<Pending>, session: Session)
    requires DistinctPending(requests)
    ensures DistinctPending(RemoveSession(requests, session))
    ensures forall p :: p in RemoveSession(requests, session) <==> p in requests && p.session != session
  {
    if requests != [] {
      RemoveSessionMembers(requests[1..], session);
      forall p ensures p in requests <==> p == requests[0] || p in requests[1..] {
        InFront(requests, p);
      }
      if requests[0].session != session {
        DistinctCons(requests[0], RemoveSession(requests[1..], session));
      }
    }
  }

  lemma {:induction false} OldestById(requests: seq<Pending>, command: Command)
    requires DistinctPending(requests)
    ensures match Oldest(requests, command)
            case None => RemoveOldest(requests, command) == requests
            case Some(p) => p in requests && RemoveOldest(requests, command) == RemoveId(requests, p.id)
  {
    if requests != [] {
      OldestById(requests[1..], command);
      assert forall p :: p in requests[1..] ==> p.id != requests[0].id;
    }
  }

  /** The id a step takes out of the pending requests to answer it. */
  function Taken(d: State, step: Step): Option<Pending> {
    if step.TakeOldest? && d.phase.Notifying? && d.phase.todo == {} then Oldest(d.requests, d.phase.command) else None
  }

  /** What a step does to the pending requests of a session. */
  lemma MineNext(d: State, step: Step, s: Option<Session>)
    requires DistinctPending(d.requests)
    requires step.Register? ==> forall p :: p in d.requests ==> p.id != step.id
    requires step.ForgetRequests? ==> s != Some(step.session)
    ensures var r := Next(d, step).0.requests;
            && DistinctPending(r)
            && (forall p :: p in r ==> p in d.requests || step == Register(p.session, p.id, p.command))
            && Mine(r, s) == match step
                             case Register(s', id, _) => Mine(d.requests, s) + if s == Some(s') then {id} else {}
                             case Cancel(id) => Mine(d.requests, s) - {id}
                             case _ => if Taken(d, step).Some? then Mine(d.requests, s) - {Taken(d, step).value.id}
                                       else Mine(d.requests, s)
  {
    match step
    case Cancel(id) => RemoveIdMembers(d.requests, id);
    case ForgetRequests(s') => RemoveSessionMembers(d.requests, s');
    case TakeOldest =>
      if d.phase.Notifying? && d.phase.todo == {} {
        OldestById(d.requests, d.phase.command);
        if Taken(d, step).Some? {
          RemoveIdMembers(d.requests, Taken(d, step).value.id);
        }
      }
    case _ =>
  }

  /** What a step does to the answers on their way. */
  lemma AnsweringNext(d: State, step: Step, down: seq<Message>, s: Option<Session>)
    requires step.Report? ==> s != Some(step.session) || !step.message.Response?
    ensures var (r, out) := Next(d, step);
            Answering(down + For(s, out), r.phase, s) ==
            Answering(down, d.phase, s) +
            if Taken(d, step).Some? && s == Some(Taken(d, step).value.session) then {Taken(d, step).value.id} else {}
  {
    var (r, out) := Next(d, step);
    assert |out| <= 1;
    if out == [] {
      assert down + For(s, out) == down;
    } else {
      assert out == [out[0]] && out[1..] == [];
      assert For(s, out) == if s == Some(out[0].session) then [out[0].message] else [];
    }
  }

  /** What a call of the application does to the requests. */
  lemma CallRequests(t: Tables, e: Event)
    requires !e.Incoming?
    ensures var o := Act(t, e);
            && |o.up| <= 1
            && match e
               case Request(id, c, data, response) =>
                 o.tables.requests == t.requests + {id} && o.up == [AskRequest(id, c, data, response)]
               case DropResponse(id) =>
                 o.tables.requests == t.requests - {id} && o.up == if id in t.requests then [AskCancel(id)] else []
               case _ => o.tables.requests == t.requests && forall m <- o.up :: !m.AskRequest? && !m.AskCancel?
  {
  }

  /** What sending at most one message changes. */
  lemma SendsOne(held: set<Id>, up: seq<Up>, sent: seq<Up>)
    requires |sent| <= 1 && DistinctAsks(up)
    requires sent != [] && sent[0].AskRequest? ==> sent[0].id !in Asked(up)
    ensures DistinctAsks(up + sent)
    ensures Expected(held, up + sent) == if sent == [] then Expected(held, up) else Applied(Expected(held, up), sent[0])
    ensures Asked(up + sent) == Asked(up) + if sent != [] && sent[0].AskRequest? then {sent[0].id} else {}
  {
    if sent == [] {
      assert up + sent == up;
    } else {
      assert sent == [sent[0]];
      ExpectedOne(held, up, sent[0]);
      AskedOne(up, sent[0]);
    }
  }

  lemma CallDoes(w: World, e: Event, keeps: bool)
    ensures var r := Do(w, Call(e), keeps); var o := Act(w.tables, e);
            var sends := w.session.Some? || keeps;
            && r.tables == o.tables && r.effects == w.effects + o.effects && r.used == w.used + Drawn(e)
            && r.up == w.up + (if sends then o.up else [])
            && r.owned == w.owned + (if sends then Drawn(e) else {}) && r.lost == w.lost + (if sends then {} else Drawn(e))
            && r.down == w.down && r.daemon == w.daemon && r.session == w.session && r.handed == w.handed
  {
    hide Act;
    assert w.up + [] == w.up;
  }

  /** What a call needs of the invariants. */
  lemma Invariants(w: World, keeps: bool)
    requires Tidy(w, keeps) && Waits(w)
    ensures var held := Mine(w.daemon.requests, w.session);
            && (w.session.None? ==> held == {} && (keeps || w.up == []))
            && Expected(held, w.up) <= w.tables.requests && Asked(w.up) <= w.used && DistinctAsks(w.up)
  {
  }

  /** What a call of the application changes. */
  lemma CallChanges(w: World, e: Event, keeps: bool)
    requires Tidy(w, keeps) && Waits(w) && Legal(w, Call(e))
    ensures var r := Do(w, Call(e), keeps); var held := Mine(w.daemon.requests, w.session);
            var sends := w.session.Some? || keeps; var expected := Expected(held, w.up);
            && DistinctAsks(r.up) && (!sends ==> r.up == [])
            && match e
               case Request(id, _, _, _) =>
                 && r.tables.requests == w.tables.requests + {id}
                 && Expected(held, r.up) == (if sends then expected + {id} else expected)
                 && Asked(r.up) == if sends then Asked(w.up) + {id} else Asked(w.up)
               case DropResponse(id) =>
                 && r.tables.requests == w.tables.requests - {id}
                 && Expected(held, r.up) == expected - {id} && Asked(r.up) == Asked(w.up)
               case _ =>
                 && r.tables.requests == w.tables.requests
                 && Expected(held, r.up) == expected && Asked(r.up) == Asked(w.up)
  {
    var o := Act(w.tables, e);
    var held := Mine(w.daemon.requests, w.session);
    var sent := if w.session.Some? || keeps then o.up else [];
    hide Do, Act, Mine, Answering, Asked, DistinctAsks, DistinctPending, Expected, Tidy, Waits;
    Invariants(w, keeps);
    CallRequests(w.tables, e);
    CallDoes(w, e, keeps);
    SendsOne(held, w.up, sent);
    NothingExpected();
  }

  lemma CallKeeps(w: World, e: Event, keeps: bool)
    requires Tidy(w, keeps) && Waits(w) && Legal(w, Call(e))
    ensures Tidy(Do(w, Call(e), keeps), keeps) && Waits(Do(w, Call(e), keeps))
  {
    hide Do, Act, Mine, Answering, Asked, DistinctAsks, DistinctPending, Expected;
    CallChanges(w, e, keeps);
    CallDoes(w, e, keeps);
    ExpectedWithin(Mine(w.daemon.requests, w.session), w.up);
  }

  lemma NothingExpected()
    ensures Expected({}, []) == {}
  {
  }

  lemma AskedOne(up: seq<Up>, m: Up)
    ensures Asked(up + [m]) == Asked(up) + if m.AskRequest? then {m.id} else {}
    ensures DistinctAsks(up) && (m.AskRequest? ==> m.id !in Asked(up)) ==> DistinctAsks(up + [m])
  {
    assert forall x :: x in up + [m] <==> x in up || x == m;
  }

  lemma AskedFront(up: seq<Up>)
    requires up != [] && DistinctAsks(up)
    ensures DistinctAsks(up[1..])
    ensures Asked(up[1..]) == Asked(up) - if up[0].AskRequest? then {up[0].id} else {}
  {
    assert up == [up[0]] + up[1..];
  }

  lemma IncomingRequests(t: Tables, m: Message)
    ensures Act(t, Incoming(m)).tables.requests == t.requests - if m.Response? then {m.id} else {}
  {
  }

  lemma AnsweringFront(down: seq<Message>, phase: Phase, s: Option<Session>)
    requires down != []
    ensures Answering(down, phase, s) == Answering(down[1..], phase, s) + if down[0].Response? then {down[0].id} else {}
  {
    assert down == [down[0]] + down[1..];
  }

  lemma DeliverKeeps(w: World, keeps: bool)
    requires Tidy(w, keeps) && Waits(w) && w.down != []
    ensures Tidy(Do(w, Deliver, keeps), keeps) && Waits(Do(w, Deliver, keeps))
  {
    hide Act, Answering, Asked, Mine, Expected, DistinctAsks, DistinctPending;
    IncomingRequests(w.tables, w.down[0]);
    AnsweringFront(w.down, w.daemon.phase, w.session);
  }

  /** What the daemon's reading a message changes. */
  lemma ServeChanges(w: World, accepted: bool, keeps: bool)
    requires Tidy(w, keeps) && w.up != [] && w.session.Some?
    ensures var r := Do(w, Serve(accepted), keeps); var m := w.up[0]; var held := Mine(w.daemon.requests, w.session);
            && r == w.(up := w.up[1..], handed := r.handed, daemon := r.daemon, down := r.down)
            && Mine(r.daemon.requests, w.session) == Applied(held, m)
            && Answering(r.down, r.daemon.phase, w.session) == Answering(w.down, w.daemon.phase, w.session)
            && DistinctPending(r.daemon.requests)
            && (forall p :: p in r.daemon.requests ==> p in w.daemon.requests || (m.AskRequest? && p.id == m.id))
  {
    var m := w.up[0];
    var step := ServeStep(w.session.value, m, accepted);
    var r := Do(w, Serve(accepted), keeps);
    if step.Some? {
      assert r.daemon == Next(w.daemon, step.value).0;
      assert r.down == w.down + For(w.session, Next(w.daemon, step.value).1);
      assert step.value.Register? ==> m.AskRequest? && step.value.id == m.id && m.id in Asked(w.up);
      hide Do, Next, For, Answering, Asked;
      MineNext(w.daemon, step.value, w.session);
      AnsweringNext(w.daemon, step.value, w.down, w.session);
    }
  }

  lemma ServeKeeps(w: World, accepted: bool, keeps: bool)
    requires Tidy(w, keeps) && Waits(w) && w.up != [] && w.session.Some?
    ensures Tidy(Do(w, Serve(accepted), keeps), keeps) && Waits(Do(w, Serve(accepted), keeps))
  {
    AskedFront(w.up);
    assert w.up[0].AskRequest? ==> w.up[0].id in Asked(w.up);
    hide Do, Mine, Answering, Asked, Expected, DistinctPending, DistinctAsks;
    ExpectedFront(Mine(w.daemon.requests, w.session), w.up);
    ServeChanges(w, accepted, keeps);
  }

  /** What a step of the V-CPU thread or of another session changes. */
  lemma WorkChanges(w: World, step: Step, keeps: bool)
    requires Tidy(w, keeps) && Foreign(w, step)
    ensures var r := Do(w, Work(step), keeps); var held := Mine(w.daemon.requests, w.session);
            var answering := Answering(w.down, w.daemon.phase, w.session);
            var taken := Taken(w.daemon, step);
            && r == w.(daemon := r.daemon, down := r.down, used := w.used + StepIds(step))
            && (w.session.None? ==> r.down == [])
            && DistinctPending(r.daemon.requests)
            && (forall p :: p in r.daemon.requests ==> p in w.daemon.requests || p.id in StepIds(step))
            && if taken.Some? && w.session == Some(taken.value.session) then
                 && taken.value.id in held && taken.value.id !in Asked(w.up)
                 && Mine(r.daemon.requests, w.session) == held - {taken.value.id}
                 && Answering(r.down, r.daemon.phase, w.session) == answering + {taken.value.id}
               else Mine(r.daemon.requests, w.session) == held && Answering(r.down, r.daemon.phase, w.session) == answering
  {
    var r := Do(w, Work(step), keeps);
    assert r.daemon == Next(w.daemon, step).0 && r.down == w.down + For(w.session, Next(w.daemon, step).1);
    NoSession(Next(w.daemon, step).1);
    var held := Mine(w.daemon.requests, w.session);
    var taken := Taken(w.daemon, step);
    if taken.Some? {
      OldestById(w.daemon.requests, w.daemon.phase.command);
    }
    hide Next, For, Answering, Oldest, RemoveOldest, RemoveId;
    MineNext(w.daemon, step, w.session);
    AnsweringNext(w.daemon, step, w.down, w.session);
    if !(taken.Some? && w.session == Some(taken.value.session)) {
      assert Mine(r.daemon.requests, w.session) == held;
    }
  }

  lemma WorkKeeps(w: World, step: Step, keeps: bool)
    requires Tidy(w, keeps) && Waits(w) && Foreign(w, step)
    ensures Tidy(Do(w, Work(step), keeps), keeps) && Waits(Do(w, Work(step), keeps))
  {
    var held := Mine(w.daemon.requests, w.session);
    var taken := Taken(w.daemon, step);
    hide Do, Mine, Answering, Asked, Expected, DistinctPending, DistinctAsks, Taken;
    WorkChanges(w, step, keeps);
    if taken.Some? && w.session == Some(taken.value.session) {
      ExpectedWithout(held, w.up, taken.value.id);
    }
  }

  lemma {:induction false} NoSession(sent: seq<Envelope>)
    ensures For(None, sent) == []
  {
    if sent != [] {
      NoSession(sent[1..]);
    }
  }

  lemma DisconnectKeeps(w: World, keeps: bool)
    requires Tidy(w, keeps) && Waits(w) && w.session.Some?
    ensures Tidy(Do(w, Disconnect, keeps), keeps) && Waits(Do(w, Disconnect, keeps))
  {
    ExpectedWithin(Mine(w.daemon.requests, w.session), w.up);
    assert Mine(w.daemon.requests, None) == {} && Answering([], w.daemon.phase, None) == {};
  }

  lemma ResumeKeeps(w: World, s: Session, order: seq<Command>, first: bool, keeps: bool)
    requires Tidy(w, keeps) && Waits(w) && Legal(w, Resume(s, order, first))
    ensures Tidy(Do(w, Resume(s, order, first), keeps), keeps) && Waits(Do(w, Resume(s, order, first), keeps))
  {
    assert Mine(w.daemon.requests, w.session) == {} == Mine(w.daemon.requests, Some(s));
    ExpectedTwice({}, w.up, Resubscribes(order));
    ExpectedTwice({}, Resubscribes(order), w.up);
    ExpectedResubscribed({}, order);
    ExpectedResubscribed(Expected({}, w.up), order);
    AskedResubscribed(w.up, order, first);
  }

  lemma AskedResubscribed(up: seq<Up>, order: seq<Command>, first: bool)
    requires DistinctAsks(up)
    ensures var r := Resumed(up, order, first); Asked(r) == Asked(up) && DistinctAsks(r)
  {
    var r, k := Resumed(up, order, first), if first then |order| else 0;
    assert forall m :: m in r <==> m in up || m in Resubscribes(order);
    assert forall i :: 0 <= i < |r| && r[i].AskRequest? ==> k <= i < k + |up| && r[i] == up[i - k];
  }

  // Subscriptions

  /** Whether the daemon will hold a subscription once it has read what is on its way. */
  function Told(held: bool, up: seq<Up>, c: Command): bool {
    if up == [] then held else ToldBy(Told(held, up[..|up| - 1], c), up[|up| - 1], c)
  }

  function ToldBy(held: bool, m: Up, c: Command): bool {
    if m == AskSubscribe(c) then true else if m == AskUnsubscribe(c) then false else held
  }

  /** While connected, what the daemon holds or will hold is what the client has a callback for. While
      not, what is kept for the next connection subscribes to nothing else, and unsubscribes from
      nothing that has a callback. */
  predicate Listens(w: World, c: Command) {
    match w.session
    case Some(s) => Told(s in Holders(w.daemon.subscribers, c), w.up, c) <==> c in w.tables.callbacks
    case None =>
      && (Told(false, w.up, c) ==> c in w.tables.callbacks)
      && (c in w.tables.callbacks ==> Told(true, w.up, c))
  }

  lemma ToldOne(held: bool, up: seq<Up>, m: Up, c: Command)
    ensures Told(held, up + [m], c) == ToldBy(Told(held, up, c), m, c)
  {
    assert (up + [m])[..|up|] == up;
  }

  lemma {:induction false} ToldFront(held: bool, up: seq<Up>, c: Command)
    requires up != []
    ensures Told(held, up, c) == Told(ToldBy(held, up[0], c), up[1..], c)
  {
    var n := |up| - 1;
    if n > 0 {
      ToldFront(held, up[..n], c);
      assert up[..n][1..] == up[1..][..n - 1];
    }
  }

  lemma {:induction false} ToldTwice(held: bool, a: seq<Up>, b: seq<Up>, c: Command)
    ensures Told(held, a + b, c) == Told(Told(held, a, c), b, c)
  {
    if b == [] {
      assert a + b == a;
    } else {
      var n := |b| - 1;
      ToldTwice(held, a, b[..n], c);
      assert a + b == a + b[..n] + [b[n]];
      ToldOne(held, a + b[..n], b[n], c);
    }
  }

  lemma {:induction false} ToldResubscribed(held: bool, order: seq<Command>, c: Command)
    ensures Told(held, Resubscribes(order), c) == (c in order || held)
  {
    if order != [] {
      var n := |order| - 1;
      ToldResubscribed(held, order[..n], c);
      assert Resubscribes(order) == Resubscribes(order[..n]) + [AskSubscribe(order[n])];
      assert order == order[..n] + [order[n]];
    }
  }

  lemma HoldersNext(d: State, step: Step, s: Session, c: Command)
    ensures s in Holders(Next(d, step).0.subscribers, c) <==>
            match step
            case Subscribe(s', c') => (s' == s && c' == c) || s in Holders(d.subscribers, c)
            case Unsubscribe(s', c') => !(s' == s && c' == c) && s in Holders(d.subscribers, c)
            case ForgetSubscriptions(s') => s' != s && s in Holders(d.subscribers, c)
            case _ => s in Holders(d.subscribers, c)
  {
  }

  /** What a call of the application does to a subscription. */
  lemma CallCallbacks(t: Tables, e: Event, c: Command)
    requires !e.Incoming?
    ensures var o := Act(t, e);
            && |o.up| <= 1
            && (c in o.tables.callbacks <==>
                match e
                case SubscribeTo(c', _) => c' == c || c in t.callbacks
                case UnsubscribeFrom(c') => c' != c && c in t.callbacks
                case _ => c in t.callbacks)
            && match e
               case SubscribeTo(c', _) => o.up == if c' in t.callbacks then [] else [AskSubscribe(c')]
               case UnsubscribeFrom(c') => o.up == [AskUnsubscribe(c')]
               case _ => forall m <- o.up :: !m.AskSubscribe? && !m.AskUnsubscribe?
  {
  }

  lemma CallListens(w: World, e: Event, keeps: bool, c: Command)
    requires Listens(w, c) && !e.Incoming? && (w.session.None? ==> keeps || w.up == [])
    ensures Listens(Do(w, Call(e), keeps), c)
  {
    var o := Act(w.tables, e);
    var sent := if w.session.Some? || keeps then o.up else [];
    hide Do, Act, Told, Holders;
    CallDoes(w, e, keeps);
    CallCallbacks(w.tables, e, c);
    ToldSent(false, w.up, sent, c);
    ToldSent(true, w.up, sent, c);
    NothingTold(c);
  }

  lemma ToldSent(held: bool, up: seq<Up>, sent: seq<Up>, c: Command)
    requires |sent| <= 1
    ensures Told(held, up + sent, c) == if sent == [] then Told(held, up, c) else ToldBy(Told(held, up, c), sent[0], c)
  {
    if sent == [] {
      assert up + sent == up;
    } else {
      assert sent == [sent[0]];
      ToldOne(held, up, sent[0], c);
    }
  }

  lemma NothingTold(c: Command)
    ensures !Told(false, [], c) && Told(true, [], c)
  {
  }

  lemma MoveListens(w: World, m: Move, keeps: bool, c: Command)
    requires Listens(w, c) && Legal(w, m) && (w.session.None? ==> keeps || w.up == [])
    ensures Listens(Do(w, m, keeps), c)
  {
    match m
    case Call(e) => CallListens(w, e, keeps, c);
    case Serve(accepted) =>
      var s := w.session.value;
      var step := ServeStep(s, w.up[0], accepted);
      ToldFront(s in Holders(w.daemon.subscribers, c), w.up, c);
      if step.Some? {
        HoldersNext(w.daemon, step.value, s, c);
      }
    case Work(step) =>
      if w.session.Some? {
        HoldersNext(w.daemon, step, w.session.value, c);
      }
    case Resume(s, order, first) =>
      ToldTwice(false, w.up, Resubscribes(order), c);
      ToldTwice(false, Resubscribes(order), w.up, c);
      ToldResubscribed(false, order, c);
      ToldResubscribed(Told(false, w.up, c), order, c);
      hide Told;
    case _ =>
  }

  // Promises and delivery callbacks

  predicate PromisesOnce(effects: seq<Effect>) {
    forall i, j :: 0 <= i < j < |effects| && effects[i].PromiseSet? && effects[j].PromiseSet? ==> effects[i].id != effects[j].id
  }

  predicate DeliveriesOnce(effects: seq<Effect>) {
    forall i, j :: 0 <= i < j < |effects| && effects[i].DeliveryCalled? && effects[j].DeliveryCalled? ==>
      effects[i].id != effects[j].id
  }

  /** Nothing fires twice: what has fired is in no table, and every id in play has been drawn. */
  predicate Fired(t: Tables, effects: seq<Effect>, used: set<Id>) {
    && PromisesOnce(effects) && DeliveriesOnce(effects) && t.requests + t.deliveries.Keys <= used
    && (forall x :: x in effects && x.PromiseSet? ==> x.id in used && x.id !in t.requests)
    && (forall x :: x in effects && x.DeliveryCalled? ==> x.id in used && x.id !in t.deliveries)
  }

  predicate Once(w: World) {
    Fired(w.tables, w.effects, w.used)
  }

  /** A promise is set for a request that waits and then waits no more; so it is with callbacks. */
  lemma ActOnce(t: Tables, e: Event)
    ensures var o := Act(t, e); var drawn := Drawn(e);
            && |o.effects| <= 1
            && o.tables.requests <= t.requests + drawn && o.tables.deliveries.Keys <= t.deliveries.Keys + drawn
            && (o.effects != [] && o.effects[0].PromiseSet? ==> o.effects[0].id in t.requests && o.effects[0].id !in o.tables.requests)
            && (o.effects != [] && o.effects[0].DeliveryCalled? ==>
                  o.effects[0].id in t.deliveries && o.effects[0].id !in o.tables.deliveries)
  {
  }

  /** A client that has acted, with the ids it has used. */
  lemma OnceMore(t: Tables, effects: seq<Effect>, used: set<Id>, e: Event)
    requires Fired(t, effects, used) && Drawn(e) !! used
    ensures var o := Act(t, e); Fired(o.tables, effects + o.effects, used + Drawn(e))
  {
    hide Act;
    ActOnce(t, e);
    var o := Act(t, e);
    if o.effects == [] {
      assert effects + o.effects == effects;
    } else {
      assert o.effects == [o.effects[0]];
      assert forall x :: x in effects + o.effects <==> x in effects || x == o.effects[0];
      assert forall i :: 0 <= i < |effects| ==> effects[i] in effects;
    }
  }

  /** A client never fires twice, whatever it is told and in whatever order, as long as the ids it draws
      are fresh. */
  lemma {:induction false} EventsFireOnce(onError: Callback, events: seq<Event>) returns (used: set<Id>)
    requires forall i, j :: 0 <= i < j < |events| ==> Drawn(events[i]) !! Drawn(events[j])
    ensures var o := Acts(Initialized(onError), events); Fired(o.tables, o.effects, used)
    ensures forall id :: id in used ==> exists i :: 0 <= i < |events| && id in Drawn(events[i])
  {
    hide Act;
    if events == [] {
      used := {};
    } else {
      var front, e := events[..|events| - 1], events[|events| - 1];
      assert forall i :: 0 <= i < |front| ==> front[i] == events[i];
      var before := EventsFireOnce(onError, front);
      var o := Acts(Initialized(onError), front);
      OnceMore(o.tables, o.effects, before, e);
      used := before + Drawn(e);
    }
  }

  lemma MoveOnce(w: World, m: Move, keeps: bool)
    requires Once(w) && Legal(w, m)
    ensures Once(Do(w, m, keeps))
  {
    match m
    case Call(e) =>
      OnceMore(w.tables, w.effects, w.used, e);
      CallDoes(w, e, keeps);
      hide Do, Fired;
    case Deliver =>
      OnceMore(w.tables, w.effects, w.used, Incoming(w.down[0]));
      assert w.used + {} == w.used;
      hide Act, Fired;
    case Serve(_) => hide Act;
    case Work(step) =>
      hide Act;
      assert Fired(w.tables, w.effects, w.used + StepIds(step));
    case _ => hide Act;
  }

  /** The sends whose status is still on its way, in either direction. */
  function Tracked(up: seq<Up>, down: seq<Message>): set<Id> {
    (set m | m in up && m.AskTracked? :: m.id) + (set m | m in down && m.DeliveryStatus? :: m.id)
  }

  predicate Reports(w: World) {
    w.tables.deliveries.Keys <= Tracked(w.up, w.down) + w.lost && Tracked(w.up, w.down) <= w.owned
  }

  lemma TrackedMore(up: seq<Up>, down: seq<Message>, sent: seq<Up>, arrived: seq<Message>)
    ensures Tracked(up + sent, down + arrived) == Tracked(up, down) + Tracked(sent, arrived)
  {
    assert forall m :: m in up + sent <==> m in up || m in sent;
    assert forall m :: m in down + arrived <==> m in down || m in arrived;
  }

  lemma CallTracked(t: Tables, e: Event)
    requires !e.Incoming?
    ensures var o := Act(t, e); var ids := if e.SendTracked? then {e.id} else {};
            o.tables.deliveries.Keys == t.deliveries.Keys + ids && Tracked(o.up, []) == ids && Tracked([], []) == {}
  {
  }

  lemma CallReports(w: World, e: Event, keeps: bool)
    requires Reports(w) && Legal(w, Call(e))
    ensures Reports(Do(w, Call(e), keeps))
  {
    var o := Act(w.tables, e);
    var sent := if w.session.Some? || keeps then o.up else [];
    var ids := if e.SendTracked? then {e.id} else {};
    assert ids <= Drawn(e);
    hide Do, Act, Tracked;
    CallDoes(w, e, keeps);
    CallTracked(w.tables, e);
    TrackedMore(w.up, w.down, sent, []);
    assert w.down + [] == w.down;
  }

  /** What a step reports to a session. */
  lemma StepReports(d: State, step: Step, s: Option<Session>)
    ensures var ids := Tracked([], For(s, Next(d, step).1));
            ids == if step.Report? && s == Some(step.session) && step.message.DeliveryStatus? then {step.message.id} else {}
  {
    var out := Next(d, step).1;
    assert |out| <= 1;
    if out != [] {
      assert out == [out[0]] && out[1..] == [];
      assert For(s, out) == if s == Some(out[0].session) then [out[0].message] else [];
    }
  }

  lemma IncomingReports(t: Tables, m: Message)
    ensures Act(t, Incoming(m)).tables.deliveries.Keys == t.deliveries.Keys - Tracked([], [m])
  {
  }

  lemma DeliverReports(w: World, keeps: bool)
    requires Reports(w) && w.down != []
    ensures Reports(Do(w, Deliver, keeps))
  {
    hide Tracked, Act;
    assert w.down == [w.down[0]] + w.down[1..] && w.up == [] + w.up;
    TrackedMore([], [w.down[0]], w.up, w.down[1..]);
    IncomingReports(w.tables, w.down[0]);
  }

  lemma DaemonicTracks(w: World, step: Step)
    ensures var r := Daemonic(w, step);
            && r == w.(daemon := r.daemon, down := r.down)
            && Tracked(r.up, r.down) == Tracked(w.up, w.down) +
               if step.Report? && w.session == Some(step.session) && step.message.DeliveryStatus? then {step.message.id} else {}
  {
    StepReports(w.daemon, step, w.session);
    hide Tracked, For, Next;
    TrackedMore(w.up, w.down, [], For(w.session, Next(w.daemon, step).1));
    assert w.up + [] == w.up;
  }

  lemma ServeReports(w: World, accepted: bool, keeps: bool)
    requires Reports(w) && w.up != [] && w.session.Some?
    ensures Reports(Do(w, Serve(accepted), keeps))
  {
    var m := w.up[0];
    var first := w.up[..1];
    var step := ServeStep(w.session.value, m, accepted);
    var r := Do(w, Serve(accepted), keeps);
    var popped := w.(up := w.up[1..], handed := w.handed + Handed(m));
    assert r == if step.None? then popped else Daemonic(popped, step.value);
    assert m.AskTracked? ==> step == Some(Report(w.session.value, DeliveryStatus(m.id, accepted)));
    var ids := if m.AskTracked? then {m.id} else {};
    assert Tracked(first, []) == ids;
    assert w.up == first + popped.up && w.down == [] + w.down;
    hide Tracked, ServeStep, Do, Daemonic;
    TrackedMore(first, [], popped.up, w.down);
    if step.Some? {
      PoppedReports(popped, step.value, ids);
    }
  }

  lemma PoppedReports(w: World, step: Step, ids: set<Id>)
    requires w.tables.deliveries.Keys <= ids + Tracked(w.up, w.down) + w.lost && Tracked(w.up, w.down) + ids <= w.owned
    requires step.Report? && w.session == Some(step.session) && step.message.DeliveryStatus? ==> step.message.id in w.owned
    requires ids != {} ==> step.Report? && w.session == Some(step.session) && step.message.DeliveryStatus? && ids == {step.message.id}
    ensures Reports(Daemonic(w, step))
  {
    hide Tracked;
    DaemonicTracks(w, step);
  }

  lemma MoveReports(w: World, m: Move, keeps: bool)
    requires Reports(w) && Legal(w, m)
    ensures Reports(Do(w, m, keeps))
  {
    match m
    case Call(e) => CallReports(w, e, keeps);
    case Deliver => DeliverReports(w, keeps);
    case Serve(accepted) => ServeReports(w, accepted, keeps);
    case Work(step) =>
      hide Tracked, Daemonic;
      DaemonicTracks(w.(used := w.used + StepIds(step)), step);
    case Resume(s, order, first) =>
      TrackedMore(w.up, w.down, Resubscribes(order), []);
      TrackedMore(Resubscribes(order), [], w.up, w.down);
      assert [] + w.down == w.down;
      assert w.down + [] == w.down;
      assert Tracked(Resubscribes(order), []) == {};
      hide Tracked;
    case Disconnect =>
      assert Tracked([], []) == {};
      hide Tracked;
  }

  // Whole runs

  ghost predicate Inv(w: World, keeps: bool) {
    Tidy(w, keeps) && Waits(w) && Once(w) && Reports(w) && forall c :: Listens(w, c)
  }

  lemma MoveKeeps(w: World, m: Move, keeps: bool)
    requires Inv(w, keeps) && Legal(w, m)
    ensures Inv(Do(w, m, keeps), keeps)
  {
    assert w.session.None? ==> keeps || w.up == [];
    hide Do, Mine, Answering, Expected, Asked, Fired;
    forall c ensures Listens(Do(w, m, keeps), c) {
      MoveListens(w, m, keeps, c);
    }
    MoveOnce(w, m, keeps);
    MoveReports(w, m, keeps);
    match m
    case Call(e) => CallKeeps(w, e, keeps);
    case Deliver => DeliverKeeps(w, keeps);
    case Serve(accepted) => ServeKeeps(w, accepted, keeps);
    case Work(step) => WorkKeeps(w, step, keeps);
    case Disconnect => DisconnectKeeps(w, keeps);
    case Resume(s, order, first) => ResumeKeeps(w, s, order, first, keeps);
  }

  lemma InitialInv(w: World, keeps: bool)
    requires Initial(w)
    ensures Inv(w, keeps)
  {
    assert Mine(w.daemon.requests, w.session) == {};
    assert Answering(w.down, w.daemon.phase, w.session) == {};
  }

  lemma {:induction false} RunKeeps(w: World, moves: seq<Move>, keeps: bool)
    requires Inv(w, keeps) && LegalRun(w, moves, keeps)
    ensures Inv(Run(w, moves, keeps), keeps)
    decreases |moves|
  {
    if moves != [] {
      MoveKeeps(w, moves[0], keeps);
      RunKeeps(Do(w, moves[0], keeps), moves[1..], keeps);
    }
  }

  lemma Reached(w: World, moves: seq<Move>, keeps: bool)
    requires Initial(w) && LegalRun(w, moves, keeps)
    ensures Inv(Run(w, moves, keeps), keeps)
  {
    InitialInv(w, keeps);
    RunKeeps(w, moves, keeps);
  }

  /** Nothing is on its way between the client and the daemon. */
  predicate Quiet(w: World) {
    && w.session.Some? && w.up == [] && w.down == []
    && (w.daemon.phase.Responding? ==> w.daemon.phase.request.session != w.session.value)
  }

  /** Request agreement: whenever nothing is on its way, the requests the client waits for are the
      ones the daemon holds for its session and, apart from them, the ones of earlier connections.
      So the two tables agree exactly when no request of an earlier connection, or made without
      one, is still waited for. */
  lemma RequestAgreement(start: World, moves: seq<Move>, keeps: bool)
    requires Initial(start) && LegalRun(start, moves, keeps)
    ensures var w := Run(start, moves, keeps); var held := Mine(w.daemon.requests, w.session);
            Quiet(w) ==>
              && held <= w.tables.requests <= held + w.lost && held !! w.lost
              && (held == w.tables.requests <==> w.tables.requests !! w.lost)
  {
    Reached(start, moves, keeps);
    var w := Run(start, moves, keeps);
    if Quiet(w) {
      assert Answering(w.down, w.daemon.phase, w.session) == {};
      assert Expected(Mine(w.daemon.requests, w.session), w.up) == Mine(w.daemon.requests, w.session);
    }
  }

  /** Without a disconnection nothing is lost. */
  lemma {:induction false} NothingLost(w: World, moves: seq<Move>, keeps: bool)
    requires LegalRun(w, moves, keeps) && w.session.Some? && w.lost == {} && Disconnect !in moves
    ensures Run(w, moves, keeps).session.Some? && Run(w, moves, keeps).lost == {}
    decreases |moves|
  {
    if moves != [] {
      NothingLost(Do(w, moves[0], keeps), moves[1..], keeps);
    }
  }

  /** The plain form: over one connection, whenever nothing is on its way, the requests the client waits
      for are the ones the daemon holds for its session. */
  lemma RequestAgreementConnected(start: World, moves: seq<Move>, keeps: bool)
    requires Initial(start) && LegalRun(start, moves, keeps) && Disconnect !in moves
    ensures var w := Run(start, moves, keeps); Quiet(w) ==> Mine(w.daemon.requests, w.session) == w.tables.requests
  {
    NothingLost(start, moves, keeps);
    RequestAgreement(start, moves, keeps);
  }

  /** Subscription agreement across reconnections: whenever the daemon has read all the client sent,
      the commands it holds for the session are the ones the client has a callback for. */
  lemma SubscriptionAgreement(start: World, moves: seq<Move>, keeps: bool, c: Command)
    requires Initial(start) && LegalRun(start, moves, keeps)
    ensures var w := Run(start, moves, keeps);
            w.session.Some? && w.up == [] ==>
              (w.session.value in Holders(w.daemon.subscribers, c) <==> c in w.tables.callbacks)
  {
    Reached(start, moves, keeps);
    assert Listens(Run(start, moves, keeps), c);
  }

  /** No promise is set twice, not even by closing the client, and no delivery callback is called
      twice. */
  lemma FiresOnce(start: World, moves: seq<Move>, keeps: bool, order: seq<Id>)
    requires Initial(start) && LegalRun(start, moves, keeps)
    requires Visits(order, Run(start, moves, keeps).tables.requests)
    ensures var effects := Run(start, moves, keeps).effects + Abandons(order);
            PromisesOnce(effects) && DeliveriesOnce(effects)
  {
    Reached(start, moves, keeps);
    var w := Run(start, moves, keeps);
    hide Run, LegalRun, Tidy, Waits, Reports, Listens;
    assert forall i :: 0 <= i < |w.effects| ==> w.effects[i] in w.effects;
    assert forall i :: 0 <= i < |order| ==> order[i] in order;
  }

  /** Whenever nothing is on its way, every tracked send of this connection has been reported. */
  lemma DeliveryAgreement(start: World, moves: seq<Move>, keeps: bool)
    requires Initial(start) && LegalRun(start, moves, keeps)
    ensures var w := Run(start, moves, keeps); Quiet(w) ==> w.tables.deliveries.Keys <= w.lost
  {
    Reached(start, moves, keeps);
  }

  /** Why the condition on earlier connections is there: a request that waits when its connection
      closes is never answered. It stays in the client's table until the application drops it. */
  lemma {:induction false} LostForever(w: World, moves: seq<Move>, keeps: bool, id: Id)
    requires Inv(w, keeps) && LegalRun(w, moves, keeps)
    requires id in w.tables.requests && id in w.lost
    requires Call(DropResponse(id)) !in moves
    ensures var r := Run(w, moves, keeps); id in r.tables.requests && forall data :: PromiseSet(id, data) !in r.effects
    decreases |moves|
  {
    if moves != [] {
      MoveKeeps(w, moves[0], keeps);
      LostStays(w, moves[0], keeps, id);
      LostForever(Do(w, moves[0], keeps), moves[1..], keeps, id);
    }
  }

  lemma LostStays(w: World, m: Move, keeps: bool, id: Id)
    requires Tidy(w, keeps) && Legal(w, m) && m != Call(DropResponse(id))
    requires id in w.tables.requests && id in w.lost
    ensures var r := Do(w, m, keeps); id in r.tables.requests && id in r.lost
  {
    match m
    case Call(e) =>
      CallRequests(w.tables, e);
      CallDoes(w, e, keeps);
      hide Do, Act;
    case Deliver =>
      assert id !in Answering(w.down, w.daemon.phase, w.session);
      assert w.down[0] in w.down;
    case _ =>
  }

  /** Such a request is one that was waited for when a connection closed. */
  lemma DisconnectLoses(start: World, moves: seq<Move>, keeps: bool, id: Id)
    requires Initial(start) && LegalRun(start, moves, keeps)
    requires var w := Run(start, moves, keeps); w.session.Some? && id in w.tables.requests
    ensures id in Do(Run(start, moves, keeps), Disconnect, keeps).lost
  {
    Reached(start, moves, keeps);
    var w := Run(start, moves, keeps);
    ExpectedWithin(Mine(w.daemon.requests, w.session), w.up);
  }
}
