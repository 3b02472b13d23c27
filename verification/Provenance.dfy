/** Where what the application sees comes from, over whole runs of a client and the daemon. */
module Provenance {
  import opened Wire
  import opened Broker
  import opened Client
  import opened Server
  import opened Agreement

  /** What has happened: the requests made with the response command each named, the tracked sends
      with their callbacks, the commands sent plainly, the callbacks given for commands and for errors,
      what the V-CPU has sent, and what came of the writes to it: which tracked sends were taken or not,
      and which commands were not. */
  datatype Facts = Facts(asked: set<(Id, Command)>, tracked: set<(Id, Callback)>, sent: set<Command>,
                         bound: set<(Command, Callback)>, onError: Callback, heard: set<(Command, seq<byte>)>,
                         reported: set<(Id, bool)>, failed: set<Command>)

  function Learn(f: Facts, w: World, m: Move): Facts {
    match m
    case Call(Request(id, _, _, response)) => f.(asked := f.asked + {(id, response)})
    case Call(SendTracked(id, _, _, callback)) => f.(tracked := f.tracked + {(id, callback)})
    case Call(Send(c, _)) => f.(sent := f.sent + {c})
    case Call(SubscribeTo(c, callback)) => f.(bound := f.bound + {(c, callback)})
    case Work(Snapshot(c, data)) => f.(heard := f.heard + {(c, data)})
    case Serve(accepted) => if w.up == [] then f else Settled(f, w.up[0], accepted)
    case _ => f
  }

  /** What the write that a message asks for adds. */
  function Settled(f: Facts, m: Up, accepted: bool): Facts {
    match m
    case AskTracked(id, _, _) => f.(reported := f.reported + {(id, accepted)})
    case AskSend(c, _) => if accepted then f else f.(failed := f.failed + {c})
    case _ => f
  }

  /** At the start only what the V-CPU thread is just passing on is known. */
  function First(w: World): Facts {
    Facts({}, {}, {}, {}, w.tables.onError,
          if w.daemon.phase.Notifying? then {(w.daemon.phase.command, w.daemon.phase.data)} else {}, {}, {})
  }

  function LearnAll(f: Facts, w: World, moves: seq<Move>, keeps: bool): Facts
    decreases |moves|
  {
    if moves == [] then f else LearnAll(Learn(f, w, moves[0]), Do(w, moves[0], keeps), moves[1..], keeps)
  }

  /** Data the V-CPU sent with the command that the request of this id named. */
  predicate Answer(f: Facts, id: Id, data: seq<byte>) {
    exists a :: a in f.asked && a.0 == id && (a.1, data) in f.heard
  }

  predicate KnownUp(f: Facts, up: seq<Up>) {
    forall m :: m in up ==> KnownAsk(f, m)
  }

  predicate KnownAsk(f: Facts, m: Up) {
    match m
    case AskRequest(id, _, _, response) => (id, response) in f.asked
    case AskSend(c, _) => c in f.sent
    case _ => true
  }

  predicate KnownMessage(f: Facts, m: Message) {
    match m
    case Notification(c, data) => (c, data) in f.heard
    case Response(id, data) => Answer(f, id, data)
    case DeliveryStatus(id, delivered) => (id, delivered) in f.reported
    case SendFailed(c) => c in f.failed && c in f.sent
  }

  predicate KnownDaemon(f: Facts, d: State, s: Option<Session>) {
    && (forall p :: p in d.requests && s == Some(p.session) ==> (p.id, p.command) in f.asked)
    && match d.phase
       case Waiting => true
       case Notifying(_, c, data) => (c, data) in f.heard
       case Responding(p, data) => s == Some(p.session) ==> (p.id, p.command) in f.asked && (p.command, data) in f.heard
  }

  predicate KnownEffect(f: Facts, x: Effect) {
    match x
    case PromiseSet(id, data) => Answer(f, id, data)
    case CommandCalled(callback, c, data) => (c, data) in f.heard && (c, Some(callback)) in f.bound
    case DeliveryCalled(id, callback, delivered) => (id, Some(callback)) in f.tracked && (id, delivered) in f.reported
    case ErrorCalled(callback, c) => Some(callback) == f.onError && c in f.failed && c in f.sent
  }

  predicate KnownTables(f: Facts, t: Tables) {
    && (forall id :: id in t.deliveries ==> (id, t.deliveries[id]) in f.tracked)
    && (forall c :: c in t.callbacks ==> (c, t.callbacks[c]) in f.bound)
    && t.onError == f.onError
  }

  predicate Known(f: Facts, w: World) {
    && KnownUp(f, w.up) && (forall m :: m in w.down ==> KnownMessage(f, m))
    && KnownDaemon(f, w.daemon, w.session) && KnownTables(f, w.tables)
    && (forall x :: x in w.effects ==> KnownEffect(f, x))
  }

  predicate Within(f: Facts, g: Facts) {
    && f.asked <= g.asked && f.tracked <= g.tracked && f.sent <= g.sent && f.bound <= g.bound && f.onError == g.onError
    && f.heard <= g.heard && f.reported <= g.reported && f.failed <= g.failed
  }

  /** Knowledge is not lost. */
  lemma StaysKnown(f: Facts, g: Facts, w: World)
    requires Within(f, g) && Known(f, w)
    ensures Known(g, w)
  {
    forall m | m in w.up ensures KnownAsk(g, m) {
      assert KnownAsk(f, m);
    }
    forall m | m in w.down ensures KnownMessage(g, m) {
      assert KnownMessage(f, m);
    }
    forall x | x in w.effects ensures KnownEffect(g, x) {
      assert KnownEffect(f, x);
    }
  }

  /** What acting on a known event shows is known. */
  lemma ActKnown(f: Facts, t: Tables, e: Event)
    requires KnownTables(f, t)
    requires match e
             case Request(id, _, _, response) => (id, response) in f.asked
             case SendTracked(id, _, _, callback) => (id, callback) in f.tracked
             case Send(c, _) => c in f.sent
             case SubscribeTo(c, callback) => (c, callback) in f.bound
             case Incoming(m) => KnownMessage(f, m)
             case _ => true
    ensures var o := Act(t, e);
            && KnownTables(f, o.tables) && KnownUp(f, o.up) && |o.effects| <= 1
            && (forall x :: x in o.effects ==> KnownEffect(f, x))
  {
  }

  /** What the daemon does with what is known is known. */
  lemma StepKnown(f: Facts, d: State, step: Step, s: Option<Session>)
    requires KnownDaemon(f, d, s) && DistinctPending(d.requests) && Sound(f, d, step, s)
    ensures var (r, out) := Next(d, step);
            KnownDaemon(f, r, s) && forall m :: m in For(s, out) ==> KnownMessage(f, m)
  {
    var (r, out) := Next(d, step);
    MineNext(d, step, s);
    if step.TakeOldest? && d.phase.Notifying? {
      OldestById(d.requests, d.phase.command);
      if Oldest(d.requests, d.phase.command).Some? {
        OldestFits(d.requests, d.phase.command);
      }
    }
    assert |out| <= 1;
    if out != [] {
      assert out == [out[0]] && out[1..] == [];
      assert For(s, out) == if s == Some(out[0].session) then [out[0].message] else [];
    }
  }

  lemma {:induction false} OldestFits(requests: seq<Pending>, command: Command)
    requires Oldest(requests, command).Some?
    ensures Oldest(requests, command).value.command == command
  {
    if requests[0].command != command {
      OldestFits(requests[1..], command);
    }
  }

  lemma CallKnown(f: Facts, w: World, e: Event, keeps: bool)
    requires Known(f, w) && Legal(w, Call(e))
    ensures Known(Learn(f, w, Call(e)), Do(w, Call(e), keeps))
  {
    var g := Learn(f, w, Call(e));
    StaysKnown(f, g, w);
    hide Act, Do;
    ActKnown(g, w.tables, e);
    CallDoes(w, e, keeps);
  }

  lemma DeliverKnown(f: Facts, w: World, keeps: bool)
    requires Known(f, w) && w.down != []
    ensures Known(f, Do(w, Deliver, keeps))
  {
    hide Act;
    assert w.down == [w.down[0]] + w.down[1..];
    ActKnown(f, w.tables, Incoming(w.down[0]));
  }

  /** What the daemon may be made to do without telling the client anything unknown. */
  predicate Sound(f: Facts, d: State, step: Step, s: Option<Session>) {
    match step
    case Register(s', id, c) => (forall p :: p in d.requests ==> p.id != id) && (s == Some(s') ==> (id, c) in f.asked)
    case Snapshot(c, data) => (c, data) in f.heard
    case ForgetRequests(s') => s != Some(s')
    case Report(s', m) => s == Some(s') ==> KnownMessage(f, m)
    case _ => true
  }

  lemma DaemonicKnown(f: Facts, w: World, step: Step)
    requires Known(f, w) && DistinctPending(w.daemon.requests) && Sound(f, w.daemon, step, w.session)
    ensures Known(f, Daemonic(w, step))
  {
    hide Next, For, Sound, KnownDaemon, KnownUp, KnownMessage, KnownTables, KnownEffect;
    StepKnown(f, w.daemon, step, w.session);
  }

  lemma ServeSound(f: Facts, w: World, accepted: bool, keeps: bool)
    requires Tidy(w, keeps) && Known(f, w) && w.up != [] && w.session.Some?
    ensures var step := ServeStep(w.session.value, w.up[0], accepted);
            step.Some? ==> Sound(Learn(f, w, Serve(accepted)), w.daemon, step.value, w.session)
  {
    assert w.up[0].AskRequest? ==> w.up[0].id in Asked(w.up);
    assert KnownAsk(f, w.up[0]);
  }

  lemma ServeKnown(f: Facts, w: World, accepted: bool, keeps: bool)
    requires Tidy(w, keeps) && Known(f, w) && w.up != [] && w.session.Some?
    ensures Known(Learn(f, w, Serve(accepted)), Do(w, Serve(accepted), keeps))
  {
    hide KnownDaemon, KnownMessage, KnownTables, KnownEffect, KnownAsk, Sound, Daemonic;
    var g := Learn(f, w, Serve(accepted));
    StaysKnown(f, g, w);
    ServeSound(f, w, accepted, keeps);
    var step := ServeStep(w.session.value, w.up[0], accepted);
    var popped := w.(up := w.up[1..], handed := w.handed + Handed(w.up[0]));
    assert Known(g, popped);
    if step.Some? {
      DaemonicKnown(g, popped, step.value);
    }
  }

  lemma WorkKnown(f: Facts, w: World, step: Step, keeps: bool)
    requires Tidy(w, keeps) && Known(f, w) && Foreign(w, step)
    ensures Known(Learn(f, w, Work(step)), Do(w, Work(step), keeps))
  {
    hide KnownDaemon, KnownMessage, KnownTables, KnownEffect, KnownAsk, Daemonic;
    var g := Learn(f, w, Work(step));
    StaysKnown(f, g, w);
    var busy := w.(used := w.used + StepIds(step));
    assert Known(g, busy);
    DaemonicKnown(g, busy, step);
  }

  lemma MoveKnown(f: Facts, w: World, m: Move, keeps: bool)
    requires Inv(w, keeps) && Known(f, w) && Legal(w, m)
    ensures Known(Learn(f, w, m), Do(w, m, keeps))
  {
    match m
    case Call(e) => CallKnown(f, w, e, keeps);
    case Deliver => DeliverKnown(f, w, keeps);
    case Serve(accepted) => ServeKnown(f, w, accepted, keeps);
    case Work(step) => WorkKnown(f, w, step, keeps);
    case Disconnect =>
    case Resume(_, _, _) =>
  }

  lemma {:induction false} RunKnown(f: Facts, w: World, moves: seq<Move>, keeps: bool)
    requires Inv(w, keeps) && Known(f, w) && LegalRun(w, moves, keeps)
    ensures Known(LearnAll(f, w, moves, keeps), Run(w, moves, keeps))
    decreases |moves|
  {
    if moves != [] {
      hide Do, Known, Inv, Learn;
      MoveKnown(f, w, moves[0], keeps);
      MoveKeeps(w, moves[0], keeps);
      RunKnown(Learn(f, w, moves[0]), Do(w, moves[0], keeps), moves[1..], keeps);
    }
  }

  /** All an application sees has its cause, over any run with crossings and reconnections: a promise
      is set with data the V-CPU sent with the very command the request named; a callback given for a
      command is called with it and data the V-CPU sent; a delivery callback is the one given for that
      send and told what came of the write; the error callback hears of a command that was sent and not
      taken. */
  lemma EffectsHaveCauses(start: World, moves: seq<Move>, keeps: bool, x: Effect)
    requires Initial(start) && LegalRun(start, moves, keeps) && x in Run(start, moves, keeps).effects
    ensures KnownEffect(LearnAll(First(start), start, moves, keeps), x)
  {
    InitialInv(start, keeps);
    assert Known(First(start), start);
    RunKnown(First(start), start, moves, keeps);
  }
}
