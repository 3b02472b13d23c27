/** The daemon's side of a client connection: which handler reads which message, and what it comes to. */
module Server {
  import opened Wire
  import opened Broker
  import opened Client
  import D = Daemon

  /** The step a message makes the daemon take. */
  function ServeStep(s: Session, m: Up, accepted: bool): Option<Step> {
    match m
    case AskSubscribe(c) => Some(Subscribe(s, c))
    case AskUnsubscribe(c) => Some(Unsubscribe(s, c))
    case AskRequest(id, _, _, response) => Some(Register(s, id, response))
    case AskCancel(id) => Some(Cancel(id))
    case AskSend(c, _) => if accepted then None else Some(Report(s, SendFailed(c)))
    case AskTracked(id, _, _) => Some(Report(s, DeliveryStatus(id, accepted)))
  }

  /** What a message makes the daemon write to the V-CPU. */
  function Handed(m: Up): seq<(Command, seq<byte>)> {
    match m
    case AskRequest(_, c, data, _) => [(c, data)]
    case AskSend(c, data) => [(c, data)]
    case AskTracked(_, c, data) => [(c, data)]
    case _ => []
  }

  /** Hands a message to the handler that is there for it. `accepted` is what writing to the V-CPU returns. */
  method Serve(daemon: D.Daemon, session: Session, m: Up, accepted: bool)
    modifies daemon
    ensures daemon.written == old(daemon.written) + Handed(m)
    ensures match ServeStep(session, m, accepted)
            case None => daemon.View() == old(daemon.View()) && daemon.outbox == old(daemon.outbox)
            case Some(step) => var (d, out) := Next(old(daemon.View()), step);
                               daemon.View() == d && daemon.outbox == old(daemon.outbox) + out
  {
    match m
    case AskSubscribe(c) => daemon.OnSubscribe(session, c);
    case AskUnsubscribe(c) => daemon.OnUnsubscribe(session, c);
    case AskRequest(id, c, data, response) => daemon.OnRequest(session, id, c, data, response);
    case AskCancel(id) => daemon.OnCancelRequest(session, id);
    case AskSend(c, data) => daemon.OnSendCommand(session, c, data, accepted);
    case AskTracked(id, c, data) => daemon.OnSendCommandWithDeliveryStatus(session, id, c, data, accepted);
  }
}
