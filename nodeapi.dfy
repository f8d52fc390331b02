/**
 * The master's handler for one connection from a worker node: it reads
 * one object, decides from the message code and the message's runtime
 * class which listener call to make and what to reply, writes that one
 * reply and closes the connection.
 */
module NodeApi {
  import Common

  /** The object read from the connection: a message, or something else. */
  datatype Request = Msg(message: Common.Message) | NotAMessage

  /** The calls the handler makes on the master's listener. */
  datatype ListenerCall =
    | ConnectRequest(connect: Common.ConnectMessage)
    | ReadStatusReport(report: Common.StatusReport)
    | DisconnectRequest(disconnect: Common.ConnectMessage)

  /** What the handler writes back: the id the listener answered, or a bare message with a code. */
  datatype Reply = Unid(unid: string) | Code(code: Common.ClusterProtocol)

  /** How the reply is formed: from the listener's answer, or a fixed code. */
  datatype ReplyKind = ListenerAnswer | Fixed(code: Common.ClusterProtocol)

  /** The handler's decision for one request: the listener call to make, if any, and the reply. */
  datatype Decision = Decision(call: Common.Option<ListenerCall>, reply: ReplyKind)

  /**
   * A request the master serves: a connect or disconnect request carried
   * by a connect message, or a status report carried by a status report.
   */
  predicate WellFormed(req: Request)
  {
    && req.Msg?
    && match req.message.code
       case CONNECT_ME => req.message.body.Connect?
       case DISCONNECT_ME => req.message.body.Connect?
       case STATUS_REPORT => req.message.body.Report?
       case _ => false
  }

  /** The decision table of the handler. */
  function Classify(req: Request): (d: Decision)
    ensures d.call.Some? <==> WellFormed(req)
    ensures d.reply == Fixed(Common.BAD_REQUEST) <==> !WellFormed(req)
  {
    match req
    case NotAMessage => Decision(Common.None, Fixed(Common.BAD_REQUEST))
    case Msg(m) =>
      match m.code
      case CONNECT_ME =>
        if m.body.Connect? then Decision(Common.Some(ConnectRequest(m.body.connect)), ListenerAnswer)
        else Decision(Common.None, Fixed(Common.BAD_REQUEST))
      case STATUS_REPORT =>
        if m.body.Report? then Decision(Common.Some(ReadStatusReport(m.body.report)), Fixed(Common.BYE))
        else Decision(Common.None, Fixed(Common.BAD_REQUEST))
      case DISCONNECT_ME =>
        if m.body.Connect? then Decision(Common.Some(DisconnectRequest(m.body.connect)), Fixed(Common.BYE))
        else Decision(Common.None, Fixed(Common.BAD_REQUEST))
      case _ => Decision(Common.None, Fixed(Common.BAD_REQUEST))
  }

  /** The reply written for a decision, given the id the listener answers to a connect request. */
  function ReplyOf(d: Decision, answer: string): (r: Reply)
    ensures d.reply.ListenerAnswer? <==> r == Unid(answer)
  {
    match d.reply
    case ListenerAnswer => Unid(answer)
    case Fixed(code) => Code(code)
  }

  /** The listener calls a decision makes: none or one. */
  function CallsOf(d: Decision): (calls: seq<ListenerCall>)
    ensures |calls| <= 1
    ensures |calls| == 1 <==> d.call.Some?
  {
    match d.call
    case None => []
    case Some(c) => [c]
  }

  /**
   * A served request makes the listener call its code names, on the
   * payload it carries: a connect request is answered with the id the
   * listener returns, a status report and a disconnect request with BYE.
   */
  lemma ServedRequests(req: Request)
    requires WellFormed(req)
    ensures var m := req.message;
      && (m.code == Common.CONNECT_ME ==>
            Classify(req) == Decision(Common.Some(ConnectRequest(m.body.connect)), ListenerAnswer))
      && (m.code == Common.STATUS_REPORT ==>
            Classify(req) == Decision(Common.Some(ReadStatusReport(m.body.report)), Fixed(Common.BYE)))
      && (m.code == Common.DISCONNECT_ME ==>
            Classify(req) == Decision(Common.Some(DisconnectRequest(m.body.connect)), Fixed(Common.BYE)))
  {
  }

  /** Every reply other than a listener's answer is BYE or BAD_REQUEST. */
  lemma RepliesAreByeOrBad(req: Request)
    ensures Classify(req).reply in {ListenerAnswer, Fixed(Common.BYE), Fixed(Common.BAD_REQUEST)}
  {
  }

  /** A connect message as its constructor builds it asks to connect, never to disconnect. */
  lemma ConnectMessageConnects(unid: string, localPort: int, name: string, status: Common.Status)
    ensures var req := Msg(Common.NewConnectMessage(unid, localPort, name, status));
      Classify(req).call == Common.Some(ConnectRequest(Common.ConnectMessage(unid, localPort, name, status)))
  {
  }

  /** A status report as its constructors build it is read, and answered with BYE. */
  lemma StatusReportIsRead(status: Common.Status, unid: string, taskReport: Common.Option<Common.TaskReport>)
    ensures var req := Msg(Common.NewStatusReport(status, unid, taskReport));
      && Classify(req).call.Some? && Classify(req).call.value.ReadStatusReport?
      && Classify(req).call.value.report.unid == unid
      && Classify(req).call.value.report.status == status
      && Classify(req).reply == Fixed(Common.BYE)
  {
  }

  /** A task request is something the master sends, not serves: the handler refuses it. */
  lemma TaskRequestRefused(jobId: string, taskId: int)
    ensures Classify(Msg(Common.NewTaskRequestMessage(jobId, taskId))) == Decision(Common.None, Fixed(Common.BAD_REQUEST))
  {
  }

  /** One connection from a worker node, as the handler sees it. */
  class Handler {
    /** The objects the peer sends, in order. */
    var incoming: seq<Request>
    var closed: bool
    /** The objects written back, in order. */
    var replies: seq<Reply>
    /** The calls made on the listener, in order. */
    var calls: seq<ListenerCall>

    constructor (incoming: seq<Request>)
      ensures this.incoming == incoming && !closed && replies == [] && calls == []
    {
      this.incoming := incoming;
      closed := false;
      replies := [];
      calls := [];
    }

    /**
     * Serve the connection: while it is open, read an object, act on the
     * decision for it, write the reply and close. A failed read (nothing
     * left to read) ends the loop and the connection is closed. So an
     * open connection serves exactly one request, if the peer sends one.
     * The listener's answer to a connect request is the parameter.
     */
    method Run(answer: string)
      modifies this
      ensures closed
      ensures old(closed) || old(incoming) == [] ==>
        incoming == old(incoming) && replies == old(replies) && calls == old(calls)
      ensures !old(closed) && old(incoming) != [] ==>
        var d := Classify(old(incoming)[0]);
        && incoming == old(incoming)[1..]
        && replies == old(replies) + [ReplyOf(d, answer)]
        && calls == old(calls) + CallsOf(d)
    {
      while !closed
        invariant !closed ==> incoming == old(incoming) && replies == old(replies) && calls == old(calls)
        invariant closed && (old(closed) || old(incoming) == []) ==>
          incoming == old(incoming) && replies == old(replies) && calls == old(calls)
        invariant closed && !old(closed) && old(incoming) != [] ==>
          var d := Classify(old(incoming)[0]);
          && incoming == old(incoming)[1..]
          && replies == old(replies) + [ReplyOf(d, answer)]
          && calls == old(calls) + CallsOf(d)
        decreases if closed then 0 else 1
      {
        if incoming == [] {
          closed := true;
        } else {
          var request := incoming[0];
          incoming := incoming[1..];
          var d := Classify(request);
          if d.call.Some? {
            calls := calls + [d.call.value];
          }
          var reply := if d.reply.ListenerAnswer? then Unid(answer) else Code(d.reply.code);
          replies := replies + [reply];
          closed := true;
        }
      }
    }
  }
}
