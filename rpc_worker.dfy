/**
 * The RPC worker: routes each parsed RPC either to a canned response (the
 * unsupported-RPC table) or to the dispatcher, turns dispatcher exceptions
 * into ERROR records, emits exactly one audit event per call, and handles the
 * worker-queue messages 'callRPC', 'dbReinit' and 'lockedRPCList'. At start-up
 * it builds the routine search path and registers the configured lockers.
 *
 * The parser, dispatcher, unsupported-RPC table, context store and MVDM
 * emitter are collaborators: maps and functions in `Collaborators`, and a log
 * of the calls made into them (`CollaboratorCall`). Transaction ids and time
 * stamps are passed in.
 */
module RpcWorker {
  import opened Wrappers

  // ---------------------------------------------------------------------------
  // Collaborators
  // ---------------------------------------------------------------------------

  /** What the RPC parser yields for a raw packet. */
  datatype ParsedRpc = ParsedRpc(name: string, args: seq<string>)

  /** The record the dispatcher returns. */
  datatype DispatchResult = DispatchResult(
    path: string,
    rpcResponse: string,
    transactionId: Option<string>,
    result: Option<string>,
    lockerName: Option<string>)

  /**
   * A dispatcher call either returns a record or throws an error with a
   * message and an `errno`; either way, `raised` lists the MVDM events the
   * locker raised while it ran, in order.
   */
  datatype DispatchOutcome =
    | Returned(ret: DispatchResult, raised: seq<MvdmRaise>)
    | Threw(message: string, errno: Option<string>, raised: seq<MvdmRaise>)

  /** An MVDM event raised while the dispatcher runs a locker. */
  datatype MvdmRaise = MvdmRaise(kind: MvdmEventKind, data: string)

  /** The dispatcher's view of the active context's user and facility. */
  datatype UserAndFacility = UserAndFacility(
    userId: Option<string>,
    userName: Option<string>,
    facilityId: Option<string>,
    facilityName: Option<string>,
    facilityStationNumber: Option<string>)

  /**
   * The worker's collaborators: the unsupported-RPC table, the parser, the
   * dispatcher (answering from its emulation flag, the active context and the
   * call), the user/facility lookup of the active context, the dispatcher's
   * emulated-RPC list, and the configured client name.
   */
  datatype Collaborators = Collaborators(
    unsupported: map<string, string>,
    parse: string -> ParsedRpc,
    dispatch: (bool, Option<string>, string, seq<string>) -> DispatchOutcome,
    userAndFacility: Option<string> -> UserAndFacility,
    emulatedRpcs: seq<string>,
    fromName: string)

  /** The MVDM events the worker relays. */
  datatype MvdmEventKind = Create | Describe | List | Update | Remove | Unremoved | Delete

  /** A call the worker makes into a collaborator, in the order made. */
  datatype CollaboratorCall =
    | OnMvdm(kind: MvdmEventKind)
    | SetEmulating(on: bool)
    | SetContext(contextId: string)
    | Dispatch(name: string, args: seq<string>)
    | GetUserAndFacility
    | Reinit
    | ClearAll
    | GetEmulatedList

  // ---------------------------------------------------------------------------
  // Messages
  // ---------------------------------------------------------------------------

  /** A message from the worker queue. */
  datatype WorkerMessage = WorkerMessage(
    methodName: string,
    contextId: string,
    rpcPacket: string,
    isRPCEmulated: bool,
    ipAddress: Option<string>)

  /** A message together with the fresh transaction id and the clock reading the worker would draw for it. */
  datatype Delivery = Delivery(message: WorkerMessage, freshId: string, now: string)

  /** The parsed RPC object once `callRPC` has decorated it. */
  datatype RpcObject = RpcObject(
    name: string,
    args: seq<string>,
    to: string,
    lockerName: Option<string>,
    rpc: string,
    response: string,
    from: string,
    timeStamp: string)

  datatype UserRef = UserRef(id: string, name: Option<string>)
  datatype FacilityRef = FacilityRef(id: string, name: Option<string>, stationNumber: Option<string>)

  /** The audit event of one RPC call. */
  datatype RpcCallEvent = RpcCallEvent(
    kind: string,
    transactionId: Option<string>,
    ipAddress: Option<string>,
    timestamp: string,
    runner: string,
    lockerName: Option<string>,
    runResult: Option<string>,
    rpcName: string,
    rpcObject: RpcObject,
    requestArgs: seq<string>,
    response: string,
    user: UserRef,
    facility: FacilityRef)

  /** A message passed to `send`. */
  datatype QueueMessage = EmitRpcEvent(event: RpcCallEvent) | EmitMvdmEvent(data: string, eventType: string)

  /** A message passed to `finished`: an RPC response, no payload, or the emulated-RPC list. */
  datatype Finished = RpcResponse(rpcObject: RpcObject, response: string) | Acknowledged | RpcL(list: seq<string>)

  const CallRpcMethod := "callRPC"
  const DbReinitMethod := "dbReinit"
  const LockedRpcListMethod := "lockedRPCList"
  const ServerRunner := "server"
  const ErrorTag := "ERROR"
  const UserIdPrefix := "200-"
  const FacilityIdPrefix := "4-"
  const RpcCallKind := "rpcCall"

  /** JavaScript string concatenation renders a missing value as "undefined". */
  function JsText(v: Option<string>): (text: string)
  {
    match v
    case Some(s) => s
    case None => "undefined"
  }

  /** The event type under which an MVDM event is relayed. */
  function MvdmEventType(kind: MvdmEventKind): (eventType: string)
  {
    match kind
    case Create => "mvdmCreate"
    case Describe => "mvdmDescribe"
    case List => "mvdmList"
    case Update => "mvdmUpdate"
    case Remove => "mvdmRemove"
    case Unremoved => "mvdmUnremoved"
    case Delete => "mvdmDelete"
  }

  /** The seven MVDM listeners, in the order they are installed. */
  const HandlerInstalls: seq<CollaboratorCall> :=
    [OnMvdm(Create), OnMvdm(Describe), OnMvdm(List), OnMvdm(Update), OnMvdm(Remove), OnMvdm(Unremoved), OnMvdm(Delete)]

  // ---------------------------------------------------------------------------
  // callRPC as a function of its inputs
  // ---------------------------------------------------------------------------

  /** The catch block around the dispatcher: an exception becomes an ERROR record. */
  function Caught(outcome: DispatchOutcome): (ret: DispatchResult)
  {
    match outcome
    case Returned(ret, _) => ret
    case Threw(message, errno, _) => DispatchResult(ErrorTag, message, errno, Some(message), Some(ErrorTag))
  }

  /** Where a call went and what came back. */
  datatype Routing = Routing(
    to: string,
    lockerName: Option<string>,
    response: string,
    transactionId: Option<string>,
    runResult: Option<string>)

  /** The relay messages the installed MVDM listeners send for `raised`, in order. */
  function Relays(raised: seq<MvdmRaise>): (relays: seq<QueueMessage>)
  {
    if raised == [] then []
    else
      var last := raised[|raised| - 1];
      Relays(raised[..|raised| - 1]) + [EmitMvdmEvent(last.data, MvdmEventType(last.kind))]
  }

  /** Each raised event becomes one relay message, in order, and none of them is an audit event. */
  lemma {:induction false} RelaysMirrorRaised(raised: seq<MvdmRaise>)
    ensures |Relays(raised)| == |raised|
    ensures forall k :: 0 <= k < |raised| ==>
      Relays(raised)[k] == EmitMvdmEvent(raised[k].data, MvdmEventType(raised[k].kind))
    ensures RpcEventCount(Relays(raised)) == 0
  {
    if raised != [] {
      var init := raised[..|raised| - 1];
      RelaysMirrorRaised(init);
      RpcEventCountAppend(Relays(init), [EmitMvdmEvent(raised[|raised| - 1].data, MvdmEventType(raised[|raised| - 1].kind))]);
    }
  }

  /**
   * Everything one `callRPC` produces: the returned object and response, the
   * relays of the MVDM events raised during dispatch, the audit event, and the
   * collaborator calls made.
   */
  datatype CallResult = CallResult(
    rpcObject: RpcObject,
    response: string,
    relayed: seq<QueueMessage>,
    event: RpcCallEvent,
    calls: seq<CollaboratorCall>)

  /** `callRPC` as a function of its inputs: the unsupported-RPC shortcut or one dispatch, then the audit event. */
  function CallRpcResult(c: Collaborators, emulating: bool, context: Option<string>,
                         msg: WorkerMessage, freshId: string, now: string): (result: CallResult)
  {
    var rpc := c.parse(msg.rpcPacket);
    var (r, relayed, dispatched) :=
      if rpc.name in c.unsupported then
        (Routing(ServerRunner, None, c.unsupported[rpc.name], Some(freshId), None), [], [])
      else
        var outcome := c.dispatch(emulating, context, rpc.name, rpc.args);
        var ret := Caught(outcome);
        (Routing(ret.path, ret.lockerName, ret.rpcResponse, ret.transactionId, ret.result),
         Relays(outcome.raised), [Dispatch(rpc.name, rpc.args)]);
    var obj := RpcObject(rpc.name, rpc.args, r.to, r.lockerName, msg.rpcPacket, r.response, c.fromName, now);
    var uf := c.userAndFacility(context);
    var event := RpcCallEvent(
      RpcCallKind, r.transactionId, msg.ipAddress, now, r.to, r.lockerName, r.runResult, rpc.name, obj,
      rpc.args, r.response,
      UserRef(UserIdPrefix + JsText(uf.userId), uf.userName),
      FacilityRef(FacilityIdPrefix + JsText(uf.facilityId), uf.facilityName, uf.facilityStationNumber));
    CallResult(obj, r.response, relayed, event, dispatched + [GetUserAndFacility])
  }

  /**
   * An RPC in the unsupported table gets exactly its canned response, routed to
   * "server" with a fresh transaction id, and the dispatcher is neither called
   * nor able to influence the result.
   */
  lemma ShortcutBypassesDispatcher(c: Collaborators, emulating: bool, context: Option<string>,
                                   msg: WorkerMessage, freshId: string, now: string,
                                   other: (bool, Option<string>, string, seq<string>) -> DispatchOutcome)
    requires c.parse(msg.rpcPacket).name in c.unsupported
    ensures var r := CallRpcResult(c, emulating, context, msg, freshId, now);
      && r.response == c.unsupported[c.parse(msg.rpcPacket).name]
      && r.rpcObject.to == ServerRunner
      && r.event.transactionId == Some(freshId)
      && r.calls == [GetUserAndFacility]
      && r.relayed == []
      && CallRpcResult(c.(dispatch := other), emulating, context, msg, freshId, now) == r
  {
  }

  /** Any other RPC goes to the dispatcher once, and its path, response, transaction id and locker name are copied unchanged. */
  lemma DispatchedFieldsCopied(c: Collaborators, emulating: bool, context: Option<string>,
                               msg: WorkerMessage, freshId: string, now: string)
    requires c.parse(msg.rpcPacket).name !in c.unsupported
    requires c.dispatch(emulating, context, c.parse(msg.rpcPacket).name, c.parse(msg.rpcPacket).args).Returned?
    ensures var rpc := c.parse(msg.rpcPacket);
      var ret := c.dispatch(emulating, context, rpc.name, rpc.args).ret;
      var r := CallRpcResult(c, emulating, context, msg, freshId, now);
      && r.rpcObject.to == ret.path
      && r.response == ret.rpcResponse
      && r.event.transactionId == ret.transactionId
      && r.rpcObject.lockerName == ret.lockerName
      && r.event.runResult == ret.result
      && r.calls == [Dispatch(rpc.name, rpc.args), GetUserAndFacility]
      && r.relayed == Relays(c.dispatch(emulating, context, rpc.name, rpc.args).raised)
  {
  }

  /** A dispatcher exception does not escape: it becomes an ERROR record carrying the message and errno. */
  lemma DispatchErrorNormalized(c: Collaborators, emulating: bool, context: Option<string>,
                                msg: WorkerMessage, freshId: string, now: string)
    requires c.parse(msg.rpcPacket).name !in c.unsupported
    requires c.dispatch(emulating, context, c.parse(msg.rpcPacket).name, c.parse(msg.rpcPacket).args).Threw?
    ensures var rpc := c.parse(msg.rpcPacket);
      var thrown := c.dispatch(emulating, context, rpc.name, rpc.args);
      var r := CallRpcResult(c, emulating, context, msg, freshId, now);
      && r.rpcObject.to == ErrorTag
      && r.rpcObject.lockerName == Some(ErrorTag)
      && r.response == thrown.message
      && r.event.runResult == Some(thrown.message)
      && r.event.transactionId == thrown.errno
      && r.relayed == Relays(thrown.raised)
  {
  }

  /**
   * The audit event describes the call it belongs to: runner, RPC name,
   * arguments and response are those of the returned object, and the user
   * and facility ids carry the '200-' and '4-' prefixes.
   */
  lemma EventMirrorsCall(c: Collaborators, emulating: bool, context: Option<string>,
                         msg: WorkerMessage, freshId: string, now: string)
    ensures var rpc := c.parse(msg.rpcPacket);
      var uf := c.userAndFacility(context);
      var r := CallRpcResult(c, emulating, context, msg, freshId, now);
      && r.event.kind == RpcCallKind
      && r.event.runner == r.rpcObject.to
      && r.event.rpcName == rpc.name && r.rpcObject.name == rpc.name
      && r.event.requestArgs == rpc.args
      && r.event.response == r.response && r.rpcObject.response == r.response
      && r.event.rpcObject == r.rpcObject
      && r.rpcObject.rpc == msg.rpcPacket && r.rpcObject.from == c.fromName
      && r.event.timestamp == now && r.rpcObject.timeStamp == now
      && r.event.ipAddress == msg.ipAddress
      && r.event.user.id[..|UserIdPrefix|] == UserIdPrefix && r.event.user.id[|UserIdPrefix|..] == JsText(uf.userId)
      && r.event.facility.id[..|FacilityIdPrefix|] == FacilityIdPrefix
      && r.event.facility.id[|FacilityIdPrefix|..] == JsText(uf.facilityId)
  {
  }

  // ---------------------------------------------------------------------------
  // The message handler as a state machine
  // ---------------------------------------------------------------------------

  /**
   * The worker's state: the dispatcher's emulation flag, the context store
   * (the active context and the ids set since the last clear-all), whether
   * the MVDM listeners are installed, and the three output logs.
   */
  datatype WorkerState = WorkerState(
    emulating: bool,
    activeContext: Option<string>,
    contexts: set<string>,
    handlersSet: bool,
    sent: seq<QueueMessage>,
    finished: seq<Finished>,
    calls: seq<CollaboratorCall>)

  /** The one-shot installation of the MVDM listeners. */
  function InstallHandlers(s: WorkerState): (t: WorkerState)
  {
    if s.handlersSet then s else s.(handlersSet := true, calls := s.calls + HandlerInstalls)
  }

  /**
   * The 'callRPC' branch once the listeners are installed: set the emulation
   * flag and the context, call the RPC, relay the MVDM events raised during
   * dispatch before the audit event, and finish with the response.
   */
  function CallRpcStep(c: Collaborators, s: WorkerState, d: Delivery): (t: WorkerState)
  {
    var m := d.message;
    var s2 := s.(emulating := m.isRPCEmulated,
                 activeContext := Some(m.contextId),
                 contexts := s.contexts + {m.contextId},
                 calls := s.calls + [SetEmulating(m.isRPCEmulated), SetContext(m.contextId)]);
    var r := CallRpcResult(c, s2.emulating, s2.activeContext, m, d.freshId, d.now);
    s2.(sent := s2.sent + r.relayed + [EmitRpcEvent(r.event)],
        calls := s2.calls + r.calls,
        finished := s2.finished + [RpcResponse(r.rpcObject, r.response)])
  }

  /** The 'message' handler: install the listeners once, then act on the message's method. */
  function Step(c: Collaborators, s: WorkerState, d: Delivery): (t: WorkerState)
  {
    var s1 := InstallHandlers(s);
    var m := d.message;
    if m.methodName == CallRpcMethod then
      CallRpcStep(c, s1, d)
    else if m.methodName == DbReinitMethod then
      s1.(activeContext := None, contexts := {},
          calls := s1.calls + [Reinit, ClearAll],
          finished := s1.finished + [Acknowledged])
    else if m.methodName == LockedRpcListMethod then
      s1.(calls := s1.calls + [GetEmulatedList],
          finished := s1.finished + [RpcL(c.emulatedRpcs)])
    else
      s1
  }

  /** The state after handling `ds` in order. */
  function Run(c: Collaborators, s: WorkerState, ds: seq<Delivery>): (t: WorkerState)
  {
    if ds == [] then s else Step(c, Run(c, s, ds[..|ds| - 1]), ds[|ds| - 1])
  }

  /** The number of audit events among the messages sent. */
  function RpcEventCount(sent: seq<QueueMessage>): (n: nat)
  {
    if sent == [] then 0
    else RpcEventCount(sent[..|sent| - 1]) + if sent[|sent| - 1].EmitRpcEvent? then 1 else 0
  }

  /** The number of MVDM listener installations among the calls made. */
  function InstallCount(calls: seq<CollaboratorCall>): (n: nat)
  {
    if calls == [] then 0
    else InstallCount(calls[..|calls| - 1]) + if calls[|calls| - 1].OnMvdm? then 1 else 0
  }

  function CallRpcMessages(ds: seq<Delivery>): (n: nat)
  {
    if ds == [] then 0
    else CallRpcMessages(ds[..|ds| - 1]) + if ds[|ds| - 1].message.methodName == CallRpcMethod then 1 else 0
  }

  predicate Answered(m: WorkerMessage)
  {
    m.methodName in {CallRpcMethod, DbReinitMethod, LockedRpcListMethod}
  }

  function AnsweredMessages(ds: seq<Delivery>): (n: nat)
  {
    if ds == [] then 0
    else AnsweredMessages(ds[..|ds| - 1]) + if Answered(ds[|ds| - 1].message) then 1 else 0
  }

  lemma {:induction false} RpcEventCountAppend(a: seq<QueueMessage>, b: seq<QueueMessage>)
    ensures RpcEventCount(a + b) == RpcEventCount(a) + RpcEventCount(b)
    decreases |b|
  {
    if b != [] {
      assert (a + b)[..|a + b| - 1] == a + b[..|b| - 1];
      assert (a + b)[|a + b| - 1] == b[|b| - 1];
      RpcEventCountAppend(a, b[..|b| - 1]);
    } else {
      assert a + b == a;
    }
  }

  lemma {:induction false} InstallCountAppend(a: seq<CollaboratorCall>, b: seq<CollaboratorCall>)
    ensures InstallCount(a + b) == InstallCount(a) + InstallCount(b)
    decreases |b|
  {
    if b != [] {
      assert (a + b)[..|a + b| - 1] == a + b[..|b| - 1];
      assert (a + b)[|a + b| - 1] == b[|b| - 1];
      InstallCountAppend(a, b[..|b| - 1]);
    } else {
      assert a + b == a;
    }
  }

  lemma {:induction false} NoInstalls(calls: seq<CollaboratorCall>)
    requires forall k :: 0 <= k < |calls| ==> !calls[k].OnMvdm?
    ensures InstallCount(calls) == 0
  {
    if calls != [] {
      NoInstalls(calls[..|calls| - 1]);
    }
  }

  lemma {:induction false} AllInstalls(calls: seq<CollaboratorCall>)
    requires forall k :: 0 <= k < |calls| ==> calls[k].OnMvdm?
    ensures InstallCount(calls) == |calls|
  {
    if calls != [] {
      AllInstalls(calls[..|calls| - 1]);
    }
  }

  lemma InstallHandlersCount(s: WorkerState)
    ensures InstallCount(InstallHandlers(s).calls) == InstallCount(s.calls) + (if s.handlersSet then 0 else 7)
    ensures InstallHandlers(s).handlersSet
  {
    InstallCountAppend(s.calls, HandlerInstalls);
    AllInstalls(HandlerInstalls);
  }

  lemma CallRpcMakesNoInstalls(c: Collaborators, m: WorkerMessage, freshId: string, now: string)
    ensures var calls := [SetEmulating(m.isRPCEmulated), SetContext(m.contextId)]
                         + CallRpcResult(c, m.isRPCEmulated, Some(m.contextId), m, freshId, now).calls;
      forall k :: 0 <= k < |calls| ==> !calls[k].OnMvdm?
  {
  }

  lemma CallRpcRelaysNoAuditEvent(c: Collaborators, m: WorkerMessage, freshId: string, now: string)
    ensures RpcEventCount(CallRpcResult(c, m.isRPCEmulated, Some(m.contextId), m, freshId, now).relayed) == 0
  {
    var rpc := c.parse(m.rpcPacket);
    if rpc.name !in c.unsupported {
      RelaysMirrorRaised(c.dispatch(m.isRPCEmulated, Some(m.contextId), rpc.name, rpc.args).raised);
    }
  }

  /** One message: an audit event exactly when it is a 'callRPC', `finished` exactly when its method is known. */
  lemma StepOutputs(c: Collaborators, s: WorkerState, d: Delivery)
    ensures var t := Step(c, s, d);
      && RpcEventCount(t.sent) == RpcEventCount(s.sent) + (if d.message.methodName == CallRpcMethod then 1 else 0)
      && |t.finished| == |s.finished| + (if Answered(d.message) then 1 else 0)
      && InstallCount(t.calls) == InstallCount(s.calls) + (if s.handlersSet then 0 else 7)
      && t.handlersSet
  {
    var s1 := InstallHandlers(s);
    InstallHandlersCount(s);
    var m := d.message;
    if m.methodName == CallRpcMethod {
      var r := CallRpcResult(c, m.isRPCEmulated, Some(m.contextId), m, d.freshId, d.now);
      var extra := [SetEmulating(m.isRPCEmulated), SetContext(m.contextId)] + r.calls;
      assert s1.calls + [SetEmulating(m.isRPCEmulated), SetContext(m.contextId)] + r.calls == s1.calls + extra;
      InstallCountAppend(s1.calls, extra);
      CallRpcMakesNoInstalls(c, m, d.freshId, d.now);
      NoInstalls(extra);
      CallRpcRelaysNoAuditEvent(c, m, d.freshId, d.now);
      RpcEventCountAppend(s1.sent, r.relayed);
      RpcEventCountAppend(s1.sent + r.relayed, [EmitRpcEvent(r.event)]);
    } else if m.methodName == DbReinitMethod {
      InstallCountAppend(s1.calls, [Reinit, ClearAll]);
      assert [Reinit, ClearAll][..1] == [Reinit];
    } else if m.methodName == LockedRpcListMethod {
      InstallCountAppend(s1.calls, [GetEmulatedList]);
    }
  }

  /**
   * Over any sequence of messages: exactly one audit event per 'callRPC',
   * exactly one `finished` per message with a known method (none for any
   * other), and the seven MVDM listeners installed once in all.
   */
  lemma {:induction false} RunOutputs(c: Collaborators, s: WorkerState, ds: seq<Delivery>)
    ensures var t := Run(c, s, ds);
      && RpcEventCount(t.sent) == RpcEventCount(s.sent) + CallRpcMessages(ds)
      && |t.finished| == |s.finished| + AnsweredMessages(ds)
      && InstallCount(t.calls) == InstallCount(s.calls) + (if s.handlersSet || ds == [] then 0 else 7)
      && t.handlersSet == (s.handlersSet || ds != [])
  {
    if ds != [] {
      var init := ds[..|ds| - 1];
      RunOutputs(c, s, init);
      StepOutputs(c, Run(c, s, init), ds[|ds| - 1]);
    }
  }

  /**
   * A 'callRPC' message sets the emulation flag and the context before the
   * dispatcher runs, so the dispatcher answers with the message's own flag
   * and context; the relays of the MVDM events raised during dispatch are
   * sent before the one audit event, and the response goes to `finished` as
   * 'rpcResponse'.
   */
  lemma CallRpcUsesMessageSettings(c: Collaborators, s: WorkerState, d: Delivery)
    requires d.message.methodName == CallRpcMethod
    ensures var m := d.message;
      var rpc := c.parse(m.rpcPacket);
      var t := Step(c, s, d);
      && t.emulating == m.isRPCEmulated
      && t.activeContext == Some(m.contextId)
      && m.contextId in t.contexts
      && |t.finished| == |s.finished| + 1
      && t.finished[|s.finished|].RpcResponse?
      && (rpc.name !in c.unsupported ==>
            t.sent == s.sent + Relays(c.dispatch(m.isRPCEmulated, Some(m.contextId), rpc.name, rpc.args).raised)
                             + [t.sent[|t.sent| - 1]])
      && t.sent[|t.sent| - 1].EmitRpcEvent?
      && (rpc.name in c.unsupported ==>
            && t.sent == s.sent + [t.sent[|t.sent| - 1]]
            && t.finished[|s.finished|].response == c.unsupported[rpc.name])
      && (rpc.name !in c.unsupported ==>
            t.finished[|s.finished|].response ==
              Caught(c.dispatch(m.isRPCEmulated, Some(m.contextId), rpc.name, rpc.args)).rpcResponse)
  {
  }

  /** 'dbReinit' reinitialises the dispatcher, clears every context and finishes without payload. */
  lemma DbReinitClearsContexts(c: Collaborators, s: WorkerState, d: Delivery)
    requires d.message.methodName == DbReinitMethod
    ensures var t := Step(c, s, d);
      && t.contexts == {} && t.activeContext.None?
      && t.finished == s.finished + [Acknowledged]
      && t.calls == InstallHandlers(s).calls + [Reinit, ClearAll]
      && t.sent == s.sent
  {
  }

  /** Any other method changes nothing but the one-shot listener installation. */
  lemma UnknownMethodIgnored(c: Collaborators, s: WorkerState, d: Delivery)
    requires !Answered(d.message)
    ensures Step(c, s, d) == InstallHandlers(s)
  {
  }

  // ---------------------------------------------------------------------------
  // Start-up: the routine path and the locker registry
  // ---------------------------------------------------------------------------

  /** A locker entry of the configuration. */
  datatype LockerConfig = LockerConfig(name: Option<string>, path: string, models: seq<string>, routinePath: Option<string>)

  /** A loaded model module: its optional VDM models, MVDM models and emulator model. */
  datatype ModelModule = ModelModule(vdmModel: Option<seq<string>>, mvdmModel: Option<seq<string>>, rpcLModel: Option<string>)

  /**
   * Dynamic module loading: whether the emulator class at a path loads and
   * constructs, and the model module at a path (`None`: loading throws).
   */
  datatype Loader = Loader(emulatorLoads: string -> bool, loadModel: string -> Option<ModelModule>)

  /** A model injection made on an emulator instance. */
  datatype Injection = AddVdmModel(models: seq<string>) | AddMvdmModel(models: seq<string>) | AddEmulatorModel(model: string)

  /** A registered locker: its name and the injections made on it. */
  datatype Emulator = Emulator(name: string, injections: seq<Injection>)

  /** The VDM and MVDM model lists, shared by all lockers and only ever extended. */
  datatype ModelLists = ModelLists(vdm: seq<string>, mvdm: seq<string>)

  datatype Registry = Registry(emulators: seq<Emulator>, lists: ModelLists)

  const UnknownLocker := "UNKNOWN"
  const EmptyRegistry := Registry([], ModelLists([], []))

  /** `locker.name || 'UNKNOWN'`. */
  function LockerName(locker: LockerConfig): (name: string)
  {
    if locker.name.Some? && locker.name.value != "" then locker.name.value else UnknownLocker
  }

  /** Injecting one model module: extend the shared lists and hand the extended lists to the emulator. */
  function InjectModel(lists: ModelLists, m: ModelModule): (result: (ModelLists, seq<Injection>))
  {
    var vdm := if m.vdmModel.Some? then lists.vdm + m.vdmModel.value else lists.vdm;
    var mvdm := if m.mvdmModel.Some? then lists.mvdm + m.mvdmModel.value else lists.mvdm;
    (ModelLists(vdm, mvdm),
     (if m.vdmModel.Some? then [AddVdmModel(vdm)] else [])
     + (if m.mvdmModel.Some? then [AddMvdmModel(mvdm)] else [])
     + (if m.rpcLModel.Some? then [AddEmulatorModel(m.rpcLModel.value)] else []))
  }

  /** The order in which one model module's injections are made: VDM, MVDM, then the RPC list. */
  function InjectionRank(inj: Injection): (rank: nat)
  {
    match inj
    case AddVdmModel(_) => 0
    case AddMvdmModel(_) => 1
    case AddEmulatorModel(_) => 2
  }

  /**
   * Injecting one module only appends to the shared lists, and appends exactly
   * the module's own models; each part the module has yields one injection,
   * in VDM, MVDM, RPC-list order, and a VDM or MVDM injection hands over the
   * whole extended list.
   */
  lemma InjectModelShape(lists: ModelLists, m: ModelModule)
    ensures var (after, more) := InjectModel(lists, m);
      && lists.vdm <= after.vdm && lists.mvdm <= after.mvdm
      && after.vdm[|lists.vdm|..] == (if m.vdmModel.Some? then m.vdmModel.value else [])
      && after.mvdm[|lists.mvdm|..] == (if m.mvdmModel.Some? then m.mvdmModel.value else [])
      && (AddVdmModel(after.vdm) in more <==> m.vdmModel.Some?)
      && (AddMvdmModel(after.mvdm) in more <==> m.mvdmModel.Some?)
      && (forall k :: 0 <= k < |more| && more[k].AddEmulatorModel? ==>
            m.rpcLModel.Some? && more[k].model == m.rpcLModel.value)
      && (m.rpcLModel.Some? ==> AddEmulatorModel(m.rpcLModel.value) in more)
      && (forall k :: 0 <= k < |more| && more[k].AddVdmModel? ==> more[k].models == after.vdm)
      && (forall k :: 0 <= k < |more| && more[k].AddMvdmModel? ==> more[k].models == after.mvdm)
      && |more| == (if m.vdmModel.Some? then 1 else 0) + (if m.mvdmModel.Some? then 1 else 0)
                   + (if m.rpcLModel.Some? then 1 else 0)
      && forall i, j :: 0 <= i < j < |more| ==> InjectionRank(more[i]) < InjectionRank(more[j])
  {
  }

  /**
   * Loading a locker's models in order: the lists as extended so far and the
   * injections made, or `None` when a model fails to load (the extensions
   * made before the failure stay).
   */
  function LoadModels(paths: seq<string>, loader: Loader, lists: ModelLists, injections: seq<Injection>)
    : (result: (ModelLists, Option<seq<Injection>>))
  {
    if paths == [] then (lists, Some(injections))
    else
      match loader.loadModel(paths[0])
      case None => (lists, None)
      case Some(m) =>
        var (lists', more) := InjectModel(lists, m);
        LoadModels(paths[1..], loader, lists', injections + more)
  }

  /** One iteration of the registration loop; a locker whose loading throws is skipped. */
  function RegisterLocker(reg: Registry, locker: LockerConfig, loader: Loader): (reg': Registry)
  {
    if !loader.emulatorLoads(locker.path) then reg
    else
      var (lists', injections) := LoadModels(locker.models, loader, reg.lists, []);
      if injections.None? then reg.(lists := lists')
      else Registry(reg.emulators + [Emulator(LockerName(locker), injections.value)], lists')
  }

  function RegisterAll(lockers: seq<LockerConfig>, loader: Loader, reg: Registry): (reg': Registry)
  {
    if lockers == [] then reg else RegisterAll(lockers[1..], loader, RegisterLocker(reg, lockers[0], loader))
  }

  /** A locker loads when its emulator class and every one of its models load. */
  predicate Loads(locker: LockerConfig, loader: Loader)
  {
    loader.emulatorLoads(locker.path) && forall p :: p in locker.models ==> loader.loadModel(p).Some?
  }

  /** The names of the lockers that load, in configuration order. */
  function LoadingNames(lockers: seq<LockerConfig>, loader: Loader): (names: seq<string>)
  {
    if lockers == [] then [] else NameIfLoads(lockers[0], loader) + LoadingNames(lockers[1..], loader)
  }

  /** The locker's name when it loads, else nothing. */
  function NameIfLoads(locker: LockerConfig, loader: Loader): (names: seq<string>)
  {
    if Loads(locker, loader) then [LockerName(locker)] else []
  }

  function Names(emulators: seq<Emulator>): (names: seq<string>)
  {
    if emulators == [] then [] else Names(emulators[..|emulators| - 1]) + [emulators[|emulators| - 1].name]
  }

  /** Loading a locker's models succeeds exactly when each of its models loads. */
  lemma {:induction false} LoadModelsSucceedsIff(paths: seq<string>, loader: Loader, lists: ModelLists, injections: seq<Injection>)
    ensures LoadModels(paths, loader, lists, injections).1.Some? <==> forall p :: p in paths ==> loader.loadModel(p).Some?
  {
    if paths != [] {
      if loader.loadModel(paths[0]).Some? {
        var (lists', more) := InjectModel(lists, loader.loadModel(paths[0]).value);
        LoadModelsSucceedsIff(paths[1..], loader, lists', injections + more);
        assert forall p :: p in paths <==> p == paths[0] || p in paths[1..];
      }
    }
  }

  /** Loading models never removes anything from the shared VDM and MVDM lists. */
  lemma {:induction false} LoadModelsExtendsLists(paths: seq<string>, loader: Loader, lists: ModelLists,
                                                   injections: seq<Injection>)
    ensures var (after, _) := LoadModels(paths, loader, lists, injections);
      lists.vdm <= after.vdm && lists.mvdm <= after.mvdm
  {
    if paths != [] && loader.loadModel(paths[0]).Some? {
      var (lists', more) := InjectModel(lists, loader.loadModel(paths[0]).value);
      InjectModelShape(lists, loader.loadModel(paths[0]).value);
      LoadModelsExtendsLists(paths[1..], loader, lists', injections + more);
    }
  }

  /** One registration step appends the locker's name exactly when it loads. */
  lemma RegisterLockerNames(reg: Registry, locker: LockerConfig, loader: Loader)
    ensures Names(RegisterLocker(reg, locker, loader).emulators)
         == Names(reg.emulators) + NameIfLoads(locker, loader)
  {
    if loader.emulatorLoads(locker.path) {
      LoadModelsSucceedsIff(locker.models, loader, reg.lists, []);
    }
  }

  /**
   * Registration keeps configuration order: the registered names are the
   * names of exactly the lockers that load, in order, with 'UNKNOWN' for a
   * missing name; a locker that throws is skipped and later ones still register.
   */
  lemma {:induction false} RegistrationOrder(lockers: seq<LockerConfig>, loader: Loader, reg: Registry)
    ensures Names(RegisterAll(lockers, loader, reg).emulators) == Names(reg.emulators) + LoadingNames(lockers, loader)
  {
    if lockers == [] {
      assert Names(reg.emulators) + [] == Names(reg.emulators);
    } else {
      var reg' := RegisterLocker(reg, lockers[0], loader);
      var before, mine, later := Names(reg.emulators), NameIfLoads(lockers[0], loader), LoadingNames(lockers[1..], loader);
      assert Names(reg'.emulators) == before + mine by {
        RegisterLockerNames(reg, lockers[0], loader);
      }
      assert Names(RegisterAll(lockers[1..], loader, reg').emulators) == Names(reg'.emulators) + later by {
        RegistrationOrder(lockers[1..], loader, reg');
      }
      assert RegisterAll(lockers, loader, reg) == RegisterAll(lockers[1..], loader, reg');
      assert LoadingNames(lockers, loader) == mine + later;
      assert before + mine + later == before + (mine + later);
    }
  }

  /** Loading the first model path successfully injects it and goes on with the rest. */
  lemma LoadModelsStep(paths: seq<string>, loader: Loader, lists: ModelLists, injections: seq<Injection>)
    requires paths != [] && loader.loadModel(paths[0]).Some?
    ensures var (lists', more) := InjectModel(lists, loader.loadModel(paths[0]).value);
      LoadModels(paths, loader, lists, injections) == LoadModels(paths[1..], loader, lists', injections + more)
  {
  }

  /** The body of the inner loop for a model that loaded: extend the shared lists and inject them. */
  method InjectLoadedModel(lists: ModelLists, m: ModelModule) returns (after: ModelLists, more: seq<Injection>)
    ensures (after, more) == InjectModel(lists, m)
  {
    after := lists;
    var vdmInjection: seq<Injection> := [];
    if m.vdmModel.Some? {
      after := after.(vdm := after.vdm + m.vdmModel.value);
      vdmInjection := [AddVdmModel(after.vdm)];
    }
    var mvdmInjection: seq<Injection> := [];
    if m.mvdmModel.Some? {
      after := after.(mvdm := after.mvdm + m.mvdmModel.value);
      mvdmInjection := [AddMvdmModel(after.mvdm)];
    }
    var emulatorInjection: seq<Injection> := [];
    if m.rpcLModel.Some? {
      emulatorInjection := [AddEmulatorModel(m.rpcLModel.value)];
    }
    more := vdmInjection + mvdmInjection + emulatorInjection;
  }

  /** Loads one locker's models as the inner loop of the registration does. */
  method LoadLockerModels(paths: seq<string>, loader: Loader, lists: ModelLists)
    returns (after: ModelLists, injections: Option<seq<Injection>>)
    ensures (after, injections) == LoadModels(paths, loader, lists, [])
  {
    after := lists;
    var done: seq<Injection> := [];
    var i := 0;
    while i < |paths|
      invariant 0 <= i <= |paths|
      invariant LoadModels(paths, loader, lists, []) == LoadModels(paths[i..], loader, after, done)
    {
      var model := loader.loadModel(paths[i]);
      if model.None? {
        assert LoadModels(paths[i..], loader, after, done) == (after, None) by {
          assert paths[i..][0] == paths[i];
        }
        return after, None;
      }
      ghost var before := after;
      var more;
      after, more := InjectLoadedModel(after, model.value);
      assert LoadModels(paths[i..], loader, before, done) == LoadModels(paths[i + 1..], loader, after, done + more) by {
        assert paths[i..][0] == paths[i] && paths[i..][1..] == paths[i + 1..];
        LoadModelsStep(paths[i..], loader, before, done);
      }
      done := done + more;
      i := i + 1;
    }
    injections := Some(done);
  }

  /** `Array.prototype.join` renders a missing element as the empty string. */
  function JoinText(v: Option<string>): (text: string)
  {
    match v
    case Some(s) => s
    case None => ""
  }

  /** A locker's routine path is used when present and non-empty. */
  predicate HasRoutinePath(locker: LockerConfig)
  {
    locker.routinePath.Some? && locker.routinePath.value != ""
  }

  /** The routine paths of the lockers that have one, in configuration order. */
  function RoutinePaths(lockers: seq<LockerConfig>): (paths: seq<string>)
  {
    if lockers == [] then []
    else
      var last := lockers[|lockers| - 1];
      RoutinePaths(lockers[..|lockers| - 1]) + if HasRoutinePath(last) then [last.routinePath.value] else []
  }

  /** The elements joined with `sep` between consecutive ones. */
  function Join(xs: seq<string>, sep: char): (joined: string)
  {
    if xs == [] then ""
    else if |xs| == 1 then xs[0]
    else xs[0] + [sep] + Join(xs[1..], sep)
  }

  /** The pieces of `s` between occurrences of `sep`. */
  function Split(s: string, sep: char): (pieces: seq<string>)
    ensures |pieces| >= 1
  {
    if s == [] then [""]
    else if s[0] == sep then [""] + Split(s[1..], sep)
    else
      var rest := Split(s[1..], sep);
      [[s[0]] + rest[0]] + rest[1..]
  }

  lemma {:induction false} SplitWithoutSeparator(x: string, sep: char)
    requires sep !in x
    ensures Split(x, sep) == [x]
  {
    if x != [] {
      SplitWithoutSeparator(x[1..], sep);
      assert [x[0]] + x[1..] == x;
    }
  }

  lemma {:induction false} SplitAfterPiece(x: string, rest: string, sep: char)
    requires sep !in x
    ensures Split(x + [sep] + rest, sep) == [x] + Split(rest, sep)
  {
    var s := x + [sep] + rest;
    if x == [] {
      assert s[1..] == rest;
    } else {
      assert s[1..] == x[1..] + [sep] + rest;
      SplitAfterPiece(x[1..], rest, sep);
      assert [x[0]] + x[1..] == x;
    }
  }

  /** The pieces of each element in turn: what splitting a joined list yields. */
  function SplitEach(xs: seq<string>, sep: char): (pieces: seq<string>)
  {
    if xs == [] then [] else Split(xs[0], sep) + SplitEach(xs[1..], sep)
  }

  /** A separator between two strings splits them apart, whatever separators they hold themselves. */
  lemma {:induction false} SplitAtSeparator(x: string, rest: string, sep: char)
    ensures Split(x + [sep] + rest, sep) == Split(x, sep) + Split(rest, sep)
  {
    var s := x + [sep] + rest;
    if x == [] {
      assert s[1..] == rest;
    } else {
      assert s[0] == x[0] && s[1..] == x[1..] + [sep] + rest;
      SplitAtSeparator(x[1..], rest, sep);
      if x[0] != sep {
        var head, tail := Split(x[1..], sep), Split(rest, sep);
        assert (head + tail)[0] == head[0] && (head + tail)[1..] == head[1..] + tail;
      }
    }
  }

  /** Splitting a joined list gives the pieces of each element in order, with no condition on the elements. */
  lemma {:induction false} JoinSplitEach(xs: seq<string>, sep: char)
    requires |xs| >= 1
    ensures Split(Join(xs, sep), sep) == SplitEach(xs, sep)
  {
    if |xs| == 1 {
      assert SplitEach(xs[1..], sep) == [];
    } else {
      JoinSplitEach(xs[1..], sep);
      SplitAtSeparator(xs[0], Join(xs[1..], sep), sep);
    }
  }

  /** The entries of a routine path built from two leading paths and further ones. */
  lemma SplitPathElements(inherited: string, vdmPath: string, more: seq<string>)
    ensures var pieces := Split(Join([inherited, vdmPath] + more, ' '), ' ');
      && pieces == Split(inherited, ' ') + Split(vdmPath, ' ') + SplitEach(more, ' ')
      && Split(inherited, ' ') <= pieces
  {
    var xs := [inherited, vdmPath] + more;
    JoinSplitEach(xs, ' ');
    assert xs[1..] == [vdmPath] + more && xs[1..][1..] == more;
  }

  /** Splitting a joined list at the separator gives back the elements, when none contains the separator. */
  lemma {:induction false} JoinSplit(xs: seq<string>, sep: char)
    requires |xs| >= 1
    requires forall k :: 0 <= k < |xs| ==> sep !in xs[k]
    ensures Split(Join(xs, sep), sep) == xs
  {
    if |xs| == 1 {
      SplitWithoutSeparator(xs[0], sep);
    } else {
      JoinSplit(xs[1..], sep);
      SplitAfterPiece(xs[0], Join(xs[1..], sep), sep);
    }
  }

  /**
   * `setGtmRoutinePath`: the current routine path, the VDM path, then each
   * locker's routine path in configuration order, separated by single spaces.
   * The inherited entries stay first and unchanged, followed by the entries
   * of the VDM path and of each locker path; when no element contains a space
   * the path splits back into exactly the elements.
   */
  method SetGtmRoutinePath(envRoutines: Option<string>, vdmPath: string, lockers: seq<LockerConfig>)
    returns (path: string)
    ensures path == Join([JoinText(envRoutines), vdmPath] + RoutinePaths(lockers), ' ')
    ensures (forall k :: 0 <= k < |[JoinText(envRoutines), vdmPath] + RoutinePaths(lockers)| ==>
               ' ' !in ([JoinText(envRoutines), vdmPath] + RoutinePaths(lockers))[k])
            ==> Split(path, ' ') == [JoinText(envRoutines), vdmPath] + RoutinePaths(lockers)
    ensures Split(path, ' ') == Split(JoinText(envRoutines), ' ') + Split(vdmPath, ' ') + SplitEach(RoutinePaths(lockers), ' ')
    ensures Split(JoinText(envRoutines), ' ') <= Split(path, ' ')
  {
    var pathElements := [JoinText(envRoutines), vdmPath];
    for i := 0 to |lockers|
      invariant pathElements == [JoinText(envRoutines), vdmPath] + RoutinePaths(lockers[..i])
    {
      assert lockers[..i + 1][..i] == lockers[..i];
      var locker := lockers[i];
      if HasRoutinePath(locker) {
        pathElements := pathElements + [locker.routinePath.value];
      }
    }
    assert lockers[..|lockers|] == lockers;
    path := Join(pathElements, ' ');
    if forall k :: 0 <= k < |pathElements| ==> ' ' !in pathElements[k] {
      JoinSplit(pathElements, ' ');
    }
    SplitPathElements(JoinText(envRoutines), vdmPath, RoutinePaths(lockers));
  }

  // ---------------------------------------------------------------------------
  // The worker process
  // ---------------------------------------------------------------------------

  /** The worker's module-level state and its output logs. */
  class Worker {
    const env: Collaborators
    var emulating: bool
    var activeContext: Option<string>
    var contexts: set<string>
    var mvdmHandlersSet: bool
    /** Messages passed to `send`, oldest first. */
    var sent: seq<QueueMessage>
    /** Messages passed to `finished`, oldest first. */
    var finished: seq<Finished>
    /** Calls made into collaborators, oldest first. */
    var calls: seq<CollaboratorCall>
    /** The lockers registered with the dispatcher, in precedence order. */
    var emulators: seq<Emulator>
    /** The process's GT.M routine search path (`process.env.gtmroutines`), possibly unset. */
    var gtmroutines: Option<string>

    function State(): (state: WorkerState)
      reads this
    {
      WorkerState(emulating, activeContext, contexts, mvdmHandlersSet, sent, finished, calls)
    }

    constructor (env: Collaborators, envRoutines: Option<string>)
      ensures this.env == env
      ensures State() == WorkerState(false, None, {}, false, [], [], [])
      ensures emulators == [] && gtmroutines == envRoutines
    {
      this.env := env;
      emulating := false;
      activeContext := None;
      contexts := {};
      mvdmHandlersSet := false;
      sent := [];
      finished := [];
      calls := [];
      emulators := [];
      gtmroutines := envRoutines;
    }

    /** Extends the routine path with the VDM and locker paths and starts with an empty context store. */
    method ConnectVistaDatabase(vdmPath: string, lockers: seq<LockerConfig>)
      modifies this`gtmroutines, this`contexts, this`activeContext
      ensures gtmroutines == Some(Join([JoinText(old(gtmroutines)), vdmPath] + RoutinePaths(lockers), ' '))
      ensures contexts == {} && activeContext.None?
    {
      var path := SetGtmRoutinePath(gtmroutines, vdmPath, lockers);
      gtmroutines := Some(path);
      contexts := {};
      activeContext := None;
    }

    /** Creates the dispatcher and registers the configured lockers in order. */
    method CreateDispatcher(lockers: seq<LockerConfig>, loader: Loader)
      modifies this`emulators
      ensures emulators == RegisterAll(lockers, loader, EmptyRegistry).emulators
    {
      emulators := [];
      var lists := ModelLists([], []);
      for i := 0 to |lockers|
        invariant RegisterAll(lockers, loader, EmptyRegistry) == RegisterAll(lockers[i..], loader, Registry(emulators, lists))
      {
        var locker := lockers[i];
        assert lockers[i..][0] == locker && lockers[i..][1..] == lockers[i + 1..];
        var name := LockerName(locker);
        if loader.emulatorLoads(locker.path) {
          var after, injections := LoadLockerModels(locker.models, loader, lists);
          lists := after;
          if injections.Some? {
            emulators := emulators + [Emulator(name, injections.value)];
          }
        }
      }
      assert lockers[|lockers|..] == [];
    }

    /** Installs the seven MVDM listeners and raises the one-shot flag. */
    method SetMvdmHandlers()
      modifies this`calls, this`mvdmHandlersSet
      ensures calls == old(calls) + HandlerInstalls && mvdmHandlersSet
    {
      for k := 0 to |HandlerInstalls|
        invariant calls == old(calls) + HandlerInstalls[..k]
      {
        assert HandlerInstalls[..k + 1] == HandlerInstalls[..k] + [HandlerInstalls[k]];
        calls := calls + [HandlerInstalls[k]];
      }
      assert HandlerInstalls[..|HandlerInstalls|] == HandlerInstalls;
      mvdmHandlersSet := true;
    }

    /** An MVDM event reaches a listener only once they are installed; it is relayed under its event type. */
    method OnMvdmEvent(kind: MvdmEventKind, data: string)
      modifies this`sent
      ensures sent == old(sent) + if mvdmHandlersSet then [EmitMvdmEvent(data, MvdmEventType(kind))] else []
    {
      if mvdmHandlersSet {
        sent := sent + [EmitMvdmEvent(data, MvdmEventType(kind))];
      }
    }

    /** The installed listeners fire, in order, for the MVDM events a locker raised. */
    method RelayRaised(raised: seq<MvdmRaise>)
      modifies this`sent
      ensures sent == old(sent) + if mvdmHandlersSet then Relays(raised) else []
    {
      for k := 0 to |raised|
        invariant sent == old(sent) + if mvdmHandlersSet then Relays(raised[..k]) else []
      {
        assert raised[..k + 1][..k] == raised[..k];
        OnMvdmEvent(raised[k].kind, raised[k].data);
      }
      assert raised[..|raised|] == raised;
    }

    /**
     * `callRPC`: route the call, relay the MVDM events the dispatcher raised
     * (when the listeners are installed), decorate the RPC object and send one
     * audit event.
     */
    method CallRpc(msg: WorkerMessage, freshId: string, now: string) returns (rpcObject: RpcObject, response: string)
      modifies this`sent, this`calls
      ensures var r := CallRpcResult(env, emulating, activeContext, msg, freshId, now);
        && rpcObject == r.rpcObject && response == r.response
        && sent == old(sent) + (if mvdmHandlersSet then r.relayed else []) + [EmitRpcEvent(r.event)]
        && calls == old(calls) + r.calls
    {
      var rpc := env.parse(msg.rpcPacket);
      var to: string;
      var lockerName: Option<string> := None;
      var transactionId: Option<string>;
      var runResult: Option<string> := None;
      if rpc.name in env.unsupported {
        transactionId := Some(freshId);
        response := env.unsupported[rpc.name];
        to := ServerRunner;
      } else {
        calls := calls + [Dispatch(rpc.name, rpc.args)];
        var outcome := env.dispatch(emulating, activeContext, rpc.name, rpc.args);
        RelayRaised(outcome.raised);
        var ret: DispatchResult;
        match outcome {
          case Returned(r, _) =>
            ret := r;
          case Threw(message, errno, _) =>
            ret := DispatchResult(ErrorTag, message, errno, Some(message), Some(ErrorTag));
        }
        to := ret.path;
        response := ret.rpcResponse;
        transactionId := ret.transactionId;
        runResult := ret.result;
        lockerName := ret.lockerName;
      }
      rpcObject := RpcObject(rpc.name, rpc.args, to, lockerName, msg.rpcPacket, response, env.fromName, now);
      calls := calls + [GetUserAndFacility];
      var uf := env.userAndFacility(activeContext);
      var event := RpcCallEvent(
        RpcCallKind, transactionId, msg.ipAddress, now, to, lockerName, runResult, rpc.name, rpcObject,
        rpc.args, response,
        UserRef(UserIdPrefix + JsText(uf.userId), uf.userName),
        FacilityRef(FacilityIdPrefix + JsText(uf.facilityId), uf.facilityName, uf.facilityStationNumber));
      sent := sent + [EmitRpcEvent(event)];
    }

    /** The 'callRPC' branch of the 'message' handler, run once the listeners are installed. */
    method HandleCallRpc(d: Delivery)
      requires mvdmHandlersSet
      modifies this`emulating, this`activeContext, this`contexts, this`sent, this`finished, this`calls
      ensures State() == CallRpcStep(env, old(State()), d)
    {
      var m := d.message;
      emulating := m.isRPCEmulated;
      calls := calls + [SetEmulating(m.isRPCEmulated)];
      activeContext := Some(m.contextId);
      contexts := contexts + {m.contextId};
      calls := calls + [SetContext(m.contextId)];
      var rpcObject, response := CallRpc(m, d.freshId, d.now);
      finished := finished + [RpcResponse(rpcObject, response)];
    }

    /** The 'message' handler. */
    method OnMessage(d: Delivery)
      modifies this`emulating, this`activeContext, this`contexts, this`mvdmHandlersSet
      modifies this`sent, this`finished, this`calls
      ensures State() == Step(env, old(State()), d)
    {
      if !mvdmHandlersSet {
        SetMvdmHandlers();
      }
      var m := d.message;
      if m.methodName == CallRpcMethod {
        HandleCallRpc(d);
      } else if m.methodName == DbReinitMethod {
        calls := calls + [Reinit];
        calls := calls + [ClearAll];
        activeContext := None;
        contexts := {};
        finished := finished + [Acknowledged];
      } else if m.methodName == LockedRpcListMethod {
        calls := calls + [GetEmulatedList];
        finished := finished + [RpcL(env.emulatedRpcs)];
      }
    }
  }
}
