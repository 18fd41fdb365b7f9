/**
 * The MVDM event client: keeps the lists of subscribed WebSockets, broadcasts
 * each MVDM or RPC event to every socket of its list, removes a socket when it
 * closes, and lets the management settings be read and updated.
 *
 * `client.send` is an output sink (`Outbox`); the event payload is an opaque
 * string, and the envelope is kept as a record instead of its JSON text.
 */
module MvdmClient {
  import opened Wrappers

  /** A connected WebSocket, by identity. */
  datatype Socket = Socket(id: nat)

  /** The broadcast message `{type, eventCategory, data}`. */
  datatype Envelope = Envelope(msgType: string, eventCategory: string, data: string)

  /** One `client.send(...)` call. */
  datatype Delivery = Delivery(to: Socket, envelope: Envelope)

  const MvdmCategory := "MVDM"
  const RpcCategory := "RPC"
  const MessagePrefix := "socketMessage_"

  /** The envelope `processEvent` broadcasts for an event of `category`. */
  function EnvelopeFor(category: string, event: string): (envelope: Envelope)
  {
    Envelope(MessagePrefix + category, category, event)
  }

  /** The deliveries of one broadcast: `envelope` sent to each client, in list order. */
  function Broadcast(clients: seq<Socket>, envelope: Envelope): (deliveries: seq<Delivery>)
  {
    if clients == [] then []
    else Broadcast(clients[..|clients| - 1], envelope) + [Delivery(clients[|clients| - 1], envelope)]
  }

  /** The k-th delivery of a broadcast goes to the k-th client, with the same envelope each time. */
  lemma {:induction false} BroadcastInOrder(clients: seq<Socket>, envelope: Envelope)
    ensures |Broadcast(clients, envelope)| == |clients|
    ensures forall k :: 0 <= k < |clients| ==> Broadcast(clients, envelope)[k] == Delivery(clients[k], envelope)
  {
    if clients != [] {
      BroadcastInOrder(clients[..|clients| - 1], envelope);
    }
  }

  /** When no socket is listed twice, each listed socket receives the envelope exactly once, and nobody else does. */
  lemma BroadcastExactlyOnce(clients: seq<Socket>, envelope: Envelope, s: Socket)
    requires forall m, n :: 0 <= m < n < |clients| ==> clients[m] != clients[n]
    ensures var b := Broadcast(clients, envelope);
      s in clients ==>
        exists k :: 0 <= k < |b| && b[k].to == s && (forall k' :: 0 <= k' < |b| && b[k'].to == s ==> k' == k)
    ensures s !in clients ==> forall d :: d in Broadcast(clients, envelope) ==> d.to != s
  {
    BroadcastInOrder(clients, envelope);
  }

  // ---------------------------------------------------------------------------
  // Removing a closed socket
  // ---------------------------------------------------------------------------

  /** The list without the first occurrence of `x` (unchanged when `x` is absent). */
  function RemoveFirst(s: seq<Socket>, x: Socket): (rest: seq<Socket>)
  {
    if s == [] then []
    else if s[0] == x then s[1..]
    else [s[0]] + RemoveFirst(s[1..], x)
  }

  /** When position `i` holds the first `x`, removing the first `x` is the splice at `i`. */
  lemma {:induction false} RemoveFirstAt(s: seq<Socket>, x: Socket, i: nat)
    requires i < |s| && s[i] == x && x !in s[..i]
    ensures RemoveFirst(s, x) == s[..i] + s[i + 1..]
  {
    if i > 0 {
      assert s[0] in s[..i];
      assert s[1..][..i - 1] == s[1..i];
      RemoveFirstAt(s[1..], x, i - 1);
    }
  }

  /** Removing an absent socket changes nothing. */
  lemma {:induction false} RemoveFirstAbsent(s: seq<Socket>, x: Socket)
    requires x !in s
    ensures RemoveFirst(s, x) == s
  {
    if s != [] {
      RemoveFirstAbsent(s[1..], x);
    }
  }

  /** Removal takes away exactly one copy of `x` when present, and nothing else. */
  lemma {:induction false} RemoveFirstMultiset(s: seq<Socket>, x: Socket)
    ensures multiset(RemoveFirst(s, x)) == multiset(s) - multiset{x}
  {
    if s != [] {
      assert s == [s[0]] + s[1..];
      RemoveFirstMultiset(s[1..], x);
    }
  }

  /**
   * The close handler's loop exactly as written: its condition is
   * `clients.length`, not `i < clients.length`, so it stops only on an empty
   * list or on finding `ws`. `fuel` bounds the iterations looked at; `None`
   * means the loop has not stopped within them.
   */
  function CloseScanAsWritten(clients: seq<Socket>, ws: Socket, i: nat, fuel: nat): (outcome: Option<seq<Socket>>)
    decreases fuel
  {
    if |clients| == 0 then Some(clients)
    else if fuel == 0 then None
    else if i < |clients| && clients[i] == ws then Some(clients[..i] + clients[i + 1..])
    else CloseScanAsWritten(clients, ws, i + 1, fuel - 1)
  }

  /** As written, the loop never stops when `ws` is not in a non-empty list. */
  lemma {:induction false} CloseAsWrittenNeverStops(clients: seq<Socket>, ws: Socket, i: nat, fuel: nat)
    requires |clients| > 0 && ws !in clients
    ensures CloseScanAsWritten(clients, ws, i, fuel) == None
    decreases fuel
  {
    if fuel > 0 {
      CloseAsWrittenNeverStops(clients, ws, i + 1, fuel - 1);
    }
  }

  /** The concrete input: closing socket 2 when only socket 1 is listed. */
  lemma CloseAsWrittenCounterexample()
    ensures forall fuel: nat :: CloseScanAsWritten([Socket(1)], Socket(2), 0, fuel) == None
  {
    forall fuel: nat
      ensures CloseScanAsWritten([Socket(1)], Socket(2), 0, fuel) == None
    {
      CloseAsWrittenNeverStops([Socket(1)], Socket(2), 0, fuel);
    }
  }

  /** When `ws` is listed, the loop as written stops within `|clients|` iterations and agrees with the corrected one. */
  lemma {:induction false} CloseAsWrittenAgreesWhenPresent(clients: seq<Socket>, ws: Socket, i: nat, fuel: nat)
    requires i <= |clients| && ws in clients[i..] && ws !in clients[..i]
    requires fuel >= |clients| - i
    ensures CloseScanAsWritten(clients, ws, i, fuel) == Some(RemoveFirst(clients, ws))
    decreases fuel
  {
    if clients[i] == ws {
      RemoveFirstAt(clients, ws, i);
    } else {
      assert clients[..i + 1] == clients[..i] + [clients[i]];
      assert clients[i..] == [clients[i]] + clients[i + 1..];
      CloseAsWrittenAgreesWhenPresent(clients, ws, i + 1, fuel - 1);
    }
  }

  // ---------------------------------------------------------------------------
  // Management settings
  // ---------------------------------------------------------------------------

  /** A JSON value from a request body. */
  datatype JsonValue = JBool(b: bool) | JNumber(n: int) | JString(s: string) | JNull

  /** The two management settings. */
  datatype Settings = Settings(isMvdmEmulated: JsonValue, isNodeOnly: JsonValue)

  const MvdmEmulatedKey := "isMvdmEmulated"
  const NodeOnlyKey := "isNodeOnly"

  /** The settings after a `PUT /management` with `body`: only the keys present are taken over. */
  function ApplySettings(s: Settings, body: map<string, JsonValue>): (updated: Settings)
  {
    Settings(
      if MvdmEmulatedKey in body then body[MvdmEmulatedKey] else s.isMvdmEmulated,
      if NodeOnlyKey in body then body[NodeOnlyKey] else s.isNodeOnly)
  }

  /** Applying the same body twice is the same as applying it once. */
  lemma ApplySettingsIdempotent(s: Settings, body: map<string, JsonValue>)
    ensures ApplySettings(ApplySettings(s, body), body) == ApplySettings(s, body)
  {
  }

  /** Keys other than the two settings have no effect. */
  lemma ApplySettingsIgnoresOtherKeys(s: Settings, body: map<string, JsonValue>, k: string, v: JsonValue)
    requires k != MvdmEmulatedKey && k != NodeOnlyKey
    ensures ApplySettings(s, body[k := v]) == ApplySettings(s, body)
  {
  }

  /** The shared management settings object. */
  class Management {
    var isMvdmEmulated: JsonValue
    var isNodeOnly: JsonValue

    constructor (initial: Settings)
      ensures Current() == initial
    {
      isMvdmEmulated := initial.isMvdmEmulated;
      isNodeOnly := initial.isNodeOnly;
    }

    function Current(): (settings: Settings)
      reads this
    {
      Settings(isMvdmEmulated, isNodeOnly)
    }
  }

  /** `GET /management`: the current settings. */
  method GetManagement(m: Management) returns (s: Settings)
    ensures s == m.Current()
  {
    s := Settings(m.isMvdmEmulated, m.isNodeOnly);
  }

  /** `PUT /management`: 400 and no change without a body; otherwise 200 and each present key updated. */
  method PutManagement(m: Management, body: Option<map<string, JsonValue>>) returns (status: int)
    modifies m
    ensures body.None? ==> status == 400 && m.Current() == old(m.Current())
    ensures body.Some? ==> status == 200 && m.Current() == ApplySettings(old(m.Current()), body.value)
  {
    if body.None? {
      return 400;
    }
    var settings := body.value;
    if MvdmEmulatedKey in settings {
      m.isMvdmEmulated := settings[MvdmEmulatedKey];
    }
    if NodeOnlyKey in settings {
      m.isNodeOnly := settings[NodeOnlyKey];
    }
    return 200;
  }

  // ---------------------------------------------------------------------------
  // Client lists, broadcast and event routing
  // ---------------------------------------------------------------------------

  /** A list of subscribed sockets, shared by the connect and close handlers. */
  class ClientList {
    var sockets: seq<Socket>

    constructor ()
      ensures sockets == []
    {
      sockets := [];
    }

    /** A new connection is appended to the end of the list. */
    method Connect(ws: Socket)
      modifies this
      ensures sockets == old(sockets) + [ws]
    {
      sockets := sockets + [ws];
    }
  }

  /** Everything passed to `client.send`, oldest first. */
  class Outbox {
    var deliveries: seq<Delivery>

    constructor ()
      ensures deliveries == []
    {
      deliveries := [];
    }
  }

  /** `handleSocketClose` with the loop bound `i < clients.length`: the first occurrence of `ws` is removed. */
  method HandleSocketClose(ws: Socket, clients: ClientList)
    modifies clients
    ensures clients.sockets == RemoveFirst(old(clients.sockets), ws)
  {
    var i := 0;
    while i < |clients.sockets|
      invariant 0 <= i <= |clients.sockets|
      invariant clients.sockets == old(clients.sockets)
      invariant ws !in clients.sockets[..i]
    {
      if clients.sockets[i] == ws {
        RemoveFirstAt(clients.sockets, ws, i);
        clients.sockets := clients.sockets[..i] + clients.sockets[i + 1..];
        return;
      }
      assert clients.sockets[..i + 1] == clients.sockets[..i] + [clients.sockets[i]];
      i := i + 1;
    }
    assert clients.sockets[..i] == clients.sockets;
    RemoveFirstAbsent(clients.sockets, ws);
  }

  /** `processEvent`: the envelope for `eventCategory` is sent to every client of the list, in order. */
  method ProcessEvent(clients: ClientList, eventCategory: string, event: string, out: Outbox)
    modifies out
    ensures out.deliveries == old(out.deliveries) + Broadcast(clients.sockets, EnvelopeFor(eventCategory, event))
  {
    var resObj := Envelope(MessagePrefix + eventCategory, eventCategory, event);
    var cs := clients.sockets;
    for i := 0 to |cs|
      invariant out.deliveries == old(out.deliveries) + Broadcast(cs[..i], resObj)
    {
      assert cs[..i + 1][..i] == cs[..i];
      out.deliveries := out.deliveries + [Delivery(cs[i], resObj)];
    }
    assert cs[..|cs|] == cs;
  }

  /** The event types the client listens for on its MVDM list. */
  const MvdmEventTypes: seq<string> :=
    ["mvdmCreate", "mvdmDescribe", "mvdmList", "mvdmUpdate", "mvdmRemove", "mvdmUnremoved", "mvdmDelete"]
  const RpcEventType := "rpcCall"

  datatype Channel = MvdmChannel | RpcChannel

  /** Which list a registered listener forwards an event type to; `None` when nothing listens. */
  function ListenerFor(eventType: string): (listener: Option<Channel>)
  {
    if eventType in MvdmEventTypes then Some(MvdmChannel)
    else if eventType == RpcEventType then Some(RpcChannel)
    else None
  }

  function CategoryOf(channel: Channel): (category: string)
  {
    match channel
    case MvdmChannel => MvdmCategory
    case RpcChannel => RpcCategory
  }

  /** The seven MVDM event types go to the MVDM list as 'MVDM'; 'rpcCall' goes to the RPC list as 'RPC'. */
  lemma EventRouting()
    ensures forall k :: 0 <= k < |MvdmEventTypes| ==> ListenerFor(MvdmEventTypes[k]) == Some(MvdmChannel)
    ensures |MvdmEventTypes| == 7
    ensures ListenerFor(RpcEventType) == Some(RpcChannel)
    ensures CategoryOf(MvdmChannel) == MvdmCategory && CategoryOf(RpcChannel) == RpcCategory
  {
  }

  /** The server state `init` sets up: the two socket lists, the settings and the send sink. */
  class EventServer {
    const mvdmClients: ClientList
    const rpcClients: ClientList
    const management: Management
    const out: Outbox

    ghost predicate Valid()
      reads this
    {
      mvdmClients != rpcClients
    }

    constructor (management: Management, out: Outbox)
      ensures Valid() && fresh(mvdmClients) && fresh(rpcClients)
      ensures mvdmClients.sockets == [] && rpcClients.sockets == []
      ensures this.management == management && this.out == out
    {
      mvdmClients := new ClientList();
      rpcClients := new ClientList();
      this.management := management;
      this.out := out;
    }

    /** The list an event channel broadcasts to. */
    function ListOf(channel: Channel): (list: ClientList)
      reads this
    {
      match channel
      case MvdmChannel => mvdmClients
      case RpcChannel => rpcClients
    }

    /** A socket opened on '/mvdmEvents' (MvdmChannel) or '/rpcEvents' (RpcChannel) joins the end of that list only. */
    method OnConnect(channel: Channel, ws: Socket)
      requires Valid()
      modifies ListOf(channel)
      ensures ListOf(channel).sockets == old(ListOf(channel).sockets) + [ws]
      ensures mvdmClients.sockets == (if channel == MvdmChannel then old(mvdmClients.sockets) + [ws] else old(mvdmClients.sockets))
      ensures rpcClients.sockets == (if channel == RpcChannel then old(rpcClients.sockets) + [ws] else old(rpcClients.sockets))
    {
      ListOf(channel).Connect(ws);
    }

    /** A socket's 'close' event removes it from the list it joined, and from no other. */
    method OnClose(channel: Channel, ws: Socket)
      requires Valid()
      modifies ListOf(channel)
      ensures mvdmClients.sockets == (if channel == MvdmChannel then RemoveFirst(old(mvdmClients.sockets), ws) else old(mvdmClients.sockets))
      ensures rpcClients.sockets == (if channel == RpcChannel then RemoveFirst(old(rpcClients.sockets), ws) else old(rpcClients.sockets))
    {
      HandleSocketClose(ws, ListOf(channel));
    }

    /** An event from the event manager: broadcast to the list listening for its type, or dropped. */
    method OnEvent(eventType: string, event: string)
      requires Valid()
      modifies out
      ensures ListenerFor(eventType).None? ==> out.deliveries == old(out.deliveries)
      ensures ListenerFor(eventType).Some? ==>
        var channel := ListenerFor(eventType).value;
        out.deliveries == old(out.deliveries) + Broadcast(ListOf(channel).sockets, EnvelopeFor(CategoryOf(channel), event))
    {
      match ListenerFor(eventType)
      case Some(channel) => ProcessEvent(ListOf(channel), CategoryOf(channel), event, out);
      case None =>
    }
  }
}
