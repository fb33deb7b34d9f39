/** After one running state report, emptying both queues brings device, client and group to the same version. */
module Convergence {
  import opened Wrappers
  import opened Models
  import opened Crypto
  import opened GroupConfig
  import opened Effects
  import opened Hubs
  import opened Runs
  import opened Frames
  import opened Pipeline

  /** The server handles its oldest message, or the client installs and acknowledges its oldest. */
  datatype Turn = ServerTurn(draw: Draw, now: int) | ClientTurn

  function MoveOf(turn: Turn): Move {
    match turn
    case ServerTurn(draw, now) => Serve(draw, now)
    case ClientTurn => Receive(true, true)
  }

  function Take(env: Env, w: World, d: string, turn: Turn): World {
    WorldStep(env, w, d, MoveOf(turn))
  }

  /** The queue is not empty, and the id of a push that may be made is fresh. */
  predicate CanTake(w: World, turn: Turn) {
    match turn
    case ServerTurn(draw, _) => w.link.Some? && Inbox(w) != [] && draw.push.id !in w.hub.tables.pushes
    case ClientTurn => w.link.Some? && Outbox(w) != []
  }

  predicate NoGoodbye(ms: seq<ClientMessage>) {
    forall k :: 0 <= k < |ms| ==> !ms[k].Disconnect?
  }

  /** The session is up and registered, no goodbye is on its way, and the group's configuration can be read. */
  ghost predicate Live(env: Env, w: World, d: string, g: string) {
    && w.link.Some? && w.link.value.open
    && d in w.hub.clients
    && NoGoodbye(Inbox(w))
    && g in w.hub.tables.groups && !ReadConfig(env, g, w.hub.tables.groups[g].sealed).Unreadable?
  }

  /** The message will put the version on record, or make the server push it. */
  predicate Promises(m: ClientMessage, v: int) {
    match m
    case ConfigAck(a) => a == v
    case ConfigState(_, _, _, _, running) => running
    case _ => false
  }

  /** The group's version is on record, or something on its way will bring it there. */
  ghost predicate Owed(w: World, d: string, g: string)
    requires InGroup(w.hub.tables, d, g)
  {
    var v := GroupVersion(w.hub.tables, g);
    || DeviceVersion(w.hub.tables, d) == v
    || v in InFlight(Outbox(w))
    || exists k :: 0 <= k < |Inbox(w)| && Promises(Inbox(w)[k], v)
  }

  function Weight(m: ClientMessage): nat {
    if m.ConfigState? then 3 else 1
  }

  function Weights(ms: seq<ClientMessage>): nat {
    if ms == [] then 0 else Weight(ms[0]) + Weights(ms[1..])
  }

  /** How many turns can be left at most. */
  function Measure(w: World): nat {
    Weights(Inbox(w)) + 2 * |Outbox(w)|
  }

  lemma {:induction false} WeightsAppend(ms: seq<ClientMessage>, m: ClientMessage)
    ensures Weights(ms + [m]) == Weights(ms) + Weight(m)
    decreases |ms|
  {
    if ms == [] {
      assert [m][1..] == [];
    } else {
      assert (ms + [m])[1..] == ms[1..] + [m];
      WeightsAppend(ms[1..], m);
    }
  }

  // ---------------------------------------------------------------- the two tests for a push

  /** On chain states where the report is what is on record, the test of a reconnect and of a report agree. */
  lemma TestsAgree(env: Env, w: World, d: string, g: string, reported: nat, seed: PushSeed, now: int)
    requires Chain(w, d, g) && reported == DeviceVersion(w.hub.tables, d)
    ensures PushIfBehind(env, w.hub, d, seed, now) == PushIfDiffers(env, w.hub, d, reported, seed, now)
  {
    EffectiveVersion(env, w.hub.tables, d, g, None);
    ChainBounds(w, d, g);
    hide DeviceConfig, PushConfig, Chain;
  }

  lemma ChainBounds(w: World, d: string, g: string)
    requires Chain(w, d, g)
    ensures 0 <= DeviceVersion(w.hub.tables, d) <= w.installed <= GroupVersion(w.hub.tables, g) < U32
  {
    BetweenBounds(DeviceVersion(w.hub.tables, d), Reported(Inbox(w)), w.installed);
    BetweenBounds(w.installed, InFlight(Outbox(w)), GroupVersion(w.hub.tables, g));
  }

  // ---------------------------------------------------------------- a push to the live session

  /** A push to a registered device with a readable group is queued with the group's version. */
  lemma PushIsQueued(env: Env, h: Hub, d: string, g: string, session: nat, seed: PushSeed, now: int)
    requires InGroup(h.tables, d, g) && d in h.clients && h.clients[d] == session && session in h.outbound
    requires !ReadConfig(env, g, h.tables.groups[g].sealed).Unreadable? && seed.id !in h.tables.pushes
    ensures var h' := PushConfig(env, h, d, None, seed, now).0;
            && session in h'.outbound && |h'.outbound[session]| == |h.outbound[session]| + 1
            && InFlight(h'.outbound[session]) == InFlight(h.outbound[session]) + [GroupVersion(h.tables, g)]
  {
    var e := DeviceConfig(env, h.tables, d, None);
    assert e.Effective? by { hide Overlay, ReadConfig; }
    EffectiveVersion(env, h.tables, d, g, None);
    hide DeviceConfig, SealPayload;
    var message := PushMessage(env, h.tables, d, e, seed);
    assert message.ConfigPush? && message.version as int == GroupVersion(h.tables, g);
    var row := PushRow(env, h.tables, d, e, seed, now);
    assert PushConfig(env, h, d, None, seed, now) == Deliver(h, d, seed.id, row, message);
    hide PushConfig, PushMessage, PushRow;
    assert Deliver(h, d, seed.id, row, message).0.outbound[session] == h.outbound[session] + [message];
    InFlightAppend(h.outbound[session], [message]);
    assert InFlight([message]) == [message.version as int];
  }

  /** What a state report does to the live session: nothing when the report is current, and otherwise one push. */
  lemma ReportPushes(env: Env, h: Hub, d: string, g: string, session: nat, reported: nat, seed: PushSeed, now: int)
    requires InGroup(h.tables, d, g) && d in h.clients && h.clients[d] == session && session in h.outbound
    requires !ReadConfig(env, g, h.tables.groups[g].sealed).Unreadable? && seed.id !in h.tables.pushes
    ensures var h' := PushIfDiffers(env, h, d, reported, seed, now);
            && session in h'.outbound
            && (reported == GroupVersion(h.tables, g) ==> h' == h)
            && (reported != GroupVersion(h.tables, g) ==>
                  && |h'.outbound[session]| == |h.outbound[session]| + 1
                  && InFlight(h'.outbound[session]) == InFlight(h.outbound[session]) + [GroupVersion(h.tables, g)])
  {
    assert DeviceConfig(env, h.tables, d, None).Effective? by { hide Overlay, ReadConfig; }
    EffectiveVersion(env, h.tables, d, g, None);
    PushIsQueued(env, h, d, g, session, seed, now);
    hide DeviceConfig, PushConfig, ReadConfig;
  }

  // ---------------------------------------------------------------- one turn

  /** The device is in the group, and the session, when there is one, is its own and has a queue. */
  ghost predicate Attached(w: World, d: string, g: string) {
    && InGroup(w.hub.tables, d, g) && Owns(w.hub, d, SessionOf(w))
    && (w.link.Some? ==> w.link.value.session in w.hub.outbound)
  }

  lemma ChainIsAttached(w: World, d: string, g: string)
    requires Chain(w, d, g)
    ensures Attached(w, d, g)
  {
  }

  /** The server's turn on a state report. */
  lemma ServeState(env: Env, w: World, d: string, g: string, draw: Draw, now: int)
    requires Attached(w, d, g) && Live(env, w, d, g) && CanTake(w, ServerTurn(draw, now)) && Inbox(w)[0].ConfigState?
    ensures var m := Inbox(w)[0];
            var w' := Take(env, w, d, ServerTurn(draw, now));
            var v := GroupVersion(w.hub.tables, g);
            && w'.hub.clients == w.hub.clients && w'.hub.tables.groups == w.hub.tables.groups
            && (m.configVersion == v ==> Outbox(w') == Outbox(w))
            && (m.configVersion != v ==>
                  |Outbox(w')| == |Outbox(w)| + 1 && InFlight(Outbox(w')) == InFlight(Outbox(w)) + [v])
  {
    var m := Inbox(w)[0];
    var h := w.hub;
    var recorded := if m.running then EditRow(h.tables, d, Recorded(m.configVersion, now)) else h.tables;
    var h' := h.(tables := recorded);
    assert h.clients - {} == h.clients;
    OwnEdit(h, d, Recorded(m.configVersion, now), {}, g, w.link.value.session);
    assert recorded.pushes == h.tables.pushes && recorded.groups == h.tables.groups;
    hide EditRow, PushIfDiffers;
    var h'' := HandleMessage(env, h, d, m, draw, now);
    assert h'' == PushIfDiffers(env, h', d, m.configVersion, draw.push, now);
    assert Take(env, w, d, ServerTurn(draw, now)).hub == h'';
    hide HandleMessage, Take;
    ReportPushes(env, h', d, g, w.link.value.session, m.configVersion, draw.push, now);
    PushIfQuiet(env, h', d, m.configVersion, draw.push, now);
  }

  /** A report of an event changes rows only. */
  lemma EventFrame(env: Env, h: Hub, d: string, m: ClientMessage, draw: Draw, now: int)
    requires m.EventReport?
    ensures var h' := HandleMessage(env, h, d, m, draw, now); h'.clients == h.clients && h'.outbound == h.outbound
  {
    hide ReportEvent;
  }

  /** So does an acknowledgement. */
  lemma AckFrame(env: Env, h: Hub, d: string, version: nat, draw: Draw, now: int)
    ensures var h' := HandleMessage(env, h, d, ConfigAck(version), draw, now);
            h'.clients == h.clients && h'.outbound == h.outbound
  {
    hide MarkAcked, EditRow;
  }

  /** And a heartbeat or a traffic report, and a second hello changes nothing. */
  lemma RowFrame(env: Env, h: Hub, d: string, m: ClientMessage, draw: Draw, now: int)
    requires m.Heartbeat? || m.TrafficStats? || m.Hello?
    ensures var h' := HandleMessage(env, h, d, m, draw, now); h'.clients == h.clients && h'.outbound == h.outbound
  {
    hide EditRow;
  }

  /** A message other than a state report or a goodbye leaves registrations, queues and groups alone. */
  lemma OtherFrame(env: Env, h: Hub, d: string, m: ClientMessage, draw: Draw, now: int)
    requires !m.ConfigState? && !m.Disconnect?
    ensures var h' := HandleMessage(env, h, d, m, draw, now);
            h'.clients == h.clients && h'.outbound == h.outbound && h'.tables.groups == h.tables.groups
  {
    OtherMessagesQuiet(env, h, d, m, draw, now);
    hide HandleMessage;
    match m
    case EventReport(_, _, _, _) => EventFrame(env, h, d, m, draw, now);
    case ConfigAck(version) => AckFrame(env, h, d, version, draw, now);
    case Heartbeat => RowFrame(env, h, d, m, draw, now);
    case TrafficStats(_, _) => RowFrame(env, h, d, m, draw, now);
    case Hello(_, _, _, _, _, _) => RowFrame(env, h, d, m, draw, now);
  }

  /** What a server turn does to the world around the hub. */
  lemma ServedWorld(env: Env, w: World, d: string, draw: Draw, now: int)
    requires w.link.Some? && Inbox(w) != []
    ensures var w' := Take(env, w, d, ServerTurn(draw, now));
            && w'.hub == HandleMessage(env, w.hub, d, Inbox(w)[0], draw, now)
            && w'.link == Some(w.link.value.(inbox := Inbox(w)[1..])) && w'.installed == w.installed
  {
    hide HandleMessage;
  }

  /** The server's turn on any other message but a goodbye. */
  lemma ServeOther(env: Env, w: World, d: string, g: string, draw: Draw, now: int)
    requires Live(env, w, d, g) && CanTake(w, ServerTurn(draw, now)) && !Inbox(w)[0].ConfigState?
    ensures var w' := Take(env, w, d, ServerTurn(draw, now));
            && w'.hub.clients == w.hub.clients && w'.hub.tables.groups == w.hub.tables.groups
            && Outbox(w') == Outbox(w)
  {
    hide HandleMessage, Take, ReadConfig;
    ServedWorld(env, w, d, draw, now);
    OtherFrame(env, w.hub, d, Inbox(w)[0], draw, now);
  }

  lemma MeasureServe(env: Env, w: World, d: string, g: string, draw: Draw, now: int)
    requires Chain(w, d, g) && Live(env, w, d, g) && CanTake(w, ServerTurn(draw, now))
    ensures var w' := Take(env, w, d, ServerTurn(draw, now));
            Measure(w') < Measure(w) && Live(env, w', d, g)
  {
    hide HandleMessage, Take, ReadConfig, Chain;
    ServedWorld(env, w, d, draw, now);
    if Inbox(w)[0].ConfigState? {
      ChainIsAttached(w, d, g);
      ServeState(env, w, d, g, draw, now);
    } else {
      ServeOther(env, w, d, g, draw, now);
    }
  }

  lemma OwedServe(env: Env, w: World, d: string, g: string, draw: Draw, now: int)
    requires Chain(w, d, g) && Live(env, w, d, g) && CanTake(w, ServerTurn(draw, now)) && Owed(w, d, g)
    ensures var w' := Take(env, w, d, ServerTurn(draw, now));
            Chain(w', d, g) && GroupVersion(w'.hub.tables, g) == GroupVersion(w.hub.tables, g) && Owed(w', d, g)
  {
    var w' := Take(env, w, d, ServerTurn(draw, now));
    var m, v := Inbox(w)[0], GroupVersion(w.hub.tables, g);
    ServeKeepsChain(env, w, d, g, draw, now);
    ServeRecords(env, w, d, g, draw, now);
    if m.ConfigState? {
      ChainIsAttached(w, d, g);
      ServeState(env, w, d, g, draw, now);
    } else {
      ServeOther(env, w, d, g, draw, now);
    }
    hide Take, ReadConfig;
    ChainBounds(w', d, g);
    hide Chain;
    if v in InFlight(Outbox(w)) {
      assert v in InFlight(Outbox(w'));
    } else if k :| 0 <= k < |Inbox(w)| && Promises(Inbox(w)[k], v) {
      if k > 0 {
        assert Inbox(w')[k - 1] == Inbox(w)[k];
      }
    }
  }

  lemma ServeRecords(env: Env, w: World, d: string, g: string, draw: Draw, now: int)
    requires Chain(w, d, g) && Inbox(w) != []
    ensures var w' := Take(env, w, d, ServerTurn(draw, now));
            && Inbox(w') == Inbox(w)[1..]
            && d in w'.hub.tables.devices
            && DeviceVersion(w'.hub.tables, d) == RecordedBy(Inbox(w)[0], DeviceVersion(w.hub.tables, d))
            && w'.hub.tables.groups == w.hub.tables.groups
  {
    OwnMessage(env, w.hub, d, Inbox(w)[0], draw, now, g, w.link.value.session);
    hide HandleMessage;
  }

  lemma ReceiveTurn(env: Env, w: World, d: string, g: string)
    requires Chain(w, d, g) && Live(env, w, d, g) && CanTake(w, ClientTurn)
    ensures var w' := Take(env, w, d, ClientTurn);
            && Chain(w', d, g) && Live(env, w', d, g) && w'.hub.tables == w.hub.tables
            && Measure(w') < Measure(w)
            && (Owed(w, d, g) ==> Owed(w', d, g))
  {
    var w' := Take(env, w, d, ClientTurn);
    var queue, v := Outbox(w), GroupVersion(w.hub.tables, g);
    ReceiveKeepsChain(w, d, g, true, true);
    hide ReadConfig, Chain;
    assert Outbox(w') == queue[1..] && w'.hub.tables == w.hub.tables;
    assert queue == [queue[0]] + queue[1..];
    InFlightAppend([queue[0]], queue[1..]);
    if queue[0].ConfigPush? {
      var ack := ConfigAck(queue[0].version);
      assert Inbox(w') == Inbox(w) + [ack];
      assert InFlight([queue[0]]) == [queue[0].version as int];
      WeightsAppend(Inbox(w), ack);
      hide Take;
      if Owed(w, d, g) {
        if v in InFlight(queue) && queue[0].version == v {
          assert Promises(Inbox(w')[|Inbox(w)|], v);
        } else if k :| 0 <= k < |Inbox(w)| && Promises(Inbox(w)[k], v) {
          assert Inbox(w')[k] == Inbox(w)[k];
        }
      }
    } else {
      assert InFlight([queue[0]]) == [];
      assert Inbox(w') == Inbox(w);
    }
  }

  // ---------------------------------------------------------------- draining

  function Drain(env: Env, w: World, d: string, turns: seq<Turn>): World
    decreases |turns|
  {
    if turns == [] then w else Drain(env, Take(env, w, d, turns[0]), d, turns[1..])
  }

  predicate CanDrain(env: Env, w: World, d: string, turns: seq<Turn>)
    decreases |turns|
  {
    turns == [] || (CanTake(w, turns[0]) && CanDrain(env, Take(env, w, d, turns[0]), d, turns[1..]))
  }

  predicate Drained(w: World) {
    Inbox(w) == [] && Outbox(w) == []
  }

  /** Every schedule of turns ends within the measure, and keeps the chain and what is owed. */
  lemma {:induction false} DrainTerminates(env: Env, w: World, d: string, g: string, turns: seq<Turn>)
    requires Chain(w, d, g) && Live(env, w, d, g) && Owed(w, d, g) && CanDrain(env, w, d, turns)
    ensures |turns| <= Measure(w)
    ensures var w' := Drain(env, w, d, turns);
            && Chain(w', d, g) && Live(env, w', d, g) && Owed(w', d, g)
            && GroupVersion(w'.hub.tables, g) == GroupVersion(w.hub.tables, g)
    decreases |turns|
  {
    hide Chain, Live, Owed, Take, Measure, CanTake;
    if turns == [] {
      assert Chain(w, d, g);
    } else {
      TurnKeeps(env, w, d, g, turns[0]);
      DrainTerminates(env, Take(env, w, d, turns[0]), d, g, turns[1..]);
    }
  }

  lemma TurnKeeps(env: Env, w: World, d: string, g: string, turn: Turn)
    requires Chain(w, d, g) && Live(env, w, d, g) && Owed(w, d, g) && CanTake(w, turn)
    ensures var w' := Take(env, w, d, turn);
            && Chain(w', d, g) && Live(env, w', d, g) && Owed(w', d, g)
            && GroupVersion(w'.hub.tables, g) == GroupVersion(w.hub.tables, g)
            && Measure(w') < Measure(w)
  {
    hide Chain, Live, Owed, Take, Measure;
    match turn
    case ServerTurn(draw, now) =>
      MeasureServe(env, w, d, g, draw, now);
      OwedServe(env, w, d, g, draw, now);
    case ClientTurn =>
      ReceiveTurn(env, w, d, g);
  }

  /** While a queue is not empty some turn can be taken, whatever fresh values the server draws. */
  lemma DrainNeverStalls(env: Env, w: World, d: string, g: string, draw: Draw, now: int)
    requires Live(env, w, d, g) && draw.push.id !in w.hub.tables.pushes && !Drained(w)
    ensures CanTake(w, ServerTurn(draw, now)) || CanTake(w, ClientTurn)
  {
  }

  /** Once both queues are empty nothing is owed: all three versions agree. */
  lemma DrainedAgrees(w: World, d: string, g: string)
    requires Chain(w, d, g) && Owed(w, d, g) && Drained(w)
    ensures DeviceVersion(w.hub.tables, d) == w.installed == GroupVersion(w.hub.tables, g)
  {
    ChainBounds(w, d, g);
  }

  /** A running state report on its way owes the group's version to the record. */
  lemma ReportOwes(env: Env, w: World, d: string, g: string, m: ClientMessage)
    requires Chain(w, d, g) && Live(env, w, d, g)
    requires m.ConfigState? && m.running && m.configVersion == w.installed
    ensures var w' := WorldStep(env, w, d, Send(m));
            && w'.hub == w.hub && Chain(w', d, g) && Live(env, w', d, g) && Owed(w', d, g)
            && Measure(w') == Measure(w) + 3
  {
    var w' := WorldStep(env, w, d, Send(m));
    SendKeepsChain(env, w, d, g, m);
    hide Chain, ReadConfig;
    assert Inbox(w') == Inbox(w) + [m] && Outbox(w') == Outbox(w) && w'.hub == w.hub;
    WeightsAppend(Inbox(w), m);
    ChainParts(w, d, g);
    assert Promises(Inbox(w')[|Inbox(w)|], GroupVersion(w.hub.tables, g));
  }

  /** Convergence: report the running state, empty both queues in any order, and every version is the group's. */
  lemma ReportConverges(env: Env, w: World, d: string, g: string, m: ClientMessage, turns: seq<Turn>)
    requires Chain(w, d, g) && Live(env, w, d, g)
    requires m.ConfigState? && m.running && m.configVersion == w.installed
    requires var w' := WorldStep(env, w, d, Send(m)); CanDrain(env, w', d, turns) && Drained(Drain(env, w', d, turns))
    ensures var end := Drain(env, WorldStep(env, w, d, Send(m)), d, turns);
            && InGroup(end.hub.tables, d, g)
            && DeviceVersion(end.hub.tables, d) == end.installed == GroupVersion(end.hub.tables, g)
               == GroupVersion(w.hub.tables, g)
    ensures |turns| <= Measure(w) + 3
  {
    hide Chain, Live, Owed, Measure, WorldStep, Drain, CanDrain, Drained;
    var w' := WorldStep(env, w, d, Send(m));
    ReportOwes(env, w, d, g, m);
    DrainTerminates(env, w', d, g, turns);
    ChainParts(Drain(env, w', d, turns), d, g);
    DrainedAgrees(Drain(env, w', d, turns), d, g);
  }
}
