/** How the chain of versions starts, and how a device whose group is behind it comes back to it. */
module Arrivals {
  import opened Wrappers
  import opened Models
  import opened Crypto
  import opened GroupConfig
  import opened Schema
  import opened Effects
  import opened Hubs
  import opened Runs
  import opened Frames
  import opened Invariants
  import opened Pipeline
  import opened Convergence
  import opened Adoption

  // ---------------------------------------------------------------- the first report

  /** The device is registered on its own session, which has no push on its way. */
  ghost predicate Greeted(h: Hub, d: string, session: nat) {
    && Owns(h, d, session) && d in h.clients && session in h.outbound
    && InFlight(h.outbound[session]) == []
  }

  /** The first report of a device that no group waits for puts it on a chain: its report becomes its group. */
  lemma AdoptionStartsChain(env: Env, h: Hub, d: string, session: nat, m: ClientMessage, draw: Draw, now: int)
    requires Closed(h.tables) && Greeted(h, d, session) && draw.id !in h.tables.groups
    requires m.ConfigState? && m.configVersion < U32
    requires d in h.tables.devices && !HasGroup(h.tables, d) && !Joinable(h.tables, d, m.groupId)
    ensures var w := World(h, Some(Link(session, true, [m])), m.configVersion);
            var w' := WorldStep(env, w, d, Serve(draw, now));
            && Chain(w', d, draw.id) && DeviceVersion(w'.hub.tables, d) == m.configVersion
            && Inbox(w') == [] && InFlight(Outbox(w')) == []
  {
    hide Closed, SyncReported, Joinable;
    AdoptedInGroup(env, h, d, m.configVersion, m.groupId, m.configName, m.config, m.running, draw, now);
    var w := World(h, Some(Link(session, true, [m])), m.configVersion);
    var w' := WorldStep(env, w, d, Serve(draw, now));
    assert w'.hub == SyncReported(env, h, d, m.configVersion, m.groupId, m.configName, m.config, m.running, draw, now);
    hide WorldStep, HandleMessage;
  }

  lemma AdoptedInGroup(env: Env, h: Hub, d: string, version: nat, groupId: Option<string>, name: Option<string>,
                       config: ClientConfig, running: bool, draw: Draw, now: int)
    requires Closed(h.tables) && draw.id !in h.tables.groups && version < U32
    requires d in h.tables.devices && !HasGroup(h.tables, d) && !Joinable(h.tables, d, groupId)
    ensures var s := SyncReported(env, h, d, version, groupId, name, config, running, draw, now);
            && s.clients == h.clients && s.outbound == h.outbound
            && InGroup(s.tables, d, draw.id)
            && s.tables.devices[d].configVersion == version <= s.tables.groups[draw.id].configVersion
  {
    ReportIsAdopted(env, h, d, version, groupId, name, config, running, draw, now);
    hide Closed, SyncReported, SealConfig, AdoptedName, Joinable;
  }

  /** A user registers, makes a room, and a new device says hello. */
  function FirstActions(user: string, name: string, password: string, room: string, hello: ClientMessage, ip: string,
                        session: nat, d: string, token: string, seed: PushSeed, now: int): seq<Action>
  {
    [Console(Edit.Register(user, name, password, now)), Console(Edit.CreateRoom(room, user, name, now)),
     Action.Connect(hello, ip, session, d, token, seed, now)]
  }

  predicate IsFirstHello(hello: ClientMessage, room: string) {
    hello.Hello? && hello.protocolVersion == 1 && hello.roomId == room
        && (hello.deviceId.None? || hello.deviceToken.None?)
  }

  /** Where these three actions lead. */
  lemma FirstActionsLead(env: Env, user: string, name: string, password: string, room: string, hello: ClientMessage,
                         ip: string, session: nat, d: string, token: string, seed: PushSeed, now: int)
    requires IsFirstHello(hello, room)
    ensures var h := Run(env, START, FirstActions(user, name, password, room, hello, ip, session, d, token, seed, now));
            && Closed(h.tables) && h.tables.groups == map[]
            && h.tables.devices.Keys == {d} && h.tables.devices[d].groupId.None?
            && h.clients == map[d := session] && h.outbound == map[session := [HelloAck(d, Some(token), PENDING)]]
  {
    hide Run, Step, Closed, TwoRows, Hubs.Connect;
    var actions := FirstActions(user, name, password, room, hello, ip, session, d, token, seed, now);
    RunKeepsClosed(env, START, actions);
    ThreeSteps(env, START, actions[0], actions[1], actions[2]);
    FirstRows(env, user, name, password, room, now);
    ThenHello(env, user, name, password, room, hello, ip, session, d, token, seed, now);
  }

  lemma ThenHello(env: Env, user: string, name: string, password: string, room: string, hello: ClientMessage,
                  ip: string, session: nat, d: string, token: string, seed: PushSeed, now: int)
    requires IsFirstHello(hello, room)
    ensures var h := Step(env, START.(tables := TwoRows(user, name, password, room, now)),
                          Action.Connect(hello, ip, session, d, token, seed, now));
            && h.tables.groups == map[]
            && h.tables.devices.Keys == {d} && h.tables.devices[d].groupId.None?
            && h.clients == map[d := session] && h.outbound == map[session := [HelloAck(d, Some(token), PENDING)]]
  {
    FirstHello(env, START.(tables := TwoRows(user, name, password, room, now)), room, hello, ip, session, d,
               token, seed, now);
    hide Hubs.Connect;
  }

  lemma ThreeSteps(env: Env, h: Hub, a: Action, b: Action, c: Action)
    ensures Run(env, h, [a, b, c]) == Step(env, Step(env, Step(env, h, a), b), c)
  {
    hide Step;
    RunStarts(env, h, a, [b, c]);
    RunStarts(env, Step(env, h, a), b, [c]);
    assert [a] + [b, c] == [a, b, c] && [b] + [c] == [b, c];
    assert [c][1..] == [];
  }

  function TwoRows(user: string, name: string, password: string, room: string, now: int): Tables {
    EMPTY.(users := map[user := User(name, password, "user", now)], rooms := map[room := Room(name, user, now)])
  }

  lemma FirstRows(env: Env, user: string, name: string, password: string, room: string, now: int)
    ensures Step(env, Step(env, START, Console(Edit.Register(user, name, password, now))),
                 Console(Edit.CreateRoom(room, user, name, now)))
            == START.(tables := TwoRows(user, name, password, room, now))
  {
    var t := EMPTY.(users := map[user := User(name, password, "user", now)]);
    assert Apply(env, EMPTY, Edit.Register(user, name, password, now)) == Some(t);
    assert Apply(env, t, Edit.CreateRoom(room, user, name, now)) == Some(TwoRows(user, name, password, room, now));
    hide Apply;
  }

  lemma FirstHello(env: Env, h: Hub, room: string, hello: ClientMessage, ip: string, session: nat, d: string,
                   token: string, seed: PushSeed, now: int)
    requires IsFirstHello(hello, room) && room in h.tables.rooms
    requires h.tables.devices == map[] && h.clients == map[] && h.outbound == map[]
    ensures var h' := Hubs.Connect(env, h, hello, ip, session, d, token, seed, now).hub;
            && h'.tables.groups == h.tables.groups
            && h'.tables.devices.Keys == {d} && h'.tables.devices[d].groupId.None?
            && h'.clients == map[d := session] && h'.outbound == map[session := [HelloAck(d, Some(token), PENDING)]]
  {
    hide DeviceConfig, PushConfig;
    StatusesDiffer();
    var r := UpsertDeviceHello(h.tables, room, hello.deviceId, hello.deviceToken, hello.deviceName, hello.clientVersion,
                               Some(ip), d, token, now);
    assert r.Admitted? && r.id == d && r.status == PENDING && r.newToken == Some(token);
    assert r.tables.groups == h.tables.groups && r.tables.devices[d].groupId.None? && r.tables.devices.Keys == {d};
    hide UpsertDeviceHello;
    var registered := Hub(r.tables, map[d := session], map[session := [HelloAck(d, Some(token), PENDING)]]);
    assert PushIfBehind(env, registered, d, seed, now) == registered;
  }

  /** The chain is reached from the empty database: whatever a new device reports first, it is on a chain afterwards. */
  lemma ChainIsReached(env: Env, user: string, name: string, password: string, room: string, hello: ClientMessage,
                       ip: string, session: nat, d: string, token: string, seed: PushSeed, now: int,
                       m: ClientMessage, draw: Draw, later: int)
    requires IsFirstHello(hello, room) && m.ConfigState? && m.configVersion < U32
    ensures var h := Run(env, START, FirstActions(user, name, password, room, hello, ip, session, d, token, seed, now));
            var w := World(h, Some(Link(session, true, [m])), m.configVersion);
            Chain(WorldStep(env, w, d, Serve(draw, later)), d, draw.id)
  {
    FirstActionsLead(env, user, name, password, room, hello, ip, session, d, token, seed, now);
    hide Run, Closed, WorldStep, Chain;
    var h := Run(env, START, FirstActions(user, name, password, room, hello, ip, session, d, token, seed, now));
    var queue := [HelloAck(d, Some(token), PENDING)];
    assert InFlight(queue) == [] by { assert queue[1..] == []; }
    AdoptionStartsChain(env, h, d, session, m, draw, later);
  }

  // ---------------------------------------------------------------- a group behind its device

  /**
   * The reconnect's `>` and the report's `!=` decide the same for a report of the recorded version exactly when that
   * version is at most the group's. A device moved to a group of lower version is off the chain: a reconnect leaves it
   * alone, and only a report makes the server push.
   */
  lemma TestsAgreeIff(env: Env, w: World, d: string, g: string, reported: nat, seed: PushSeed, now: int)
    requires InGroup(w.hub.tables, d, g) && reported == DeviceVersion(w.hub.tables, d)
    requires !ReadConfig(env, g, w.hub.tables.groups[g].sealed).Unreadable? && seed.id !in w.hub.tables.pushes
    ensures PushIfBehind(env, w.hub, d, seed, now) == PushIfDiffers(env, w.hub, d, reported, seed, now)
            <==> reported <= GroupVersion(w.hub.tables, g)
    ensures reported > GroupVersion(w.hub.tables, g) ==>
              && !Chain(w, d, g)
              && PushIfBehind(env, w.hub, d, seed, now) == w.hub
              && PushIfDiffers(env, w.hub, d, reported, seed, now).tables.pushes.Keys
                 == w.hub.tables.pushes.Keys + {seed.id}
  {
    if Chain(w, d, g) { ChainBounds(w, d, g); }
    var e := DeviceConfig(env, w.hub.tables, d, None);
    assert e.Effective? by { hide Overlay, ReadConfig; }
    EffectiveVersion(env, w.hub.tables, d, g, None);
    hide DeviceConfig, ReadConfig, Chain;
    PushRecords(env, w.hub, d, e, seed, now);
    hide PushEffective;
  }

  /**
   * Recovery: with both queues empty and the device in a group of any version, one running report brings the world
   * back onto the chain with all three versions equal, in at most three further turns.
   */
  lemma ReportRestoresChain(env: Env, w: World, d: string, g: string, m: ClientMessage, first: Draw, second: Draw,
                            now: int)
    requires Attached(w, d, g) && Live(env, w, d, g) && Inbox(w) == [] && Outbox(w) == []
    requires m.ConfigState? && m.running && m.configVersion == w.installed && first.push.id !in w.hub.tables.pushes
    ensures var w1 := WorldStep(env, WorldStep(env, w, d, Send(m)), d, Serve(first, now));
            var w3 := WorldStep(env, WorldStep(env, w1, d, Receive(true, true)), d, Serve(second, now));
            var v := GroupVersion(w.hub.tables, g);
            && (w.installed == v ==> Chain(w1, d, g) && DeviceVersion(w1.hub.tables, d) == w1.installed == v)
            && (w.installed != v ==> Chain(w3, d, g) && DeviceVersion(w3.hub.tables, d) == w3.installed == v)
  {
    var v := GroupVersion(w.hub.tables, g);
    var w0 := WorldStep(env, w, d, Send(m));
    assert Inbox(w0) == [m] && w0.hub == w.hub;
    Reports(env, w0, d, g, first, now);
    var w1 := WorldStep(env, w0, d, Serve(first, now));
    if w.installed != v {
      var w2 := WorldStep(env, w1, d, Receive(true, true));
      Installs(env, w1, d, g, v);
      Acknowledges(env, w2, d, g, second, now);
    }
  }

  /** The server's turn on the only report. */
  lemma Reports(env: Env, w: World, d: string, g: string, draw: Draw, now: int)
    requires Attached(w, d, g) && Live(env, w, d, g) && |Inbox(w)| == 1 && Outbox(w) == []
    requires Inbox(w)[0].ConfigState? && Inbox(w)[0].running && Inbox(w)[0].configVersion == w.installed
    requires draw.push.id !in w.hub.tables.pushes
    ensures var w' := WorldStep(env, w, d, Serve(draw, now));
            var v := GroupVersion(w.hub.tables, g);
            && Attached(w', d, g) && GroupVersion(w'.hub.tables, g) == v
            && w'.link.Some? && Inbox(w') == [] && w'.installed == w.installed
            && (w.installed == v ==> Chain(w', d, g) && DeviceVersion(w'.hub.tables, d) == v)
            && (w.installed != v ==> |Outbox(w')| == 1 && Outbox(w')[0].ConfigPush? && Outbox(w')[0].version == v)
  {
    var w' := WorldStep(env, w, d, Serve(draw, now));
    assert w' == Take(env, w, d, ServerTurn(draw, now));
    ServeState(env, w, d, g, draw, now);
    OwnMessage(env, w.hub, d, Inbox(w)[0], draw, now, g, w.link.value.session);
    ServedWorld(env, w, d, draw, now);
    hide WorldStep, Take, HandleMessage, ReadConfig;
    assert Attached(w', d, g);
    if |Outbox(w')| == 1 {
      assert InFlight(Outbox(w'))
             == (if Outbox(w')[0].ConfigPush? then [Outbox(w')[0].version as int] else []) + InFlight(Outbox(w')[1..]);
    }
  }

  /** The client's turn on the only push. */
  lemma Installs(env: Env, w: World, d: string, g: string, v: int)
    requires Attached(w, d, g) && w.link.Some? && Inbox(w) == []
    requires |Outbox(w)| == 1 && Outbox(w)[0].ConfigPush? && Outbox(w)[0].version == v
    ensures var w' := WorldStep(env, w, d, Receive(true, true));
            && Attached(w', d, g) && w'.hub.tables == w.hub.tables && w'.link.Some?
            && w'.installed == v && Inbox(w') == [ConfigAck(w'.installed)] && Outbox(w') == []
  {
    var w' := WorldStep(env, w, d, Receive(true, true));
    assert w' == Received(w, true, true);
    assert Outbox(w') == Outbox(w)[1..];
  }

  /** The server's turn on its acknowledgement. */
  lemma Acknowledges(env: Env, w: World, d: string, g: string, draw: Draw, now: int)
    requires Attached(w, d, g) && w.link.Some? && Inbox(w) == [ConfigAck(w.installed)] && Outbox(w) == []
    requires w.installed == GroupVersion(w.hub.tables, g)
    ensures var w' := WorldStep(env, w, d, Serve(draw, now));
            Chain(w', d, g) && DeviceVersion(w'.hub.tables, d) == w'.installed == GroupVersion(w.hub.tables, g)
  {
    var w' := WorldStep(env, w, d, Serve(draw, now));
    assert w' == Take(env, w, d, ServerTurn(draw, now));
    OwnMessage(env, w.hub, d, ConfigAck(w.installed), draw, now, g, w.link.value.session);
    AckFrame(env, w.hub, d, w.installed, draw, now);
    ServedWorld(env, w, d, draw, now);
    hide WorldStep, Take, HandleMessage;
    assert Outbox(w') == [] && Inbox(w') == [];
  }
}
