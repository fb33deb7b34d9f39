/** What the steps that concern other devices leave alone for a device `d` in a group `g` on a session. */
module Frames {
  import opened Wrappers
  import opened Models
  import opened Crypto
  import opened GroupConfig
  import opened Schema
  import opened Effects
  import opened Hubs
  import opened Listings
  import opened Runs

  /** The device is in the group, and the group's version fits the wire format. */
  predicate InGroup(t: Tables, d: string, g: string) {
    && d in t.devices && t.devices[d].groupId == Some(g)
    && g in t.groups && 0 <= t.groups[g].configVersion < U32
  }

  function GroupVersion(t: Tables, g: string): int
    requires g in t.groups
  {
    t.groups[g].configVersion
  }

  /** The versions among a list of server messages. */
  function InFlight(ms: seq<ServerMessage>): seq<int> {
    if ms == [] then [] else (if ms[0].ConfigPush? then [ms[0].version] else []) + InFlight(ms[1..])
  }

  lemma {:induction false} InFlightAppend(a: seq<ServerMessage>, b: seq<ServerMessage>)
    ensures InFlight(a + b) == InFlight(a) + InFlight(b)
    decreases |a|
  {
    if a == [] {
      assert a + b == b;
    } else {
      InFlightAppend(a[1..], b);
      assert (a + b)[0] == a[0] && (a + b)[1..] == a[1..] + b;
    }
  }

  /** The rest of `b` after its prefix `a` pushes version `v` only. */
  ghost predicate Grows(a: seq<ServerMessage>, b: seq<ServerMessage>, v: int) {
    && a <= b
    && forall k :: |a| <= k < |b| && b[k].ConfigPush? ==> b[k].version == v
  }

  /** Stands for the session of a device that has none. */
  const NO_SESSION := -1

  /** The session is the device's own: the device is registered on it or not at all, and nobody else is. */
  ghost predicate Owns(h: Hub, d: string, session: int) {
    && (d in h.clients ==> h.clients[d] == session)
    && (forall e <- h.clients :: e != d ==> h.clients[e] != session)
  }

  function Queued(h: Hub, session: int): seq<ServerMessage> {
    if session in h.outbound then h.outbound[session] else []
  }

  /** From `h` to `h'` the device keeps its version and session, and its queue grows by pushes of `g`'s version. */
  ghost predicate Carries(h: Hub, h': Hub, d: string, g: string, session: int)
    requires g in h.tables.groups
  {
    && (d in h.tables.devices && d in h'.tables.devices ==>
          h'.tables.devices[d].configVersion == h.tables.devices[d].configVersion)
    && (g in h'.tables.groups ==> h'.tables.groups[g].configVersion >= h.tables.groups[g].configVersion)
    && Owns(h', d, session)
    && (d in h'.clients ==> d in h.clients)
    && (session in h.outbound <==> session in h'.outbound)
    && Grows(Queued(h, session), Queued(h', session), h.tables.groups[g].configVersion)
  }

  /** A step that leaves the queues alone and registers nobody. */
  lemma QuietCarries(h: Hub, h': Hub, d: string, g: string, session: int)
    requires g in h.tables.groups && Owns(h, d, session)
    requires d in h.tables.devices && d in h'.tables.devices ==>
               h'.tables.devices[d].configVersion == h.tables.devices[d].configVersion
    requires g in h'.tables.groups ==> h'.tables.groups[g].configVersion >= h.tables.groups[g].configVersion
    requires h'.outbound == h.outbound
    requires forall e <- h'.clients :: e in h.clients && h'.clients[e] == h.clients[e]
    ensures Carries(h, h', d, g, session)
  {
  }

  lemma ApplyCarries(env: Env, h: Hub, e: Edit, d: string, g: string, session: int)
    requires InGroup(h.tables, d, g) && Owns(h, d, session)
    ensures Carries(h, Commit(h, Apply(env, h.tables, e)), d, g, session)
  {
    var t := h.tables;
    var s := Apply(env, t, e).GetOr(t);
    ApplyVersions(env, t, e, d, g);
    hide Apply, Owns, Carries;
    QuietCarries(h, Commit(h, Apply(env, t, e)), d, g, session);
  }

  ghost predicate VersionsKept(t: Tables, s: Tables, d: string, g: string) {
    && (d in t.devices && d in s.devices ==> s.devices[d].configVersion == t.devices[d].configVersion)
    && (g in t.groups && g in s.groups ==> s.groups[g].configVersion >= t.groups[g].configVersion)
  }

  /** No console edit changes a device's version or lowers a group's. */
  lemma ApplyVersions(env: Env, t: Tables, e: Edit, d: string, g: string)
    requires d in t.devices
    ensures VersionsKept(t, Apply(env, t, e).GetOr(t), d, g)
  {
    hide ReadConfig, ResealConfig, SealConfig, RoomRemovable, RoomRemoved, Effects.DeleteGroup;
    match e
    case Register(id, username, password, now) =>
    case DeleteAccount(id) =>
    case CreateRoom(id, owner, name, now) =>
    case DeleteRoom(room) => RoomRemovedVersions(t, room, d, g);
    case CreateGroup(room, id, name, config, nonces, now) =>
    case UpdateGroup(room, x, name, config, nonces, now) =>
    case DeleteGroup(room, x) => DeleteGroupVersions(t, room, x, d, g);
    case SetDeviceGroup(room, group, x) =>
    case UpdateDevice(room, x, edit) =>
  }

  lemma RoomRemovedVersions(t: Tables, room: string, d: string, g: string)
    ensures VersionsKept(t, RoomRemoved(t, room), d, g)
  {
  }

  lemma DeleteGroupVersions(t: Tables, room: string, x: string, d: string, g: string)
    ensures VersionsKept(t, Effects.DeleteGroup(t, room, x).GetOr(t), d, g)
  {
    hide GroupHeldElsewhere;
  }

  /** A push to another device, or to `d` at the version of its own group. */
  lemma PushEffectiveCarries(env: Env, h: Hub, x: string, e: Effective, seed: PushSeed, now: int, d: string, g: string,
                             session: int)
    requires InGroup(h.tables, d, g) && Owns(h, d, session)
    requires x == d && e.Effective? ==> e.version == GroupVersion(h.tables, g)
    ensures Carries(h, PushEffective(env, h, x, e, seed, now).0, d, g, session)
  {
    hide PushRow, SealPayload;
    if e.NoDevice? || x !in h.tables.devices {
    } else if e.Failure? {
    } else {
      var row := PushRow(env, h.tables, x, e, seed, now);
      var message := PushMessage(env, h.tables, x, e, seed);
      assert message.ConfigPush? && message.version == AsU32(e.version);
      hide PushMessage;
      DeliverCarries(h, x, seed.id, row, message, d, g, session);
    }
  }

  lemma DeliverCarries(h: Hub, x: string, id: string, row: Push, message: ServerMessage, d: string, g: string,
                       session: int)
    requires InGroup(h.tables, d, g) && Owns(h, d, session)
    requires x == d && message.ConfigPush? ==> message.version == GroupVersion(h.tables, g)
    ensures Carries(h, Deliver(h, x, id, row, message).0, d, g, session)
  {
    var h' := Deliver(h, x, id, row, message).0;
    if id in h.tables.pushes {
      assert h' == h;
    } else {
      assert h'.tables == h.tables.(pushes := h.tables.pushes[id := row]) && h'.clients == h.clients;
      if x in h.clients && x == d && session in h.outbound {
        assert Queued(h', session) == Queued(h, session) + [message];
      } else {
        assert Queued(h', session) == Queued(h, session);
      }
    }
  }

  /** The version of a device's effective configuration is its group's. */
  lemma EffectiveVersion(env: Env, t: Tables, d: string, g: string, override: Option<string>)
    requires InGroup(t, d, g) && (override.None? || override == Some(g))
    ensures var e := DeviceConfig(env, t, d, override);
            e.Effective? ==> e.version == GroupVersion(t, g) && e.groupId == Some(g)
  {
    hide ReadConfig, Overlay;
  }

  lemma PushConfigCarries(env: Env, h: Hub, x: string, override: Option<string>, seed: PushSeed, now: int, d: string,
                          g: string, session: int)
    requires InGroup(h.tables, d, g) && Owns(h, d, session)
    requires x == d ==> override.None? || override == Some(g)
    ensures Carries(h, PushConfig(env, h, x, override, seed, now).0, d, g, session)
  {
    if x == d { EffectiveVersion(env, h.tables, d, g, override); }
    PushEffectiveCarries(env, h, x, DeviceConfig(env, h.tables, x, override), seed, now, d, g, session);
    hide DeviceConfig, PushEffective, Carries;
  }

  lemma CarriesTransitive(h: Hub, h': Hub, h'': Hub, d: string, g: string, session: int)
    requires g in h.tables.groups && g in h'.tables.groups
    requires d in h'.tables.devices
    requires Carries(h, h', d, g, session) && Carries(h', h'', d, g, session)
    requires GroupVersion(h'.tables, g) == GroupVersion(h.tables, g)
    ensures Carries(h, h'', d, g, session)
  {
    var a, b, c := Queued(h, session), Queued(h', session), Queued(h'', session);
    assert forall k :: |a| <= k < |b| ==> c[k] == b[k];
  }

  lemma {:induction false} PushMembersCarries(env: Env, h: Hub, x: string, members: seq<string>, seeds: seq<PushSeed>,
                                              now: int, d: string, g: string, session: int)
    requires |members| == |seeds|
    requires InGroup(h.tables, d, g) && Owns(h, d, session)
    requires d in members ==> x == g
    ensures Carries(h, PushMembers(env, h, x, members, seeds, now).0, d, g, session)
    decreases |members|
  {
    hide PushConfig;
    if members == [] {
      QuietCarries(h, h, d, g, session);
    } else {
      hide Carries;
      PushConfigCarries(env, h, members[0], Some(x), seeds[0], now, d, g, session);
      PushConfigQuiet(env, h, members[0], Some(x), seeds[0], now);
      var (h', r) := PushConfig(env, h, members[0], Some(x), seeds[0], now);
      if r.Pushed? {
        assert Owns(h', d, session) by { CarriesOwns(h, h', d, g, session); }
        PushMembersCarries(env, h', x, members[1..], seeds[1..], now, d, g, session);
        CarriesTransitive(h, h', PushMembers(env, h', x, members[1..], seeds[1..], now).0, d, g, session);
      }
    }
  }

  lemma CarriesOwns(h: Hub, h': Hub, d: string, g: string, session: int)
    requires g in h.tables.groups && Carries(h, h', d, g, session)
    ensures Owns(h', d, session)
  {
  }

  lemma PushIfCarries(env: Env, h: Hub, x: string, reported: nat, seed: PushSeed, now: int, d: string, g: string,
                      session: int)
    requires InGroup(h.tables, d, g) && Owns(h, d, session)
    ensures Carries(h, PushIfBehind(env, h, x, seed, now), d, g, session)
    ensures Carries(h, PushIfDiffers(env, h, x, reported, seed, now), d, g, session)
  {
    PushConfigCarries(env, h, x, None, seed, now, d, g, session);
    QuietCarries(h, h, d, g, session);
    hide PushConfig, DeviceConfig, Carries;
  }

  // ---------------------------------------------------------------- the sessions and messages of other devices

  lemma EditRowCarries(h: Hub, x: string, e: RowEdit, gone: set<string>, d: string, g: string, session: int)
    requires InGroup(h.tables, d, g) && Owns(h, d, session) && x != d
    ensures Carries(h, h.(tables := EditRow(h.tables, x, e), clients := h.clients - gone), d, g, session)
  {
    EditRowVersions(h.tables, x, e, d, g);
    hide EditRow, Carries;
    QuietCarries(h, h.(tables := EditRow(h.tables, x, e), clients := h.clients - gone), d, g, session);
  }

  lemma EditRowVersions(t: Tables, x: string, e: RowEdit, d: string, g: string)
    requires x != d
    ensures var s := EditRow(t, x, e);
            && (d in t.devices <==> d in s.devices) && (d in t.devices ==> s.devices[d] == t.devices[d])
            && s.groups == t.groups
    ensures VersionsKept(t, EditRow(t, x, e), d, g)
  {
    hide Edited;
    if x in t.devices {
    } else {
    }
  }

  /** Another device joins a group and is pushed to. */
  lemma JoinCarries(env: Env, h: Hub, x: string, group: Option<string>, version: nat, seed: PushSeed, now: int,
                    d: string, g: string, session: int)
    requires InGroup(h.tables, d, g) && Owns(h, d, session) && x != d && x in h.tables.devices
    ensures var joined := h.(tables := SetRow(h.tables, x, h.tables.devices[x].(groupId := group)));
            Carries(h, PushIfDiffers(env, joined, x, version, seed, now), d, g, session)
  {
    hide Carries, PushIfDiffers, Owns;
    var joined := h.(tables := SetRow(h.tables, x, h.tables.devices[x].(groupId := group)));
    QuietCarries(h, joined, d, g, session);
    CarriesOwns(h, joined, d, g, session);
    PushIfCarries(env, joined, x, version, seed, now, d, g, session);
    CarriesTransitive(h, joined, PushIfDiffers(env, joined, x, version, seed, now), d, g, session);
  }

  lemma ReconcileCarries(env: Env, h: Hub, x: string, version: nat, groupId: Option<string>, name: Option<string>,
                         config: ClientConfig, draw: Draw, now: int, d: string, g: string, session: int)
    requires InGroup(h.tables, d, g) && Owns(h, d, session) && x != d
    ensures Carries(h, Reconcile(env, h, x, version, groupId, name, config, draw, now), d, g, session)
  {
    hide Carries, PushIfDiffers, Adopt, Owns;
    var t := h.tables;
    QuietCarries(h, h, d, g, session);
    if x !in t.devices {
    } else if t.devices[x].groupId.Some? {
      PushIfCarries(env, h, x, version, draw.push, now, d, g, session);
    } else if groupId.Some? && !Blank(groupId.value) && groupId.value in t.groups
              && t.groups[groupId.value].roomId == t.devices[x].roomId {
      JoinCarries(env, h, x, groupId, version, draw.push, now, d, g, session);
    } else {
      AdoptVersions(env, t, x, draw.id, AdoptedName(name), config, version, draw.nonces, now, d, g);
      QuietCarries(h, h.(tables := Adopt(env, t, x, draw.id, AdoptedName(name), config, version, draw.nonces, now)), d,
                   g, session);
    }
  }

  lemma AdoptVersions(env: Env, t: Tables, x: string, id: string, name: string, config: ClientConfig, version: nat,
                      nonces: Nonces, now: int, d: string, g: string)
    requires x in t.devices && x != d
    ensures VersionsKept(t, Adopt(env, t, x, id, name, config, version, nonces, now), d, g)
  {
    hide SealConfig;
  }

  lemma ReportEventVersions(t: Tables, x: string, m: ClientMessage, id: string, now: int, d: string, g: string)
    requires m.EventReport? && x != d
    ensures VersionsKept(t, ReportEvent(t, x, m, id, now), d, g)
  {
    var t1 := if m.traffic.Some? then EditRow(t, x, Traffic(m.traffic.value.0, m.traffic.value.1, now)) else t;
    if m.traffic.Some? { EditRowVersions(t, x, Traffic(m.traffic.value.0, m.traffic.value.1, now), d, g); }
    var t2 := if m.vntsStatus.Some? then EditRow(t1, x, Vnts(m.vntsStatus.value.0, m.vntsStatus.value.1, now)) else t1;
    if m.vntsStatus.Some? { EditRowVersions(t1, x, Vnts(m.vntsStatus.value.0, m.vntsStatus.value.1, now), d, g); }
    hide EditRow;
    AddEventRows(t2, id, x, m.eventType, m.payload, now);
  }

  lemma AddEventRows(t: Tables, id: string, x: string, eventType: string, payload: string, now: int)
    ensures var s := AddEvent(t, id, x, eventType, payload, now).GetOr(t);
            s.devices == t.devices && s.groups == t.groups
  {
    if id in t.events || x !in t.devices {
    } else {
    }
  }

  lemma OtherMessageCarries(env: Env, h: Hub, x: string, m: ClientMessage, draw: Draw, now: int, d: string, g: string,
                            session: int)
    requires InGroup(h.tables, d, g) && Owns(h, d, session) && x != d
    ensures Carries(h, HandleMessage(env, h, x, m, draw, now), d, g, session)
  {
    hide Carries, Reconcile, ReportEvent, EditRow;
    QuietCarries(h, h, d, g, session);
    assert h.clients - {} == h.clients;
    match m
    case EventReport(_, _, _, _) =>
      ReportEventVersions(h.tables, x, m, draw.id, now, d, g);
      QuietCarries(h, HandleMessage(env, h, x, m, draw, now), d, g, session);
    case ConfigAck(version) =>
      EditRowVersions(h.tables, x, Recorded(version, now), d, g);
      QuietCarries(h, HandleMessage(env, h, x, m, draw, now), d, g, session);
    case ConfigState(version, groupId, name, config, running) =>
      OtherStateCarries(env, h, x, version, groupId, name, config, running, draw, now, d, g, session);
    case Heartbeat => EditRowCarries(h, x, Seen(now), {}, d, g, session);
    case Disconnect => EditRowCarries(h, x, WentOffline, {x}, d, g, session);
    case TrafficStats(up, down) => EditRowCarries(h, x, Traffic(up, down, now), {}, d, g, session);
    case Hello(_, _, _, _, _, _) =>
  }

  lemma OtherStateCarries(env: Env, h: Hub, x: string, version: nat, groupId: Option<string>, name: Option<string>,
                          config: ClientConfig, running: bool, draw: Draw, now: int, d: string, g: string, session: int)
    requires InGroup(h.tables, d, g) && Owns(h, d, session) && x != d
    ensures Carries(h, SyncReported(env, h, x, version, groupId, name, config, running, draw, now), d, g, session)
  {
    hide Carries, Reconcile, EditRow, Owns;
    var recorded := if running then EditRow(h.tables, x, Recorded(version, now)) else h.tables;
    var h' := h.(tables := recorded);
    EditRowVersions(h.tables, x, Recorded(version, now), d, g);
    QuietCarries(h, h', d, g, session);
    CarriesOwns(h, h', d, g, session);
    ReconcileCarries(env, h', x, version, groupId, name, config, draw, now, d, g, session);
    CarriesTransitive(h, h', Reconcile(env, h', x, version, groupId, name, config, draw, now), d, g, session);
  }

  /** A session id not in use: no queue and no registration has it. */
  ghost predicate Unused(h: Hub, session: nat) {
    session !in h.outbound && forall e <- h.clients :: h.clients[e] != session
  }

  /** The hello does not come from `d`: it names another device, or none and is answered with a new id. */
  predicate ComesFromElsewhere(hello: ClientMessage, d: string) {
    hello.Hello? ==> hello.deviceId != Some(d) || hello.deviceToken.None?
  }

  lemma HelloVersions(t: Tables, room: string, id: Option<string>, token: Option<string>, name: string,
                      version: Option<string>, ip: Option<string>, freshId: string, freshToken: string,
                      now: int, d: string)
    requires d in t.devices && (id != Some(d) || token.None?)
    ensures var r := UpsertDeviceHello(t, room, id, token, name, version, ip, freshId, freshToken, now);
            r.Admitted? ==>
              r.id != d && d in r.tables.devices && r.tables.devices[d] == t.devices[d]
              && r.tables.groups == t.groups
  {
  }

  lemma OtherConnectCarries(env: Env, h: Hub, hello: ClientMessage, ip: string, used: nat, freshId: string,
                            freshToken: string, seed: PushSeed, now: int, d: string, g: string, session: int)
    requires InGroup(h.tables, d, g) && Owns(h, d, session)
    requires ComesFromElsewhere(hello, d) && Unused(h, used) && used != session
    ensures Carries(h, Hubs.Connect(env, h, hello, ip, used, freshId, freshToken, seed, now).hub, d, g, session)
  {
    hide UpsertDeviceHello, PushIfBehind, Carries;
    QuietCarries(h, h, d, g, session);
    if hello.Hello? && hello.protocolVersion == 1 && hello.roomId in h.tables.rooms {
      HelloVersions(h.tables, hello.roomId, hello.deviceId, hello.deviceToken, hello.deviceName,
                    hello.clientVersion, Some(ip), freshId, freshToken, now, d);
      var r := UpsertDeviceHello(h.tables, hello.roomId, hello.deviceId, hello.deviceToken, hello.deviceName,
                                 hello.clientVersion, Some(ip), freshId, freshToken, now);
      if r.Admitted? {
        QuietCarries(h, h.(tables := r.tables), d, g, session);
        if r.status != KICKED {
          var registered := Hub(r.tables, h.clients[r.id := used],
                                h.outbound[used := [HelloAck(r.id, r.newToken, r.status)]]);
          RegisterCarries(h, r.tables, r.id, used, [HelloAck(r.id, r.newToken, r.status)], d, g, session);
          PushIfCarries(env, registered, r.id, 0, seed, now, d, g, session);
          CarriesTransitive(h, registered, PushIfBehind(env, registered, r.id, seed, now), d, g, session);
        }
      }
    } else {
    }
  }

  lemma RegisterCarries(h: Hub, t: Tables, x: string, used: nat, queue: seq<ServerMessage>, d: string, g: string,
                        session: int)
    requires InGroup(h.tables, d, g) && Owns(h, d, session)
    requires x != d && Unused(h, used) && used != session
    requires d in t.devices && t.devices[d] == h.tables.devices[d] && t.groups == h.tables.groups
    ensures var registered := Hub(t, h.clients[x := used], h.outbound[used := queue]);
            Owns(registered, d, session) && Carries(h, registered, d, g, session)
  {
  }

  lemma EndOtherCarries(h: Hub, x: string, used: nat, d: string, g: string, session: int)
    requires InGroup(h.tables, d, g) && Owns(h, d, session) && x != d && used != session
    ensures Carries(h, Hubs.EndSession(h, x, used), d, g, session)
  {
    hide Edited;
  }

  lemma KickCarries(h: Hub, room: string, x: string, d: string, g: string, session: int)
    requires InGroup(h.tables, d, g) && Owns(h, d, session)
    ensures Carries(h, Hubs.KickDevice(h, room, x).GetOr(h), d, g, session)
  {
    var h' := Hubs.KickDevice(h, room, x).GetOr(h);
    if x !in h.tables.devices || h.tables.devices[x].roomId != room {
      assert h' == h;
    } else {
      var kicked := SetRow(h.tables, x, h.tables.devices[x].(status := KICKED));
      if x in h.clients {
        assert h' == Queue(h.(tables := kicked), h.clients[x], KickNotice(KICK_REASON)).(clients := h.clients - {x});
        hide Hubs.KickDevice;
        QueueCarries(h, kicked, h.clients - {x}, h.clients[x], KickNotice(KICK_REASON), d, g, session);
      } else {
        assert h' == h.(tables := kicked);
      }
    }
  }

  lemma QueueCarries(h: Hub, t: Tables, clients: map<string, nat>, to: nat, m: ServerMessage, d: string, g: string,
                     session: int)
    requires InGroup(h.tables, d, g) && Owns(h, d, session) && !m.ConfigPush?
    requires t.groups == h.tables.groups && VersionsKept(h.tables, t, d, g)
    requires forall e <- clients :: e in h.clients && clients[e] == h.clients[e]
    ensures Carries(h, Queue(h.(tables := t), to, m).(clients := clients), d, g, session)
  {
    var h' := Queue(h.(tables := t), to, m).(clients := clients);
    if session == to && session in h.outbound {
      assert Queued(h', session) == Queued(h, session) + [m];
    } else {
      assert Queued(h', session) == Queued(h, session);
    }
  }

  lemma DeviceEditsCarry(h: Hub, room: string, x: string, token: string, d: string, g: string, session: int)
    requires InGroup(h.tables, d, g) && Owns(h, d, session)
    ensures Carries(h, RemoveDevice(h, room, x), d, g, session)
    ensures Carries(h, ReplaceToken(h, room, x, token), d, g, session)
  {
    assert VersionsKept(h.tables, Effects.DeleteDevice(h.tables, room, x), d, g);
    assert VersionsKept(h.tables, Effects.RegenerateToken(h.tables, room, x, token), d, g);
    hide Carries, Owns, Effects.DeleteDevice, Effects.RegenerateToken;
    QuietCarries(h, RemoveDevice(h, room, x), d, g, session);
    QuietCarries(h, ReplaceToken(h, room, x, token), d, g, session);
  }

  /** Not a message, a hello or a session end of `d`; ids drawn are unused; a group push goes to the members. */
  ghost predicate Foreign(h: Hub, a: Action, d: string, session: int) {
    match a
    case Connect(hello, _, used, _, _, _, _) => ComesFromElsewhere(hello, d) && Unused(h, used) && used != session
    case Message(x, _, _, _) => x != d
    case EndSession(x, used) => x != d && used != session
    case PushGroup(room, x, members, _, _) => Lists(members, Members(h.tables, room, x))
    case _ => true
  }

  lemma StepCarries(env: Env, h: Hub, a: Action, d: string, g: string, session: int)
    requires InGroup(h.tables, d, g) && Owns(h, d, session) && Foreign(h, a, d, session)
    ensures Carries(h, Step(env, h, a), d, g, session)
  {
    hide Carries, Owns, Apply, RemoveDevice, ReplaceToken, Hubs.KickDevice, PushConfig, PushMembers, Hubs.Connect,
         HandleMessage, Hubs.EndSession, Unused;
    QuietCarries(h, h, d, g, session);
    match a
    case Console(edit) => ApplyCarries(env, h, edit, d, g, session);
    case DeleteDevice(room, x) => DeviceEditsCarry(h, room, x, "", d, g, session);
    case RegenerateToken(room, x, token) => DeviceEditsCarry(h, room, x, token, d, g, session);
    case KickDevice(room, x) => KickCarries(h, room, x, d, g, session);
    case PushDevice(room, x, seed, now) => PushConfigCarries(env, h, x, None, seed, now, d, g, session);
    case PushGroup(room, x, members, seeds, now) =>
      PushGroupCarries(env, h, room, x, members, seeds, now, d, g, session);
    case Connect(hello, ip, used, freshId, freshToken, seed, now) =>
      OtherConnectCarries(env, h, hello, ip, used, freshId, freshToken, seed, now, d, g, session);
    case Message(x, m, draw, now) => OtherMessageCarries(env, h, x, m, draw, now, d, g, session);
    case EndSession(x, used) => EndOtherCarries(h, x, used, d, g, session);
  }

  lemma PushGroupCarries(env: Env, h: Hub, room: string, x: string, members: seq<string>, seeds: seq<PushSeed>,
                         now: int,
                         d: string, g: string, session: int)
    requires InGroup(h.tables, d, g) && Owns(h, d, session)
    requires Lists(members, Members(h.tables, room, x))
    ensures |members| == |seeds| ==> Carries(h, Hubs.PushGroup(env, h, room, x, members, seeds, now).0, d, g, session)
  {
    hide Carries, PushMembers;
    QuietCarries(h, h, d, g, session);
    assert d in members ==> d in Members(h.tables, room, x);
    if |members| == |seeds| { PushMembersCarries(env, h, x, members, seeds, now, d, g, session); }
  }
}
