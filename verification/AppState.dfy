/** The shared state of the server: the database, the registered clients and the login failures. */
module AppStates {
  import opened Wrappers
  import opened Models
  import opened Crypto
  import opened GroupConfig
  import opened Schema
  import opened Effects
  import opened Databases
  import opened Hubs
  import opened References
  import opened Listings
  import L = Lockout

  /** Handling a list of messages one after the other, each with what it draws and its time. */
  function HandleAll(env: Env, h: Hub, d: string, ms: seq<ClientMessage>, draws: seq<(Draw, int)>): Hub
    requires |ms| == |draws|
    decreases |ms|
  {
    if ms == [] then h
    else HandleAll(env, HandleMessage(env, h, d, ms[0], draws[0].0, draws[0].1), d, ms[1..], draws[1..])
  }

  /** Every acknowledgement marks a row that the subquery may return at that moment. */
  ghost predicate SettlesAll(env: Env, h: Hub, d: string, ms: seq<ClientMessage>, draws: seq<(Draw, int)>)
    requires |ms| == |draws|
    decreases |ms|
  {
    ms == [] || (
      && (ms[0].ConfigAck? ==> Settles(h.tables.pushes, d, draws[0].0.settled))
      && SettlesAll(env, HandleMessage(env, h, d, ms[0], draws[0].0, draws[0].1), d, ms[1..], draws[1..]))
  }

  /** The same draws and times, but for the rows that acknowledgements mark. */
  predicate DrawnFrom(drawn: seq<(Draw, int)>, draws: seq<(Draw, int)>) {
    && |drawn| == |draws|
    && forall i :: 0 <= i < |draws| ==>
         drawn[i].1 == draws[i].1 && drawn[i].0 == draws[i].0.(settled := drawn[i].0.settled)
  }

  lemma {:induction false} HandleOneMore(env: Env, h: Hub, d: string, ms: seq<ClientMessage>, draws: seq<(Draw, int)>,
                                         m: ClientMessage, draw: (Draw, int))
    requires |ms| == |draws|
    ensures var h' := HandleAll(env, h, d, ms, draws);
            && HandleAll(env, h, d, ms + [m], draws + [draw]) == HandleMessage(env, h', d, m, draw.0, draw.1)
            && (SettlesAll(env, h, d, ms + [m], draws + [draw])
                <==> SettlesAll(env, h, d, ms, draws)
                     && (m.ConfigAck? ==> Settles(h'.tables.pushes, d, draw.0.settled)))
    decreases |ms|
  {
    hide HandleMessage, Settles;
    if ms == [] {
      assert [m][1..] == [] && [draw][1..] == [];
    } else {
      assert (ms + [m])[1..] == ms[1..] + [m] && (draws + [draw])[1..] == draws[1..] + [draw];
      HandleOneMore(env, HandleMessage(env, h, d, ms[0], draws[0].0, draws[0].1), d, ms[1..], draws[1..], m, draw);
    }
  }

  function Counted(r: (Hub, Option<nat>), n: nat): (Hub, Option<nat>) {
    (r.0, if r.1.None? then None else Some(n + r.1.value))
  }

  lemma PushMembersStep(env: Env, h: Hub, g: string, members: seq<string>, seeds: seq<PushSeed>, i: nat, n: nat,
                        now: int)
    requires |members| == |seeds| && i < |members|
    ensures var r := PushConfig(env, h, members[i], Some(g), seeds[i], now);
            Counted(PushMembers(env, h, g, members[i..], seeds[i..], now), n)
            == if !r.1.Pushed? then (r.0, None)
               else Counted(PushMembers(env, r.0, g, members[i + 1..], seeds[i + 1..], now),
                            if r.1.sent then n + 1 else n)
  {
    hide PushConfig;
    assert members[i..][1..] == members[i + 1..] && seeds[i..][1..] == seeds[i + 1..];
  }

  /** The two device updates that follow the creation of an adopted group amount to one. */
  lemma AdoptSteps(t: Tables, d: string, g: string, version: nat)
    requires d in t.devices && g in t.groups && t.groups[g].roomId == t.devices[d].roomId
    ensures var joined := Effects.SetDeviceGroup(t, t.devices[d].roomId, Some(g), d);
            && joined.Some? && d in joined.value.devices
            && SetRow(joined.value, d, joined.value.devices[d].(configVersion := version))
               == SetRow(t, d, t.devices[d].(groupId := Some(g), configVersion := version))
  {
    var row := t.devices[d];
    assert t.devices[d := row.(groupId := Some(g))][d := row.(groupId := Some(g), configVersion := version)]
           == t.devices[d := row.(groupId := Some(g), configVersion := version)];
  }

  class AppState {
    const db: Database
    var clients: map<string, nat>
    var outbound: map<nat, seq<ServerMessage>>
    var failures: L.Ledger

    constructor (db: Database)
      requires Closed(db.tables)
      ensures this.db == db && State() == Hub(db.tables, map[], map[]) && failures == map[]
    {
      this.db := db;
      clients, outbound, failures := map[], map[], map[];
    }

    function State(): Hub
      reads this, db
    {
      Hub(db.tables, clients, outbound)
    }

    ghost predicate Valid()
      reads this, db
    {
      Closed(db.tables)
    }

    method Send(session: nat, m: ServerMessage)
      modifies this`outbound
      ensures State() == Queue(old(State()), session, m)
    {
      if session in outbound { outbound := outbound[session := outbound[session] + [m]]; }
    }

    // -------------------------------------------------------------- pushing configurations

    /** The payload of a push, sealed under the device's own key for the version. */
    method SealPush(d: string, e: Effective, seed: PushSeed) returns (message: ServerMessage)
      requires d in db.tables.devices && e.Effective?
      ensures message == PushMessage(db.env, db.tables, d, e, seed)
    {
      hide EncryptParts, PushKeyMaterial, PushContext, AsU32;
      var g := e.groupId;
      var configName := if g.Some? && g.value in db.tables.groups then Some(db.tables.groups[g.value].name) else None;
      var payload := PushPayload(d, g, configName, e.version, e.config);
      var version := AsU32(e.version);
      var master := PushKeyMaterial(d, db.tables.devices[d].deviceToken);
      var (ciphertext, nonce) :=
        EncryptParts(db.env, master, PushContext(d, version), db.env.payloadJson(payload), seed.nonce);
      message := ConfigPush(version, ciphertext, nonce);
    }

    method PushConfigToDevice(d: string, group: Option<string>, seed: PushSeed, now: int) returns (r: PushResult)
      requires Valid()
      modifies this`outbound, db
      ensures Valid()
      ensures (State(), r) == PushConfig(db.env, old(State()), d, group, seed, now)
    {
      PushConfigClosed(db.env, State(), d, group, seed, now);
      hide Closed, DeviceConfig;
      var e := db.DeviceConfig(d, group);
      if e.NoDevice? { return NotFound; }
      if e.Failure? { return Failed; }
      hide PushMessage;
      var message := SealPush(d, e, seed);
      if seed.id in db.tables.pushes { return Failed; }
      var row := Push(d, e.groupId, message.encryptedConfig, now, 0);
      var ok := db.Execute(db.tables.(pushes := db.tables.pushes[seed.id := row]));
      if d in clients {
        Send(clients[d], message);
        return Pushed(true);
      }
      return Pushed(false);
    }

    method PushDevice(room: string, d: string, seed: PushSeed, now: int) returns (r: PushResult)
      requires Valid()
      modifies this`outbound, db
      ensures Valid()
      ensures (State(), r) == Hubs.PushDevice(db.env, old(State()), room, d, seed, now)
    {
      if d !in DevicesOfRoom(db.tables, room) { return NotFound; }
      r := PushConfigToDevice(d, None, seed, now);
    }

    /** Pushes to the members of a group in the order the query returns them. */
    method PushGroup(room: string, g: string, seeds: seq<PushSeed>, now: int) returns (count: Option<nat>,
                     members: seq<string>)
      requires Valid() && |seeds| == |Members(db.tables, room, g)|
      modifies this`outbound, db
      ensures Valid()
      ensures Lists(members, Members(old(db.tables), room, g)) && |members| == |seeds|
      ensures (State(), count) == Hubs.PushGroup(db.env, old(State()), room, g, members, seeds, now)
    {
      members := Enumerate(Members(db.tables, room, g));
      ListingLength(members, Members(db.tables, room, g));
      if g !in GroupsOfRoom(db.tables, room) { return None, members; }
      count := PushEach(g, members, seeds, now);
    }

    method PushEach(g: string, members: seq<string>, seeds: seq<PushSeed>, now: int) returns (count: Option<nat>)
      requires Valid() && |members| == |seeds|
      modifies this`outbound, db
      ensures Valid()
      ensures (State(), count) == PushMembers(db.env, old(State()), g, members, seeds, now)
    {
      hide PushConfig;
      var n := 0;
      ghost var h := State();
      ghost var total := PushMembers(db.env, h, g, members, seeds, now);
      for i := 0 to |members|
        invariant Valid() && h == State()
        invariant total == Counted(PushMembers(db.env, h, g, members[i..], seeds[i..], now), n)
      {
        PushMembersStep(db.env, h, g, members, seeds, i, n, now);
        var r := PushConfigToDevice(members[i], Some(g), seeds[i], now);
        h := State();
        if !r.Pushed? { return None; }
        if r.sent { n := n + 1; }
      }
      count := Some(n);
    }

    method PushCurrentConfigIfNeeded(d: string, seed: PushSeed, now: int)
      requires Valid()
      modifies this`outbound, db
      ensures Valid()
      ensures State() == PushIfBehind(db.env, old(State()), d, seed, now)
    {
      if d !in db.tables.devices { return; }
      if db.tables.devices[d].groupId.None? { return; }
      var deviceVersion := db.tables.devices[d].configVersion;
      var e := db.DeviceConfig(d, None);
      if e.Effective? && e.version > deviceVersion {
        var r := PushConfigToDevice(d, None, seed, now);
      }
    }

    method PushIfConsoleConfigDiffers(d: string, reported: nat, seed: PushSeed, now: int)
      requires Valid()
      modifies this`outbound, db
      ensures Valid()
      ensures State() == PushIfDiffers(db.env, old(State()), d, reported, seed, now)
    {
      var e := db.DeviceConfig(d, None);
      if e.Effective? && AsU32(e.version) != reported {
        var r := PushConfigToDevice(d, None, seed, now);
      }
    }

    // -------------------------------------------------------------- client messages

    /** Adoption: a group is made of the report, the device joins it, and the reported version is written again. */
    method AdoptReported(d: string, id: string, name: string, config: ClientConfig, version: nat, nonces: Nonces,
                         now: int)
      requires Valid() && d in db.tables.devices
      modifies db
      ensures Valid()
      ensures db.tables == Adopt(db.env, old(db.tables), d, id, name, config, version, nonces, now)
    {
      AdoptClosed(db.env, db.tables, d, id, name, config, version, nonces, now);
      ghost var target := Adopt(db.env, db.tables, d, id, name, config, version, nonces, now);
      var room := db.tables.devices[d].roomId;
      var ok := db.CreateGroupWithVersion(room, id, name, config, version, nonces, now);
      if !ok { return; }
      AdoptSteps(db.tables, d, id, version);
      ok := db.SetDeviceGroup(room, Some(id), d);
      WriteVersion(d, version, target);
    }

    method WriteVersion(d: string, version: nat, ghost target: Tables)
      requires d in db.tables.devices && Closed(target)
      requires target == SetRow(db.tables, d, db.tables.devices[d].(configVersion := version))
      modifies db
      ensures db.tables == target
    {
      var ok := db.Execute(SetRow(db.tables, d, db.tables.devices[d].(configVersion := version)));
    }

    method SyncReportedConfigState(d: string, version: nat, groupId: Option<string>, name: Option<string>,
                                   config: ClientConfig, running: bool, draw: Draw, now: int)
      requires Valid()
      modifies this`outbound, db
      ensures Valid()
      ensures State() == SyncReported(db.env, old(State()), d, version, groupId, name, config, running, draw, now)
    {
      if running { db.RecordVersion(d, version, now); }
      ReconcileReport(d, version, groupId, name, config, draw, now);
    }

    method ReconcileReport(d: string, version: nat, groupId: Option<string>, name: Option<string>,
                           config: ClientConfig, draw: Draw, now: int)
      requires Valid()
      modifies this`outbound, db
      ensures Valid()
      ensures State() == Reconcile(db.env, old(State()), d, version, groupId, name, config, draw, now)
    {
      hide PushIfDiffers;
      if d !in db.tables.devices { return; }
      var room := db.tables.devices[d].roomId;
      if db.tables.devices[d].groupId.Some? {
        PushIfConsoleConfigDiffers(d, version, draw.push, now);
        return;
      }
      if groupId.Some? && !Blank(groupId.value) {
        if groupId.value in GroupsOfRoom(db.tables, room) {
          var ok := db.SetDeviceGroup(room, groupId, d);
          PushIfConsoleConfigDiffers(d, version, draw.push, now);
          return;
        }
      }
      var adopted := if name.Some? && !Blank(name.value) then name.value else CACHED_NAME;
      AdoptReported(d, draw.id, adopted, config, version, draw.nonces, now);
    }

    method HandleEventReport(d: string, m: ClientMessage, id: string, now: int)
      requires Valid() && m.EventReport?
      modifies db
      ensures Valid()
      ensures db.tables == ReportEvent(old(db.tables), d, m, id, now)
    {
      if m.traffic.Some? { db.UpdateDeviceTraffic(d, m.traffic.value.0, m.traffic.value.1, now); }
      if m.vntsStatus.Some? { db.UpdateDeviceVntsStatus(d, m.vntsStatus.value.0, m.vntsStatus.value.1, now); }
      var ok := db.InsertEvent(id, d, m.eventType, m.payload, now);
    }

    /** The subquery of an acknowledgement: a latest unacknowledged row of the device, if there is one. */
    method LatestUnacked(d: string) returns (settled: Option<string>)
      ensures Settles(db.tables.pushes, d, settled)
    {
      var rows := db.tables.pushes;
      var candidates := Enumerate(set p | p in rows && Unacked(rows, d, p));
      settled := None;
      for i := 0 to |candidates|
        invariant settled.None? ==> i == 0
        invariant settled.Some? ==> settled.value in candidates[..i]
        invariant settled.Some? ==> forall q <- candidates[..i] :: q in rows && settled.value in rows
                                                                   && rows[q].pushedAt <= rows[settled.value].pushedAt
      {
        assert candidates[i] in candidates && Unacked(rows, d, candidates[i]);
        assert candidates[..i + 1] == candidates[..i] + [candidates[i]];
        if settled.None? || rows[candidates[i]].pushedAt > rows[settled.value].pushedAt {
          settled := Some(candidates[i]);
        }
      }
      assert candidates[..|candidates|] == candidates;
      forall q | q in rows && Unacked(rows, d, q) ensures q in candidates {
        assert q in (set p | p in rows && Unacked(rows, d, p));
      }
    }

    /** Records the version, then marks the row that the subquery finds. */
    method HandleConfigAck(d: string, version: nat, now: int) returns (settled: Option<string>)
      requires Valid()
      modifies db
      ensures Valid()
      ensures Settles(old(db.tables).pushes, d, settled)
      ensures db.tables == MarkAcked(EditRow(old(db.tables), d, Recorded(version, now)), settled)
    {
      hide Edited;
      db.RecordVersion(d, version, now);
      assert db.tables.pushes == old(db.tables).pushes;
      settled := LatestUnacked(d);
      db.AcknowledgePush(settled);
    }

    /** Handles a message; what it draws is returned with the row that an acknowledgement marks. */
    method HandleClientMessage(d: string, m: ClientMessage, draw: Draw, now: int) returns (drawn: Draw)
      requires Valid()
      modifies this`clients, this`outbound, db
      ensures Valid()
      ensures drawn == draw.(settled := drawn.settled)
      ensures m.ConfigAck? ==> Settles(old(db.tables).pushes, d, drawn.settled)
      ensures State() == HandleMessage(db.env, old(State()), d, m, drawn, now)
    {
      drawn := draw;
      match m
      case EventReport(_, _, _, _) => HandleEventReport(d, m, draw.id, now);
      case ConfigAck(version) =>
        var settled := HandleConfigAck(d, version, now);
        drawn := draw.(settled := settled);
      case ConfigState(version, groupId, name, config, running) =>
        SyncReportedConfigState(d, version, groupId, name, config, running, draw, now);
      case Heartbeat =>
        db.Touch(d, now);
      case Disconnect =>
        clients := clients - {d};
        db.MarkDeviceOffline(d);
      case TrafficStats(up, down) => db.UpdateDeviceTraffic(d, up, down, now);
      case Hello(_, _, _, _, _, _) =>
    }

    // -------------------------------------------------------------- sessions

    /** The hello of a session: the answer is queued, and a device that is not kicked is registered. */
    method HandleClientHello(hello: ClientMessage, ip: string, session: nat, freshId: string, freshToken: string,
                             seed: PushSeed, now: int)
      returns (id: Option<string>, reply: seq<ServerMessage>)
      requires Valid()
      modifies this`clients, this`outbound, db
      ensures Valid()
      ensures var j := Connect(db.env, old(State()), hello, ip, session, freshId, freshToken, seed, now);
              && State() == j.hub
              && id == (if j.Joined? then Some(j.id) else None)
              && (j.Turned? ==> reply == j.reply)
    {
      id, reply := None, [];
      if !hello.Hello? { return; }
      if hello.protocolVersion != 1 { return None, [KickNotice(UNSUPPORTED)]; }
      if hello.roomId !in db.tables.rooms { return; }
      var r := db.UpsertDeviceHello(hello.roomId, hello.deviceId, hello.deviceToken, hello.deviceName,
                                    hello.clientVersion, Some(ip), freshId, freshToken, now);
      if r.Refused? { return; }
      reply := [HelloAck(r.id, r.newToken, r.status)];
      if r.status == KICKED { return; }
      clients := clients[r.id := session];
      outbound := outbound[session := reply];
      PushCurrentConfigIfNeeded(r.id, seed, now);
      id := Some(r.id);
    }

    /** The messages of a session in arrival order. */
    method ServeInbound(d: string, inbound: seq<ClientMessage>, draws: seq<(Draw, int)>)
      returns (drawn: seq<(Draw, int)>)
      requires Valid() && |inbound| == |draws|
      modifies this`clients, this`outbound, db
      ensures Valid()
      ensures DrawnFrom(drawn, draws)
      ensures SettlesAll(db.env, old(State()), d, inbound, drawn)
      ensures State() == HandleAll(db.env, old(State()), d, inbound, drawn)
    {
      hide Settles, HandleMessage;
      ghost var h := State();
      drawn := [];
      for i := 0 to |inbound|
        invariant Valid() && DrawnFrom(drawn, draws[..i])
        invariant State() == HandleAll(db.env, h, d, inbound[..i], drawn)
        invariant SettlesAll(db.env, h, d, inbound[..i], drawn)
      {
        var draw := HandleClientMessage(d, inbound[i], draws[i].0, draws[i].1);
        HandleOneMore(db.env, h, d, inbound[..i], drawn, inbound[i], (draw, draws[i].1));
        assert inbound[..i + 1] == inbound[..i] + [inbound[i]];
        drawn := drawn + [(draw, draws[i].1)];
      }
      assert inbound[..|inbound|] == inbound && draws[..|draws|] == draws;
    }

    /** A whole session: hello, its messages in arrival order, then the clean-up. */
    method HandleClientSession(hello: ClientMessage, ip: string, session: nat, freshId: string, freshToken: string,
                               seed: PushSeed, now: int, inbound: seq<ClientMessage>, draws: seq<(Draw, int)>)
      returns (drawn: seq<(Draw, int)>)
      requires Valid() && |inbound| == |draws|
      modifies this`clients, this`outbound, db
      ensures Valid()
      ensures DrawnFrom(drawn, draws)
      ensures var j := Connect(db.env, old(State()), hello, ip, session, freshId, freshToken, seed, now);
              && (j.Turned? ==> State() == j.hub)
              && (j.Joined? ==>
                    && SettlesAll(db.env, j.hub, j.id, inbound, drawn)
                    && State() == EndSession(HandleAll(db.env, j.hub, j.id, inbound, drawn), j.id, session))
    {
      var id, _ := HandleClientHello(hello, ip, session, freshId, freshToken, seed, now);
      if id.None? { return draws; }
      hide SettlesAll, HandleAll, Connect;
      drawn := ServeInbound(id.value, inbound, draws);
      clients := clients - {id.value};
      outbound := outbound - {session};
      db.MarkDeviceOffline(id.value);
    }

    // -------------------------------------------------------------- console operations on devices

    method KickDevice(room: string, d: string) returns (ok: bool)
      requires Valid()
      modifies this`clients, this`outbound, db
      ensures Valid()
      ensures ok <==> Hubs.KickDevice(old(State()), room, d).Some?
      ensures State() == Hubs.KickDevice(old(State()), room, d).GetOr(old(State()))
    {
      if d !in DevicesOfRoom(db.tables, room) { return false; }
      var row := db.tables.devices[d].(status := KICKED);
      SetRowClosed(db.tables, d, row);
      ok := db.Execute(SetRow(db.tables, d, row));
      if d in clients {
        var session := clients[d];
        clients := clients - {d};
        Send(session, KickNotice(KICK_REASON));
      }
    }

    method DeleteDevice(room: string, d: string)
      requires Valid()
      modifies this`clients, db
      ensures Valid()
      ensures State() == RemoveDevice(old(State()), room, d)
    {
      db.DeleteDevice(room, d);
      clients := clients - {d};
    }

    method RegenerateDeviceToken(room: string, d: string, token: string)
      requires Valid()
      modifies this`clients, db
      ensures Valid()
      ensures State() == ReplaceToken(old(State()), room, d, token)
    {
      db.RegenerateDeviceToken(room, d, token);
      clients := clients - {d};
    }

    // -------------------------------------------------------------- logins

    method RecordLoginFailure(key: string, now: int)
      modifies this`failures
      ensures failures == L.RecordFailure(old(failures), key, now)
      ensures var entry := L.EntryOf(old(failures), key);
              var n := if entry.lockedUntil <= now then entry.count + 1 else entry.count;
              failures == old(failures)[key := if n >= 3 then L.LoginFailure(0, now + 600)
                                               else L.LoginFailure(n, entry.lockedUntil)]
    {
      var entry := if key in failures then failures[key] else L.LoginFailure(0, 0);
      if entry.lockedUntil <= now { entry := entry.(count := entry.count + 1); }
      if entry.count >= L.LIMIT {
        entry := entry.(lockedUntil := now + L.LOCK_SECONDS);
        entry := entry.(count := 0);
      }
      failures := failures[key := entry];
    }

    method Login(key: string, a: L.Attempt) returns (v: L.Verdict)
      modifies this`failures
      ensures (failures, v) == L.Login(old(failures), key, a)
    {
      if key in failures && failures[key].lockedUntil > a.checkedAt { return L.TooMany; }
      if !a.valid {
        RecordLoginFailure(key, a.recordedAt);
        return L.Unauthorized;
      }
      failures := failures - {key};
      return L.Accepted;
    }
  }
}
