/** What the handlers mean for the clients: who is registered, what is queued for whom, and what a push says. */
module Sessions {
  import opened Wrappers
  import opened Models
  import opened Crypto
  import opened GroupConfig
  import opened Schema
  import opened Effects
  import opened Hubs
  import opened Operations
  import GroupPush
  import Adoption

  // ---------------------------------------------------------------- hellos

  /** The hello shows an id and a token; otherwise it asks for new ones. */
  predicate ShowsToken(hello: ClientMessage) {
    hello.Hello? && hello.deviceId.Some? && hello.deviceToken.Some?
  }

  /** The hello speaks the protocol, its room exists, and what it shows, if anything, is on record. */
  predicate Accepts(t: Tables, hello: ClientMessage, freshId: string) {
    && hello.Hello? && hello.protocolVersion == 1 && hello.roomId in t.rooms
    && if ShowsToken(hello) then Authentic(t, hello.roomId, hello.deviceId.value, hello.deviceToken.value)
       else freshId !in t.devices
  }

  /** The device that a hello is for. */
  function DeviceFor(hello: ClientMessage, freshId: string): string {
    if ShowsToken(hello) then hello.deviceId.value else freshId
  }

  /** What an accepted hello is answered: its id, its token when it is new, and the status it had. */
  function Welcome(t: Tables, hello: ClientMessage, freshId: string, freshToken: string): ServerMessage {
    var d := DeviceFor(hello, freshId);
    if ShowsToken(hello) && d in t.devices then HelloAck(d, None, t.devices[d].status)
    else HelloAck(d, Some(freshToken), "pending")
  }

  /** A hello that is not accepted changes nothing; only a wrong protocol version is told why. */
  lemma HelloTurnedAway(env: Env, h: Hub, hello: ClientMessage, ip: string, session: nat, freshId: string,
                        freshToken: string, seed: PushSeed, now: int)
    requires !Accepts(h.tables, hello, freshId)
    ensures Connect(env, h, hello, ip, session, freshId, freshToken, seed, now)
            == Turned(h, if hello.Hello? && hello.protocolVersion != 1
                         then [KickNotice("unsupported protocol version")] else [])
  {
    if hello.Hello? && hello.protocolVersion == 1 && hello.roomId in h.tables.rooms {
      if ShowsToken(hello) {
        HelloAuthenticates(h.tables, hello.roomId, hello.deviceId.value, hello.deviceToken.value, hello.deviceName,
                           hello.clientVersion, Some(ip), freshId, freshToken, now);
      }
    }
  }

  /**
   * An accepted hello of a kicked device is answered and not registered. Any other is registered on its session, in
   * place of whatever session its device had, with a queue that starts with the answer; no other queue changes.
   */
  lemma HelloWelcomed(env: Env, h: Hub, hello: ClientMessage, ip: string, session: nat, freshId: string,
                      freshToken: string, seed: PushSeed, now: int)
    requires Accepts(h.tables, hello, freshId)
    ensures var j := Connect(env, h, hello, ip, session, freshId, freshToken, seed, now);
            var d, welcome := DeviceFor(hello, freshId), Welcome(h.tables, hello, freshId, freshToken);
            && (welcome.status == "kicked" ==>
                  && j.Turned? && j.reply == [welcome]
                  && j.hub.clients == h.clients && j.hub.outbound == h.outbound)
            && (welcome.status != "kicked" ==>
                  && j.Joined? && j.id == d && j.hub.clients == h.clients[d := session]
                  && j.hub.outbound.Keys == h.outbound.Keys + {session} && [welcome] <= j.hub.outbound[session]
                  && forall s <- h.outbound :: s != session ==> j.hub.outbound[s] == h.outbound[s])
  {
    hide DeviceConfig, PushConfig, PushIfBehind, EditRow;
    var t := h.tables;
    var r := UpsertDeviceHello(t, hello.roomId, hello.deviceId, hello.deviceToken, hello.deviceName,
                               hello.clientVersion, Some(ip), freshId, freshToken, now);
    var d, welcome := DeviceFor(hello, freshId), Welcome(t, hello, freshId, freshToken);
    assert r.Admitted? && r.id == d && HelloAck(r.id, r.newToken, r.status) == welcome;
    hide UpsertDeviceHello, Authentic;
    if welcome.status != "kicked" {
      var registered := Hub(r.tables, h.clients[d := session], h.outbound[session := [welcome]]);
      BehindQueues(env, registered, d, seed, now);
    }
  }

  /** A push on a reconnect registers nobody and appends to the device's own queue alone. */
  lemma BehindQueues(env: Env, h: Hub, d: string, seed: PushSeed, now: int)
    ensures var h' := PushIfBehind(env, h, d, seed, now);
            && h'.clients == h.clients && h'.outbound.Keys == h.outbound.Keys
            && forall s <- h.outbound ::
                 h.outbound[s] <= h'.outbound[s]
                 && ((d in h.clients && h.clients[d] == s) || h'.outbound[s] == h.outbound[s])
  {
    hide DeviceConfig, PushRow, PushMessage;
  }

  /** The device is in a group that can be read and whose version is above the recorded one. */
  predicate IsBehind(env: Env, t: Tables, d: string) {
    && d in t.devices && t.devices[d].groupId.Some? && t.devices[d].groupId.value in t.groups
    && var g := t.devices[d].groupId.value;
       !ReadConfig(env, g, t.groups[g].sealed).Unreadable? && t.groups[g].configVersion > t.devices[d].configVersion
  }

  lemma SameBehind(env: Env, t: Tables, s: Tables, d: string)
    requires d in t.devices && d in s.devices && s.groups == t.groups
    requires s.devices[d].groupId == t.devices[d].groupId && s.devices[d].configVersion == t.devices[d].configVersion
    ensures IsBehind(env, s, d) <==> IsBehind(env, t, d)
  {
    hide ReadConfig;
  }

  lemma UngroupedIsNotBehind(env: Env, t: Tables, d: string)
    requires d in t.devices && t.devices[d].groupId.None?
    ensures !IsBehind(env, t, d)
  {
  }

  /** One push of the device, for its group, is added under the id when it is due, and none otherwise. */
  ghost predicate AddedWhen(due: bool, rows: map<string, Push>, next: map<string, Push>, d: string,
                            group: Option<string>, id: string)
  {
    if due then id in next && next - {id} == rows && next[id].deviceId == d && next[id].groupId == group
    else next == rows
  }

  lemma BehindPushes(env: Env, h: Hub, d: string, seed: PushSeed, now: int)
    requires d in h.tables.devices && seed.id !in h.tables.pushes
    requires h.tables.devices[d].groupId.Some? ==> h.tables.devices[d].groupId.value in h.tables.groups
    ensures AddedWhen(IsBehind(env, h.tables, d), h.tables.pushes, PushIfBehind(env, h, d, seed, now).tables.pushes, d,
                      h.tables.devices[d].groupId, seed.id)
  {
    if h.tables.devices[d].groupId.Some? {
      var e := DeviceConfig(env, h.tables, d, None);
      Adoption.EffectiveOfGroup(env, h.tables, d, h.tables.devices[d].groupId.value);
      hide DeviceConfig, ReadConfig, PushEffective;
      if e.Effective? { Adoption.PushOnce(env, h, d, e, seed, now); }
    }
  }

  /** What an accepted hello leaves of what decides about a push. */
  lemma AdmittedRow(t: Tables, hello: ClientMessage, ip: string, freshId: string, freshToken: string, now: int)
    requires Accepts(t, hello, freshId)
    ensures var r := UpsertDeviceHello(t, hello.roomId, hello.deviceId, hello.deviceToken, hello.deviceName,
                                       hello.clientVersion, Some(ip), freshId, freshToken, now);
            && r.Admitted? && r.id == DeviceFor(hello, freshId) && r.id in r.tables.devices
            && r.tables.pushes == t.pushes && r.tables.groups == t.groups
            && var row := r.tables.devices[r.id];
               if ShowsToken(hello)
               then && r.id in t.devices && r.status == t.devices[r.id].status
                    && row.groupId == t.devices[r.id].groupId && row.configVersion == t.devices[r.id].configVersion
               else row.groupId.None? && r.status == "pending"
  {
  }

  /**
   * On an accepted hello one push of the device is recorded exactly when the device is not kicked, is in a group that
   * can be read, and that group's version is above the one on record; no other hello records a push.
   */
  lemma HelloCatchesUp(env: Env, h: Hub, hello: ClientMessage, ip: string, session: nat, freshId: string,
                       freshToken: string, seed: PushSeed, now: int)
    requires Closed(h.tables) && Accepts(h.tables, hello, freshId) && seed.id !in h.tables.pushes
    ensures var t, d := h.tables, DeviceFor(hello, freshId);
            var due := ShowsToken(hello) && t.devices[d].status != "kicked" && IsBehind(env, t, d);
            AddedWhen(due, t.pushes,
                      Connect(env, h, hello, ip, session, freshId, freshToken, seed, now).hub.tables.pushes, d,
                      if ShowsToken(hello) then t.devices[d].groupId else None, seed.id)
  {
    hide PushIfBehind, IsBehind, AddedWhen, UpsertDeviceHello;
    var t := h.tables;
    var r := UpsertDeviceHello(t, hello.roomId, hello.deviceId, hello.deviceToken, hello.deviceName,
                               hello.clientVersion, Some(ip), freshId, freshToken, now);
    AdmittedRow(t, hello, ip, freshId, freshToken, now);
    GroupsThere(t, r.id, r.tables.devices[r.id], ShowsToken(hello));
    if ShowsToken(hello) {
      SameBehind(env, t, r.tables, r.id);
    } else {
      UngroupedIsNotBehind(env, r.tables, r.id);
    }
    hide Closed, Authentic;
    if r.status != KICKED {
      var registered := Hub(r.tables, h.clients[r.id := session],
                            h.outbound[session := [HelloAck(r.id, r.newToken, r.status)]]);
      BehindPushes(env, registered, r.id, seed, now);
    } else {
      NothingAdded(t.pushes, r.id, if ShowsToken(hello) then t.devices[r.id].groupId else None, seed.id);
    }
  }

  lemma NothingAdded(rows: map<string, Push>, d: string, group: Option<string>, id: string)
    ensures AddedWhen(false, rows, rows, d, group, id)
  {
  }

  lemma GroupsThere(t: Tables, d: string, row: Device, known: bool)
    requires Closed(t) && (if known then d in t.devices && row.groupId == t.devices[d].groupId else row.groupId.None?)
    ensures row.groupId.Some? ==> row.groupId.value in t.groups
  {
  }

  /** After its token has been replaced by another one, a device that shows the old one is turned away. */
  lemma OldTokenIsRefused(env: Env, h: Hub, room: string, d: string, token: string, hello: ClientMessage, ip: string,
                          session: nat, freshId: string, freshToken: string, seed: PushSeed, now: int)
    requires d in h.tables.devices && h.tables.devices[d].roomId == room && token != h.tables.devices[d].deviceToken
    requires ShowsToken(hello) && hello.deviceId.value == d && hello.protocolVersion == 1
    requires hello.deviceToken.value == h.tables.devices[d].deviceToken
    ensures var k := ReplaceToken(h, room, d, token);
            && d !in k.clients
            && Connect(env, k, hello, ip, session, freshId, freshToken, seed, now) == Turned(k, [])
  {
    TokenReplaced(h.tables, room, d, token);
    HelloTurnedAway(env, ReplaceToken(h, room, d, token), hello, ip, session, freshId, freshToken, seed, now);
  }

  /** After its deletion a device that shows its old token is turned away. */
  lemma DeletedIsRefused(env: Env, h: Hub, room: string, d: string, hello: ClientMessage, ip: string, session: nat,
                         freshId: string, freshToken: string, seed: PushSeed, now: int)
    requires d in h.tables.devices && h.tables.devices[d].roomId == room
    requires ShowsToken(hello) && hello.deviceId.value == d && hello.protocolVersion == 1
    ensures var k := RemoveDevice(h, room, d);
            && d !in k.clients
            && Connect(env, k, hello, ip, session, freshId, freshToken, seed, now) == Turned(k, [])
  {
    DeviceDeletion(h.tables, room, d);
    hide DeleteDevice;
    HelloTurnedAway(env, RemoveDevice(h, room, d), hello, ip, session, freshId, freshToken, seed, now);
  }

  // ---------------------------------------------------------------- leaving

  /** A kick of a device of the room marks it, unregisters it, and tells the session it was registered on, no other. */
  lemma KickTells(h: Hub, room: string, d: string)
    ensures var k := KickDevice(h, room, d);
            && (k.Some? <==> d in h.tables.devices && h.tables.devices[d].roomId == room)
            && (k.Some? ==>
                  && Some(k.value.tables) == Kick(h.tables, room, d) && k.value.clients == h.clients - {d}
                  && k.value.outbound.Keys == h.outbound.Keys
                  && forall s <- h.outbound ::
                       k.value.outbound[s] == h.outbound[s] + if d in h.clients && h.clients[d] == s
                                                              then [KickNotice("kicked by console")] else [])
  {
    KickMarks(h.tables, room, d);
    hide Kick, OnlyDevice;
    if d in h.clients {
    } else {
      assert h.clients - {d} == h.clients;
    }
  }

  /** Deleting a device or replacing its token unregisters the id, in whichever room the device is. */
  lemma RemovalUnregisters(h: Hub, room: string, d: string, token: string)
    ensures var k := RemoveDevice(h, room, d);
            k.clients == h.clients - {d} && k.outbound == h.outbound && k.tables == DeleteDevice(h.tables, room, d)
    ensures var k := ReplaceToken(h, room, d, token);
            k.clients == h.clients - {d} && k.outbound == h.outbound
            && k.tables == RegenerateToken(h.tables, room, d, token)
  {
  }

  /**
   * A disconnect and the end of a session unregister the device, even when another session has registered it since, and
   * mark it offline unless it is kicked; the end drops the queue of its own session only.
   */
  lemma Leaving(env: Env, h: Hub, d: string, session: nat, draw: Draw, now: int)
    requires d in h.tables.devices
    ensures var status := if h.tables.devices[d].status == "kicked" then "kicked" else "offline";
            var s := h.tables.(devices := h.tables.devices[d := h.tables.devices[d].(status := status)]);
            && HandleMessage(env, h, d, Disconnect, draw, now) == Hub(s, h.clients - {d}, h.outbound)
            && EndSession(h, d, session) == Hub(s, h.clients - {d}, h.outbound - {session})
  {
    RowEdited(h.tables, d, 0, 0, 0, "", None, now);
    hide EditRow;
  }

  // ---------------------------------------------------------------- reports

  /** The device's row after a report: what the report carries is written, and nothing else but the time. */
  ghost predicate CarriesOver(row: Device, next: Device, m: ClientMessage, now: int)
    requires m.EventReport?
  {
    && (m.traffic.None? ==> next.upStream == row.upStream && next.downStream == row.downStream
                            && next.trafficUpdatedAt == row.trafficUpdatedAt)
    && (m.traffic.Some? ==> && next.trafficUpdatedAt == Some(now) && next.upStream.Some? && next.downStream.Some?
                            && Reinterprets(m.traffic.value.0, next.upStream.value)
                            && Reinterprets(m.traffic.value.1, next.downStream.value))
    && next.vntsStatus == (if m.vntsStatus.Some? then Some(m.vntsStatus.value.0) else row.vntsStatus)
    && next.vntsError == (if m.vntsStatus.Some? then m.vntsStatus.value.1 else row.vntsError)
    && next.vntsUpdatedAt == (if m.vntsStatus.Some? then Some(now) else row.vntsUpdatedAt)
    && next.lastSeen == (if m.traffic.Some? || m.vntsStatus.Some? then Some(now) else row.lastSeen)
    && next.(upStream := row.upStream, downStream := row.downStream, trafficUpdatedAt := row.trafficUpdatedAt,
             vntsStatus := row.vntsStatus, vntsError := row.vntsError, vntsUpdatedAt := row.vntsUpdatedAt,
             lastSeen := row.lastSeen) == row
  }

  /**
   * An event report writes the traffic and the server status that it carries into its device's row, then adds the
   * event. A report of a device that is gone changes nothing, and one under a used id leaves no event.
   */
  lemma EventReported(t: Tables, d: string, m: ClientMessage, id: string, now: int)
    requires m.EventReport?
    ensures var s := ReportEvent(t, d, m, id, now);
            && (d !in t.devices ==> s == t)
            && (d in t.devices ==>
                  && d in s.devices && CarriesOver(t.devices[d], s.devices[d], m, now)
                  && s == t.(devices := t.devices[d := s.devices[d]],
                             events := if id in t.events then t.events
                                       else t.events[id := Event(d, m.eventType, Some(m.payload), now)]))
  {
    if d in t.devices {
      PresentReport(t, d, m, id, now);
    }
  }

  lemma PresentReport(t: Tables, d: string, m: ClientMessage, id: string, now: int)
    requires m.EventReport? && d in t.devices
    ensures var s := ReportEvent(t, d, m, id, now);
            && d in s.devices && CarriesOver(t.devices[d], s.devices[d], m, now)
            && s == t.(devices := t.devices[d := s.devices[d]],
                       events := if id in t.events then t.events
                                 else t.events[id := Event(d, m.eventType, Some(m.payload), now)])
  {
    hide CarriesOver, EditRow, AddEvent, Edited, ReportEvent;
    var row := t.devices[d];
    var e1 := if m.traffic.Some? then Traffic(m.traffic.value.0, m.traffic.value.1, now) else Seen(now);
    var e2 := if m.vntsStatus.Some? then Vnts(m.vntsStatus.value.0, m.vntsStatus.value.1, now) else Seen(now);
    var r1 := if m.traffic.Some? then Edited(row, e1) else row;
    var r2 := if m.vntsStatus.Some? then Edited(r1, e2) else r1;
    ReportedRow(row, r1, r2, m, now);
    ReportSteps(t, d, m, id, now, r1, r2, e1, e2);
    WithEvent(t, d, r2, m, id, now);
  }

  /** The rows that the two statements before the event leave. */
  lemma ReportSteps(t: Tables, d: string, m: ClientMessage, id: string, now: int, r1: Device, r2: Device, e1: RowEdit,
                    e2: RowEdit)
    requires m.EventReport? && d in t.devices
    requires m.traffic.Some? ==> e1 == Traffic(m.traffic.value.0, m.traffic.value.1, now)
    requires m.vntsStatus.Some? ==> e2 == Vnts(m.vntsStatus.value.0, m.vntsStatus.value.1, now)
    requires r1 == if m.traffic.Some? then Edited(t.devices[d], e1) else t.devices[d]
    requires r2 == if m.vntsStatus.Some? then Edited(r1, e2) else r1
    ensures var t2 := t.(devices := t.devices[d := r2]);
            ReportEvent(t, d, m, id, now) == AddEvent(t2, id, d, m.eventType, m.payload, now).GetOr(t2)
  {
    var t1 := if m.traffic.Some? then EditRow(t, d, e1) else t;
    var t2 := if m.vntsStatus.Some? then EditRow(t1, d, e2) else t1;
    assert ReportEvent(t, d, m, id, now) == AddEvent(t2, id, d, m.eventType, m.payload, now).GetOr(t2) by {
      hide EditRow, AddEvent;
    }
    hide ReportEvent, EditRow, AddEvent, Edited;
    assert t == t.(devices := t.devices[d := t.devices[d]]);
    EditAt(t, d, t.devices[d], e1);
    assert t1 == t.(devices := t.devices[d := r1]);
    EditAt(t, d, r1, e2);
  }

  lemma EditAt(t: Tables, d: string, row: Device, e: RowEdit)
    ensures EditRow(t.(devices := t.devices[d := row]), d, e) == t.(devices := t.devices[d := Edited(row, e)])
  {
    hide Edited;
    assert t.devices[d := row][d := Edited(row, e)] == t.devices[d := Edited(row, e)];
  }

  lemma WithEvent(t: Tables, d: string, row: Device, m: ClientMessage, id: string, now: int)
    requires m.EventReport?
    ensures var s := t.(devices := t.devices[d := row]);
            AddEvent(s, id, d, m.eventType, m.payload, now).GetOr(s)
            == s.(events := if id in t.events then t.events
                            else t.events[id := Event(d, m.eventType, Some(m.payload), now)])
  {
  }

  lemma ReportedRow(row: Device, r1: Device, r2: Device, m: ClientMessage, now: int)
    requires m.EventReport?
    requires r1 == if m.traffic.Some? then Edited(row, Traffic(m.traffic.value.0, m.traffic.value.1, now)) else row
    requires r2 == if m.vntsStatus.Some? then Edited(r1, Vnts(m.vntsStatus.value.0, m.vntsStatus.value.1, now)) else r1
    ensures CarriesOver(row, r2, m, now)
  {
    if m.traffic.Some? {
      CounterCast(m.traffic.value.0);
      CounterCast(m.traffic.value.1);
    }
    hide AsI64, Reinterprets;
  }

  /** The subquery yields an unacknowledged push of the device that none is later than, or nothing if there is none. */
  lemma SubqueryMeans(rows: map<string, Push>, d: string, settled: Option<string>)
    ensures Settles(rows, d, settled)
            <==> match settled
                 case None => forall q <- rows :: rows[q].deviceId == d ==> rows[q].acked != 0
                 case Some(p) =>
                   && p in rows && rows[p].deviceId == d && rows[p].acked == 0
                   && forall q <- rows ::
                        rows[q].deviceId == d && rows[q].acked == 0 ==> rows[q].pushedAt <= rows[p].pushedAt
  {
    if settled.None? && Settles(rows, d, settled) {
      forall q | q in rows && rows[q].deviceId == d ensures rows[q].acked != 0 { assert !Unacked(rows, d, q); }
    }
    if settled.Some? && Settles(rows, d, settled) {
      forall q | q in rows && rows[q].deviceId == d && rows[q].acked == 0
        ensures rows[q].pushedAt <= rows[settled.value].pushedAt
      {
        assert Unacked(rows, d, q);
      }
    }
  }

  /** An acknowledgement records its version and marks the push that the subquery yields; no other push changes. */
  lemma AckSettlesLatest(env: Env, h: Hub, d: string, version: nat, draw: Draw, now: int)
    requires Settles(h.tables.pushes, d, draw.settled)
    ensures var k := HandleMessage(env, h, d, ConfigAck(version), draw, now);
            && k.clients == h.clients && k.outbound == h.outbound
            && k.tables.(pushes := h.tables.pushes) == EditRow(h.tables, d, Recorded(version, now))
            && (draw.settled.None? ==> k.tables.pushes == h.tables.pushes)
            && (draw.settled.Some? ==>
                  && draw.settled.value in h.tables.pushes
                  && k.tables.pushes == h.tables.pushes[draw.settled.value :=
                                          h.tables.pushes[draw.settled.value].(acked := 1)])
  {
    hide Edited;
  }

  /** Heartbeats and traffic reports write the device's own row; a second hello on a session does nothing. */
  lemma SmallMessages(env: Env, h: Hub, d: string, up: nat, down: nat, hello: ClientMessage, draw: Draw, now: int)
    requires hello.Hello?
    ensures HandleMessage(env, h, d, Heartbeat, draw, now) == h.(tables := EditRow(h.tables, d, Seen(now)))
    ensures HandleMessage(env, h, d, TrafficStats(up, down), draw, now)
            == h.(tables := EditRow(h.tables, d, Traffic(up, down, now)))
    ensures HandleMessage(env, h, d, hello, draw, now) == h
  {
  }

  // ---------------------------------------------------------------- pushes

  /**
   * A push to a registered device under a fresh id records one unacknowledged row of the device and queues one message,
   * of which the row keeps the ciphertext. Whoever has the device's id and token reads in it the group, its name, the
   * version and the configuration in effect.
   */
  lemma PushSaysWhatIsInEffect(env: Env, h: Hub, d: string, group: Option<string>, seed: PushSeed, now: int)
    requires CipherLaws(env) && |seed.nonce| == 12 && seed.id !in h.tables.pushes
    requires d in h.tables.devices && d in h.clients && h.clients[d] in h.outbound
    requires DeviceConfig(env, h.tables, d, group).Effective?
    requires PayloadSurvives(env, PayloadOf(h.tables, d, DeviceConfig(env, h.tables, d, group)))
    ensures var e := DeviceConfig(env, h.tables, d, group);
            var (k, r) := PushConfig(env, h, d, group, seed, now);
            var queue, queue' := h.outbound[h.clients[d]], k.outbound[h.clients[d]];
            && r == Pushed(true) && k.clients == h.clients
            && k.tables == h.tables.(pushes := k.tables.pushes) && seed.id in k.tables.pushes
            && k.tables.pushes - {seed.id} == h.tables.pushes
            && |queue'| == |queue| + 1 && queue'[..|queue|] == queue && queue'[|queue|].ConfigPush?
            && queue'[|queue|].version == e.version % 0x1_0000_0000
            && k.tables.pushes[seed.id] == Push(d, e.groupId, queue'[|queue|].encryptedConfig, now, 0)
            && var name := if e.groupId.Some? && e.groupId.value in h.tables.groups
                           then Some(h.tables.groups[e.groupId.value].name) else None;
               OpenPush(env, d, h.tables.devices[d].deviceToken, queue'[|queue|])
               == Some(PushPayload(d, e.groupId, name, e.version, e.config))
  {
    var e := DeviceConfig(env, h.tables, d, group);
    GroupPush.PushReadsBack(env, h.tables, d, e, seed);
    MessageShape(env, h.tables, d, e, seed, now);
    hide DeviceConfig, PushMessage, PushRow, OpenPush, PayloadSurvives, CipherLaws;
    var k := PushConfig(env, h, d, group, seed, now).0;
    assert k.tables.pushes == h.tables.pushes[seed.id := PushRow(env, h.tables, d, e, seed, now)];
    assert k.tables.pushes - {seed.id} == h.tables.pushes;
  }

  lemma MessageShape(env: Env, t: Tables, d: string, e: Effective, seed: PushSeed, now: int)
    requires d in t.devices && e.Effective?
    ensures var m := PushMessage(env, t, d, e, seed);
            && m.ConfigPush? && m.version == e.version % 0x1_0000_0000
            && PushRow(env, t, d, e, seed, now) == Push(d, e.groupId, m.encryptedConfig, now, 0)
  {
    hide SealPayload, PayloadOf;
  }

  /** A push to a device or a group that is not of the room is refused and changes nothing. */
  lemma PushStaysInRoom(env: Env, h: Hub, room: string, d: string, g: string, members: seq<string>,
                        seeds: seq<PushSeed>, seed: PushSeed, now: int)
    requires |members| == |seeds|
    ensures d !in h.tables.devices || h.tables.devices[d].roomId != room ==>
              PushDevice(env, h, room, d, seed, now) == (h, NotFound)
    ensures g !in h.tables.groups || h.tables.groups[g].roomId != room ==>
              PushGroup(env, h, room, g, members, seeds, now) == (h, None)
  {
    hide PushConfig, PushMembers;
  }

  /** What keeps a push from being made: no device, an unreadable configuration, or a used id. Nothing then changes. */
  lemma PushFails(env: Env, h: Hub, d: string, group: Option<string>, seed: PushSeed, now: int)
    ensures var e := DeviceConfig(env, h.tables, d, group);
            var (k, r) := PushConfig(env, h, d, group, seed, now);
            && (r.Pushed? <==> d in h.tables.devices && e.Effective? && seed.id !in h.tables.pushes)
            && (r.NotFound? <==> d !in h.tables.devices)
            && (!r.Pushed? ==> k == h)
            && (r.Pushed? ==> (r.sent <==> d in h.clients))
  {
    assert DeviceConfig(env, h.tables, d, group).NoDevice? <==> d !in h.tables.devices by { hide ReadConfig, Overlay; }
    hide DeviceConfig, PushRow, PushMessage;
  }
}
