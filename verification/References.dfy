/** Every handler leaves every foreign key resolved, so none of its statements is refused. */
module References {
  import opened Wrappers
  import opened Models
  import opened Crypto
  import opened GroupConfig
  import opened Schema
  import opened Effects
  import opened Hubs

  lemma AddPushClosed(t: Tables, id: string, row: Push)
    requires Closed(t) && row.deviceId in t.devices
    ensures Closed(t.(pushes := t.pushes[id := row]))
  {
  }

  lemma AddEventClosed(t: Tables, id: string, d: string, eventType: string, payload: string, now: int)
    requires Closed(t)
    ensures Closed(AddEvent(t, id, d, eventType, payload, now).GetOr(t))
  {
  }

  lemma MarkAckedClosed(t: Tables, settled: Option<string>)
    requires Closed(t)
    ensures Closed(MarkAcked(t, settled))
  {
  }

  lemma PushEffectiveClosed(env: Env, h: Hub, d: string, e: Effective, seed: PushSeed, now: int)
    requires Closed(h.tables)
    ensures Closed(PushEffective(env, h, d, e, seed, now).0.tables)
  {
    if e.Effective? && d in h.tables.devices {
      var row := PushRow(env, h.tables, d, e, seed, now);
      var message := PushMessage(env, h.tables, d, e, seed);
      AddPushClosed(h.tables, seed.id, row);
      hide PushMessage, Closed;
      if seed.id in h.tables.pushes {
      } else if d in h.clients {
      } else {
      }
    } else {
    }
  }

  lemma PushConfigClosed(env: Env, h: Hub, d: string, group: Option<string>, seed: PushSeed, now: int)
    requires Closed(h.tables)
    ensures Closed(PushConfig(env, h, d, group, seed, now).0.tables)
  {
    PushEffectiveClosed(env, h, d, DeviceConfig(env, h.tables, d, group), seed, now);
    hide DeviceConfig, PushEffective, Closed;
  }

  lemma {:induction false} PushMembersClosed(env: Env, h: Hub, g: string, members: seq<string>, seeds: seq<PushSeed>,
                                             now: int)
    requires Closed(h.tables) && |members| == |seeds|
    ensures Closed(PushMembers(env, h, g, members, seeds, now).0.tables)
    decreases |members|
  {
    if members == [] {
    } else {
      PushConfigClosed(env, h, members[0], Some(g), seeds[0], now);
      PushMembersClosed(env, PushConfig(env, h, members[0], Some(g), seeds[0], now).0, g, members[1..], seeds[1..],
                        now);
    }
  }

  lemma PushIfClosed(env: Env, h: Hub, d: string, reported: nat, seed: PushSeed, now: int)
    requires Closed(h.tables)
    ensures Closed(PushIfBehind(env, h, d, seed, now).tables)
    ensures Closed(PushIfDiffers(env, h, d, reported, seed, now).tables)
  {
    PushConfigClosed(env, h, d, None, seed, now);
  }

  lemma CreateGroupClosed(env: Env, t: Tables, room: string, id: string, name: string, config: ClientConfig,
                          version: int, nonces: Nonces, now: int)
    requires Closed(t)
    ensures Closed(CreateGroup(env, t, room, id, name, config, version, nonces, now).GetOr(t))
  {
    if id !in t.groups && room in t.rooms {
      SetGroupClosed(t, id, Group(room, name, SealConfig(env, id, config, nonces), Max(version, 1), now, now));
    }
  }

  lemma UpdateGroupClosed(env: Env, t: Tables, room: string, g: string, name: Option<string>,
                          config: Option<ClientConfig>, nonces: Nonces, now: int)
    requires Closed(t)
    ensures Closed(UpdateGroup(env, t, room, g, name, config, nonces, now).GetOr(t))
  {
    hide ReadConfig, ResealConfig;
    if UpdateGroup(env, t, room, g, name, config, nonces, now).Some? {
      var row := t.groups[g];
      SetGroupClosed(t, g, row.(name := name.GetOr(row.name), configVersion := row.configVersion + 1, updatedAt := now,
                                sealed := ResealConfig(env, g, row.sealed, config, nonces)));
    }
  }

  lemma AdoptClosed(env: Env, t: Tables, d: string, id: string, name: string, config: ClientConfig, version: nat,
                    nonces: Nonces, now: int)
    requires Closed(t) && d in t.devices
    ensures Closed(Adopt(env, t, d, id, name, config, version, nonces, now))
  {
    var room := t.devices[d].roomId;
    CreateGroupClosed(env, t, room, id, name, config, version, nonces, now);
    var grown := CreateGroup(env, t, room, id, name, config, version, nonces, now);
    if grown.Some? {
      SetRowClosed(grown.value, d, t.devices[d].(groupId := Some(id), configVersion := version));
    }
  }

  lemma ReconcileClosed(env: Env, h: Hub, d: string, version: nat, groupId: Option<string>, name: Option<string>,
                        config: ClientConfig, draw: Draw, now: int)
    requires Closed(h.tables)
    ensures Closed(Reconcile(env, h, d, version, groupId, name, config, draw, now).tables)
  {
    var t := h.tables;
    if d !in t.devices {
    } else if t.devices[d].groupId.Some? {
      PushIfClosed(env, h, d, version, draw.push, now);
    } else if groupId.Some? && !Blank(groupId.value) && groupId.value in t.groups
              && t.groups[groupId.value].roomId == t.devices[d].roomId {
      var joined := SetRow(t, d, t.devices[d].(groupId := groupId));
      SetRowClosed(t, d, t.devices[d].(groupId := groupId));
      PushIfClosed(env, h.(tables := joined), d, version, draw.push, now);
    } else {
      AdoptClosed(env, t, d, draw.id, AdoptedName(name), config, version, draw.nonces, now);
    }
  }

  lemma SyncReportedClosed(env: Env, h: Hub, d: string, version: nat, groupId: Option<string>, name: Option<string>,
                           config: ClientConfig, running: bool, draw: Draw, now: int)
    requires Closed(h.tables)
    ensures Closed(SyncReported(env, h, d, version, groupId, name, config, running, draw, now).tables)
  {
    EditRowClosed(h.tables, d, Recorded(version, now));
    var recorded := if running then EditRow(h.tables, d, Recorded(version, now)) else h.tables;
    ReconcileClosed(env, h.(tables := recorded), d, version, groupId, name, config, draw, now);
  }

  lemma ReportEventClosed(t: Tables, d: string, m: ClientMessage, id: string, now: int)
    requires Closed(t) && m.EventReport?
    ensures Closed(ReportEvent(t, d, m, id, now))
  {
    var t1 := if m.traffic.Some? then EditRow(t, d, Traffic(m.traffic.value.0, m.traffic.value.1, now)) else t;
    if m.traffic.Some? { EditRowClosed(t, d, Traffic(m.traffic.value.0, m.traffic.value.1, now)); }
    var t2 := if m.vntsStatus.Some? then EditRow(t1, d, Vnts(m.vntsStatus.value.0, m.vntsStatus.value.1, now)) else t1;
    if m.vntsStatus.Some? { EditRowClosed(t1, d, Vnts(m.vntsStatus.value.0, m.vntsStatus.value.1, now)); }
    AddEventClosed(t2, id, d, m.eventType, m.payload, now);
  }

  lemma HandleMessageClosed(env: Env, h: Hub, d: string, m: ClientMessage, draw: Draw, now: int)
    requires Closed(h.tables)
    ensures Closed(HandleMessage(env, h, d, m, draw, now).tables)
  {
    hide Closed, EditRow, SyncReported, MarkAcked, ReportEvent;
    var t := h.tables;
    match m
    case EventReport(_, _, _, _) => ReportEventClosed(t, d, m, draw.id, now);
    case ConfigAck(version) =>
      EditRowClosed(t, d, Recorded(version, now));
      MarkAckedClosed(EditRow(t, d, Recorded(version, now)), draw.settled);
    case ConfigState(version, groupId, name, config, running) =>
      SyncReportedClosed(env, h, d, version, groupId, name, config, running, draw, now);
    case Heartbeat => EditRowClosed(t, d, Seen(now));
    case Disconnect => EditRowClosed(t, d, WentOffline);
    case TrafficStats(up, down) => EditRowClosed(t, d, Traffic(up, down, now));
    case Hello(_, _, _, _, _, _) =>
  }

  lemma HelloClosed(t: Tables, room: string, id: Option<string>, token: Option<string>, name: string,
                    version: Option<string>, ip: Option<string>, freshId: string, freshToken: string, now: int)
    requires Closed(t)
    ensures var r := UpsertDeviceHello(t, room, id, token, name, version, ip, freshId, freshToken, now);
            r.Admitted? ==> Closed(r.tables)
  {
    var r := UpsertDeviceHello(t, room, id, token, name, version, ip, freshId, freshToken, now);
    if r.Admitted? {
      SetRowClosed(t, r.id, r.tables.devices[r.id]);
    }
  }

  lemma ConnectClosed(env: Env, h: Hub, hello: ClientMessage, ip: string, session: nat,
                      freshId: string, freshToken: string, seed: PushSeed, now: int)
    requires Closed(h.tables)
    ensures Closed(Connect(env, h, hello, ip, session, freshId, freshToken, seed, now).hub.tables)
  {
    hide Closed, UpsertDeviceHello, PushIfBehind;
    if hello.Hello? && hello.protocolVersion == 1 && hello.roomId in h.tables.rooms {
      HelloClosed(h.tables, hello.roomId, hello.deviceId, hello.deviceToken, hello.deviceName,
                  hello.clientVersion, Some(ip), freshId, freshToken, now);
      var r := UpsertDeviceHello(h.tables, hello.roomId, hello.deviceId, hello.deviceToken, hello.deviceName,
                                 hello.clientVersion, Some(ip), freshId, freshToken, now);
      if r.Admitted? && r.status != KICKED {
        var registered := Hub(r.tables, h.clients[r.id := session],
                              h.outbound[session := [HelloAck(r.id, r.newToken, r.status)]]);
        PushIfClosed(env, registered, r.id, 0, seed, now);
      }
    }
  }
}
