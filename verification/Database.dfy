/** The database object: each operation is a sequence of SQL statements, each checked against the foreign keys. */
module Databases {
  import opened Wrappers
  import opened Models
  import opened Crypto
  import opened GroupConfig
  import opened Schema
  import opened Effects
  import Operations

  class Database {
    var tables: Tables
    const env: Env

    constructor (env: Env)
      ensures this.env == env && tables == EMPTY && Closed(tables)
    {
      this.env := env;
      tables := EMPTY;
    }

    /** Runs one statement whose effect is `next`; a dangling reference at its end refuses it. */
    method Execute(next: Tables) returns (ok: bool)
      modifies this
      ensures ok == Closed(next)
      ensures tables == if ok then next else old(tables)
    {
      ok := Closed(next);
      if ok { tables := next; }
    }

    /** Three deletes below the room, then its groups, then the room. */
    method DeleteRoom(room: string) returns (ok: bool)
      requires Closed(tables)
      modifies this
      ensures Closed(tables)
      ensures ok <==> RoomRemovable(old(tables), room)
      ensures tables == if ok then RoomRemoved(old(tables), room) else old(tables)
    {
      DevicesOfRoomDeleted(tables, room);
      RoomDeleted(tables, room);
      var saved := tables;
      ok := Execute(PushesGone(tables, room));
      ok := Execute(EventsGone(tables, room));
      ok := Execute(DevicesGone(tables, room));
      ok := Execute(GroupsGone(tables, room));
      if ok { ok := Execute(RoomGone(tables, room)); }
      if !ok { tables := saved; }
    }

    method DeleteDevice(room: string, d: string)
      requires Closed(tables)
      modifies this
      ensures Closed(tables)
      ensures tables == Effects.DeleteDevice(old(tables), room, d)
      ensures d in tables.devices <==> d in old(tables).devices && old(tables).devices[d].roomId != room
      ensures forall p <- tables.pushes :: tables.pushes[p].deviceId != d
      ensures forall x <- tables.events :: tables.events[x].deviceId != d
    {
      DeviceDeleteSteps(tables, d);
      hide Closed;
      var ok := Execute(DevicePushesGone(tables, d));
      ok := Execute(DeviceEventsGone(tables, d));
      if d in tables.devices && tables.devices[d].roomId == room {
        ok := Execute(tables.(devices := tables.devices - {d}));
      }
      assert tables == Effects.DeleteDevice(old(tables), room, d);
      hide Effects.DeleteDevice, PushesOf, EventsOf, DevicePushesGone, DeviceEventsGone;
      Operations.DeviceDeletion(old(tables), room, d);
    }

    /** Detaches the members in the room, then deletes the group; the transaction is rolled back when that fails. */
    method DeleteGroup(room: string, g: string) returns (ok: bool)
      requires Closed(tables)
      modifies this
      ensures Closed(tables)
      ensures ok <==> Effects.DeleteGroup(old(tables), room, g).Some?
      ensures tables == Effects.DeleteGroup(old(tables), room, g).GetOr(old(tables))
    {
      DetachedClosed(tables, room, g);
      if g in tables.groups && tables.groups[g].roomId == room { GroupDeleted(tables, room, g); }
      var saved := tables;
      ok := Execute(Detached(tables, room, g));
      if ok && g in tables.groups && tables.groups[g].roomId == room {
        ok := Execute(tables.(groups := tables.groups - {g}));
      }
      if !ok { tables := saved; }
    }

    method UpsertDeviceHello(room: string, id: Option<string>, token: Option<string>, name: string,
                             version: Option<string>, ip: Option<string>, freshId: string, freshToken: string, now: int)
      returns (r: HelloResult)
      requires Closed(tables)
      modifies this
      ensures Closed(tables)
      ensures r == Effects.UpsertDeviceHello(old(tables), room, id, token, name, version, ip, freshId, freshToken, now)
      ensures tables == if r.Admitted? then r.tables else old(tables)
      ensures id.Some? && token.Some? ==>
                (r.Admitted? <==> && id.value in old(tables).devices && old(tables).devices[id.value].roomId == room
                                  && old(tables).devices[id.value].deviceToken == token.value)
    {
      if id.Some? && token.Some? {
        var d := id.value;
        if d !in tables.devices || tables.devices[d].roomId != room || tables.devices[d].deviceToken != token.value {
          return Refused;
        }
        var row := tables.devices[d];
        var status := row.status;
        var ip' := if ip.None? then row.consolePublicIp
                   else if row.consolePublicIp.None? || row.consolePublicIp != ip then ip
                   else row.consolePublicIp;
        row := row.(displayName := name, clientVersion := if version.None? then row.clientVersion else version,
                    consolePublicIp := ip', lastSeen := Some(now), status := KeepKicked(row, ONLINE));
        SetRowClosed(tables, d, row);
        var ok := Execute(SetRow(tables, d, row));
        return Admitted(tables, d, None, status);
      }
      if freshId in tables.devices { return Refused; }
      var row := Device(room, None, name, version, ip, None, None, freshToken, Some(now), PENDING,
                        None, None, None, 0, Some(0), Some(0), None, now);
      SetRowClosed(tables, freshId, row);
      var ok := Execute(SetRow(tables, freshId, row));
      if !ok { return Refused; }
      return Admitted(tables, freshId, Some(freshToken), PENDING);
    }

    method UpdateDevice(room: string, d: string, edit: DeviceEdit) returns (ok: bool)
      requires Closed(tables)
      modifies this
      ensures Closed(tables)
      ensures ok <==> Effects.UpdateDevice(old(tables), room, d, edit).Some?
      ensures tables == Effects.UpdateDevice(old(tables), room, d, edit).GetOr(old(tables))
    {
      if d !in tables.devices || tables.devices[d].roomId != room { return false; }
      var row := tables.devices[d];
      var displayName := if edit.displayName.Some? then edit.displayName.value else row.displayName;
      var groupId := if edit.groupId.Some? then edit.groupId else row.groupId;
      var networkIp := if edit.networkIp.Some? then edit.networkIp else row.networkIp;
      var networkNodeId := if edit.networkNodeId.Some? then edit.networkNodeId else row.networkNodeId;
      row := row.(displayName := displayName, groupId := groupId, networkIp := networkIp,
                  networkNodeId := networkNodeId);
      SetRowClosed(tables, d, row);
      assert row.roomId in tables.rooms;
      hide Closed;
      ok := Execute(SetRow(tables, d, row));
    }

    method SetDeviceGroup(room: string, g: Option<string>, d: string) returns (ok: bool)
      requires Closed(tables)
      modifies this
      ensures Closed(tables)
      ensures ok <==> Effects.SetDeviceGroup(old(tables), room, g, d).Some?
      ensures tables == Effects.SetDeviceGroup(old(tables), room, g, d).GetOr(old(tables))
    {
      if g.Some? {
        if g.value !in GroupsOfRoom(tables, room) { return false; }
      }
      if d !in DevicesOfRoom(tables, room) { return false; }
      SetRowClosed(tables, d, tables.devices[d].(groupId := g));
      ok := Execute(SetRow(tables, d, tables.devices[d].(groupId := g)));
    }

    method RegenerateDeviceToken(room: string, d: string, token: string)
      requires Closed(tables)
      modifies this
      ensures Closed(tables)
      ensures tables == Effects.RegenerateToken(old(tables), room, d, token)
    {
      if d in DevicesOfRoom(tables, room) {
        var ok := Execute(SetRow(tables, d, tables.devices[d].(deviceToken := token)));
      }
    }

    /** A group is first inserted with version 1; an adopted version above 1 is written by a second statement. */
    method CreateGroupWithVersion(room: string, id: string, name: string, config: ClientConfig, version: int,
                                  nonces: Nonces, now: int) returns (ok: bool)
      requires Closed(tables)
      modifies this
      ensures Closed(tables)
      ensures ok <==> Effects.CreateGroup(env, old(tables), room, id, name, config, version, nonces, now).Some?
      ensures tables
              == Effects.CreateGroup(env, old(tables), room, id, name, config, version, nonces, now).GetOr(old(tables))
    {
      hide SealConfig;
      if id in tables.groups { return false; }
      var row := Group(room, name, SealConfig(env, id, config, nonces), 1, now, now);
      SetGroupClosed(tables, id, row);
      hide Closed;
      ok := Execute(tables.(groups := tables.groups[id := row]));
      if !ok { return; }
      var v := if version < 1 then 1 else version;
      if v != 1 {
        var versioned := row.(configVersion := v);
        SetGroupClosed(tables, id, versioned);
        assert tables.groups[id := versioned] == old(tables.groups)[id := versioned];
        ok := Execute(tables.(groups := tables.groups[id := versioned]));
      }
    }

    /** Reading the stored columns: the text of the remainder first, then each separate field over it. */
    method DecryptGroupConfig(g: string, s: SealedConfig) returns (r: Reading)
      ensures r == ReadConfig(env, g, s)
    {
      if s.extra.None? { return Absent; }
      var json := DecryptField(env, ExtraContext(g), s.extra.value);
      if json.None? { return Unreadable; }
      var parsed := env.parseConfig(json.value);
      if parsed.None? { return Unreadable; }
      var config := parsed.value;
      if s.token.Some? {
        var v := DecryptField(env, TokenContext(g), s.token.value);
        if v.None? { return Unreadable; }
        config := config.(token := v.value);
      }
      if s.server.Some? {
        var v := DecryptField(env, ServerContext(g), s.server.value);
        if v.None? { return Unreadable; }
        config := config.(serverAddress := v.value);
      }
      if s.password.Some? {
        var v := DecryptField(env, PasswordContext(g), s.password.value);
        if v.None? { return Unreadable; }
        config := config.(password := v);
      }
      return Readable(config);
    }

    /** The four bound columns of the UPDATE: COALESCE keeps an absent one, the password is always written. */
    method ResealColumns(g: string, stored: SealedConfig, config: Option<ClientConfig>, nonces: Nonces)
      returns (sealed: SealedConfig)
      ensures sealed == ResealConfig(env, g, stored, config, nonces)
    {
      var token, server, password, extra: Option<string> := None, None, stored.password, None;
      if config.Some? {
        var c := config.value;
        token := Some(EncryptToBase64(env, env.masterKey, TokenContext(g), c.token, nonces.token));
        server := Some(EncryptToBase64(env, env.masterKey, ServerContext(g), c.serverAddress, nonces.server));
        password := EncryptOptional(env, PasswordContext(g), c.password, nonces.password);
        extra := Some(EncryptToBase64(env, env.masterKey, ExtraContext(g), env.configJson(Cleared(c)), nonces.extra));
      }
      sealed := SealedConfig(token.Or(stored.token), server.Or(stored.server), password, extra.Or(stored.extra));
    }

    /** Reads the row, reseals what was requested and writes it back with the next version. */
    method UpdateGroup(room: string, g: string, name: Option<string>, config: Option<ClientConfig>, nonces: Nonces,
                       now: int)
      returns (ok: bool, version: int, returned: Option<ClientConfig>)
      requires Closed(tables)
      modifies this
      ensures Closed(tables)
      ensures ok <==> && g in old(tables).groups && old(tables).groups[g].roomId == room
                      && !ReadConfig(env, g, old(tables).groups[g].sealed).Unreadable?
      ensures ok <==> Effects.UpdateGroup(env, old(tables), room, g, name, config, nonces, now).Some?
      ensures tables == Effects.UpdateGroup(env, old(tables), room, g, name, config, nonces, now).GetOr(old(tables))
      ensures ok ==> g in old(tables).groups && version == old(tables).groups[g].configVersion + 1
      ensures ok ==> returned == ReturnedConfig(env, old(tables), g, config)
    {
      hide ReadConfig, ResealConfig;
      version, returned := 0, None;
      if g !in GroupsOfRoom(tables, room) { return false, version, returned; }
      var row := tables.groups[g];
      var stored := row.sealed;
      var current := DecryptGroupConfig(g, stored);
      if current.Unreadable? { return false, version, returned; }
      version := row.configVersion + 1;
      var sealed := ResealColumns(g, stored, config, nonces);
      row := row.(name := if name.Some? then name.value else row.name, configVersion := version,
                  updatedAt := now, sealed := sealed);
      SetGroupClosed(tables, g, row);
      hide Closed;
      ok := Execute(tables.(groups := tables.groups[g := row]));
      returned := config.Or(current.ToOption());
    }

    /** A join with the group row, replaced column by column when a group is given, then the device's own fields. */
    method DeviceConfig(d: string, override: Option<string>) returns (r: Effective)
      ensures r == Effects.DeviceConfig(env, tables, d, override)
    {
      if d !in tables.devices { return NoDevice; }
      var row := tables.devices[d];
      var effective := override.Or(row.groupId);
      var joined := row.groupId.Some? && row.groupId.value in tables.groups;
      var groupVersion: Option<int> := if joined then Some(tables.groups[row.groupId.value].configVersion) else None;
      var columns := if joined then tables.groups[row.groupId.value].sealed else SealedConfig(None, None, None, None);
      if override.Some? {
        if override.value !in tables.groups { return Failure; }
        groupVersion := Some(tables.groups[override.value].configVersion);
        columns := tables.groups[override.value].sealed;
        effective := override;
      }
      var version := if groupVersion.Some? then groupVersion.value else row.configVersion + 1;
      var config := DEFAULT_CONFIG;
      if effective.Some? {
        var reading := DecryptGroupConfig(effective.value, columns);
        if reading.Unreadable? { return Failure; }
        if reading.Readable? { config := reading.config; }
      }
      config := config.(deviceId := if row.networkNodeId.Some? then row.networkNodeId.value else d);
      config := config.(name := row.displayName);
      if row.networkIp.Some? { config := config.(ip := row.networkIp); }
      return Effective(effective, version, config);
    }

    /** Writes a device row by its id, when there is one; what it refers to stays as it is. */
    method WriteRow(d: string, row: Device) returns (ok: bool)
      requires Closed(tables)
      requires d in tables.devices ==>
                 row.roomId == tables.devices[d].roomId && row.groupId == tables.devices[d].groupId
      modifies this
      ensures Closed(tables) && ok == (d in old(tables).devices)
      ensures tables == if d in old(tables).devices then SetRow(old(tables), d, row) else old(tables)
    {
      if d !in tables.devices { return false; }
      SetRowClosed(tables, d, row);
      ok := Execute(SetRow(tables, d, row));
    }

    method UpdateDeviceTraffic(d: string, up: nat, down: nat, now: int)
      requires Closed(tables)
      modifies this
      ensures Closed(tables)
      ensures tables == EditRow(old(tables), d, Traffic(up, down, now))
    {
      if d in tables.devices {
        var row := tables.devices[d];
        row := row.(upStream := Some(AsI64(up)));
        row := row.(downStream := Some(AsI64(down)));
        row := row.(trafficUpdatedAt := Some(now), lastSeen := Some(now));
        var ok := WriteRow(d, row);
      }
    }

    method UpdateDeviceVntsStatus(d: string, status: string, error: Option<string>, now: int)
      requires Closed(tables)
      modifies this
      ensures Closed(tables)
      ensures tables == EditRow(old(tables), d, Vnts(status, error, now))
    {
      if d in tables.devices {
        var row := tables.devices[d];
        row := row.(vntsStatus := Some(status));
        row := row.(vntsError := error);
        row := row.(vntsUpdatedAt := Some(now), lastSeen := Some(now));
        var ok := WriteRow(d, row);
      }
    }

    /** The version a client runs, written with the time; an online mark unless the device is kicked. */
    method RecordVersion(d: string, version: int, now: int)
      requires Closed(tables)
      modifies this
      ensures Closed(tables)
      ensures tables == EditRow(old(tables), d, Recorded(version, now))
    {
      if d in tables.devices {
        var row := tables.devices[d];
        var status := if row.status == KICKED then row.status else ONLINE;
        var ok := WriteRow(d, row.(configVersion := version, lastSeen := Some(now), status := status));
      }
    }

    method Touch(d: string, now: int)
      requires Closed(tables)
      modifies this
      ensures Closed(tables)
      ensures tables == EditRow(old(tables), d, Seen(now))
    {
      if d in tables.devices {
        var ok := WriteRow(d, tables.devices[d].(lastSeen := Some(now)));
      }
    }

    method MarkDeviceOffline(d: string)
      requires Closed(tables)
      modifies this
      ensures Closed(tables)
      ensures tables == EditRow(old(tables), d, WentOffline)
    {
      if d in tables.devices {
        var row := tables.devices[d];
        var ok := WriteRow(d, if row.status == KICKED then row else row.(status := OFFLINE));
      }
    }

    /** The INSERT of an event is refused for a taken id or a missing device. */
    method InsertEvent(id: string, d: string, eventType: string, payload: string, now: int) returns (ok: bool)
      requires Closed(tables)
      modifies this
      ensures Closed(tables)
      ensures ok <==> AddEvent(old(tables), id, d, eventType, payload, now).Some?
      ensures tables == AddEvent(old(tables), id, d, eventType, payload, now).GetOr(old(tables))
    {
      if id in tables.events { return false; }
      InsertEventClosed(tables, id, Event(d, eventType, Some(payload), now));
      ok := Execute(tables.(events := tables.events[id := Event(d, eventType, Some(payload), now)]));
    }

    /** Marks the row that the subquery returned. */
    method AcknowledgePush(settled: Option<string>)
      requires Closed(tables) && (settled.Some? ==> settled.value in tables.pushes)
      modifies this
      ensures Closed(tables)
      ensures settled.None? ==> tables == old(tables)
      ensures settled.Some? ==>
                var row := old(tables).pushes[settled.value];
                && row.deviceId in old(tables).devices
                && tables == old(tables).(pushes := old(tables).pushes[settled.value := row.(acked := 1)])
    {
      if settled.Some? {
        var row := tables.pushes[settled.value];
        var ok := Execute(tables.(pushes := tables.pushes[settled.value := row.(acked := 1)]));
      }
    }
  }

  lemma InsertEventClosed(t: Tables, id: string, row: Event)
    requires Closed(t) && id !in t.events
    ensures Closed(t.(events := t.events[id := row])) <==> row.deviceId in t.devices
  {
    var s := t.(events := t.events[id := row]);
    assert id in s.events && s.events[id] == row;
  }
}
