/** What a state report of a device without a group leads to, and how often it can make a group. */
module Adoption {
  import opened Wrappers
  import opened Models
  import opened Crypto
  import opened GroupConfig
  import opened Schema
  import opened Effects
  import opened Hubs
  import opened Runs
  import opened Invariants
  import opened Operations

  predicate HasGroup(t: Tables, d: string) {
    d in t.devices && t.devices[d].groupId.Some?
  }

  /** The reported group is one the device can join. */
  predicate Joinable(t: Tables, d: string, groupId: Option<string>)
    requires d in t.devices
  {
    && groupId.Some? && !Blank(groupId.value)
    && groupId.value in t.groups && t.groups[groupId.value].roomId == t.devices[d].roomId
  }

  /** The device's row after a report has been taken over as its group. */
  function AdoptedRow(row: Device, id: string, version: nat, running: bool, now: int): Device {
    (if running then Edited(row, Recorded(version, now)) else row).(groupId := Some(id), configVersion := version)
  }

  /** The tables once a report has become the device's group. */
  function Taken(env: Env, t: Tables, d: string, row: Device, name: Option<string>, config: ClientConfig, version: nat,
                 draw: Draw, now: int): Tables
  {
    t.(groups := t.groups[draw.id :=
         Group(row.roomId, AdoptedName(name), SealConfig(env, draw.id, config, draw.nonces), Max(version, 1),
               now, now)],
       devices := t.devices[d := row])
  }

  lemma ReconcileAdopts(env: Env, h: Hub, d: string, version: nat, groupId: Option<string>, name: Option<string>,
                        config: ClientConfig, draw: Draw, now: int)
    requires draw.id !in h.tables.groups && d in h.tables.devices && h.tables.devices[d].roomId in h.tables.rooms
    requires !HasGroup(h.tables, d) && !Joinable(h.tables, d, groupId)
    ensures var row := h.tables.devices[d].(groupId := Some(draw.id), configVersion := version);
            Reconcile(env, h, d, version, groupId, name, config, draw, now)
            == h.(tables := Taken(env, h.tables, d, row, name, config, version, draw, now))
  {
    hide SealConfig, AdoptedName, Blank, PushIfDiffers, Max;
    var t := h.tables;
    var row := t.devices[d].(groupId := Some(draw.id), configVersion := version);
    assert Adopt(env, t, d, draw.id, AdoptedName(name), config, version, draw.nonces, now)
           == Taken(env, t, d, row, name, config, version, draw, now);
    hide Adopt, Taken;
    if t.devices[d].groupId.Some? {
    } else if groupId.Some? && !Blank(groupId.value) && groupId.value in t.groups
    && t.groups[groupId.value].roomId == t.devices[d].roomId {
    } else {
    }
  }

  /**
   * A report of a device with no group, naming none it can join, makes one group holding the reported configuration at
   * version max(v, 1) and puts the device in it at version v; nothing is pushed.
   */
  lemma ReportIsAdopted(env: Env, h: Hub, d: string, version: nat, groupId: Option<string>, name: Option<string>,
                        config: ClientConfig, running: bool, draw: Draw, now: int)
    requires Closed(h.tables) && draw.id !in h.tables.groups
    requires d in h.tables.devices && !HasGroup(h.tables, d) && !Joinable(h.tables, d, groupId)
    ensures var row := AdoptedRow(h.tables.devices[d], draw.id, version, running, now);
            SyncReported(env, h, d, version, groupId, name, config, running, draw, now)
            == h.(tables := Taken(env, h.tables, d, row, name, config, version, draw, now))
  {
    var t := h.tables;
    var row := AdoptedRow(t.devices[d], draw.id, version, running, now);
    var recorded := if running then EditRow(t, d, Recorded(version, now)) else t;
    RecordedRow(t, d, draw.id, version, running, now);
    hide EditRow, AdoptedRow, Reconcile, SealConfig, AdoptedName, Closed, Blank, Max;
    ReconcileAdopts(env, h.(tables := recorded), d, version, groupId, name, config, draw, now);
    TakenFrom(env, t, recorded, d, row, name, config, version, draw, now);
    hide Taken, HasGroup, Joinable;
  }

  lemma TakenFrom(env: Env, t: Tables, s: Tables, d: string, row: Device, name: Option<string>, config: ClientConfig,
                  version: nat, draw: Draw, now: int)
    requires s == t.(devices := s.devices) && s.devices.Keys == t.devices.Keys
    requires forall e <- t.devices :: e != d ==> s.devices[e] == t.devices[e]
    ensures Taken(env, s, d, row, name, config, version, draw, now)
            == Taken(env, t, d, row, name, config, version, draw, now)
  {
    assert s.devices[d := row] == t.devices[d := row];
    hide SealConfig, AdoptedName;
  }

  lemma RecordedRow(t: Tables, d: string, id: string, version: nat, running: bool, now: int)
    requires d in t.devices
    ensures var s := if running then EditRow(t, d, Recorded(version, now)) else t;
            && s == t.(devices := s.devices) && s.devices.Keys == t.devices.Keys
            && (forall e <- t.devices :: e != d ==> s.devices[e] == t.devices[e])
            && s.devices[d].roomId == t.devices[d].roomId && s.devices[d].groupId == t.devices[d].groupId
            && s.devices[d].(groupId := Some(id), configVersion := version)
               == AdoptedRow(t.devices[d], id, version, running, now)
            && AdoptedRow(t.devices[d], id, version, running, now).roomId == t.devices[d].roomId
  {
    hide KeepKicked;
    if running {
    } else {
    }
  }

  lemma TakenIn(env: Env, h: Hub, d: string, version: nat, groupId: Option<string>, name: Option<string>,
                config: ClientConfig, running: bool, draw: Draw, now: int)
    requires Closed(h.tables) && draw.id !in h.tables.groups
    requires d in h.tables.devices && !HasGroup(h.tables, d) && !Joinable(h.tables, d, groupId)
    ensures var s := SyncReported(env, h, d, version, groupId, name, config, running, draw, now);
            && HasGroup(s.tables, d) && s.tables.devices[d].groupId.value in s.tables.groups
            && s.tables.pushes == h.tables.pushes
  {
    ReportIsAdopted(env, h, d, version, groupId, name, config, running, draw, now);
    hide SyncReported, SealConfig, Closed, Joinable;
  }

  /** The name of an adopted group is the reported one, or a fixed one when that is blank; it is never blank itself. */
  lemma AdoptedNameIsNotBlank(name: Option<string>)
    ensures !Blank(AdoptedName(name))
    ensures AdoptedName(name) == if name.Some? && !Blank(name.value) then name.value
                                 else "\U{5BA2}\U{6237}\U{7AEF}\U{7F13}\U{5B58}\U{914D}\U{7F6E}"
  {
    assert !IsWhitespace(CACHED_NAME[0]);
  }

  /** A text is blank when it has only white space; no text with a printable ASCII character is. */
  lemma PrintableIsNotBlank(s: string, k: nat)
    requires k < |s| && '!' <= s[k] <= '~'
    ensures !Blank(s) && Blank("") && Blank(" \t\r\n\U{3000}")
  {
    assert !IsWhitespace(s[k]);
  }

  /** What the device should run afterwards is what it reported, with its own fields laid over it. */
  lemma AdoptedConfigIsReported(env: Env, h: Hub, d: string, version: nat, groupId: Option<string>,
                                name: Option<string>,
                                config: ClientConfig, running: bool, draw: Draw, now: int)
    requires CipherLaws(env) && GoodNonces(draw.nonces) && Survives(env, config)
    requires Closed(h.tables) && draw.id !in h.tables.groups
    requires d in h.tables.devices && !HasGroup(h.tables, d) && !Joinable(h.tables, d, groupId)
    ensures var s := SyncReported(env, h, d, version, groupId, name, config, running, draw, now).tables;
            DeviceConfig(env, s, d, None)
            == Effective(Some(draw.id), Max(version, 1), Overlay(d, h.tables.devices[d], config))
  {
    ReportIsAdopted(env, h, d, version, groupId, name, config, running, draw, now);
    ReadAfterSeal(env, draw.id, config, draw.nonces);
    hide SyncReported, SealConfig, ReadConfig, Closed, Joinable, Max, AdoptedName, HasGroup;
    var s := SyncReported(env, h, d, version, groupId, name, config, running, draw, now).tables;
    assert Overlay(d, s.devices[d], config) == Overlay(d, h.tables.devices[d], config);
  }

  /** A report of a grouped device pushes exactly when its version is not the group's, and otherwise records only. */
  lemma GroupedReport(env: Env, h: Hub, d: string, version: nat, groupId: Option<string>, name: Option<string>,
                      config: ClientConfig, running: bool, draw: Draw, now: int)
    requires HasGroup(h.tables, d) && DeviceConfig(env, h.tables, d, None).Effective?
    requires h.tables.devices[d].groupId.value in h.tables.groups && draw.push.id !in h.tables.pushes
    ensures var s := SyncReported(env, h, d, version, groupId, name, config, running, draw, now);
            var same := AsU32(DeviceConfig(env, h.tables, d, None).version) == version;
            && (same ==> s.tables.pushes == h.tables.pushes && s.outbound == h.outbound)
            && (!same ==>
                  s.tables.pushes.Keys == h.tables.pushes.Keys + {draw.push.id}
                  && s.tables.pushes[draw.push.id].deviceId == d)
            && s.tables.groups == h.tables.groups
  {
    var t := h.tables;
    var recorded := if running then EditRow(t, d, Recorded(version, now)) else t;
    var e, e' := DeviceConfig(env, t, d, None), DeviceConfig(env, recorded, d, None);
    assert e'.Effective? && e'.version == e.version by { hide ReadConfig, Edited; RecordedGroup(t, d, version, now); }
    var k := h.(tables := recorded);
    assert recorded.pushes == t.pushes && recorded.groups == t.groups && d in recorded.devices
           && recorded.devices[d].groupId == t.devices[d].groupId;
    PushConfigQuiet(env, k, d, None, draw.push, now);
    assert PushConfig(env, k, d, None, draw.push, now) == PushEffective(env, k, d, e', draw.push, now);
    hide DeviceConfig, EditRow, PushConfig;
    PushRecords(env, k, d, e', draw.push, now);
    hide PushEffective;
  }

  lemma RecordedGroup(t: Tables, d: string, version: nat, now: int)
    requires d in t.devices
    ensures Edited(t.devices[d], Recorded(version, now)).groupId == t.devices[d].groupId
  {
  }

  lemma PushRecords(env: Env, h: Hub, d: string, e: Effective, seed: PushSeed, now: int)
    requires d in h.tables.devices && e.Effective? && seed.id !in h.tables.pushes
    ensures var s := PushEffective(env, h, d, e, seed, now).0;
            s.tables.pushes.Keys == h.tables.pushes.Keys + {seed.id} && s.tables.pushes[seed.id].deviceId == d
  {
    assert PushRow(env, h.tables, d, e, seed, now).deviceId == d;
    hide PushRow, PushMessage;
    var s := PushEffective(env, h, d, e, seed, now).0;
    if d in h.clients {
      assert s.tables == h.tables.(pushes := h.tables.pushes[seed.id := PushRow(env, h.tables, d, e, seed, now)]);
    } else {
      assert s.tables == h.tables.(pushes := h.tables.pushes[seed.id := PushRow(env, h.tables, d, e, seed, now)]);
    }
  }

  /** A device in a group at version max(v, 1) that reports version v is pushed nothing exactly when v is at least 1. */
  lemma ReportAtGroupVersion(env: Env, h: Hub, d: string, version: nat, groupId: Option<string>, name: Option<string>,
                             config: ClientConfig, running: bool, draw: Draw, now: int)
    requires version < U32 && HasGroup(h.tables, d) && h.tables.devices[d].groupId.value in h.tables.groups
    requires draw.push.id !in h.tables.pushes
    requires var e := DeviceConfig(env, h.tables, d, None); e.Effective? && e.version == Max(version, 1)
    ensures var s := SyncReported(env, h, d, version, groupId, name, config, running, draw, now);
            && (s.tables.pushes == h.tables.pushes <==> version >= 1)
            && (version >= 1 ==> s.outbound == h.outbound)
            && s.tables.groups == h.tables.groups
  {
    GroupedReport(env, h, d, version, groupId, name, config, running, draw, now);
    hide SyncReported, DeviceConfig;
    assert AsU32(Max(version, 1)) == version <==> version >= 1;
    hide AsU32, Max;
  }

  /** A reported version fits 32 bits; repeating an adopted report pushes nothing exactly when it is at least 1. */
  lemma RepeatedReport(env: Env, h: Hub, d: string, version: nat, groupId: Option<string>, name: Option<string>,
                       config: ClientConfig, running: bool, draw: Draw, now: int, again: Draw, later: int)
    requires CipherLaws(env) && GoodNonces(draw.nonces) && Survives(env, config) && version < U32
    requires Closed(h.tables) && draw.id !in h.tables.groups && again.push.id !in h.tables.pushes
    requires d in h.tables.devices && !HasGroup(h.tables, d) && !Joinable(h.tables, d, groupId)
    ensures var s := SyncReported(env, h, d, version, groupId, name, config, running, draw, now);
            var u := SyncReported(env, s, d, version, groupId, name, config, running, again, later);
            && (u.tables.pushes == s.tables.pushes <==> version >= 1)
            && (version >= 1 ==> u.outbound == s.outbound)
            && u.tables.groups == s.tables.groups
  {
    TakenIn(env, h, d, version, groupId, name, config, running, draw, now);
    AdoptedConfigIsReported(env, h, d, version, groupId, name, config, running, draw, now);
    hide SyncReported, SealConfig, Closed, Joinable, DeviceConfig, Overlay, HasGroup, Max;
    var s := SyncReported(env, h, d, version, groupId, name, config, running, draw, now);
    ReportAtGroupVersion(env, s, d, version, groupId, name, config, running, again, later);
  }

  // ---------------------------------------------------------------- reports of devices that have or join a group

  /** The group that a report leaves its device in: the one it has, or else the one it names. */
  function GroupAfter(t: Tables, d: string, groupId: Option<string>): Option<string>
    requires d in t.devices
  {
    t.devices[d].groupId.Or(groupId)
  }

  /** A running report is put on record; a report puts a device that has no group into the one it names. */
  ghost predicate ReportedInto(row: Device, next: Device, group: string, version: nat, running: bool, now: int) {
    && next.groupId == Some(group)
    && next.configVersion == (if running then version else row.configVersion)
    && next.lastSeen == (if running then Some(now) else row.lastSeen)
    && next.status == (if running && row.status != "kicked" then "online" else row.status)
    && next.(groupId := row.groupId, configVersion := row.configVersion, lastSeen := row.lastSeen,
             status := row.status) == row
  }

  /** No row changes but the device's own, and the pushes. */
  ghost predicate OnlyReported(t: Tables, s: Tables, d: string) {
    s == t.(devices := s.devices, pushes := s.pushes) && OnlyDevice(t, t.(devices := s.devices), d)
  }

  /**
   * One push of the device is recorded, and nothing queued without it, exactly when the group's version, cut to 32
   * bits, is not the reported one and the group can be read.
   */
  ghost predicate PushedIff(env: Env, h: Hub, s: Hub, d: string, g: string, id: string, reported: nat)
    requires g in h.tables.groups
  {
    var row := h.tables.groups[g];
    if row.configVersion % 0x1_0000_0000 != reported && !ReadConfig(env, g, row.sealed).Unreadable?
    then && id in s.tables.pushes && s.tables.pushes - {id} == h.tables.pushes
         && s.tables.pushes[id].deviceId == d && s.tables.pushes[id].groupId == Some(g)
    else s.tables.pushes == h.tables.pushes && s.outbound == h.outbound
  }

  /**
   * A report of a device that has a group, or names one of its room to join, leaves it in that group with the reported
   * version on record when it runs it, changes no other device and no group, and pushes exactly on a difference.
   */
  lemma ReportIsAnswered(env: Env, h: Hub, d: string, version: nat, groupId: Option<string>, name: Option<string>,
                         config: ClientConfig, running: bool, draw: Draw, now: int)
    requires d in h.tables.devices && (HasGroup(h.tables, d) || Joinable(h.tables, d, groupId))
    requires GroupAfter(h.tables, d, groupId).value in h.tables.groups && draw.push.id !in h.tables.pushes
    ensures var s := SyncReported(env, h, d, version, groupId, name, config, running, draw, now);
            var g := GroupAfter(h.tables, d, groupId).value;
            && s.clients == h.clients && OnlyReported(h.tables, s.tables, d)
            && ReportedInto(h.tables.devices[d], s.tables.devices[d], g, version, running, now)
            && PushedIff(env, h, s, d, g, draw.push.id, version)
  {
    var g := GroupAfter(h.tables, d, groupId).value;
    var row := ReportedRow(h.tables.devices[d], g, version, running, now);
    ReportedRowInto(h.tables.devices[d], g, version, running, now);
    ReportReaches(env, h, d, version, groupId, name, config, running, draw, now);
    hide SyncReported, ReportedInto, Joinable, HasGroup, ReportedRow, PushIfDiffers, OnlyReported, PushedIff, SetRow,
         GroupAfter;
    AnsweredFrom(env, h, d, row, g, version, draw.push, now);
  }

  function ReportedRow(row: Device, g: string, version: nat, running: bool, now: int): Device {
    (if running then Edited(row, Recorded(version, now)) else row).(groupId := Some(g))
  }

  lemma ReportedRowInto(row: Device, g: string, version: nat, running: bool, now: int)
    ensures ReportedInto(row, ReportedRow(row, g, version, running, now), g, version, running, now)
    ensures ReportedRow(row, g, version, running, now).groupId == Some(g)
  {
  }

  lemma AnsweredFrom(env: Env, h: Hub, d: string, row: Device, g: string, version: nat, seed: PushSeed, now: int)
    requires d in h.tables.devices && row.groupId == Some(g) && g in h.tables.groups && seed.id !in h.tables.pushes
    ensures var s := PushIfDiffers(env, h.(tables := SetRow(h.tables, d, row)), d, version, seed, now);
            && s.clients == h.clients && OnlyReported(h.tables, s.tables, d)
            && d in s.tables.devices && s.tables.devices[d] == row
            && PushedIff(env, h, s, d, g, seed.id, version)
  {
    hide PushIfDiffers, PushedIff;
    var k := h.(tables := SetRow(h.tables, d, row));
    PushIfAnswers(env, k, d, g, version, seed, now);
    SameGroups(env, h, k, PushIfDiffers(env, k, d, version, seed, now), d, g, seed.id, version);
  }

  lemma SameGroups(env: Env, h: Hub, k: Hub, s: Hub, d: string, g: string, id: string, reported: nat)
    requires g in h.tables.groups && k.tables.groups == h.tables.groups && k.tables.pushes == h.tables.pushes
    requires k.outbound == h.outbound && PushedIff(env, k, s, d, g, id, reported)
    ensures PushedIff(env, h, s, d, g, id, reported)
  {
    hide ReadConfig;
  }

  /** The state in which the two versions are compared. */
  lemma ReportReaches(env: Env, h: Hub, d: string, version: nat, groupId: Option<string>, name: Option<string>,
                      config: ClientConfig, running: bool, draw: Draw, now: int)
    requires d in h.tables.devices && (HasGroup(h.tables, d) || Joinable(h.tables, d, groupId))
    ensures var t := h.tables;
            var row := ReportedRow(t.devices[d], GroupAfter(t, d, groupId).value, version, running, now);
            var k := h.(tables := SetRow(t, d, row));
            SyncReported(env, h, d, version, groupId, name, config, running, draw, now)
            == PushIfDiffers(env, k, d, version, draw.push, now)
  {
    hide PushIfDiffers, Adopt, Blank, AdoptedName, KeepKicked;
    var t := h.tables;
    var row := if running then Edited(t.devices[d], Recorded(version, now)) else t.devices[d];
    var recorded := if running then EditRow(t, d, Recorded(version, now)) else t;
    assert recorded == t.(devices := t.devices[d := row]);
    assert row.groupId == t.devices[d].groupId && row.roomId == t.devices[d].roomId;
    hide Edited, EditRow;
    if row.groupId.Some? {
      assert row.(groupId := t.devices[d].groupId) == row;
    } else {
      assert recorded.devices[d := row.(groupId := groupId)] == t.devices[d := row.(groupId := groupId)];
    }
  }

  lemma PushIfAnswers(env: Env, h: Hub, d: string, g: string, reported: nat, seed: PushSeed, now: int)
    requires d in h.tables.devices && h.tables.devices[d].groupId == Some(g) && g in h.tables.groups
    requires seed.id !in h.tables.pushes
    ensures var s := PushIfDiffers(env, h, d, reported, seed, now);
            && s.clients == h.clients && s.tables == h.tables.(pushes := s.tables.pushes)
            && PushedIff(env, h, s, d, g, seed.id, reported)
  {
    var e := DeviceConfig(env, h.tables, d, None);
    EffectiveOfGroup(env, h.tables, d, g);
    hide DeviceConfig, ReadConfig, PushEffective;
    if e.Effective? && AsU32(e.version) != reported {
      PushOnce(env, h, d, e, seed, now);
    } else {
    }
  }

  lemma EffectiveOfGroup(env: Env, t: Tables, d: string, g: string)
    requires d in t.devices && t.devices[d].groupId == Some(g) && g in t.groups
    ensures var e := DeviceConfig(env, t, d, None);
            && (e.Effective? <==> !ReadConfig(env, g, t.groups[g].sealed).Unreadable?)
            && (e.Effective? ==> e.version == t.groups[g].configVersion && e.groupId == Some(g))
  {
    hide ReadConfig, Overlay;
  }

  lemma PushOnce(env: Env, h: Hub, d: string, e: Effective, seed: PushSeed, now: int)
    requires d in h.tables.devices && e.Effective? && seed.id !in h.tables.pushes
    ensures var s := PushEffective(env, h, d, e, seed, now).0;
            && s.clients == h.clients && s.tables == h.tables.(pushes := s.tables.pushes)
            && seed.id in s.tables.pushes && s.tables.pushes - {seed.id} == h.tables.pushes
            && s.tables.pushes[seed.id].deviceId == d && s.tables.pushes[seed.id].groupId == e.groupId
  {
    var row := PushRow(env, h.tables, d, e, seed, now);
    assert row.deviceId == d && row.groupId == e.groupId;
    hide PushRow, PushMessage;
    assert h.tables.pushes[seed.id := row] - {seed.id} == h.tables.pushes;
    var s := PushEffective(env, h, d, e, seed, now).0;
    assert s.tables == h.tables.(pushes := h.tables.pushes[seed.id := row]);
  }

  // ---------------------------------------------------------------- at most one group per device

  /** The console operations that can take a device out of its group. */
  predicate TakesOut(t: Tables, a: Action, d: string)
    requires HasGroup(t, d)
  {
    match a
    case Console(DeleteRoom(room)) => room == t.devices[d].roomId
    case Console(DeleteGroup(room, g)) => room == t.devices[d].roomId && t.devices[d].groupId == Some(g)
    case Console(SetDeviceGroup(room, group, e)) => e == d && room == t.devices[d].roomId && group.None?
    case DeleteDevice(room, e) => e == d && room == t.devices[d].roomId
    case _ => false
  }

  lemma QuietKeepsGroup(t: Tables, s: Tables, d: string)
    requires HasGroup(t, d) && Quiet(t, s)
    ensures HasGroup(s, d)
  {
  }

  lemma ApplyKeepsGroup(env: Env, t: Tables, e: Edit, d: string)
    requires HasGroup(t, d)
    ensures HasGroup(Apply(env, t, e).GetOr(t), d) <==> !(TakesOut(t, Console(e), d) && Apply(env, t, e).Some?)
  {
    hide ReadConfig, ResealConfig, SealConfig, RoomRemovable, RoomRemoved, Effects.CreateGroup, Effects.UpdateGroup,
         Effects.DeleteGroup, Effects.UpdateDevice;
    match e
    case Register(id, username, password, now) =>
    case DeleteAccount(id) =>
    case CreateRoom(id, owner, name, now) =>
    case DeleteRoom(room) => RoomTakesOut(t, room, d);
    case CreateGroup(room, id, name, config, nonces, now) =>
      CreateKeepsDevices(env, t, room, id, name, config, nonces, now);
    case UpdateGroup(room, x, name, config, nonces, now) =>
      UpdateKeepsDevices(env, t, room, x, name, config, nonces, now);
    case DeleteGroup(room, x) => GroupTakesOut(t, room, x, d);
    case SetDeviceGroup(room, group, x) => SetTakesOut(t, room, group, x, d);
    case UpdateDevice(room, x, edit) => UpdateKeepsGroup(t, room, x, edit, d);
  }

  lemma SetTakesOut(t: Tables, room: string, group: Option<string>, x: string, d: string)
    requires HasGroup(t, d)
    ensures HasGroup(Effects.SetDeviceGroup(t, room, group, x).GetOr(t), d)
            <==> !(x == d && group.None? && Effects.SetDeviceGroup(t, room, group, x).Some?)
  {
  }

  lemma UpdateKeepsGroup(t: Tables, room: string, x: string, edit: DeviceEdit, d: string)
    requires HasGroup(t, d)
    ensures HasGroup(Effects.UpdateDevice(t, room, x, edit).GetOr(t), d)
  {
  }

  lemma RoomTakesOut(t: Tables, room: string, d: string)
    requires HasGroup(t, d)
    ensures HasGroup(RoomRemoved(t, room), d) <==> room != t.devices[d].roomId
  {
  }

  lemma GroupTakesOut(t: Tables, room: string, g: string, d: string)
    requires HasGroup(t, d)
    ensures HasGroup(Effects.DeleteGroup(t, room, g).GetOr(t), d)
            <==> !(room == t.devices[d].roomId && t.devices[d].groupId == Some(g)
                   && Effects.DeleteGroup(t, room, g).Some?)
  {
    hide GroupHeldElsewhere;
  }

  lemma CreateKeepsDevices(env: Env, t: Tables, room: string, id: string, name: string, config: ClientConfig,
                           nonces: Nonces, now: int)
    ensures Effects.CreateGroup(env, t, room, id, name, config, 1, nonces, now).GetOr(t).devices == t.devices
  {
    hide SealConfig;
  }

  lemma UpdateKeepsDevices(env: Env, t: Tables, room: string, g: string, name: Option<string>,
                           config: Option<ClientConfig>, nonces: Nonces, now: int)
    ensures Effects.UpdateGroup(env, t, room, g, name, config, nonces, now).GetOr(t).devices == t.devices
  {
    hide ReadConfig, ResealConfig;
  }

  lemma ConnectKeepsGroup(env: Env, h: Hub, hello: ClientMessage, ip: string, session: nat,
                          freshId: string, freshToken: string, seed: PushSeed, now: int, d: string)
    requires HasGroup(h.tables, d)
    ensures HasGroup(Hubs.Connect(env, h, hello, ip, session, freshId, freshToken, seed, now).hub.tables, d)
  {
    hide DeviceConfig, PushConfig;
    if hello.Hello? && hello.protocolVersion == 1 && hello.roomId in h.tables.rooms {
      var r := UpsertDeviceHello(h.tables, hello.roomId, hello.deviceId, hello.deviceToken, hello.deviceName,
                                 hello.clientVersion, Some(ip), freshId, freshToken, now);
      if r.Admitted? {
        assert HasGroup(r.tables, d);
        hide UpsertDeviceHello;
        if r.status != KICKED {
          var registered := Hub(r.tables, h.clients[r.id := session],
                                h.outbound[session := [HelloAck(r.id, r.newToken, r.status)]]);
          PushConfigQuiet(env, registered, r.id, None, seed, now);
        }
      }
    }
  }

  lemma MessageKeepsGroup(env: Env, h: Hub, e: string, m: ClientMessage, draw: Draw, now: int, d: string)
    requires HasGroup(h.tables, d)
    ensures HasGroup(HandleMessage(env, h, e, m, draw, now).tables, d)
  {
    hide SyncReported, Quiet;
    if m.ConfigState? {
      SyncReportedJoins(env, h, e, m.configVersion, m.groupId, m.configName, m.config, m.running, draw, now);
    } else {
      OtherMessagesQuiet(env, h, e, m, draw, now);
      hide HandleMessage;
      QuietKeepsGroup(h.tables, HandleMessage(env, h, e, m, draw, now).tables, d);
    }
  }

  /** Nothing else takes a device out of its group. */
  lemma StepKeepsGroup(env: Env, h: Hub, a: Action, d: string)
    requires HasGroup(h.tables, d) && !TakesOut(h.tables, a, d)
    ensures HasGroup(Step(env, h, a).tables, d)
  {
    var t := h.tables;
    if a.DeleteDevice? { assert d in Effects.DeleteDevice(t, a.room, a.d).devices; }
    hide Apply, Effects.DeleteDevice, Effects.RegenerateToken, EditRow, Hubs.KickDevice, PushConfig, PushMembers,
         Hubs.Connect, HandleMessage, Quiet;
    match a
    case Console(edit) => ApplyKeepsGroup(env, t, edit, d);
    case DeleteDevice(room, e) => DeleteKeepsRow(t, room, e, d);
    case RegenerateToken(room, e, token) =>
      RowUpdatesQuiet(h, room, e, token);
      QuietKeepsGroup(t, Effects.RegenerateToken(t, room, e, token), d);
    case KickDevice(room, e) => RowUpdatesQuiet(h, room, e, "");
    case PushDevice(room, e, seed, now) => PushConfigQuiet(env, h, e, None, seed, now);
    case PushGroup(room, g, members, seeds, now) =>
      if |members| == |seeds| { PushMembersQuiet(env, h, g, members, seeds, now); }
    case Connect(hello, ip, session, freshId, freshToken, seed, now) =>
      ConnectKeepsGroup(env, h, hello, ip, session, freshId, freshToken, seed, now, d);
    case Message(e, m, draw, now) => MessageKeepsGroup(env, h, e, m, draw, now, d);
    case EndSession(e, session) =>
      EditRowQuiet(t, e, WentOffline);
      QuietKeepsGroup(t, EditRow(t, e, WentOffline), d);
  }

  lemma DeleteKeepsRow(t: Tables, room: string, e: string, d: string)
    requires d in t.devices && !(e == d && room == t.devices[d].roomId)
    ensures var s := Effects.DeleteDevice(t, room, e); d in s.devices && s.devices[d] == t.devices[d]
  {
  }

  /** The step is a state report of this device, and it makes a group. */
  predicate Makes(env: Env, h: Hub, a: Action, d: string) {
    && a.Message? && a.d == d && a.m.ConfigState?
    && Step(env, h, a).tables.groups.Keys != h.tables.groups.Keys
  }

  /** How many groups the device's state reports make in a run. */
  function MadeBy(env: Env, h: Hub, actions: seq<Action>, d: string): nat
    decreases |actions|
  {
    if actions == [] then 0
    else (if Makes(env, h, actions[0], d) then 1 else 0) + MadeBy(env, Step(env, h, actions[0]), actions[1..], d)
  }

  /** No step of the run takes the device out of a group it is in. */
  predicate NeverTakenOut(env: Env, h: Hub, actions: seq<Action>, d: string)
    decreases |actions|
  {
    actions == [] || (
      && (HasGroup(h.tables, d) ==> !TakesOut(h.tables, actions[0], d))
      && NeverTakenOut(env, Step(env, h, actions[0]), actions[1..], d))
  }

  /** A report makes a group only for a device that had none and has one afterwards. */
  lemma MakesGivesGroup(env: Env, h: Hub, a: Action, d: string)
    requires Makes(env, h, a, d)
    ensures !HasGroup(h.tables, d) && HasGroup(Step(env, h, a).tables, d)
  {
    var m, draw, now := a.m, a.draw, a.now;
    var recorded := if m.running then EditRow(h.tables, d, Recorded(m.configVersion, now)) else h.tables;
    if d in h.tables.devices { RecordedRow(h.tables, d, draw.id, m.configVersion, m.running, now); }
    hide EditRow, Reconcile, AdoptedRow;
    ReconcileMakes(env, h.(tables := recorded), d, m.configVersion, m.groupId, m.configName, m.config, draw, now);
  }

  lemma ReconcileMakes(env: Env, h: Hub, d: string, version: nat, groupId: Option<string>, name: Option<string>,
                       config: ClientConfig, draw: Draw, now: int)
    ensures var s := Reconcile(env, h, d, version, groupId, name, config, draw, now).tables;
            s.groups.Keys != h.tables.groups.Keys ==> d in h.tables.devices && !HasGroup(h.tables, d) && HasGroup(s, d)
  {
    hide PushIfDiffers, SealConfig, Blank, AdoptedName;
    var t := h.tables;
    if d !in t.devices {
    } else if t.devices[d].groupId.Some? {
      PushIfKeepsGroups(env, h, d, version, draw.push, now);
    } else if groupId.Some? && !Blank(groupId.value) && groupId.value in t.groups
    && t.groups[groupId.value].roomId == t.devices[d].roomId {
      PushIfKeepsGroups(env, h.(tables := SetRow(t, d, t.devices[d].(groupId := groupId))), d, version, draw.push, now);
    } else {
    }
  }

  lemma PushIfKeepsGroups(env: Env, h: Hub, d: string, version: nat, seed: PushSeed, now: int)
    ensures PushIfDiffers(env, h, d, version, seed, now).tables.groups == h.tables.groups
  {
    hide DeviceConfig, PushConfig;
    PushConfigQuiet(env, h, d, None, seed, now);
  }

  /** Whatever else happens, the device's reports make at most one group, and none if it starts in one. */
  lemma {:induction false} AtMostOneAdoption(env: Env, h: Hub, actions: seq<Action>, d: string)
    requires NeverTakenOut(env, h, actions, d)
    ensures MadeBy(env, h, actions, d) <= if HasGroup(h.tables, d) then 0 else 1
    decreases |actions|
  {
    hide Step, HasGroup, TakesOut, Makes;
    if actions == [] {
    } else {
      AtMostOneAdoption(env, Step(env, h, actions[0]), actions[1..], d);
      if HasGroup(h.tables, d) {
        StepKeepsGroup(env, h, actions[0], d);
      }
      if Makes(env, h, actions[0], d) {
        MakesGivesGroup(env, h, actions[0], d);
      }
    }
  }
}
