/** The backups of every state the console can reach: full and per user, they restore what they were taken from. */
module Reachable {
  import opened Wrappers
  import opened Models
  import opened Crypto
  import opened GroupConfig
  import opened Schema
  import opened Effects
  import opened Hubs
  import opened Runs
  import opened Invariants
  import R = Rows
  import RoundTrip
  import Ownership
  import UserRestore
  import opened StoredTables

  // ---------------------------------------------------------------- usernames stay unique

  lemma DeliverUsers(h: Hub, d: string, id: string, row: Push, message: ServerMessage)
    ensures Deliver(h, d, id, row, message).0.tables.users == h.tables.users
  {
    var h' := Deliver(h, d, id, row, message).0;
    if id in h.tables.pushes {
      assert h' == h;
    } else {
      assert h'.tables == h.tables.(pushes := h.tables.pushes[id := row]);
    }
  }

  lemma PushUsers(env: Env, h: Hub, d: string, group: Option<string>, seed: PushSeed, now: int)
    ensures PushConfig(env, h, d, group, seed, now).0.tables.users == h.tables.users
  {
    hide DeviceConfig, Hubs.PushRow, PushMessage, Deliver;
    var e := DeviceConfig(env, h.tables, d, group);
    if e.NoDevice? || d !in h.tables.devices {
    } else if e.Failure? {
    } else {
      DeliverUsers(h, d, seed.id, Hubs.PushRow(env, h.tables, d, e, seed, now), PushMessage(env, h.tables, d, e, seed));
    }
  }

  lemma {:induction false} PushMembersUsers(env: Env, h: Hub, g: string, members: seq<string>, seeds: seq<PushSeed>,
                                            now: int)
    requires |members| == |seeds|
    ensures PushMembers(env, h, g, members, seeds, now).0.tables.users == h.tables.users
    decreases |members|
  {
    hide PushConfig;
    if members == [] {
    } else {
      PushUsers(env, h, members[0], Some(g), seeds[0], now);
      PushMembersUsers(env, PushConfig(env, h, members[0], Some(g), seeds[0], now).0, g, members[1..], seeds[1..], now);
    }
  }

  lemma ReconcileUsers(env: Env, h: Hub, d: string, version: nat, groupId: Option<string>, name: Option<string>,
                       config: ClientConfig, draw: Draw, now: int)
    ensures Reconcile(env, h, d, version, groupId, name, config, draw, now).tables.users == h.tables.users
  {
    hide DeviceConfig, PushConfig, SealConfig, Blank, AdoptedName, Max;
    var t := h.tables;
    if d !in t.devices {
    } else if t.devices[d].groupId.Some? {
      PushUsers(env, h, d, None, draw.push, now);
    } else if groupId.Some? && !Blank(groupId.value) && groupId.value in t.groups
    && t.groups[groupId.value].roomId == t.devices[d].roomId {
      PushUsers(env, h.(tables := SetRow(t, d, t.devices[d].(groupId := groupId))), d, None, draw.push, now);
    } else {
    }
  }

  lemma EditUsers(t: Tables, d: string, e: RowEdit)
    ensures EditRow(t, d, e).users == t.users
  {
    hide Edited;
  }

  lemma ReportUsers(t: Tables, d: string, m: ClientMessage, id: string, now: int)
    requires m.EventReport?
    ensures ReportEvent(t, d, m, id, now).users == t.users
  {
    forall t: Tables, e: RowEdit ensures EditRow(t, d, e).users == t.users { EditUsers(t, d, e); }
    hide EditRow;
  }

  lemma MessageUsers(env: Env, h: Hub, d: string, m: ClientMessage, draw: Draw, now: int)
    ensures HandleMessage(env, h, d, m, draw, now).tables.users == h.tables.users
  {
    hide EditRow, Reconcile, ReportEvent, Marked;
    match m
    case EventReport(_, _, _, _) => ReportUsers(h.tables, d, m, draw.id, now);
    case ConfigAck(version) => EditUsers(h.tables, d, Recorded(version, now));
    case ConfigState(version, groupId, name, config, running) =>
      EditUsers(h.tables, d, Recorded(version, now));
      var recorded := if running then EditRow(h.tables, d, Recorded(version, now)) else h.tables;
      ReconcileUsers(env, h.(tables := recorded), d, version, groupId, name, config, draw, now);
    case Heartbeat => EditUsers(h.tables, d, Seen(now));
    case Disconnect => EditUsers(h.tables, d, WentOffline);
    case TrafficStats(up, down) => EditUsers(h.tables, d, Traffic(up, down, now));
    case Hello(_, _, _, _, _, _) =>
  }

  lemma ConnectUsers(env: Env, h: Hub, hello: ClientMessage, ip: string, session: nat,
                     freshId: string, freshToken: string, seed: PushSeed, now: int)
    ensures Hubs.Connect(env, h, hello, ip, session, freshId, freshToken, seed, now).hub.tables.users == h.tables.users
  {
    hide DeviceConfig, PushConfig;
    if hello.Hello? && hello.protocolVersion == 1 && hello.roomId in h.tables.rooms {
      var r := UpsertDeviceHello(h.tables, hello.roomId, hello.deviceId, hello.deviceToken, hello.deviceName,
                                 hello.clientVersion, Some(ip), freshId, freshToken, now);
      if r.Admitted? {
        assert r.tables.users == h.tables.users;
        hide UpsertDeviceHello;
        if r.status != KICKED {
          var registered := Hub(r.tables, h.clients[r.id := session],
                                h.outbound[session := [HelloAck(r.id, r.newToken, r.status)]]);
          PushUsers(env, registered, r.id, None, seed, now);
        }
      }
    }
  }

  lemma RegisterKeepsNames(t: Tables, id: string, username: string, password: string, now: int)
    requires UniqueNames(t)
    ensures UniqueNames(Effects.Register(t, id, username, password, now).GetOr(t))
  {
  }

  lemma GroupEditUsers(env: Env, t: Tables, e: Edit)
    requires e.CreateGroup? || e.UpdateGroup? || e.DeleteGroup?
    ensures Apply(env, t, e).GetOr(t).users == t.users
  {
    hide ReadConfig, ResealConfig, SealConfig, GroupHeldElsewhere, Max;
  }

  lemma UpdateUsers(t: Tables, room: string, d: string, edit: DeviceEdit)
    ensures Effects.UpdateDevice(t, room, d, edit).GetOr(t).users == t.users
  {
  }

  lemma ApplyKeepsNames(env: Env, t: Tables, e: Edit)
    requires UniqueNames(t)
    ensures UniqueNames(Apply(env, t, e).GetOr(t))
  {
    hide UniqueNames, RoomRemovable, Effects.CreateGroup, Effects.UpdateGroup, Effects.DeleteGroup,
         Effects.UpdateDevice;
    match e
    case Register(id, username, password, now) => RegisterKeepsNames(t, id, username, password, now);
    case DeleteAccount(id) => FewerNames(t, Apply(env, t, e).GetOr(t));
    case CreateRoom(id, owner, name, now) => FewerNames(t, Apply(env, t, e).GetOr(t));
    case DeleteRoom(room) => FewerNames(t, Apply(env, t, e).GetOr(t));
    case CreateGroup(room, id, name, config, nonces, now) =>
      GroupEditUsers(env, t, e);
      FewerNames(t, Apply(env, t, e).GetOr(t));
    case UpdateGroup(room, g, name, config, nonces, now) =>
      GroupEditUsers(env, t, e);
      FewerNames(t, Apply(env, t, e).GetOr(t));
    case DeleteGroup(room, g) => GroupEditUsers(env, t, e); FewerNames(t, Apply(env, t, e).GetOr(t));
    case SetDeviceGroup(room, group, d) => FewerNames(t, Apply(env, t, e).GetOr(t));
    case UpdateDevice(room, d, edit) => UpdateUsers(t, room, d, edit); FewerNames(t, Apply(env, t, e).GetOr(t));
  }

  lemma FewerNames(t: Tables, s: Tables)
    requires UniqueNames(t) && forall u <- s.users :: u in t.users && s.users[u] == t.users[u]
    ensures UniqueNames(s)
  {
  }

  lemma StepKeepsNames(env: Env, h: Hub, a: Action)
    requires UniqueNames(h.tables)
    ensures UniqueNames(Step(env, h, a).tables)
  {
    hide UniqueNames, Apply, PushConfig, PushMembers, Hubs.Connect, HandleMessage, EditRow;
    var s := Step(env, h, a).tables;
    match a
    case Console(edit) => ApplyKeepsNames(env, h.tables, edit);
    case DeleteDevice(room, d) => FewerNames(h.tables, s);
    case RegenerateToken(room, d, token) => FewerNames(h.tables, s);
    case KickDevice(room, d) => KickUsers(h, room, d); FewerNames(h.tables, s);
    case PushDevice(room, d, seed, now) => PushUsers(env, h, d, None, seed, now); FewerNames(h.tables, s);
    case PushGroup(room, g, members, seeds, now) =>
      if |members| == |seeds| { PushMembersUsers(env, h, g, members, seeds, now); }
      FewerNames(h.tables, s);
    case Connect(hello, ip, session, freshId, freshToken, seed, now) =>
      ConnectUsers(env, h, hello, ip, session, freshId, freshToken, seed, now);
      FewerNames(h.tables, s);
    case Message(d, m, draw, now) => MessageUsers(env, h, d, m, draw, now); FewerNames(h.tables, s);
    case EndSession(d, session) => EditUsers(h.tables, d, WentOffline); FewerNames(h.tables, s);
  }

  lemma KickUsers(h: Hub, room: string, d: string)
    ensures Hubs.KickDevice(h, room, d).GetOr(h).tables.users == h.tables.users
  {
    var h' := Hubs.KickDevice(h, room, d).GetOr(h);
    if d !in h.tables.devices || h.tables.devices[d].roomId != room {
      assert h' == h;
    } else {
      assert h'.tables == SetRow(h.tables, d, h.tables.devices[d].(status := KICKED));
    }
  }

  lemma {:induction false} RunKeepsNames(env: Env, h: Hub, actions: seq<Action>)
    requires UniqueNames(h.tables)
    ensures UniqueNames(Run(env, h, actions).tables)
    decreases |actions|
  {
    hide UniqueNames, Step;
    if actions == [] {
    } else {
      StepKeepsNames(env, h, actions[0]);
      RunKeepsNames(env, Step(env, h, actions[0]), actions[1..]);
    }
  }

  // ---------------------------------------------------------------- backups of reachable states

  /** A state reached from the empty database is a sound database. */
  lemma ReachableIsSound(env: Env, actions: seq<Action>)
    requires AllInRange(StoreOf(Run(env, START, actions).tables))
    ensures RoundTrip.Sound(StoreOf(Run(env, START, actions).tables))
  {
    hide RoundTrip.Sound, AllInRange, StoreOf, Step;
    RunKeepsClosed(env, START, actions);
    RunKeepsNames(env, START, actions);
    hide Run, Closed, UniqueNames;
    StoredAreSound(Run(env, START, actions).tables);
  }

  /** When every device edit of the run named a group of its room or none, each user's devices use the user's groups. */
  lemma CheckedRunsStayAtHome(env: Env, actions: seq<Action>, uid: string)
    requires RunChecked(env, START, actions)
    ensures Ownership.GroupsAtHome(StoreOf(Run(env, START, actions).tables), uid)
  {
    hide Ownership.GroupsInRoom, Ownership.GroupsAtHome, StoreOf, Step;
    RunFromStart(env, actions, "");
    hide Run, SameRoom;
    SameRoomIsStored(Run(env, START, actions).tables);
    Ownership.GroupsInRoomAreAtHome(StoreOf(Run(env, START, actions).tables), uid);
  }

  /**
   * After every run from the empty database the full backup restores the whole database: what is imported is the stored
   * form of the console's tables without the sessions, and of no other tables. A user's backup restores on its own
   * exactly when the user's devices use the user's groups, and then it restores exactly that user's part.
   */
  lemma ReachableBackupsRestore(env: Env, actions: seq<Action>, numeric: string -> R.Cell, target: R.Store,
                                full: RoundTrip.Order, uid: string, own: RoundTrip.Order)
    requires AllInRange(StoreOf(Run(env, START, actions).tables)) && R.Closed(target)
    requires full.Covers(StoreOf(Run(env, START, actions).tables))
    requires Ownership.CoversOwner(own, StoreOf(Run(env, START, actions).tables), uid)
    ensures var t := Run(env, START, actions).tables;
            var s := StoreOf(t);
            && RoundTrip.Export(s, full).AllKeyed(numeric) && RoundTrip.Export(s, own).AllKeyed(numeric)
            && var all := R.Import(numeric, target, RoundTrip.Export(s, full), true);
               var part := R.Import(numeric, target, RoundTrip.Export(s, own), true);
               && all.Loaded? && all.store == StoreOf(t.(sessions := map[]))
               && (forall u: Tables :: StoreOf(u) == all.store <==> u == t.(sessions := map[]))
               && (part.Loaded? <==> Ownership.GroupsAtHome(s, uid))
               && (part.Loaded? ==> part.store == Ownership.Owned(s, uid))
  {
    hide RoundTrip.Sound, Ownership.GroupsAtHome, Ownership.CoversOwner, Ownership.Owned, AllInRange, Run, R.Import,
         R.Backup.AllKeyed, RoundTrip.Export, RoundTrip.FullReports, R.Closed, RoundTrip.Order.Covers, StoreOf;
    var t := Run(env, START, actions).tables;
    var s := StoreOf(t);
    ReachableIsSound(env, actions);
    SessionsDropped(t);
    RoundTrip.BackupRoundTrip(numeric, s, full, target);
    forall u: Tables | StoreOf(u) == StoreOf(t.(sessions := map[])) ensures u == t.(sessions := map[]) {
      StoredOnce(u, t.(sessions := map[]));
    }
    UserRestore.UserBackupRestoresIff(numeric, s, uid, own, target);
  }

  lemma SessionsDropped(t: Tables)
    ensures StoreOf(t.(sessions := map[])) == StoreOf(t).(sessions := map[])
  {
    hide StoredUser, StoredRoom, StoredGroup, StoredDevice, StoredEvent, StoredPush, StoredSession, StoredSetting;
  }
}
