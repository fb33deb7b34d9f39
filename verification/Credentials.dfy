/** Which token admits a device, over whole runs: the last one issued for it, until it is revoked, and never again. */
module Credentials {
  import opened Wrappers
  import opened Models
  import opened Crypto
  import opened GroupConfig
  import opened Schema
  import opened Effects
  import opened Hubs
  import opened Runs
  import opened Operations
  import opened Sessions
  import opened Invariants

  /** The room and the token under which the device is admitted. */
  function CredentialOf(t: Tables, d: string): Option<(string, string)> {
    if d in t.devices then Some((t.devices[d].roomId, t.devices[d].deviceToken)) else None
  }

  /** The step is the enrolment that makes the device. */
  predicate Enrols(t: Tables, a: Action, d: string) {
    a.Connect? && a.freshId == d && !ShowsToken(a.hello) && Accepts(t, a.hello, d)
  }

  /** What a step does to a device's credential: only enrolment and replacement issue, only deletions withdraw. */
  function NextCredential(t: Tables, a: Action, d: string): Option<(string, string)> {
    var now := CredentialOf(t, d);
    match a
    case Connect(hello, _, _, _, freshToken, _, _) =>
      if Enrols(t, a, d) then Some((hello.roomId, freshToken)) else now
    case RegenerateToken(room, e, token) =>
      if e == d && now.Some? && now.value.0 == room then Some((room, token)) else now
    case DeleteDevice(room, e) => if e == d && now.Some? && now.value.0 == room then None else now
    case Console(DeleteRoom(room)) =>
      if now.Some? && now.value.0 == room && Effects.DeleteRoom(t, room).Some? then None else now
    case _ => now
  }

  // ---------------------------------------------------------------- one step

  /** Every device keeps its room and its token, and none comes or goes. */
  ghost predicate CredentialsKept(t: Tables, s: Tables) {
    && s.devices.Keys == t.devices.Keys
    && forall d <- t.devices ::
         s.devices[d].roomId == t.devices[d].roomId && s.devices[d].deviceToken == t.devices[d].deviceToken
  }

  lemma SameDevicesKeep(t: Tables, s: Tables)
    requires s.devices == t.devices
    ensures CredentialsKept(t, s)
  {
  }

  lemma KeptTransitive(t: Tables, s: Tables, u: Tables)
    requires CredentialsKept(t, s) && CredentialsKept(s, u)
    ensures CredentialsKept(t, u)
  {
  }

  lemma SetRowKeeps(t: Tables, d: string, row: Device)
    requires d in t.devices && row.roomId == t.devices[d].roomId && row.deviceToken == t.devices[d].deviceToken
    ensures CredentialsKept(t, SetRow(t, d, row))
  {
  }

  lemma EditRowKeeps(t: Tables, d: string, e: RowEdit)
    ensures CredentialsKept(t, EditRow(t, d, e))
  {
    if d in t.devices {
      SetRowKeeps(t, d, Edited(t.devices[d], e));
    } else {
    }
  }

  lemma EditKeeps(env: Env, t: Tables, e: Edit)
    requires !e.DeleteRoom?
    ensures CredentialsKept(t, Apply(env, t, e).GetOr(t))
  {
    SameDevicesKeep(t, t);
    hide CredentialsKept, Effects.CreateGroup, Effects.UpdateGroup, Effects.DeleteGroup, Effects.SetDeviceGroup,
         Effects.UpdateDevice;
    match e
    case Register(id, username, password, now) => SameDevicesKeep(t, Apply(env, t, e).GetOr(t));
    case DeleteAccount(id) => SameDevicesKeep(t, Apply(env, t, e).GetOr(t));
    case CreateRoom(id, owner, name, now) => SameDevicesKeep(t, Apply(env, t, e).GetOr(t));
    case CreateGroup(room, id, name, config, nonces, now) =>
      CreateGroupSame(env, t, room, id, name, config, nonces, now);
      SameDevicesKeep(t, Apply(env, t, e).GetOr(t));
    case UpdateGroup(room, g, name, config, nonces, now) =>
      UpdateGroupSame(env, t, room, g, name, config, nonces, now);
      SameDevicesKeep(t, Apply(env, t, e).GetOr(t));
    case DeleteGroup(room, g) => DeleteGroupKeeps(t, room, g);
    case SetDeviceGroup(room, group, d) => SetGroupKeeps(t, room, group, d);
    case UpdateDevice(room, d, edit) => UpdateKeeps(t, room, d, edit);
  }

  lemma CreateGroupSame(env: Env, t: Tables, room: string, id: string, name: string, config: ClientConfig,
                        nonces: Nonces, now: int)
    ensures Effects.CreateGroup(env, t, room, id, name, config, 1, nonces, now).GetOr(t).devices == t.devices
  {
    hide SealConfig;
  }

  lemma UpdateGroupSame(env: Env, t: Tables, room: string, g: string, name: Option<string>,
                        config: Option<ClientConfig>, nonces: Nonces, now: int)
    ensures Effects.UpdateGroup(env, t, room, g, name, config, nonces, now).GetOr(t).devices == t.devices
  {
    hide ReadConfig, ResealConfig;
  }

  lemma DeleteGroupKeeps(t: Tables, room: string, g: string)
    ensures CredentialsKept(t, Effects.DeleteGroup(t, room, g).GetOr(t))
  {
    GroupDeletion(t, room, g);
    hide Effects.DeleteGroup;
  }

  lemma SetGroupKeeps(t: Tables, room: string, group: Option<string>, d: string)
    ensures CredentialsKept(t, Effects.SetDeviceGroup(t, room, group, d).GetOr(t))
  {
    SameDevicesKeep(t, t);
    if Effects.SetDeviceGroup(t, room, group, d).Some? {
      SetRowKeeps(t, d, t.devices[d].(groupId := group));
      hide CredentialsKept;
    }
  }

  lemma UpdateKeeps(t: Tables, room: string, d: string, edit: DeviceEdit)
    ensures CredentialsKept(t, Effects.UpdateDevice(t, room, d, edit).GetOr(t))
  {
    if Effects.UpdateDevice(t, room, d, edit).Some? {
      SetRowKeeps(t, d, Effects.UpdateDevice(t, room, d, edit).value.devices[d]);
    }
  }

  lemma MessageKeeps(env: Env, h: Hub, d: string, m: ClientMessage, draw: Draw, now: int)
    ensures CredentialsKept(h.tables, HandleMessage(env, h, d, m, draw, now).tables)
  {
    var t := h.tables;
    SameDevicesKeep(t, t);
    hide CredentialsKept, SyncReported, EditRow, ReportEvent;
    match m
    case EventReport(_, _, _, _) => ReportEventKeeps(t, d, m, draw.id, now);
    case ConfigAck(version) =>
      EditRowKeeps(t, d, Recorded(version, now));
      var s := EditRow(t, d, Recorded(version, now));
      SameDevicesKeep(s, MarkAcked(s, draw.settled));
      KeptTransitive(t, s, MarkAcked(s, draw.settled));
    case ConfigState(version, groupId, name, config, running) =>
      ReportKeeps(env, h, d, version, groupId, name, config, running, draw, now);
    case Heartbeat => EditRowKeeps(t, d, Seen(now));
    case Disconnect => EditRowKeeps(t, d, WentOffline);
    case TrafficStats(up, down) => EditRowKeeps(t, d, Traffic(up, down, now));
    case Hello(_, _, _, _, _, _) =>
  }

  lemma ReportEventKeeps(t: Tables, d: string, m: ClientMessage, id: string, now: int)
    requires m.EventReport?
    ensures CredentialsKept(t, ReportEvent(t, d, m, id, now))
  {
    EventReported(t, d, m, id, now);
    hide ReportEvent;
    if d in t.devices {
    } else {
    }
  }

  lemma ReportKeeps(env: Env, h: Hub, d: string, version: nat, groupId: Option<string>, name: Option<string>,
                    config: ClientConfig, running: bool, draw: Draw, now: int)
    ensures CredentialsKept(h.tables,
                            SyncReported(env, h, d, version, groupId, name, config, running, draw, now).tables)
  {
    var recorded := if running then EditRow(h.tables, d, Recorded(version, now)) else h.tables;
    SameDevicesKeep(h.tables, h.tables);
    EditRowKeeps(h.tables, d, Recorded(version, now));
    hide CredentialsKept, EditRow, Reconcile;
    ReconcileKeeps(env, h.(tables := recorded), d, version, groupId, name, config, draw, now);
    KeptTransitive(h.tables, recorded,
                   Reconcile(env, h.(tables := recorded), d, version, groupId, name, config, draw, now).tables);
  }

  lemma ReconcileKeeps(env: Env, h: Hub, d: string, version: nat, groupId: Option<string>, name: Option<string>,
                       config: ClientConfig, draw: Draw, now: int)
    ensures CredentialsKept(h.tables, Reconcile(env, h, d, version, groupId, name, config, draw, now).tables)
  {
    hide PushIfDiffers, Adopt, CredentialsKept;
    var t := h.tables;
    SameDevicesKeep(t, t);
    if d !in t.devices {
    } else if t.devices[d].groupId.Some? {
      PushIfKeeps(env, h, d, version, draw.push, now);
    } else if groupId.Some? && !Blank(groupId.value) && groupId.value in t.groups
              && t.groups[groupId.value].roomId == t.devices[d].roomId {
      var joined := SetRow(t, d, t.devices[d].(groupId := groupId));
      SetRowKeeps(t, d, t.devices[d].(groupId := groupId));
      PushIfKeeps(env, h.(tables := joined), d, version, draw.push, now);
      KeptTransitive(t, joined, PushIfDiffers(env, h.(tables := joined), d, version, draw.push, now).tables);
    } else {
      AdoptKeeps(env, t, d, draw.id, AdoptedName(name), config, version, draw.nonces, now);
    }
  }

  lemma PushIfKeeps(env: Env, h: Hub, d: string, version: nat, seed: PushSeed, now: int)
    ensures CredentialsKept(h.tables, PushIfDiffers(env, h, d, version, seed, now).tables)
  {
    PushConfigQuiet(env, h, d, None, seed, now);
    hide PushConfig, DeviceConfig;
  }

  lemma AdoptKeeps(env: Env, t: Tables, d: string, id: string, name: string, config: ClientConfig, version: nat,
                   nonces: Nonces, now: int)
    requires d in t.devices
    ensures CredentialsKept(t, Adopt(env, t, d, id, name, config, version, nonces, now))
  {
    hide SealConfig;
  }

  lemma ConnectKeeps(env: Env, h: Hub, a: Action, d: string)
    requires a.Connect?
    ensures CredentialOf(Step(env, h, a).tables, d) == NextCredential(h.tables, a, d)
  {
    var t := h.tables;
    hide DeviceConfig, PushConfig, PushIfBehind;
    if !Accepts(t, a.hello, a.freshId) {
      HelloTurnedAway(env, h, a.hello, a.ip, a.session, a.freshId, a.freshToken, a.seed, a.now);
    } else {
      var r := UpsertDeviceHello(t, a.hello.roomId, a.hello.deviceId, a.hello.deviceToken, a.hello.deviceName,
                                 a.hello.clientVersion, Some(a.ip), a.freshId, a.freshToken, a.now);
      assert r.Admitted? && CredentialOf(r.tables, d) == NextCredential(t, a, d);
      hide UpsertDeviceHello, Accepts;
      if r.status != KICKED {
        var registered := Hub(r.tables, h.clients[r.id := a.session],
                              h.outbound[a.session := [HelloAck(r.id, r.newToken, r.status)]]);
        PushConfigQuiet(env, registered, r.id, None, a.seed, a.now);
        BehindSame(env, registered, r.id, a.seed, a.now);
      }
    }
  }

  lemma BehindSame(env: Env, h: Hub, d: string, seed: PushSeed, now: int)
    ensures PushIfBehind(env, h, d, seed, now).tables.devices == h.tables.devices
  {
    PushConfigQuiet(env, h, d, None, seed, now);
    hide PushConfig, DeviceConfig;
  }

  /** The tables change a device's credential in no step but those four, and there as stated. */
  lemma StepCredential(env: Env, h: Hub, a: Action, d: string)
    ensures CredentialOf(Step(env, h, a).tables, d) == NextCredential(h.tables, a, d)
  {
    var t := h.tables;
    hide CredentialsKept, Apply, Effects.DeleteDevice, Effects.RegenerateToken, EditRow, Hubs.KickDevice, PushConfig,
         PushMembers, Hubs.Connect, HandleMessage, Kick, Effects.DeleteRoom, RoomRemoved, Accepts;
    match a
    case Console(edit) =>
      if edit.DeleteRoom? { RoomDeletionRevokes(env, t, edit.room, d); } else {
        EditKeeps(env, t, edit);
        KeptIsSame(t, Apply(env, t, edit).GetOr(t), d);
      }
    case DeleteDevice(room, e) => DeviceDeletion(t, room, e);
    case RegenerateToken(room, e, token) => TokenReplaced(t, room, e, token);
    case KickDevice(room, e) =>
      KickTells(h, room, e);
      KickMarks(t, room, e);
      KickKeeps(h, room, e);
      KeptIsSame(t, Step(env, h, a).tables, d);
    case PushDevice(room, e, seed, now) => PushConfigQuiet(env, h, e, None, seed, now);
    case PushGroup(room, g, members, seeds, now) =>
      if |members| == |seeds| { PushMembersQuiet(env, h, g, members, seeds, now); }
    case Connect(_, _, _, _, _, _, _) => ConnectKeeps(env, h, a, d);
    case Message(e, m, draw, now) =>
      MessageKeeps(env, h, e, m, draw, now);
      KeptIsSame(t, Step(env, h, a).tables, d);
    case EndSession(e, session) =>
      EditRowKeeps(t, e, WentOffline);
      KeptIsSame(t, Step(env, h, a).tables, d);
  }

  lemma KeptIsSame(t: Tables, s: Tables, d: string)
    requires CredentialsKept(t, s)
    ensures CredentialOf(s, d) == CredentialOf(t, d)
  {
  }

  lemma KickKeeps(h: Hub, room: string, d: string)
    ensures CredentialsKept(h.tables, Hubs.KickDevice(h, room, d).GetOr(h).tables)
  {
    KickTells(h, room, d);
    KickMarks(h.tables, room, d);
    hide Hubs.KickDevice, Kick;
  }

  lemma RoomDeletionRevokes(env: Env, t: Tables, room: string, d: string)
    ensures CredentialOf(Apply(env, t, Edit.DeleteRoom(room)).GetOr(t), d)
            == NextCredential(t, Console(Edit.DeleteRoom(room)), d)
  {
    RoomDeletion(t, room);
    hide Effects.DeleteRoom;
  }

  // ---------------------------------------------------------------- runs

  /** The step gives out this token for the device in the room. */
  predicate Issues(a: Action, room: string, d: string, token: string) {
    || (a.Connect? && a.hello.Hello? && a.hello.roomId == room && a.freshId == d && a.freshToken == token)
    || a == Action.RegenerateToken(room, d, token)
  }

  /** The step can withdraw the device's credential in the room. */
  predicate Withdraws(a: Action, room: string, d: string) {
    || a == Action.DeleteDevice(room, d)
    || a == Console(Edit.DeleteRoom(room))
    || (a.RegenerateToken? && a.room == room && a.d == d)
  }

  /** A token that is not in force admits nobody until it is given out again: once revoked it stays revoked. */
  lemma {:induction false} RevokedStaysRevoked(env: Env, h: Hub, actions: seq<Action>, room: string, d: string,
                                               token: string)
    requires !Authentic(h.tables, room, d, token)
    requires forall a <- actions :: !Issues(a, room, d, token)
    ensures !Authentic(Run(env, h, actions).tables, room, d, token)
    decreases |actions|
  {
    hide Step;
    if actions == [] {
    } else {
      assert actions[0] in actions;
      StepCredential(env, h, actions[0], d);
      hide Accepts;
      RevokedStaysRevoked(env, Step(env, h, actions[0]), actions[1..], room, d, token);
    }
  }

  /** A token in force stays in force until its device or room is deleted or its token replaced. */
  lemma {:induction false} TokenStaysInForce(env: Env, h: Hub, actions: seq<Action>, room: string, d: string,
                                             token: string)
    requires Authentic(h.tables, room, d, token)
    requires forall a <- actions :: !Withdraws(a, room, d)
    ensures Authentic(Run(env, h, actions).tables, room, d, token)
    decreases |actions|
  {
    hide Step;
    if actions == [] {
    } else {
      assert actions[0] in actions;
      StepCredential(env, h, actions[0], d);
      EnrolmentIsOfNew(h.tables, actions[0], d);
      hide Accepts;
      TokenStaysInForce(env, Step(env, h, actions[0]), actions[1..], room, d, token);
    }
  }

  lemma EnrolmentIsOfNew(t: Tables, a: Action, d: string)
    ensures Enrols(t, a, d) ==> d !in t.devices
  {
  }

  /**
   * In every state reached from the empty database a hello is accepted with an id and a token only if a step of the run
   * gave out that token for that id in that room, and no later step deleted the device there or replaced the token.
   */
  lemma {:induction false} AcceptedWasIssued(env: Env, actions: seq<Action>, room: string, d: string, token: string)
    returns (i: nat)
    requires Authentic(Run(env, START, actions).tables, room, d, token)
    ensures i < |actions| && Issues(actions[i], room, d, token)
    ensures forall j :: i < j < |actions| ==>
              && actions[j] != Action.DeleteDevice(room, d)
              && (actions[j].RegenerateToken? && actions[j].room == room && actions[j].d == d ==>
                    actions[j].token == token)
    decreases |actions|
  {
    hide Step;
    if actions == [] {
      assert false;
    } else {
      var n := |actions| - 1;
      var front, last := actions[..n], actions[n];
      RunEnds(env, START, front, last);
      assert actions == front + [last];
      var before := Run(env, START, front);
      StepCredential(env, before, last, d);
      hide Accepts, Run;
      if Authentic(before.tables, room, d, token) && !Issues(last, room, d, token) {
        i := AcceptedWasIssued(env, front, room, d, token);
      } else {
        i := n;
      }
    }
  }

  lemma {:induction false} RunEnds(env: Env, h: Hub, front: seq<Action>, last: Action)
    ensures Run(env, h, front + [last]) == Step(env, Run(env, h, front), last)
    decreases |front|
  {
    hide Step;
    if front == [] {
      assert ([last] + [])[1..] == [];
      assert front + [last] == [last];
    } else {
      RunEnds(env, Step(env, h, front[0]), front[1..], last);
      assert (front + [last])[1..] == front[1..] + [last];
    }
  }

  /** What a device was given when it enrolled admits it for as long as nobody withdraws it, whatever else happens. */
  lemma EnrolledIsAccepted(env: Env, h: Hub, a: Action, actions: seq<Action>, hello: ClientMessage, freshId: string)
    requires a.Connect? && Enrols(h.tables, a, a.freshId) && Closed(h.tables)
    requires forall b <- actions :: !Withdraws(b, a.hello.roomId, a.freshId)
    requires ShowsToken(hello) && hello.protocolVersion == 1 && hello.roomId == a.hello.roomId
    requires hello.deviceId == Some(a.freshId) && hello.deviceToken == Some(a.freshToken)
    ensures Accepts(Run(env, Step(env, h, a), actions).tables, hello, freshId)
  {
    StepCredential(env, h, a, a.freshId);
    StepKeepsClosed(env, h, a);
    RunKeepsClosed(env, Step(env, h, a), actions);
    hide Step, Run;
    TokenStaysInForce(env, Step(env, h, a), actions, a.hello.roomId, a.freshId, a.freshToken);
  }

  /** A token that has been replaced, or whose device has been deleted, is refused in every later state. */
  lemma WithdrawnIsRefused(env: Env, h: Hub, a: Action, actions: seq<Action>, hello: ClientMessage, ip: string,
                           session: nat, freshId: string, freshToken: string, seed: PushSeed, now: int)
    requires ShowsToken(hello) && hello.protocolVersion == 1
    requires var d, token := hello.deviceId.value, hello.deviceToken.value;
             && Authentic(h.tables, hello.roomId, d, token) && !Issues(a, hello.roomId, d, token)
             && (a == Action.DeleteDevice(hello.roomId, d)
                 || (a.RegenerateToken? && a.room == hello.roomId && a.d == d))
             && forall b <- actions :: !Issues(b, hello.roomId, d, token)
    ensures var k := Run(env, Step(env, h, a), actions);
            Hubs.Connect(env, k, hello, ip, session, freshId, freshToken, seed, now) == Turned(k, [])
  {
    var d, token := hello.deviceId.value, hello.deviceToken.value;
    StepCredential(env, h, a, d);
    hide Step, Run;
    RevokedStaysRevoked(env, Step(env, h, a), actions, hello.roomId, d, token);
    var k := Run(env, Step(env, h, a), actions);
    HelloTurnedAway(env, k, hello, ip, session, freshId, freshToken, seed, now);
  }
}
