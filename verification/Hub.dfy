/** The console as a whole: the tables, the registered clients and the messages queued for their sessions. */
module Hubs {
  import opened Wrappers
  import opened Models
  import opened Crypto
  import opened GroupConfig
  import opened Schema
  import opened Effects

  /** `clients` gives the session registered for a device; `outbound` the messages queued for a live session. */
  datatype Hub = Hub(tables: Tables, clients: map<string, nat>, outbound: map<nat, seq<ServerMessage>>)

  /** The fresh id and nonce drawn for one push. */
  datatype PushSeed = PushSeed(id: string, nonce: Bytes)

  /** What a handler draws afresh: a row id, nonces for a group, the seed of a push, and the push row an ack settles. */
  datatype Draw = Draw(id: string, nonces: Nonces, push: PushSeed, settled: Option<string>)

  datatype PushResult = Pushed(sent: bool) | NotFound | Failed

  function Queue(h: Hub, session: nat, message: ServerMessage): Hub {
    if session in h.outbound then h.(outbound := h.outbound[session := h.outbound[session] + [message]]) else h
  }

  function Commit(h: Hub, next: Option<Tables>): Hub {
    h.(tables := next.GetOr(h.tables))
  }

  // ---------------------------------------------------------------- pushing configurations

  function GroupName(t: Tables, g: Option<string>): Option<string> {
    if g.Some? && g.value in t.groups then Some(t.groups[g.value].name) else None
  }

  function PayloadOf(t: Tables, d: string, e: Effective): PushPayload
    requires e.Effective?
  {
    PushPayload(d, e.groupId, GroupName(t, e.groupId), e.version, e.config)
  }

  /** Ciphertext and nonce of a payload under the device's own key for that version. */
  function SealPayload(env: Env, d: string, token: string, payload: PushPayload, nonce: Bytes): (string, string) {
    EncryptParts(env, PushKeyMaterial(d, token), PushContext(d, AsU32(payload.configVersion)),
                 env.payloadJson(payload), nonce)
  }

  /** What a client that knows its id and token reads in a push. */
  function OpenPush(env: Env, d: string, token: string, m: ServerMessage): Option<PushPayload>
    requires m.ConfigPush?
  {
    match DecryptParts(env, PushKeyMaterial(d, token), PushContext(d, m.version), m.encryptedConfig, m.nonce)
    case None => None
    case Some(text) => env.parsePayload(text)
  }

  /** The message and the row of one push. */
  function PushMessage(env: Env, t: Tables, d: string, e: Effective, seed: PushSeed): ServerMessage
    requires d in t.devices && e.Effective?
  {
    var (ciphertext, nonce) := SealPayload(env, d, t.devices[d].deviceToken, PayloadOf(t, d, e), seed.nonce);
    ConfigPush(AsU32(e.version), ciphertext, nonce)
  }

  function PushRow(env: Env, t: Tables, d: string, e: Effective, seed: PushSeed, now: int): Push
    requires d in t.devices && e.Effective?
  {
    Push(d, e.groupId, PushMessage(env, t, d, e, seed).encryptedConfig, now, 0)
  }

  /** Records a push row and, when the device is registered, queues the message for its session. */
  function Deliver(h: Hub, d: string, id: string, row: Push, message: ServerMessage): (Hub, PushResult) {
    if id in h.tables.pushes then (h, Failed) else
      var recorded := h.(tables := h.tables.(pushes := h.tables.pushes[id := row]));
      if d in h.clients then (Queue(recorded, h.clients[d], message), Pushed(true)) else (recorded, Pushed(false))
  }

  function PushEffective(env: Env, h: Hub, d: string, e: Effective, seed: PushSeed, now: int): (Hub, PushResult) {
    if e.NoDevice? || d !in h.tables.devices then (h, NotFound)
    else if e.Failure? then (h, Failed)
    else Deliver(h, d, seed.id, PushRow(env, h.tables, d, e, seed, now), PushMessage(env, h.tables, d, e, seed))
  }

  function PushConfig(env: Env, h: Hub, d: string, group: Option<string>, seed: PushSeed, now: int): (Hub, PushResult) {
    PushEffective(env, h, d, DeviceConfig(env, h.tables, d, group), seed, now)
  }

  /** Pushes to each listed member in turn and stops at the first error. */
  function PushMembers(env: Env, h: Hub, g: string, members: seq<string>, seeds: seq<PushSeed>, now: int): (Hub,
                       Option<nat>)
    requires |members| == |seeds|
    decreases |members|
  {
    if members == [] then (h, Some(0)) else
      var (h', r) := PushConfig(env, h, members[0], Some(g), seeds[0], now);
      if !r.Pushed? then (h', None) else
        var (h'', count) := PushMembers(env, h', g, members[1..], seeds[1..], now);
        (h'', if count.None? then None else Some(count.value + if r.sent then 1 else 0))
  }

  /** On reconnect: push when the group is ahead of the device. */
  function PushIfBehind(env: Env, h: Hub, d: string, seed: PushSeed, now: int): Hub {
    if d !in h.tables.devices || h.tables.devices[d].groupId.None? then h else
      var e := DeviceConfig(env, h.tables, d, None);
      if e.Effective? && e.version > h.tables.devices[d].configVersion
      then PushConfig(env, h, d, None, seed, now).0 else h
  }

  /** On a state report: push when the group's version is not the reported one. */
  function PushIfDiffers(env: Env, h: Hub, d: string, reported: nat, seed: PushSeed, now: int): Hub {
    var e := DeviceConfig(env, h.tables, d, None);
    if e.Effective? && AsU32(e.version) != reported then PushConfig(env, h, d, None, seed, now).0 else h
  }

  // ---------------------------------------------------------------- client messages

  predicate IsWhitespace(c: char) {
    || '\t' <= c <= '\r' || c == ' ' || c == '\U{85}' || c == '\U{A0}' || c == '\U{1680}'
    || '\U{2000}' <= c <= '\U{200A}' || c == '\U{2028}' || c == '\U{2029}' || c == '\U{202F}'
    || c == '\U{205F}' || c == '\U{3000}'
  }

  /** Nothing is left of the text after trimming. */
  predicate Blank(s: string) {
    forall k :: 0 <= k < |s| ==> IsWhitespace(s[k])
  }

  const CACHED_NAME := "\U{5BA2}\U{6237}\U{7AEF}\U{7F13}\U{5B58}\U{914D}\U{7F6E}"

  function AdoptedName(name: Option<string>): string {
    if name.Some? && !Blank(name.value) then name.value else CACHED_NAME
  }

  /** Makes a group of the reported configuration and puts the device in it. */
  function Adopt(env: Env, t: Tables, d: string, id: string, name: string, config: ClientConfig, version: nat,
                 nonces: Nonces, now: int): Tables
    requires d in t.devices
  {
    var room := t.devices[d].roomId;
    match CreateGroup(env, t, room, id, name, config, version, nonces, now)
    case None => t
    case Some(grown) => SetRow(grown, d, t.devices[d].(groupId := Some(id), configVersion := version))
  }

  /** Brings a reported state and the device's group together: push, join the reported group, or adopt the report. */
  function Reconcile(env: Env, h: Hub, d: string, version: nat, groupId: Option<string>, name: Option<string>,
                     config: ClientConfig, draw: Draw, now: int): Hub
  {
    var t := h.tables;
    if d !in t.devices then h else
      var row := t.devices[d];
      if row.groupId.Some? then PushIfDiffers(env, h, d, version, draw.push, now)
      else if groupId.Some? && !Blank(groupId.value) && groupId.value in t.groups
          && t.groups[groupId.value].roomId == row.roomId
      then PushIfDiffers(env, h.(tables := SetRow(t, d, row.(groupId := groupId))), d, version, draw.push, now)
      else h.(tables := Adopt(env, t, d, draw.id, AdoptedName(name), config, version, draw.nonces, now))
  }

  function SyncReported(env: Env, h: Hub, d: string, version: nat, groupId: Option<string>, name: Option<string>,
                        config: ClientConfig, running: bool, draw: Draw, now: int): Hub
  {
    var recorded := if running then EditRow(h.tables, d, Recorded(version, now)) else h.tables;
    Reconcile(env, h.(tables := recorded), d, version, groupId, name, config, draw, now)
  }

  predicate Unacked(rows: map<string, Push>, d: string, p: string) {
    p in rows && rows[p].deviceId == d && rows[p].acked == 0
  }

  /** A row the ack's subquery may return: unacked, and none of the device's unacked rows is later. */
  predicate LatestUnacked(rows: map<string, Push>, d: string, p: string) {
    Unacked(rows, d, p) && forall q <- rows :: Unacked(rows, d, q) ==> rows[q].pushedAt <= rows[p].pushedAt
  }

  /** The subquery returns a latest row when there is one, and otherwise none. */
  predicate Settles(rows: map<string, Push>, d: string, settled: Option<string>) {
    match settled
    case Some(p) => LatestUnacked(rows, d, p)
    case None => forall q <- rows :: !Unacked(rows, d, q)
  }

  function Marked(rows: map<string, Push>, settled: Option<string>): map<string, Push> {
    if settled.Some? && settled.value in rows then rows[settled.value := rows[settled.value].(acked := 1)] else rows
  }

  function MarkAcked(t: Tables, settled: Option<string>): Tables {
    t.(pushes := Marked(t.pushes, settled))
  }

  function ReportEvent(t: Tables, d: string, m: ClientMessage, id: string, now: int): Tables
    requires m.EventReport?
  {
    var t1 := if m.traffic.Some? then EditRow(t, d, Traffic(m.traffic.value.0, m.traffic.value.1, now)) else t;
    var t2 := if m.vntsStatus.Some? then EditRow(t1, d, Vnts(m.vntsStatus.value.0, m.vntsStatus.value.1, now)) else t1;
    AddEvent(t2, id, d, m.eventType, m.payload, now).GetOr(t2)
  }

  function HandleMessage(env: Env, h: Hub, d: string, m: ClientMessage, draw: Draw, now: int): Hub {
    match m
    case EventReport(_, _, _, _) => h.(tables := ReportEvent(h.tables, d, m, draw.id, now))
    case ConfigAck(version) => h.(tables := MarkAcked(EditRow(h.tables, d, Recorded(version, now)), draw.settled))
    case ConfigState(version, groupId, name, config, running) =>
      SyncReported(env, h, d, version, groupId, name, config, running, draw, now)
    case Heartbeat => h.(tables := EditRow(h.tables, d, Seen(now)))
    case Disconnect => h.(clients := h.clients - {d}, tables := EditRow(h.tables, d, WentOffline))
    case TrafficStats(up, down) => h.(tables := EditRow(h.tables, d, Traffic(up, down, now)))
    case Hello(_, _, _, _, _, _) => h
  }

  // ---------------------------------------------------------------- sessions

  const UNSUPPORTED := "unsupported protocol version"

  /** The outcome of a hello: refused with a reply, told it is kicked, or registered under its id. */
  datatype Join = Turned(hub: Hub, reply: seq<ServerMessage>) | Joined(hub: Hub, id: string)

  function Connect(env: Env, h: Hub, hello: ClientMessage, ip: string, session: nat,
                   freshId: string, freshToken: string, seed: PushSeed, now: int): Join
  {
    if !hello.Hello? then Turned(h, [])
    else if hello.protocolVersion != 1 then Turned(h, [KickNotice(UNSUPPORTED)])
    else if hello.roomId !in h.tables.rooms then Turned(h, [])
    else
      match UpsertDeviceHello(h.tables, hello.roomId, hello.deviceId, hello.deviceToken, hello.deviceName,
                              hello.clientVersion, Some(ip), freshId, freshToken, now)
      case Refused => Turned(h, [])
      case Admitted(t, id, newToken, status) =>
        var welcome := HelloAck(id, newToken, status);
        if status == KICKED then Turned(h.(tables := t), [welcome]) else
          var registered := Hub(t, h.clients[id := session], h.outbound[session := [welcome]]);
          Joined(PushIfBehind(env, registered, id, seed, now), id)
  }

  /** The end of a session unregisters whatever session the device has, and drops its own queue. */
  function EndSession(h: Hub, d: string, session: nat): Hub {
    Hub(EditRow(h.tables, d, WentOffline), h.clients - {d}, h.outbound - {session})
  }

  // ---------------------------------------------------------------- console operations on devices

  const KICK_REASON := "kicked by console"

  function KickDevice(h: Hub, room: string, d: string): Option<Hub> {
    match Kick(h.tables, room, d)
    case None => None
    case Some(t) =>
      var h' := h.(tables := t);
      Some(if d in h.clients then Queue(h', h.clients[d], KickNotice(KICK_REASON)).(clients := h.clients - {d}) else h')
  }

  function RemoveDevice(h: Hub, room: string, d: string): Hub {
    h.(tables := DeleteDevice(h.tables, room, d), clients := h.clients - {d})
  }

  function ReplaceToken(h: Hub, room: string, d: string, token: string): Hub {
    h.(tables := RegenerateToken(h.tables, room, d, token), clients := h.clients - {d})
  }

  function PushDevice(env: Env, h: Hub, room: string, d: string, seed: PushSeed, now: int): (Hub, PushResult) {
    if d !in h.tables.devices || h.tables.devices[d].roomId != room then (h, NotFound)
    else PushConfig(env, h, d, None, seed, now)
  }

  function Members(t: Tables, room: string, g: string): set<string> {
    set d | d in t.devices && t.devices[d].roomId == room && t.devices[d].groupId == Some(g)
  }

  function PushGroup(env: Env, h: Hub, room: string, g: string, members: seq<string>, seeds: seq<PushSeed>,
                     now: int): (Hub, Option<nat>)
    requires |members| == |seeds|
  {
    if g !in h.tables.groups || h.tables.groups[g].roomId != room then (h, None)
    else PushMembers(env, h, g, members, seeds, now)
  }
}
