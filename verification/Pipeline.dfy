/** The version pipeline of one device: what it reported, what it runs, and what is on its way to it stay in order. */
module Pipeline {
  import opened Wrappers
  import opened Models
  import opened Crypto
  import opened Schema
  import opened Effects
  import opened Hubs
  import opened Runs
  import opened Frames

  /** The client's end of a session: what it sent and the server has not handled; `open` while the connection is up. */
  datatype Link = Link(session: nat, open: bool, inbox: seq<ClientMessage>)

  /** The console together with one client, which runs the configuration of version `installed`. */
  datatype World = World(hub: Hub, link: Option<Link>, installed: nat)

  datatype Move =
    | Elsewhere(a: Action)
    | Receive(installs: bool, acks: bool)
    | Send(m: ClientMessage)
    | Close(keep: nat)
    | Serve(draw: Draw, now: int)
    | Finish
    | Reconnect(hello: ClientMessage, ip: string, session: nat, freshId: string, freshToken: string, seed: PushSeed,
                now: int)

  function SessionOf(w: World): int {
    if w.link.None? then NO_SESSION else w.link.value.session
  }

  /** The version a message reports, if any. */
  function Reported(ms: seq<ClientMessage>): seq<int> {
    if ms == [] then [] else
      (match ms[0]
       case ConfigAck(v) => [v as int]
       case ConfigState(v, _, _, _, _) => [v as int]
       case _ => []) + Reported(ms[1..])
  }

  /** A client reports the version it runs. */
  predicate Honest(m: ClientMessage, installed: nat) {
    match m
    case ConfigAck(v) => v == installed
    case ConfigState(v, _, _, _, _) => v == installed
    case _ => true
  }

  predicate IsHelloOf(hello: ClientMessage, d: string) {
    hello.Hello? && hello.deviceId == Some(d) && hello.deviceToken.Some?
  }

  ghost predicate Enabled(w: World, d: string, mv: Move) {
    match mv
    case Elsewhere(a) => Foreign(w.hub, a, d, SessionOf(w))
    case Receive(_, _) => w.link.Some? && w.link.value.open && Queued(w.hub, w.link.value.session) != []
    case Send(m) => w.link.Some? && w.link.value.open && Honest(m, w.installed)
    case Close(keep) => w.link.Some? && w.link.value.open && keep <= |w.link.value.inbox|
    case Serve(_, _) => w.link.Some? && w.link.value.inbox != []
    case Finish => w.link.Some? && !w.link.value.open && w.link.value.inbox == []
    case Reconnect(hello, _, session, _, _, _, _) => w.link.None? && IsHelloOf(hello, d) && Unused(w.hub, session)
  }

  /** Takes the next server message off the session's queue; a push may be installed and then acknowledged. */
  function Received(w: World, installs: bool, acks: bool): World
    requires w.link.Some? && Queued(w.hub, w.link.value.session) != []
  {
    var link := w.link.value;
    var queue := Queued(w.hub, link.session);
    var h := w.hub.(outbound := w.hub.outbound[link.session := queue[1..]]);
    if queue[0].ConfigPush? && installs then
      World(h, if acks then Some(link.(inbox := link.inbox + [ConfigAck(queue[0].version)])) else w.link,
            queue[0].version)
    else w.(hub := h)
  }

  function WorldStep(env: Env, w: World, d: string, mv: Move): World {
    match mv
    case Elsewhere(a) => w.(hub := Step(env, w.hub, a))
    case Receive(installs, acks) =>
      if w.link.Some? && Queued(w.hub, w.link.value.session) != [] then Received(w, installs, acks) else w
    case Send(m) =>
      if w.link.None? then w else w.(link := Some(w.link.value.(inbox := w.link.value.inbox + [m])))
    case Close(keep) =>
      if w.link.None? || keep > |w.link.value.inbox| then w
      else w.(link := Some(w.link.value.(open := false, inbox := w.link.value.inbox[..keep])))
    case Serve(draw, now) =>
      if w.link.None? || w.link.value.inbox == [] then w
      else World(HandleMessage(env, w.hub, d, w.link.value.inbox[0], draw, now),
                 Some(w.link.value.(inbox := w.link.value.inbox[1..])), w.installed)
    case Finish =>
      if w.link.None? then w else World(Hubs.EndSession(w.hub, d, w.link.value.session), None, w.installed)
    case Reconnect(hello, ip, session, freshId, freshToken, seed, now) =>
      var j := Hubs.Connect(env, w.hub, hello, ip, session, freshId, freshToken, seed, now);
      World(j.hub, if j.Joined? then Some(Link(session, true, [])) else None, w.installed)
  }

  // ---------------------------------------------------------------- ordered lists of versions

  /** The list is non-decreasing and lies between two versions. */
  predicate Between(lo: int, xs: seq<int>, hi: int)
    decreases |xs|
  {
    if xs == [] then lo <= hi else lo <= xs[0] && Between(xs[0], xs[1..], hi)
  }

  lemma {:induction false} BetweenBounds(lo: int, xs: seq<int>, hi: int)
    requires Between(lo, xs, hi)
    ensures lo <= hi
    decreases |xs|
  {
    if xs != [] { BetweenBounds(xs[0], xs[1..], hi); }
  }

  lemma {:induction false} BetweenWiden(lo: int, xs: seq<int>, hi: int, lo': int, hi': int)
    requires Between(lo, xs, hi) && lo' <= lo && hi <= hi'
    ensures Between(lo', xs, hi')
    decreases |xs|
  {
    if xs != [] { BetweenWiden(xs[0], xs[1..], hi, xs[0], hi'); }
  }

  lemma {:induction false} BetweenAppend(lo: int, xs: seq<int>, hi: int, x: int)
    requires Between(lo, xs, x) && x <= hi
    ensures Between(lo, xs + [x], hi)
    decreases |xs|
  {
    if xs == [] {
    } else {
      assert (xs + [x])[1..] == xs[1..] + [x];
      BetweenAppend(xs[0], xs[1..], hi, x);
    }
  }

  lemma {:induction false} BetweenPrefix(lo: int, xs: seq<int>, ys: seq<int>, hi: int)
    requires Between(lo, xs + ys, hi)
    ensures Between(lo, xs, hi)
    decreases |xs|
  {
    if xs == [] {
      BetweenBounds(lo, xs + ys, hi);
    } else {
      assert (xs + ys)[1..] == xs[1..] + ys;
      BetweenPrefix(xs[0], xs[1..], ys, hi);
    }
  }

  /** Between two bounds means in order, element by element. */
  lemma {:induction false} BetweenIsSorted(lo: int, xs: seq<int>, hi: int)
    requires Between(lo, xs, hi)
    ensures var all := [lo] + xs + [hi];
            forall i, j :: 0 <= i < j < |all| ==> all[i] <= all[j]
    decreases |xs|
  {
    if xs == [] {
    } else {
      BetweenIsSorted(xs[0], xs[1..], hi);
      var all, rest := [lo] + xs + [hi], [xs[0]] + xs[1..] + [hi];
      assert all == [lo] + rest;
      assert forall j :: 0 <= j < |rest| ==> rest[0] <= rest[j];
    }
  }

  lemma {:induction false} ReportedAppend(a: seq<ClientMessage>, b: seq<ClientMessage>)
    ensures Reported(a + b) == Reported(a) + Reported(b)
    decreases |a|
  {
    if a == [] {
      assert a + b == b;
    } else {
      assert (a + b)[1..] == a[1..] + b;
      ReportedAppend(a[1..], b);
    }
  }

  // ---------------------------------------------------------------- the chain

  function DeviceVersion(t: Tables, d: string): int
    requires d in t.devices
  {
    t.devices[d].configVersion
  }

  function Inbox(w: World): seq<ClientMessage> {
    if w.link.None? then [] else w.link.value.inbox
  }

  function Outbox(w: World): seq<ServerMessage> {
    Queued(w.hub, SessionOf(w))
  }

  /** recorded version <= reports on their way <= installed version <= pushes on their way <= group version. */
  ghost predicate Chain(w: World, d: string, g: string) {
    && InGroup(w.hub.tables, d, g)
    && Owns(w.hub, d, SessionOf(w))
    && (w.link.Some? ==> w.link.value.session in w.hub.outbound)
    && 0 <= DeviceVersion(w.hub.tables, d)
    && Between(DeviceVersion(w.hub.tables, d), Reported(Inbox(w)), w.installed)
    && Between(w.installed, InFlight(Outbox(w)), GroupVersion(w.hub.tables, g))
  }

  /** The chain as one list: from the recorded version to the group's, every version is at most the next. */
  function Versions(w: World, d: string, g: string): seq<int>
    requires d in w.hub.tables.devices && g in w.hub.tables.groups
  {
    [DeviceVersion(w.hub.tables, d)] + Reported(Inbox(w)) + [w.installed] + InFlight(Outbox(w))
        + [GroupVersion(w.hub.tables, g)]
  }

  lemma ChainIsSorted(w: World, d: string, g: string)
    requires Chain(w, d, g)
    ensures var all := Versions(w, d, g);
            forall i, j :: 0 <= i < j < |all| ==> all[i] <= all[j]
  {
    var reports, pushes := Reported(Inbox(w)), InFlight(Outbox(w));
    var lo, mid, hi := DeviceVersion(w.hub.tables, d), w.installed, GroupVersion(w.hub.tables, g);
    BetweenIsSorted(lo, reports, mid);
    BetweenIsSorted(mid, pushes, hi);
    var left, right := [lo] + reports + [mid], [mid] + pushes + [hi];
    assert Versions(w, d, g) == left + right[1..];
    assert forall i :: 0 <= i < |left| ==> left[i] <= left[|left| - 1];
    assert forall j :: 0 <= j < |right| ==> right[0] <= right[j];
  }

  lemma {:induction false} GrowsPushes(a: seq<ServerMessage>, b: seq<ServerMessage>, v: int, lo: int)
    requires Grows(a, b, v) && Between(lo, InFlight(a), v)
    ensures Between(lo, InFlight(b), v)
    decreases |b|
  {
    if |a| == |b| {
      assert a == b;
    } else {
      var c, last := b[..|b| - 1], b[|b| - 1];
      assert b == c + [last];
      GrowsPushes(a, c, v, lo);
      InFlightAppend(c, [last]);
      assert InFlight([last]) == if last.ConfigPush? then [v] else [];
      if last.ConfigPush? {
        BetweenAppend(lo, InFlight(c), v, v);
      } else {
        assert InFlight(c) + [] == InFlight(c);
      }
    }
  }

  /** A step that carries the device keeps the chain. */
  lemma CarriedChain(w: World, h: Hub, d: string, g: string)
    requires Chain(w, d, g) && Carries(w.hub, h, d, g, SessionOf(w)) && InGroup(h.tables, d, g)
    ensures Chain(w.(hub := h), d, g)
    ensures DeviceVersion(h.tables, d) == DeviceVersion(w.hub.tables, d)
  {
    var v := GroupVersion(w.hub.tables, g);
    GrowsPushes(Outbox(w), Queued(h, SessionOf(w)), v, w.installed);
    BetweenWiden(w.installed, InFlight(Queued(h, SessionOf(w))), v, w.installed, GroupVersion(h.tables, g));
  }

  // ---------------------------------------------------------------- the device's own messages and sessions

  /** The version on record after handling a message: the reported one, when the client runs it. */
  function RecordedBy(m: ClientMessage, before: int): int {
    match m
    case ConfigAck(v) => v
    case ConfigState(v, _, _, _, running) => if running then v else before
    case _ => before
  }

  /** From `h` to `h'` as `Carries`, but with version `v` on record. */
  ghost predicate Records(h: Hub, h': Hub, d: string, g: string, session: int, v: int)
    requires g in h.tables.groups
  {
    && d in h'.tables.devices && h'.tables.devices[d].configVersion == v
    && h'.tables.groups == h.tables.groups
    && Owns(h', d, session)
    && (session in h.outbound <==> session in h'.outbound)
    && Grows(Queued(h, session), Queued(h', session), h.tables.groups[g].configVersion)
    && InGroup(h'.tables, d, g)
  }

  lemma OwnEdit(h: Hub, d: string, e: RowEdit, gone: set<string>, g: string, session: int)
    requires InGroup(h.tables, d, g) && Owns(h, d, session)
    ensures var h' := h.(tables := EditRow(h.tables, d, e), clients := h.clients - gone);
            Records(h, h', d, g, session, if e.Recorded? then e.version else DeviceVersion(h.tables, d))
  {
    assert SetRow(h.tables, d, Edited(h.tables.devices[d], e)) == EditRow(h.tables, d, e);
  }

  lemma OwnEvent(t: Tables, d: string, m: ClientMessage, id: string, now: int)
    requires m.EventReport? && d in t.devices
    ensures var s := ReportEvent(t, d, m, id, now);
            && s.groups == t.groups && d in s.devices
            && s.devices[d].groupId == t.devices[d].groupId && s.devices[d].configVersion == t.devices[d].configVersion
  {
    var t1 := if m.traffic.Some? then EditRow(t, d, Traffic(m.traffic.value.0, m.traffic.value.1, now)) else t;
    if m.traffic.Some? { OwnRowEdit(t, d, Traffic(m.traffic.value.0, m.traffic.value.1, now)); }
    var t2 := if m.vntsStatus.Some? then EditRow(t1, d, Vnts(m.vntsStatus.value.0, m.vntsStatus.value.1, now)) else t1;
    if m.vntsStatus.Some? { OwnRowEdit(t1, d, Vnts(m.vntsStatus.value.0, m.vntsStatus.value.1, now)); }
    hide EditRow;
    AddEventRows(t2, id, d, m.eventType, m.payload, now);
  }

  lemma OwnRowEdit(t: Tables, d: string, e: RowEdit)
    requires d in t.devices && !e.Recorded?
    ensures var s := EditRow(t, d, e);
            && s.groups == t.groups && d in s.devices
            && s.devices[d].groupId == t.devices[d].groupId && s.devices[d].configVersion == t.devices[d].configVersion
  {
    assert EditRow(t, d, e) == SetRow(t, d, Edited(t.devices[d], e));
  }

  /** A state report from a device in a group records the version and at most pushes the group's. */
  lemma OwnState(env: Env, h: Hub, d: string, m: ClientMessage, draw: Draw, now: int, g: string, session: int)
    requires InGroup(h.tables, d, g) && Owns(h, d, session) && m.ConfigState?
    ensures Records(h, HandleMessage(env, h, d, m, draw, now), d, g, session, RecordedBy(m, DeviceVersion(h.tables, d)))
  {
    var recorded := if m.running then EditRow(h.tables, d, Recorded(m.configVersion, now)) else h.tables;
    var h' := h.(tables := recorded);
    var h'' := HandleMessage(env, h, d, m, draw, now);
    assert h.clients - {} == h.clients;
    OwnEdit(h, d, Recorded(m.configVersion, now), {}, g, session);
    hide EditRow, PushIfDiffers, DeviceConfig;
    assert h'' == PushIfDiffers(env, h', d, m.configVersion, draw.push, now);
    hide HandleMessage;
    PushIfCarries(env, h', d, m.configVersion, draw.push, now, d, g, session);
    PushIfQuiet(env, h', d, m.configVersion, draw.push, now);
  }

  lemma PushIfQuiet(env: Env, h: Hub, d: string, reported: nat, seed: PushSeed, now: int)
    ensures var h' := PushIfDiffers(env, h, d, reported, seed, now);
            h'.tables.devices == h.tables.devices && h'.tables.groups == h.tables.groups && h'.clients == h.clients
    ensures var h' := PushIfBehind(env, h, d, seed, now);
            h'.tables.devices == h.tables.devices && h'.tables.groups == h.tables.groups && h'.clients == h.clients
  {
    PushConfigQuiet(env, h, d, None, seed, now);
    hide PushConfig, DeviceConfig;
  }

  lemma OwnMessage(env: Env, h: Hub, d: string, m: ClientMessage, draw: Draw, now: int, g: string, session: int)
    requires InGroup(h.tables, d, g) && Owns(h, d, session)
    ensures Records(h, HandleMessage(env, h, d, m, draw, now), d, g, session, RecordedBy(m, DeviceVersion(h.tables, d)))
  {
    hide SyncReported, ReportEvent, EditRow;
    assert h.clients - {} == h.clients;
    match m
    case EventReport(_, _, _, _) => OwnEvent(h.tables, d, m, draw.id, now);
    case ConfigAck(version) => OwnEdit(h, d, Recorded(version, now), {}, g, session);
    case ConfigState(_, _, _, _, _) => OwnState(env, h, d, m, draw, now, g, session);
    case Heartbeat => OwnEdit(h, d, Seen(now), {}, g, session);
    case Disconnect => OwnEdit(h, d, WentOffline, {d}, g, session);
    case TrafficStats(up, down) => OwnEdit(h, d, Traffic(up, down, now), {}, g, session);
    case Hello(_, _, _, _, _, _) =>
  }

  /** Handling the oldest message keeps the chain, whatever it is. */
  lemma ServeKeepsChain(env: Env, w: World, d: string, g: string, draw: Draw, now: int)
    requires Chain(w, d, g) && Inbox(w) != []
    ensures var w' := WorldStep(env, w, d, Serve(draw, now));
            Chain(w', d, g) && DeviceVersion(w'.hub.tables, d) >= DeviceVersion(w.hub.tables, d)
  {
    var link := w.link.value;
    var m, rest := link.inbox[0], link.inbox[1..];
    var before := DeviceVersion(w.hub.tables, d);
    OwnMessage(env, w.hub, d, m, draw, now, g, link.session);
    var w' := WorldStep(env, w, d, Serve(draw, now));
    hide HandleMessage;
    assert w'.hub == HandleMessage(env, w.hub, d, m, draw, now) && Inbox(w') == rest;
    hide WorldStep;
    assert link.inbox == [m] + rest;
    ReportedAppend([m], rest);
    var reports := Reported([m]);
    assert m.ConfigAck? || m.ConfigState? ==> reports == [m.configVersion as int];
    assert !(m.ConfigAck? || m.ConfigState?) ==> reports == [];
    hide Reported, Records;
    HeadRecorded(before, reports, Reported(rest), w.installed);
    GrowsPushes(Outbox(w), Outbox(w'), GroupVersion(w.hub.tables, g), w.installed);
  }

  lemma HeadRecorded(lo: int, head: seq<int>, rest: seq<int>, hi: int)
    requires |head| <= 1 && Between(lo, head + rest, hi)
    ensures head == [] ==> Between(lo, rest, hi)
    ensures head != [] ==> lo <= head[0] && Between(head[0], rest, hi) && Between(lo, rest, hi)
  {
    if head == [] {
      assert head + rest == rest;
    } else {
      assert (head + rest)[1..] == rest;
      BetweenWiden(head[0], rest, hi, lo, hi);
    }
  }

  lemma ReceiveKeepsChain(w: World, d: string, g: string, installs: bool, acks: bool)
    requires Chain(w, d, g) && w.link.Some? && Outbox(w) != []
    ensures Chain(Received(w, installs, acks), d, g)
    ensures Received(w, installs, acks).hub.tables == w.hub.tables
  {
    var w' := Received(w, installs, acks);
    var queue := Outbox(w);
    var v := GroupVersion(w.hub.tables, g);
    assert Outbox(w') == queue[1..];
    assert InFlight(queue) == (if queue[0].ConfigPush? then [queue[0].version as int] else []) + InFlight(queue[1..]);
    HeadRecorded(w.installed, if queue[0].ConfigPush? then [queue[0].version as int] else [], InFlight(queue[1..]), v);
    var before := DeviceVersion(w.hub.tables, d);
    if queue[0].ConfigPush? && installs {
      var ack := ConfigAck(queue[0].version);
      BetweenWiden(before, Reported(Inbox(w)), w.installed, before, w'.installed);
      if acks {
        ReportedAppend(Inbox(w), [ack]);
        assert Reported([ack]) == [w'.installed as int];
        BetweenAppend(before, Reported(Inbox(w)), w'.installed, w'.installed);
      }
    }
  }

  lemma SendKeepsChain(env: Env, w: World, d: string, g: string, m: ClientMessage)
    requires Chain(w, d, g) && w.link.Some? && Honest(m, w.installed)
    ensures Chain(WorldStep(env, w, d, Send(m)), d, g)
  {
    var before := DeviceVersion(w.hub.tables, d);
    ReportedAppend(Inbox(w), [m]);
    assert Reported([m]) == if m.ConfigAck? || m.ConfigState? then [w.installed as int] else [];
    if m.ConfigAck? || m.ConfigState? {
      BetweenAppend(before, Reported(Inbox(w)), w.installed, w.installed);
    } else {
      assert Reported(Inbox(w)) + [] == Reported(Inbox(w));
    }
  }

  lemma CloseKeepsChain(env: Env, w: World, d: string, g: string, keep: nat)
    requires Chain(w, d, g) && w.link.Some? && keep <= |Inbox(w)|
    ensures Chain(WorldStep(env, w, d, Close(keep)), d, g)
  {
    var kept, lost := Inbox(w)[..keep], Inbox(w)[keep..];
    assert Inbox(w) == kept + lost;
    ReportedAppend(kept, lost);
    BetweenPrefix(DeviceVersion(w.hub.tables, d), Reported(kept), Reported(lost), w.installed);
  }

  lemma FinishKeepsChain(env: Env, w: World, d: string, g: string)
    requires Chain(w, d, g) && w.link.Some? && Inbox(w) == []
    ensures var w' := WorldStep(env, w, d, Finish);
            Chain(w', d, g) && DeviceVersion(w'.hub.tables, d) == DeviceVersion(w.hub.tables, d)
  {
    OwnEdit(w.hub, d, WentOffline, {d}, g, w.link.value.session);
    hide EditRow;
    BetweenBounds(w.installed, InFlight(Outbox(w)), GroupVersion(w.hub.tables, g));
  }

  /** The hello of the device itself leaves its version and group alone. */
  lemma OwnHello(t: Tables, room: string, d: string, token: string, name: string, version: Option<string>,
                 ip: Option<string>, freshId: string, freshToken: string, now: int)
    requires d in t.devices
    ensures var r := UpsertDeviceHello(t, room, Some(d), Some(token), name, version, ip, freshId, freshToken, now);
            r.Admitted? ==>
              && r.id == d && r.tables.groups == t.groups && d in r.tables.devices
              && r.tables.devices[d].groupId == t.devices[d].groupId
              && r.tables.devices[d].configVersion == t.devices[d].configVersion
  {
  }

  lemma ReconnectKeepsChain(env: Env, w: World, d: string, g: string, mv: Move)
    requires Chain(w, d, g) && mv.Reconnect? && Enabled(w, d, mv)
    ensures var w' := WorldStep(env, w, d, mv);
            Chain(w', d, g) && DeviceVersion(w'.hub.tables, d) == DeviceVersion(w.hub.tables, d)
  {
    hide UpsertDeviceHello, PushIfBehind;
    var h, hello, v := w.hub, mv.hello, GroupVersion(w.hub.tables, g);
    if hello.protocolVersion == 1 && hello.roomId in h.tables.rooms {
      OwnHello(h.tables, hello.roomId, d, hello.deviceToken.value, hello.deviceName, hello.clientVersion, Some(mv.ip),
               mv.freshId, mv.freshToken, mv.now);
      var r := UpsertDeviceHello(h.tables, hello.roomId, hello.deviceId, hello.deviceToken, hello.deviceName,
                                 hello.clientVersion, Some(mv.ip), mv.freshId, mv.freshToken, mv.now);
      if r.Admitted? && r.status != KICKED {
        var queue := [HelloAck(r.id, r.newToken, r.status)];
        var registered := Hub(r.tables, h.clients[d := mv.session], h.outbound[mv.session := queue]);
        var started := World(registered, Some(Link(mv.session, true, [])), w.installed);
        assert InFlight(queue) == [];
        assert Chain(started, d, g);
        PushIfCarries(env, registered, d, 0, mv.seed, mv.now, d, g, mv.session);
        PushIfQuiet(env, registered, d, 0, mv.seed, mv.now);
        CarriedChain(started, PushIfBehind(env, registered, d, mv.seed, mv.now), d, g);
        assert WorldStep(env, w, d, mv) == started.(hub := PushIfBehind(env, registered, d, mv.seed, mv.now));
      } else if r.Admitted? {
        assert WorldStep(env, w, d, mv) == w.(hub := h.(tables := r.tables));
      } else {
        assert WorldStep(env, w, d, mv) == w;
      }
    } else {
      assert WorldStep(env, w, d, mv) == w;
    }
  }

  /** Every step of the world keeps the chain of a device that stays in its group; its recorded version never drops. */
  lemma WorldStepKeepsChain(env: Env, w: World, d: string, g: string, mv: Move)
    requires Chain(w, d, g) && Enabled(w, d, mv)
    requires InGroup(WorldStep(env, w, d, mv).hub.tables, d, g)
    ensures var w' := WorldStep(env, w, d, mv);
            Chain(w', d, g) && DeviceVersion(w'.hub.tables, d) >= DeviceVersion(w.hub.tables, d)
  {
    hide Chain, Step, HandleMessage, Received, Hubs.Connect, Hubs.EndSession, Foreign;
    assert Chain(w, d, g) ==> InGroup(w.hub.tables, d, g) && Owns(w.hub, d, SessionOf(w)) by { ChainParts(w, d, g); }
    match mv
    case Elsewhere(a) =>
      StepCarries(env, w.hub, a, d, g, SessionOf(w));
      CarriedChain(w, Step(env, w.hub, a), d, g);
    case Receive(installs, acks) => ReceiveKeepsChain(w, d, g, installs, acks);
    case Send(m) => SendKeepsChain(env, w, d, g, m);
    case Close(keep) => CloseKeepsChain(env, w, d, g, keep);
    case Serve(draw, now) => ServeKeepsChain(env, w, d, g, draw, now);
    case Finish => FinishKeepsChain(env, w, d, g);
    case Reconnect(_, _, _, _, _, _, _) => ReconnectKeepsChain(env, w, d, g, mv);
  }

  lemma ChainParts(w: World, d: string, g: string)
    requires Chain(w, d, g)
    ensures InGroup(w.hub.tables, d, g) && Owns(w.hub, d, SessionOf(w))
  {
  }

  function WorldRun(env: Env, w: World, d: string, moves: seq<Move>): World
    decreases |moves|
  {
    if moves == [] then w else WorldRun(env, WorldStep(env, w, d, moves[0]), d, moves[1..])
  }

  /** Every move is enabled when it is made, and the device is in its group after each. */
  ghost predicate Legal(env: Env, w: World, d: string, g: string, moves: seq<Move>)
    decreases |moves|
  {
    moves == [] ||
    (Enabled(w, d, moves[0])
     && InGroup(WorldStep(env, w, d, moves[0]).hub.tables, d, g)
     && Legal(env, WorldStep(env, w, d, moves[0]), d, g, moves[1..]))
  }

  /** In every run the chain holds at the end, and so at every state, and the recorded version only grows. */
  lemma {:induction false} RunKeepsChain(env: Env, w: World, d: string, g: string, moves: seq<Move>)
    requires Chain(w, d, g) && Legal(env, w, d, g, moves)
    ensures var w' := WorldRun(env, w, d, moves);
            Chain(w', d, g) && DeviceVersion(w.hub.tables, d) <= DeviceVersion(w'.hub.tables, d) <= w'.installed
    decreases |moves|
  {
    if moves == [] {
      BetweenBounds(DeviceVersion(w.hub.tables, d), Reported(Inbox(w)), w.installed);
    } else {
      hide WorldStep, Enabled;
      WorldStepKeepsChain(env, w, d, g, moves[0]);
      RunKeepsChain(env, WorldStep(env, w, d, moves[0]), d, g, moves[1..]);
    }
  }
}
