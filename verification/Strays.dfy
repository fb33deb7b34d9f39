/** A run in which a device edit takes a device into a group of another room, and what no longer works afterwards. */
module Strays {
  import opened Wrappers
  import opened Models
  import opened Crypto
  import opened GroupConfig
  import opened Schema
  import opened Effects
  import opened Hubs
  import opened Runs
  import opened Invariants
  import R = Rows
  import Ownership
  import StoredTables
  import RoomExports

  const HELLO := Hello("a", None, None, "laptop", 1, None)

  /** Two users with a room each, a group in the second room, a device in the first, and the edit. */
  function StrayActions(nonces: Nonces, seed: PushSeed): seq<Action> {
    [Console(Edit.Register("u", "ann", "", 0)), Console(Edit.Register("v", "bob", "", 0)),
     Console(Edit.CreateRoom("a", "u", "A", 0)), Console(Edit.CreateRoom("b", "v", "B", 0)),
     Console(Edit.CreateGroup("b", "g", "G", DEFAULT_CONFIG, nonces, 0)),
     Action.Connect(HELLO, "", 0, "d", "secret", seed, 0),
     Console(Edit.UpdateDevice("a", "d", DeviceEdit(None, Some("g"), None, None)))]
  }

  function Users(): map<string, User> {
    map["u" := User("ann", "", "user", 0), "v" := User("bob", "", "user", 0)]
  }

  function Rooms(): map<string, Room> {
    map["a" := Room("A", "u", 0), "b" := Room("B", "v", 0)]
  }

  /** The database before the device arrives. */
  function Prepared(env: Env, nonces: Nonces): Tables {
    EMPTY.(users := Users(), rooms := Rooms(),
           groups := map["g" := Group("b", "G", SealConfig(env, "g", DEFAULT_CONFIG, nonces), 1, 0, 0)])
  }

  lemma Preparations(env: Env, nonces: Nonces)
    ensures var t1 := Apply(env, EMPTY, Edit.Register("u", "ann", "", 0)).GetOr(EMPTY);
            var t2 := Apply(env, t1, Edit.Register("v", "bob", "", 0)).GetOr(t1);
            var t3 := Apply(env, t2, Edit.CreateRoom("a", "u", "A", 0)).GetOr(t2);
            var t4 := Apply(env, t3, Edit.CreateRoom("b", "v", "B", 0)).GetOr(t3);
            var t5 := Apply(env, t4, Edit.CreateGroup("b", "g", "G", DEFAULT_CONFIG, nonces, 0)).GetOr(t4);
            t5 == Prepared(env, nonces)
  {
    hide SealConfig;
    assert "u"[0] != "v"[0] && "a"[0] != "b"[0] && "ann"[0] != "bob"[0];
    var t1 := EMPTY.(users := map["u" := User("ann", "", "user", 0)]);
    assert Apply(env, EMPTY, Edit.Register("u", "ann", "", 0)) == Some(t1);
    var t2 := EMPTY.(users := Users());
    assert Apply(env, t1, Edit.Register("v", "bob", "", 0)) == Some(t2);
    var t3 := t2.(rooms := map["a" := Room("A", "u", 0)]);
    assert Apply(env, t2, Edit.CreateRoom("a", "u", "A", 0)) == Some(t3);
    var t4 := t2.(rooms := Rooms());
    assert Apply(env, t3, Edit.CreateRoom("b", "v", "B", 0)) == Some(t4);
    assert Apply(env, t4, Edit.CreateGroup("b", "g", "G", DEFAULT_CONFIG, nonces, 0)) == Some(Prepared(env, nonces));
  }

  /** The device's row after its hello. */
  const ROW := Device("a", None, "laptop", None, Some(""), None, None, "secret", Some(0), PENDING, None, None, None, 0,
                      Some(0), Some(0), None, 0)

  lemma Arrives(env: Env, t: Tables, seed: PushSeed)
    requires t.devices == map[] && "a" in t.rooms
    ensures Hubs.Connect(env, START.(tables := t), HELLO, "", 0, "d", "secret", seed, 0).hub.tables
            == t.(devices := map["d" := ROW])
  {
    hide DeviceConfig, PushConfig;
    StatusesDiffer();
    var r := UpsertDeviceHello(t, "a", None, None, "laptop", None, Some(""), "d", "secret", 0);
    assert r == Admitted(t.(devices := map["d" := ROW]), "d", Some("secret"), PENDING);
  }

  /** Where the whole run leads. */
  lemma StrayRun(env: Env, nonces: Nonces, seed: PushSeed)
    ensures Run(env, START, StrayActions(nonces, seed)).tables
            == Prepared(env, nonces).(devices := map["d" := ROW.(groupId := Some("g"))])
  {
    hide Run, Apply, Hubs.Connect, Prepared;
    var s := StrayActions(nonces, seed);
    var h1 := Step(env, START, s[0]);
    var h2 := Step(env, h1, s[1]);
    var h3 := Step(env, h2, s[2]);
    var h4 := Step(env, h3, s[3]);
    var h5 := Step(env, h4, s[4]);
    var h6 := Step(env, h5, s[5]);
    var h7 := Step(env, h6, s[6]);
    Preparations(env, nonces);
    PreparedRows(env, nonces);
    assert h5 == START.(tables := Prepared(env, nonces));
    Arrives(env, h5.tables, seed);
    Edited(env, h6.tables);
    hide Step;
    SevenSteps(env, START, s);
  }

  lemma PreparedRows(env: Env, nonces: Nonces)
    ensures var t := Prepared(env, nonces);
            && t.devices == map[] && t.rooms == Rooms() && "a" in t.rooms && "b" in t.rooms
            && t.groups.Keys == {"g"} && t.groups["g"].roomId == "b"
  {
    hide SealConfig;
  }

  lemma Edited(env: Env, t: Tables)
    requires t.devices == map["d" := ROW] && "g" in t.groups
    ensures Apply(env, t, Edit.UpdateDevice("a", "d", DeviceEdit(None, Some("g"), None, None)))
            == Some(t.(devices := map["d" := ROW.(groupId := Some("g"))]))
  {
    var row := ROW.(groupId := Some("g"));
    assert "d" in t.devices && t.devices["d"] == ROW && t.devices["d" := row] == map["d" := row];
    assert Effects.UpdateDevice(t, "a", "d", DeviceEdit(None, Some("g"), None, None)) == Some(SetRow(t, "d", row));
  }

  lemma SevenSteps(env: Env, h: Hub, s: seq<Action>)
    requires |s| == 7
    ensures Run(env, h, s)
            == Step(env, Step(env, Step(env, Step(env, Step(env, Step(env, Step(env, h, s[0]), s[1]), s[2]), s[3]),
                                                  s[4]), s[5]), s[6])
  {
    hide Step, Run;
    var h1 := Step(env, h, s[0]);
    var h2 := Step(env, h1, s[1]);
    var h3 := Step(env, h2, s[2]);
    var h4 := Step(env, h3, s[3]);
    var h5 := Step(env, h4, s[4]);
    var h6 := Step(env, h5, s[5]);
    NextStep(env, h, s, 0);
    NextStep(env, h1, s, 1);
    NextStep(env, h2, s, 2);
    NextStep(env, h3, s, 3);
    NextStep(env, h4, s, 4);
    NextStep(env, h5, s, 5);
    NextStep(env, h6, s, 6);
    assert s[0..] == s && s[7..] == [];
    NoMore(env, Step(env, h6, s[6]));
  }

  lemma NextStep(env: Env, h: Hub, s: seq<Action>, i: nat)
    requires i < |s|
    ensures Run(env, h, s[i..]) == Run(env, Step(env, h, s[i]), s[i + 1..])
  {
    assert s[i..] == [s[i]] + s[i + 1..];
    RunStarts(env, h, s[i], s[i + 1..]);
  }

  lemma NoMore(env: Env, h: Hub)
    ensures Run(env, h, []) == h
  {
  }

  /**
   * After this run the device is in a group of a room that is not its own. Neither that room nor the group can be
   * deleted, and the backup of the device's owner does not restore on its own.
   */
  lemma StrayDevice(env: Env, nonces: Nonces, seed: PushSeed)
    ensures var t := Run(env, START, StrayActions(nonces, seed)).tables;
            && Closed(t) && !SameRoom(t)
            && Effects.DeleteRoom(t, "b").None? && Effects.DeleteGroup(t, "b", "g").None?
            && !Ownership.GroupsAtHome(StoredTables.StoreOf(t), "u")
  {
    RunKeepsClosed(env, START, StrayActions(nonces, seed));
    StrayRun(env, nonces, seed);
    PreparedRows(env, nonces);
    hide Run, Prepared, Closed;
    StrayState(Run(env, START, StrayActions(nonces, seed)).tables);
  }

  lemma StrayState(t: Tables)
    requires t.devices == map["d" := ROW.(groupId := Some("g"))] && t.rooms == Rooms()
    requires "g" in t.groups && t.groups["g"].roomId == "b"
    ensures !SameRoom(t) && Effects.DeleteRoom(t, "b").None? && Effects.DeleteGroup(t, "b", "g").None?
    ensures !Ownership.GroupsAtHome(StoredTables.StoreOf(t), "u")
  {
    hide StoredTables.StoreOf, Ownership.GroupsAtHome;
    assert "a"[0] != "b"[0];
    assert !GroupInRoom(t, "d");
    assert "g" in GroupsOfRoom(t, "b");
    StrayBackup(t);
  }

  lemma StrayBackup(t: Tables)
    requires t.devices == map["d" := ROW.(groupId := Some("g"))] && t.rooms == Rooms()
    requires "g" in t.groups && t.groups["g"].roomId == "b"
    ensures !Ownership.GroupsAtHome(StoredTables.StoreOf(t), "u")
  {
    hide StoredTables.StoredDevice, StoredTables.StoredUser, StoredTables.StoredRoom, StoredTables.StoredGroup,
         Ownership.OwnerOf, R.CellOf;
    assert "u"[0] != "v"[0] && "a"[0] != "b"[0];
    var s := StoredTables.StoreOf(t);
    RoomExports.StoredOwner(t, R.Devices, "d");
    RoomExports.StoredOwner(t, R.Groups, "g");
    StoredTables.DeviceCells("d", t.devices["d"]);
    assert "d" in s.devices && R.CellOf(s.devices["d"], R.GroupId) == R.Text("g");
  }
}
