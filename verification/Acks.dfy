/** Which push an acknowledgement settles: over any run, pushes and acks of a device match like brackets. */
module Acks {
  import opened Wrappers
  import opened Models
  import opened Crypto
  import opened Schema
  import opened Effects
  import opened Hubs
  import opened Listings

  type Rows = map<string, Push>

  /** What happens to a device's push rows: a push is recorded, or an ack settles the row its query returned. */
  datatype Mark = Made(id: string, row: Push) | Acked(settled: Option<string>)

  function Place(rows: Rows, m: Mark): Rows {
    match m
    case Made(id, row) => rows[id := row]
    case Acked(settled) => Marked(rows, settled)
  }

  function After(rows: Rows, marks: seq<Mark>): Rows
    decreases |marks|
  {
    if marks == [] then rows else After(Place(rows, marks[0]), marks[1..])
  }

  /** A new row of the device is unacked and later than all its rows; an ack settles a row its query may return. */
  ghost predicate Fits(rows: Rows, d: string, m: Mark) {
    match m
    case Made(id, row) =>
      && id !in rows && row.deviceId == d && row.acked == 0
      && forall q <- rows :: rows[q].deviceId == d ==> rows[q].pushedAt < row.pushedAt
    case Acked(settled) => Settles(rows, d, settled)
  }

  ghost predicate History(rows: Rows, d: string, marks: seq<Mark>)
    decreases |marks|
  {
    marks == [] || (Fits(rows, d, marks[0]) && History(Place(rows, marks[0]), d, marks[1..]))
  }

  // ---------------------------------------------------------------- the handlers make these marks

  /** A push that succeeds records one row of the device, unacked, with the time of the push. */
  lemma PushMakesMark(env: Env, h: Hub, d: string, group: Option<string>, seed: PushSeed, now: int)
    requires PushConfig(env, h, d, group, seed, now).1.Pushed?
    ensures var h' := PushConfig(env, h, d, group, seed, now).0;
            && seed.id !in h.tables.pushes && seed.id in h'.tables.pushes
            && h'.tables.pushes == Place(h.tables.pushes, Made(seed.id, h'.tables.pushes[seed.id]))
            && h'.tables.pushes[seed.id].deviceId == d && h'.tables.pushes[seed.id].acked == 0
            && h'.tables.pushes[seed.id].pushedAt == now
  {
    hide DeviceConfig, PushMessage;
    var e := DeviceConfig(env, h.tables, d, group);
    if e.NoDevice? || d !in h.tables.devices {
    } else if e.Failure? {
    } else {
      assert PushRow(env, h.tables, d, e, seed, now).deviceId == d;
      hide PushRow;
      if d in h.clients {
      } else {
      }
    }
  }

  lemma AckMakesMark(env: Env, h: Hub, d: string, version: nat, draw: Draw, now: int)
    ensures HandleMessage(env, h, d, ConfigAck(version), draw, now).tables.pushes
            == Place(h.tables.pushes, Acked(draw.settled))
  {
    hide Edited;
    if d in h.tables.devices {
    } else {
    }
  }

  // ---------------------------------------------------------------- bracket matching

  function Pushes(marks: seq<Mark>): nat {
    if marks == [] then 0 else (if marks[0].Made? then 1 else 0) + Pushes(marks[1..])
  }

  function Answers(marks: seq<Mark>): nat {
    if marks == [] then 0 else (if marks[0].Acked? then 1 else 0) + Answers(marks[1..])
  }

  /** Somewhere in the list the acks so far outnumber the pushes so far by more than `n`. */
  ghost predicate Dips(marks: seq<Mark>, n: int) {
    exists j :: 0 <= j <= |marks| && Answers(marks[..j]) - Pushes(marks[..j]) > n
  }

  /** The push at `i` is answered when after it the acks ever outnumber the pushes. */
  ghost predicate Matched(marks: seq<Mark>, i: nat)
    requires i < |marks|
  {
    Dips(marks[i + 1..], 0)
  }

  lemma DipsStep(marks: seq<Mark>, n: nat)
    requires marks != []
    ensures Dips(marks, n) <==> if marks[0].Made? then Dips(marks[1..], n + 1) else n == 0 || Dips(marks[1..], n - 1)
  {
    var step := if marks[0].Made? then n + 1 else n - 1;
    forall j | 0 < j <= |marks|
      ensures Answers(marks[..j]) - Pushes(marks[..j]) > n
              <==> Answers(marks[1..][..j - 1]) - Pushes(marks[1..][..j - 1]) > step
    {
      assert marks[..j][1..] == marks[1..][..j - 1];
    }
    if Dips(marks[1..], step) {
      var j :| 0 <= j <= |marks| - 1 && Answers(marks[1..][..j]) - Pushes(marks[1..][..j]) > step;
      assert marks[1..][..(j + 1) - 1] == marks[1..][..j];
      assert Answers(marks[..j + 1]) - Pushes(marks[..j + 1]) > n;
    }
    if n == 0 && marks[0].Acked? {
      assert marks[..1][1..] == [];
      assert Answers(marks[..1]) - Pushes(marks[..1]) == 1;
    }
    if Dips(marks, n) {
      var j :| 0 <= j <= |marks| && Answers(marks[..j]) - Pushes(marks[..j]) > n;
      assert j > 0;
      assert Answers(marks[1..][..j - 1]) - Pushes(marks[1..][..j - 1]) > step;
    }
  }

  // ---------------------------------------------------------------- the stack of unacked rows

  predicate Earlier(rows: Rows, p: string, q: string) {
    p in rows && q in rows && rows[p].pushedAt < rows[q].pushedAt
  }

  /** The device's unacked rows in the order of their times. */
  ghost predicate IsStack(rows: Rows, d: string, stack: seq<string>) {
    && (forall p :: Unacked(rows, d, p) <==> p in stack)
    && (forall i, j :: 0 <= i < j < |stack| ==> Earlier(rows, stack[i], stack[j]))
  }

  function Shift(stack: seq<string>, m: Mark): seq<string> {
    match m
    case Made(id, _) => stack + [id]
    case Acked(_) => if stack == [] then [] else stack[..|stack| - 1]
  }

  function StackAfter(stack: seq<string>, marks: seq<Mark>): seq<string>
    decreases |marks|
  {
    if marks == [] then stack else StackAfter(Shift(stack, marks[0]), marks[1..])
  }

  /** An ack settles exactly the top of the stack. */
  lemma SettlesTop(rows: Rows, d: string, stack: seq<string>, settled: Option<string>)
    requires IsStack(rows, d, stack) && Settles(rows, d, settled)
    ensures settled == if stack == [] then None else Some(stack[|stack| - 1])
  {
    if stack != [] {
      var top := stack[|stack| - 1];
      assert Unacked(rows, d, top);
      if settled.Some? {
        assert settled.value in stack;
        var i :| 0 <= i < |stack| && stack[i] == settled.value;
        assert i < |stack| - 1 ==> Earlier(rows, stack[i], stack[|stack| - 1]);
      }
    }
  }

  lemma MadeShifts(rows: Rows, d: string, stack: seq<string>, id: string, row: Push)
    requires IsStack(rows, d, stack) && Fits(rows, d, Made(id, row))
    ensures IsStack(rows[id := row], d, stack + [id])
  {
    var next, shifted := rows[id := row], stack + [id];
    forall p ensures Unacked(next, d, p) <==> p in shifted {
      assert p != id ==> (Unacked(next, d, p) <==> Unacked(rows, d, p));
    }
    forall i, j | 0 <= i < j < |shifted| ensures Earlier(next, shifted[i], shifted[j]) {
      assert shifted[i] == stack[i] && stack[i] in stack && Unacked(rows, d, stack[i]);
      if j < |stack| {
        assert stack[j] in stack && Unacked(rows, d, stack[j]);
        assert Earlier(rows, stack[i], stack[j]);
      }
    }
  }

  lemma AckedShifts(rows: Rows, d: string, below: seq<string>, top: string)
    requires IsStack(rows, d, below + [top])
    ensures top in rows
    ensures IsStack(rows[top := rows[top].(acked := 1)], d, below)
  {
    var stack := below + [top];
    assert stack[|below|] == top && top in stack && Unacked(rows, d, top);
    var next := rows[top := rows[top].(acked := 1)];
    forall i | 0 <= i < |below| ensures below[i] != top {
      assert Earlier(rows, stack[i], stack[|below|]);
    }
    forall p ensures Unacked(next, d, p) <==> p in below {
      assert p != top ==> (Unacked(next, d, p) <==> Unacked(rows, d, p));
    }
    forall i, j | 0 <= i < j < |below| ensures Earlier(next, below[i], below[j]) {
      assert Earlier(rows, stack[i], stack[j]);
    }
  }

  lemma PlaceShifts(rows: Rows, d: string, stack: seq<string>, m: Mark)
    requires IsStack(rows, d, stack) && Fits(rows, d, m)
    ensures IsStack(Place(rows, m), d, Shift(stack, m))
  {
    match m
    case Made(id, row) => MadeShifts(rows, d, stack, id, row);
    case Acked(settled) =>
      SettlesTop(rows, d, stack, settled);
      hide IsStack, Unacked;
      if stack != [] {
        assert stack == stack[..|stack| - 1] + [stack[|stack| - 1]];
        AckedShifts(rows, d, stack[..|stack| - 1], stack[|stack| - 1]);
      }
  }

  lemma {:induction false} AfterStack(rows: Rows, d: string, stack: seq<string>, marks: seq<Mark>)
    requires IsStack(rows, d, stack) && History(rows, d, marks)
    ensures IsStack(After(rows, marks), d, StackAfter(stack, marks))
    decreases |marks|
  {
    hide IsStack, Place, Shift, Fits;
    if marks == [] {
    } else {
      PlaceShifts(rows, d, stack, marks[0]);
      AfterStack(Place(rows, marks[0]), d, Shift(stack, marks[0]), marks[1..]);
    }
  }

  /** Ids made in the list are new. */
  lemma {:induction false} MadeAreNew(rows: Rows, d: string, marks: seq<Mark>, p: string)
    requires History(rows, d, marks) && p in rows
    ensures forall i :: 0 <= i < |marks| && marks[i].Made? ==> marks[i].id != p
    ensures p in After(rows, marks)
    decreases |marks|
  {
    if marks == [] {
    } else {
      MadeAreNew(Place(rows, marks[0]), d, marks[1..], p);
      forall i | 0 <= i < |marks| && marks[i].Made? ensures marks[i].id != p {
        if i > 0 { assert marks[i] == marks[1..][i - 1]; }
      }
    }
  }

  /** The element with `n` others above it leaves the stack exactly when the list dips below them. */
  lemma {:induction false} LeavesWhenDips(below: seq<string>, p: string, above: seq<string>, marks: seq<Mark>)
    requires p !in below && p !in above
    requires forall i :: 0 <= i < |marks| && marks[i].Made? ==> marks[i].id != p
    ensures p in StackAfter(below + [p] + above, marks) <==> !Dips(marks, |above|)
    decreases |marks|
  {
    if marks == [] {
      assert !Dips(marks, |above|);
    } else {
      DipsStep(marks, |above|);
      var stack := below + [p] + above;
      assert forall i :: 0 <= i < |marks[1..]| ==> marks[1..][i] == marks[i + 1];
      match marks[0]
      case Made(id, _) =>
        assert stack + [id] == below + [p] + (above + [id]);
        LeavesWhenDips(below, p, above + [id], marks[1..]);
      case Acked(_) =>
        if above == [] {
          assert stack[..|stack| - 1] == below;
          NeverEnters(below, p, marks[1..]);
        } else {
          assert stack[..|stack| - 1] == below + [p] + above[..|above| - 1];
          LeavesWhenDips(below, p, above[..|above| - 1], marks[1..]);
        }
    }
  }

  lemma {:induction false} NeverEnters(stack: seq<string>, p: string, marks: seq<Mark>)
    requires p !in stack
    requires forall i :: 0 <= i < |marks| && marks[i].Made? ==> marks[i].id != p
    ensures p !in StackAfter(stack, marks)
    decreases |marks|
  {
    if marks == [] {
    } else {
      assert forall i :: 0 <= i < |marks[1..]| ==> marks[1..][i] == marks[i + 1];
      NeverEnters(Shift(stack, marks[0]), p, marks[1..]);
    }
  }

  /** The rows acked at the end are exactly the pushes that bracket matching answers. */
  lemma {:induction false} AckedAreMatched(rows: Rows, d: string, stack: seq<string>, marks: seq<Mark>, i: nat)
    requires IsStack(rows, d, stack) && History(rows, d, marks)
    requires i < |marks| && marks[i].Made?
    ensures marks[i].id in After(rows, marks) && After(rows, marks)[marks[i].id].deviceId == d
    ensures After(rows, marks)[marks[i].id].acked == 0 <==> !Matched(marks, i)
    decreases |marks|
  {
    var next, shifted := Place(rows, marks[0]), Shift(stack, marks[0]);
    PlaceShifts(rows, d, stack, marks[0]);
    if i == 0 {
      var p := marks[0].id;
      MadeAreNew(next, d, marks[1..], p);
      AfterStack(next, d, shifted, marks[1..]);
      assert p !in stack;
      assert shifted == stack + [p] + [];
      LeavesWhenDips(stack, p, [], marks[1..]);
      OnlyAcked(next, d, marks[1..], p);
    } else {
      AckedAreMatched(next, d, shifted, marks[1..], i - 1);
      assert marks[1..][(i - 1) + 1..] == marks[i + 1..];
    }
  }

  /** A history changes only the ack of an existing row, and nothing of a settled row or another device's. */
  lemma {:induction false} OnlyAcked(rows: Rows, d: string, marks: seq<Mark>, p: string)
    requires History(rows, d, marks) && p in rows
    ensures p in After(rows, marks) && After(rows, marks)[p].(acked := 0) == rows[p].(acked := 0)
    ensures rows[p].deviceId != d || rows[p].acked != 0 ==> After(rows, marks)[p] == rows[p]
    decreases |marks|
  {
    if marks == [] {
    } else {
      OnlyAcked(Place(rows, marks[0]), d, marks[1..], p);
    }
  }

  // ---------------------------------------------------------------- how many stay unacked

  function Net(marks: seq<Mark>): int {
    Pushes(marks) - Answers(marks)
  }

  /** The height is at least the net of every suffix, and is that of one of them or of the whole on top of the start. */
  lemma {:induction false} HeightIsLargestNet(stack: seq<string>, marks: seq<Mark>) returns (k: nat)
    ensures forall j :: 0 <= j <= |marks| ==> Net(marks[j..]) <= |StackAfter(stack, marks)|
    ensures |stack| + Net(marks) <= |StackAfter(stack, marks)|
    ensures k <= |marks|
    ensures Net(marks[k..]) == |StackAfter(stack, marks)| || |stack| + Net(marks) == |StackAfter(stack, marks)|
    decreases |marks|
  {
    if marks == [] {
      k := 0;
    } else {
      var k' := HeightIsLargestNet(Shift(stack, marks[0]), marks[1..]);
      forall j | 0 <= j <= |marks| ensures Net(marks[j..]) <= |StackAfter(stack, marks)| {
        if j == 0 {
          assert marks[0..] == marks;
        } else {
          assert marks[1..][j - 1..] == marks[j..];
        }
      }
      k := k' + 1;
      assert marks[1..][k'..] == marks[k..];
      if stack == [] && marks[0].Acked? && |Shift(stack, marks[0])| + Net(marks[1..]) == |StackAfter(stack, marks)| {
        k := 1;
      }
    }
  }

  ghost function UnackedRows(rows: Rows, d: string): set<string> {
    set p | p in rows && Unacked(rows, d, p)
  }

  /** Starting with nothing unacked, the number of unacked rows is the largest net count of pushes over all suffixes. */
  lemma UnackedIsLargestNet(rows: Rows, d: string, marks: seq<Mark>) returns (k: nat)
    requires UnackedRows(rows, d) == {} && History(rows, d, marks)
    ensures forall j :: 0 <= j <= |marks| ==> Net(marks[j..]) <= |UnackedRows(After(rows, marks), d)|
    ensures k <= |marks| && Net(marks[k..]) == |UnackedRows(After(rows, marks), d)|
  {
    forall p ensures !Unacked(rows, d, p) { assert p !in UnackedRows(rows, d); }
    assert IsStack(rows, d, []);
    AfterStack(rows, d, [], marks);
    var stack := StackAfter([], marks);
    var end := After(rows, marks);
    forall i, j | 0 <= i < j < |stack| ensures stack[i] != stack[j] {
      assert Earlier(end, stack[i], stack[j]);
    }
    assert Lists(stack, UnackedRows(end, d));
    ListingLength(stack, UnackedRows(end, d));
    k := HeightIsLargestNet([], marks);
    if Net(marks[k..]) != |stack| {
      k := 0;
      assert marks[0..] == marks;
    }
  }

  // ---------------------------------------------------------------- runs of the two handlers

  /** One call for the device: a configuration push, or a ConfigAck message. */
  datatype Call =
    | PushCall(group: Option<string>, seed: PushSeed, now: int)
    | AckCall(version: nat, draw: Draw, now: int)

  function Serve(env: Env, h: Hub, d: string, c: Call): Hub {
    match c
    case PushCall(group, seed, now) => PushConfig(env, h, d, group, seed, now).0
    case AckCall(version, draw, now) => HandleMessage(env, h, d, ConfigAck(version), draw, now)
  }

  function ServeAll(env: Env, h: Hub, d: string, calls: seq<Call>): Hub
    decreases |calls|
  {
    if calls == [] then h else ServeAll(env, Serve(env, h, d, calls[0]), d, calls[1..])
  }

  /** Each push succeeds and is later than every push row of the device; each ack settles what its query may return. */
  ghost predicate Timely(env: Env, h: Hub, d: string, calls: seq<Call>)
    decreases |calls|
  {
    calls == [] || (
      && (match calls[0]
          case PushCall(group, seed, now) =>
            && PushConfig(env, h, d, group, seed, now).1.Pushed?
            && forall q <- h.tables.pushes :: h.tables.pushes[q].deviceId == d ==> h.tables.pushes[q].pushedAt < now
          case AckCall(_, draw, _) => Settles(h.tables.pushes, d, draw.settled))
      && Timely(env, Serve(env, h, d, calls[0]), d, calls[1..]))
  }

  ghost function MarkOf(env: Env, h: Hub, d: string, c: Call): Mark
    requires Timely(env, h, d, [c])
  {
    match c
    case PushCall(_, seed, _) =>
      var rows := Serve(env, h, d, c).tables.pushes;
      if seed.id in rows then Made(seed.id, rows[seed.id]) else Acked(None)
    case AckCall(_, draw, _) => Acked(draw.settled)
  }

  lemma CallMakesMark(env: Env, h: Hub, d: string, c: Call)
    requires Timely(env, h, d, [c])
    ensures var m := MarkOf(env, h, d, c);
            && Fits(h.tables.pushes, d, m)
            && Serve(env, h, d, c).tables.pushes == Place(h.tables.pushes, m)
            && (m.Made? <==> c.PushCall?) && (m.Made? ==> m.id == c.seed.id)
  {
    hide PushConfig, HandleMessage, Settles;
    match c
    case PushCall(group, seed, now) => PushMakesMark(env, h, d, group, seed, now);
    case AckCall(version, draw, now) => AckMakesMark(env, h, d, version, draw, now);
  }

  ghost function MarksOf(env: Env, h: Hub, d: string, calls: seq<Call>): (marks: seq<Mark>)
    requires Timely(env, h, d, calls)
    ensures |marks| == |calls|
    decreases |calls|
  {
    if calls == [] then [] else [MarkOf(env, h, d, calls[0])] + MarksOf(env, Serve(env, h, d, calls[0]), d, calls[1..])
  }

  /** A timely run of pushes and acks is a history of the device's push rows, call for call. */
  lemma {:induction false} CallsMakeHistory(env: Env, h: Hub, d: string, calls: seq<Call>)
    requires Timely(env, h, d, calls)
    ensures var marks := MarksOf(env, h, d, calls);
            && History(h.tables.pushes, d, marks)
            && After(h.tables.pushes, marks) == ServeAll(env, h, d, calls).tables.pushes
            && forall i :: 0 <= i < |calls| ==>
                 && (marks[i].Made? <==> calls[i].PushCall?) && (marks[i].Made? ==> marks[i].id == calls[i].seed.id)
    decreases |calls|
  {
    hide Serve, Fits, Place;
    if calls == [] {
    } else {
      CallMakesMark(env, h, d, calls[0]);
      var rest := calls[1..];
      CallsMakeHistory(env, Serve(env, h, d, calls[0]), d, rest);
      var marks := MarksOf(env, h, d, calls);
      assert marks[1..] == MarksOf(env, Serve(env, h, d, calls[0]), d, rest);
      assert forall i :: 0 < i < |calls| ==> calls[i] == rest[i - 1] && marks[i] == marks[1..][i - 1];
    }
  }

  /**
   * Over every timely run that starts with nothing unacked: a push row ends acked exactly when bracket matching
   * answers it, the unacked rows number the largest net of pushes over the suffixes of the run, and every row that
   * was there before is untouched.
   */
  lemma AcksMatchPushes(env: Env, h: Hub, d: string, calls: seq<Call>) returns (marks: seq<Mark>, k: nat)
    requires UnackedRows(h.tables.pushes, d) == {} && Timely(env, h, d, calls)
    ensures |marks| == |calls| && k <= |calls|
    ensures forall i :: 0 <= i < |calls| ==> (marks[i].Made? <==> calls[i].PushCall?)
    ensures var rows := ServeAll(env, h, d, calls).tables.pushes;
            && (forall i :: 0 <= i < |calls| && calls[i].PushCall? ==>
                  && calls[i].seed.id in rows && rows[calls[i].seed.id].deviceId == d
                  && (rows[calls[i].seed.id].acked == 0 <==> !Matched(marks, i)))
            && (forall p <- h.tables.pushes :: p in rows && rows[p] == h.tables.pushes[p])
            && (forall j :: 0 <= j <= |calls| ==> Net(marks[j..]) <= |UnackedRows(rows, d)|)
            && Net(marks[k..]) == |UnackedRows(rows, d)|
  {
    hide Matched, Net, Place, Fits, Serve;
    var start := h.tables.pushes;
    marks := MarksOf(env, h, d, calls);
    CallsMakeHistory(env, h, d, calls);
    assert IsStack(start, d, []) by {
      forall p ensures !Unacked(start, d, p) { assert p !in UnackedRows(start, d); }
    }
    forall i | 0 <= i < |calls| && calls[i].PushCall?
      ensures calls[i].seed.id in After(start, marks) && After(start, marks)[calls[i].seed.id].deviceId == d
      ensures After(start, marks)[calls[i].seed.id].acked == 0 <==> !Matched(marks, i)
    {
      AckedAreMatched(start, d, [], marks, i);
    }
    forall p | p in start ensures p in After(start, marks) && After(start, marks)[p] == start[p] {
      OnlyAcked(start, d, marks, p);
      assert p !in UnackedRows(start, d);
    }
    k := UnackedIsLargestNet(start, d, marks);
  }
}
