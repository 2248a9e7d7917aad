/** counter.go: how many users are in the lobby and in each room. The channel loop is taken one event at a time. */
module Counters {

  const UINT32 := 0x1_0000_0000

  type uint32 = n: int | 0 <= n < UINT32

  datatype Event = RoomJoin(room: string) | RoomLeave(room: string) | LobbyJoin | LobbyLeave

  /** joiners in the lobby, roomers in all rooms together, and the Joiner count of every table. */
  datatype Counts = Counts(joiners: uint32, roomers: uint32, rooms: map<string, uint32>)

  function Inc(n: uint32): uint32 {
    (n + 1) % UINT32
  }

  function Dec(n: uint32): uint32 {
    if n >= 1 then n - 1 else n
  }

  function Step(c: Counts, e: Event): Counts {
    match e
    case RoomJoin(room) =>
      if room in c.rooms then c.(roomers := Inc(c.roomers), rooms := c.rooms[room := Inc(c.rooms[room])]) else c
    case RoomLeave(room) =>
      if room in c.rooms then c.(roomers := Dec(c.roomers), rooms := c.rooms[room := Dec(c.rooms[room])]) else c
    case LobbyJoin => c.(joiners := Inc(c.joiners))
    case LobbyLeave => c.(joiners := Dec(c.joiners))
  }

  function Run(c: Counts, es: seq<Event>): Counts {
    if es == [] then c else Step(Run(c, es[..|es| - 1]), es[|es| - 1])
  }

  // ---------- sums ----------

  ghost function Sum(rooms: map<string, uint32>): nat
    decreases |rooms|
  {
    if rooms == map[] then 0 else var k :| k in rooms; rooms[k] + Sum(rooms - {k})
  }

  lemma {:induction false} SumWithout(rooms: map<string, uint32>, k: string)
    requires k in rooms
    ensures Sum(rooms) == rooms[k] + Sum(rooms - {k})
    decreases |rooms|
  {
    var j :| j in rooms && Sum(rooms) == rooms[j] + Sum(rooms - {j});
    if j != k {
      SumWithout(rooms - {j}, k);
      SumWithout(rooms - {k}, j);
      assert rooms - {j} - {k} == rooms - {k} - {j};
    }
  }

  lemma SumAfterUpdate(rooms: map<string, uint32>, k: string, v: uint32)
    requires k in rooms
    ensures Sum(rooms[k := v]) == Sum(rooms) - rooms[k] + v
  {
    SumWithout(rooms, k);
    SumWithout(rooms[k := v], k);
    assert rooms[k := v] - {k} == rooms - {k};
  }

  ghost predicate Empty(c: Counts) {
    c.roomers == 0 && c.joiners == 0 && forall k :: k in c.rooms ==> c.rooms[k] == 0
  }

  lemma {:induction false} SumOfZeros(rooms: map<string, uint32>)
    requires forall k :: k in rooms ==> rooms[k] == 0
    ensures Sum(rooms) == 0
    decreases |rooms|
  {
    if rooms != map[] {
      var k :| k in rooms;
      SumWithout(rooms, k);
      SumOfZeros(rooms - {k});
    }
  }

  // ---------- every run ----------

  const MAX := UINT32 - 1

  /** The counts after the first n events. */
  function At(c: Counts, es: seq<Event>, n: nat): Counts
    requires n <= |es|
  {
    Run(c, es[..n])
  }

  lemma NextCounts(c: Counts, es: seq<Event>, n: nat)
    requires n < |es|
    ensures At(c, es, n + 1) == Step(At(c, es, n), es[n])
    ensures At(c, es, 0) == c
  {
    assert es[..n + 1][..n] == es[..n];
  }

  lemma {:induction false} SameTables(c: Counts, es: seq<Event>)
    ensures Run(c, es).rooms.Keys == c.rooms.Keys
  {
    if es != [] {
      SameTables(c, es[..|es| - 1]);
    }
  }

  /** What an event adds to the sum over the rooms less the total. A leave counts in the total even when the room is
      empty, and in the room even when the total is 0; and each of the two numbers wraps by itself. */
  function DriftOf(c: Counts, e: Event): int {
    match e
    case RoomJoin(room) =>
      if room !in c.rooms then 0
      else (if c.roomers == MAX then UINT32 else 0) - (if c.rooms[room] == MAX then UINT32 else 0)
    case RoomLeave(room) =>
      if room !in c.rooms then 0
      else (if c.roomers >= 1 then 1 else 0) - (if c.rooms[room] >= 1 then 1 else 0)
    case _ => 0
  }

  /** How far the total falls behind the rooms. */
  function Drift(c: Counts, es: seq<Event>): int {
    if es == [] then 0
    else Drift(c, es[..|es| - 1]) + DriftOf(Run(c, es[..|es| - 1]), es[|es| - 1])
  }

  lemma StepChangesSum(c: Counts, e: Event)
    ensures var r := Step(c, e);
            Sum(r.rooms) - r.roomers == Sum(c.rooms) - c.roomers + DriftOf(c, e)
  {
    if (e.RoomJoin? || e.RoomLeave?) && e.room in c.rooms {
      var v := if e.RoomJoin? then Inc(c.rooms[e.room]) else Dec(c.rooms[e.room]);
      SumAfterUpdate(c.rooms, e.room, v);
    }
  }

  /** Over every run the total is the sum over the rooms less the drift. */
  lemma {:induction false} TotalIsSumLessDrift(c: Counts, es: seq<Event>)
    requires Empty(c)
    ensures Run(c, es).roomers + Drift(c, es) == Sum(Run(c, es).rooms)
  {
    if es == [] {
      SumOfZeros(c.rooms);
    } else {
      TotalIsSumLessDrift(c, es[..|es| - 1]);
      StepChangesSum(Run(c, es[..|es| - 1]), es[|es| - 1]);
    }
  }

  /** What holds at first, and goes on to hold after an event iff the event is not a bad one, holds throughout iff
      no event is bad. */
  lemma {:induction false} ThroughoutIff(good: nat -> bool, bad: nat -> bool, k: nat)
    requires good(0)
    requires forall n {:trigger bad(n)} :: 0 <= n < k && good(n) ==> (good(n + 1) <==> !bad(n))
    ensures (forall n :: 0 <= n <= k ==> good(n)) <==> (forall n :: 0 <= n < k ==> !bad(n))
  {
    if k > 0 {
      ThroughoutIff(good, bad, k - 1);
      assert bad(k - 1) || !bad(k - 1);
    }
  }

  // ---------- when the total is the sum over the rooms ----------

  ghost predicate Agrees(c: Counts) {
    c.roomers == Sum(c.rooms)
  }

  /** The two events that part the total from the sum: leaving an empty room while others are not, and the join that
      finds the total, but not the room, at its maximum. */
  predicate Parts(c: Counts, e: Event) {
    || (e.RoomLeave? && e.room in c.rooms && c.rooms[e.room] == 0 && c.roomers >= 1)
    || (e.RoomJoin? && e.room in c.rooms && c.rooms[e.room] < MAX && c.roomers == MAX)
  }

  lemma AgreesUnlessParted(c: Counts, e: Event)
    requires Agrees(c)
    ensures Agrees(Step(c, e)) <==> !Parts(c, e)
  {
    StepChangesSum(c, e);
    if (e.RoomJoin? || e.RoomLeave?) && e.room in c.rooms {
      SumWithout(c.rooms, e.room);
    }
  }

  /** The total is the sum over the rooms throughout a run iff no event of the run parts them. */
  lemma TotalIsSumIff(c: Counts, es: seq<Event>)
    requires Empty(c)
    ensures (forall n :: 0 <= n <= |es| ==> Agrees(At(c, es, n)))
            <==> (forall n :: 0 <= n < |es| ==> !Parts(At(c, es, n), es[n]))
  {
    var good := (n: nat) => n <= |es| && Agrees(At(c, es, n));
    var bad := (n: nat) => n < |es| && Parts(At(c, es, n), es[n]);
    SumOfZeros(c.rooms);
    forall n {:trigger bad(n)} | 0 <= n < |es| && good(n) ensures good(n + 1) <==> !bad(n) {
      NextCounts(c, es, n);
      AgreesUnlessParted(At(c, es, n), es[n]);
    }
    ThroughoutIff(good, bad, |es|);
    assert forall n :: 0 <= n <= |es| ==> (good(n) <==> Agrees(At(c, es, n)));
    assert forall n :: 0 <= n < |es| ==> (bad(n) <==> Parts(At(c, es, n), es[n]));
  }

  // ---------- when the total does not exceed the sum ----------

  ghost predicate Bounded(c: Counts) {
    c.roomers <= Sum(c.rooms)
  }

  /** The one event that takes the total past the sum: the join that wraps the count of a room, but not the total, when
      the total is no less than the other rooms together. */
  ghost predicate Overtakes(c: Counts, e: Event) {
    && e.RoomJoin? && e.room in c.rooms && c.rooms[e.room] == MAX && c.roomers < MAX
    && c.roomers >= Sum(c.rooms - {e.room})
  }

  lemma BoundedUnlessOvertaken(c: Counts, e: Event)
    requires Bounded(c)
    ensures Bounded(Step(c, e)) <==> !Overtakes(c, e)
  {
    StepChangesSum(c, e);
    if (e.RoomJoin? || e.RoomLeave?) && e.room in c.rooms {
      SumWithout(c.rooms, e.room);
    }
  }

  /** The total never exceeds the sum over the rooms iff no event of the run overtakes it. */
  lemma TotalIsBoundedIff(c: Counts, es: seq<Event>)
    requires Empty(c)
    ensures (forall n :: 0 <= n <= |es| ==> Bounded(At(c, es, n)))
            <==> (forall n :: 0 <= n < |es| ==> !Overtakes(At(c, es, n), es[n]))
  {
    var good := (n: nat) => n <= |es| && Bounded(At(c, es, n));
    var bad := (n: nat) => n < |es| && Overtakes(At(c, es, n), es[n]);
    SumOfZeros(c.rooms);
    forall n {:trigger bad(n)} | 0 <= n < |es| && good(n) ensures good(n + 1) <==> !bad(n) {
      NextCounts(c, es, n);
      BoundedUnlessOvertaken(At(c, es, n), es[n]);
    }
    ThroughoutIff(good, bad, |es|);
    assert forall n :: 0 <= n <= |es| ==> (good(n) <==> Bounded(At(c, es, n)));
    assert forall n :: 0 <= n < |es| ==> (bad(n) <==> Overtakes(At(c, es, n), es[n]));
  }

  // ---------- when a table shows joins less leaves ----------

  function Joins(es: seq<Event>, room: string): nat {
    if es == [] then 0 else Joins(es[..|es| - 1], room) + if es[|es| - 1] == RoomJoin(room) then 1 else 0
  }

  function Leaves(es: seq<Event>, room: string): nat {
    if es == [] then 0 else Leaves(es[..|es| - 1], room) + if es[|es| - 1] == RoomLeave(room) then 1 else 0
  }

  /** The table of the room shows joins less leaves. */
  predicate ShowsBalance(c: Counts, es: seq<Event>, room: string) {
    var r := Run(c, es);
    room in r.rooms && r.rooms[room] == Joins(es, room) - Leaves(es, room)
  }

  /** The events a table misses: a leave at 0 and a join at the maximum. */
  predicate Misses(c: Counts, e: Event, room: string) {
    && room in c.rooms
    && ((e == RoomLeave(room) && c.rooms[room] == 0) || (e == RoomJoin(room) && c.rooms[room] == MAX))
  }

  lemma ShowsUnlessMissed(c: Counts, es: seq<Event>, room: string, n: nat)
    requires n < |es| && ShowsBalance(c, es[..n], room)
    ensures ShowsBalance(c, es[..n + 1], room) <==> !Misses(At(c, es, n), es[n], room)
  {
    assert es[..n + 1][..n] == es[..n];
  }

  /** A table shows joins less leaves throughout a run iff it misses none of its events. */
  lemma TableShowsBalanceIff(c: Counts, es: seq<Event>, room: string)
    requires Empty(c) && room in c.rooms
    ensures (forall n :: 0 <= n <= |es| ==> ShowsBalance(c, es[..n], room))
            <==> (forall n :: 0 <= n < |es| ==> !Misses(At(c, es, n), es[n], room))
  {
    var good := (n: nat) => n <= |es| && ShowsBalance(c, es[..n], room);
    var bad := (n: nat) => n < |es| && Misses(At(c, es, n), es[n], room);
    assert es[..0] == [];
    forall n {:trigger bad(n)} | 0 <= n < |es| && good(n) ensures good(n + 1) <==> !bad(n) {
      ShowsUnlessMissed(c, es, room, n);
    }
    ThroughoutIff(good, bad, |es|);
    assert forall n :: 0 <= n <= |es| ==> (good(n) <==> ShowsBalance(c, es[..n], room));
    assert forall n :: 0 <= n < |es| ==> (bad(n) <==> Misses(At(c, es, n), es[n], room));
  }

  // ---------- what one event does to a count ----------

  /** A table goes up by one with a join of its room and down by one with a leave, except that a leave at 0 leaves
      it at 0 and a join at the maximum takes it to 0. Nothing else moves it. */
  lemma TableCounts(c: Counts, e: Event, room: string)
    requires room in c.rooms
    ensures var n, r := c.rooms[room], Step(c, e);
            && room in r.rooms
            && (e == RoomJoin(room) ==> r.rooms[room] == if n == MAX then 0 else n + 1)
            && (e == RoomLeave(room) ==> r.rooms[room] == if n == 0 then 0 else n - 1)
            && (e != RoomJoin(room) && e != RoomLeave(room) ==> r.rooms[room] == n)
  {
  }

  /** The lobby likewise, and the events of rooms do not move it. */
  lemma LobbyCounts(c: Counts, e: Event)
    ensures var n, r := c.joiners, Step(c, e);
            && (e == LobbyJoin ==> r.joiners == if n == MAX then 0 else n + 1)
            && (e == LobbyLeave ==> r.joiners == if n == 0 then 0 else n - 1)
            && (e != LobbyJoin && e != LobbyLeave ==> r.joiners == n)
  {
  }

  /** So does the total of the rooms; the events of the lobby and of unknown rooms do not move it. */
  lemma RoomersCount(c: Counts, e: Event)
    ensures var n, r := c.roomers, Step(c, e);
            && (e.RoomJoin? && e.room in c.rooms ==> r.roomers == if n == MAX then 0 else n + 1)
            && (e.RoomLeave? && e.room in c.rooms ==> r.roomers == if n == 0 then 0 else n - 1)
            && (e.LobbyJoin? || e.LobbyLeave? || e.room !in c.rooms ==> r.roomers == n && r.rooms == c.rooms)
  {
  }

  // ---------- when the lobby shows joins less leaves ----------

  function LobbyJoins(es: seq<Event>): nat {
    if es == [] then 0 else LobbyJoins(es[..|es| - 1]) + if es[|es| - 1] == LobbyJoin then 1 else 0
  }

  function LobbyLeaves(es: seq<Event>): nat {
    if es == [] then 0 else LobbyLeaves(es[..|es| - 1]) + if es[|es| - 1] == LobbyLeave then 1 else 0
  }

  predicate LobbyShowsBalance(c: Counts, es: seq<Event>) {
    Run(c, es).joiners == LobbyJoins(es) - LobbyLeaves(es)
  }

  predicate LobbyMisses(c: Counts, e: Event) {
    (e == LobbyLeave && c.joiners == 0) || (e == LobbyJoin && c.joiners == MAX)
  }

  lemma LobbyShowsUnlessMissed(c: Counts, es: seq<Event>, n: nat)
    requires n < |es| && LobbyShowsBalance(c, es[..n])
    ensures LobbyShowsBalance(c, es[..n + 1]) <==> !LobbyMisses(At(c, es, n), es[n])
  {
    assert es[..n + 1][..n] == es[..n];
    LobbyCounts(At(c, es, n), es[n]);
  }

  /** The lobby shows joins less leaves throughout a run iff no leave finds it at 0 and no join at the maximum. */
  lemma LobbyShowsBalanceIff(c: Counts, es: seq<Event>)
    requires Empty(c)
    ensures (forall n :: 0 <= n <= |es| ==> LobbyShowsBalance(c, es[..n]))
            <==> (forall n :: 0 <= n < |es| ==> !LobbyMisses(At(c, es, n), es[n]))
  {
    var good := (n: nat) => n <= |es| && LobbyShowsBalance(c, es[..n]);
    var bad := (n: nat) => n < |es| && LobbyMisses(At(c, es, n), es[n]);
    assert es[..0] == [];
    forall n {:trigger bad(n)} | 0 <= n < |es| && good(n) ensures good(n + 1) <==> !bad(n) {
      LobbyShowsUnlessMissed(c, es, n);
    }
    ThroughoutIff(good, bad, |es|);
    assert forall n :: 0 <= n <= |es| ==> (good(n) <==> LobbyShowsBalance(c, es[..n]));
    assert forall n :: 0 <= n < |es| ==> (bad(n) <==> LobbyMisses(At(c, es, n), es[n]));
  }

  // ---------- balanced runs ----------

  /** A join that finds the total or the count of its room at the maximum. */
  predicate Overflows(c: Counts, e: Event) {
    e.RoomJoin? && e.room in c.rooms && (c.roomers == MAX || c.rooms[e.room] == MAX)
  }

  ghost predicate NoOverflow(c: Counts, es: seq<Event>) {
    forall n :: 0 <= n < |es| ==> !Overflows(At(c, es, n), es[n])
  }

  /** No room is left more often than it was joined, at any moment of the run. */
  ghost predicate Balanced(c: Counts, es: seq<Event>) {
    forall n, room :: 0 <= n <= |es| && room in c.rooms ==> Leaves(es[..n], room) <= Joins(es[..n], room)
  }

  lemma {:induction false} BalancedRoom(c: Counts, es: seq<Event>, room: string, n: nat)
    requires Empty(c) && NoOverflow(c, es) && Balanced(c, es) && room in c.rooms && n <= |es|
    ensures ShowsBalance(c, es[..n], room)
    ensures n < |es| ==> !Misses(At(c, es, n), es[n], room)
  {
    if n > 0 {
      BalancedRoom(c, es, room, n - 1);
      ShowsUnlessMissed(c, es, room, n - 1);
    }
    if n < |es| {
      assert es[..n + 1][..n] == es[..n];
      assert Leaves(es[..n + 1], room) <= Joins(es[..n + 1], room);
      assert !Overflows(At(c, es, n), es[n]);
    }
  }

  lemma BalancedNotParted(c: Counts, es: seq<Event>, n: nat)
    requires Empty(c) && NoOverflow(c, es) && Balanced(c, es) && n < |es|
    ensures !Parts(At(c, es, n), es[n])
  {
    assert !Overflows(At(c, es, n), es[n]);
    SameTables(c, es[..n]);
    if es[n].RoomLeave? && es[n].room in c.rooms {
      BalancedRoom(c, es, es[n].room, n);
    }
  }

  /** On balanced runs without overflow every table shows joins less leaves, and the total is the sum over the rooms, at
      every moment. */
  lemma BalancedRunsAgree(c: Counts, es: seq<Event>)
    requires Empty(c) && NoOverflow(c, es) && Balanced(c, es)
    ensures forall n, room :: 0 <= n <= |es| && room in c.rooms ==> ShowsBalance(c, es[..n], room)
    ensures forall n :: 0 <= n <= |es| ==> Agrees(At(c, es, n))
  {
    forall n, room | 0 <= n <= |es| && room in c.rooms ensures ShowsBalance(c, es[..n], room) {
      BalancedRoom(c, es, room, n);
    }
    forall n | 0 <= n < |es| ensures !Parts(At(c, es, n), es[n]) {
      BalancedNotParted(c, es, n);
    }
    TotalIsSumIff(c, es);
  }

  /** No counter exceeds a number k of events. */
  ghost predicate Within(c: Counts, k: nat) {
    c.roomers <= k && c.joiners <= k && forall room :: room in c.rooms ==> c.rooms[room] <= k
  }

  /** No counter has counted more than the events seen, so nothing overflows before the 2^32nd event. */
  lemma {:induction false} NoWrap(c: Counts, es: seq<Event>, n: nat)
    requires Empty(c) && n <= |es| < UINT32
    ensures Within(At(c, es, n), n)
    ensures n < |es| ==> !Overflows(At(c, es, n), es[n])
  {
    if n > 0 {
      NoWrap(c, es, n - 1);
      NextCounts(c, es, n - 1);
      StepStaysWithin(At(c, es, n - 1), es[n - 1], n - 1);
    }
  }

  lemma StepStaysWithin(c: Counts, e: Event, k: nat)
    requires Within(c, k) && k < MAX
    ensures Within(Step(c, e), k + 1)
  {
  }

  // ---------- how it fails ----------

  const TWO_ROOMS := Counts(0, 0, map["a" := 0, "b" := 0])

  /** Somebody joins one room and somebody leaves another: the total is 0, and a room shows 1. */
  lemma LeavingAnEmptyRoom()
    ensures Empty(TWO_ROOMS)
    ensures var r := Run(TWO_ROOMS, [RoomJoin("a"), RoomLeave("b")]); r.roomers == 0 && Sum(r.rooms) == 1
  {
    var es := [RoomJoin("a"), RoomLeave("b")];
    assert es[..1] == [RoomJoin("a")] && es[..1][..0] == [];
    TotalIsSumLessDrift(TWO_ROOMS, es);
    assert Drift(TWO_ROOMS, es) == 1 by {
      assert Drift(TWO_ROOMS, es[..1]) == 0;
    }
  }

  /** Somebody leaves a room nobody joined: its table goes on to show 0. */
  lemma TableMissesALeave()
    ensures !ShowsBalance(TWO_ROOMS, [RoomLeave("b")], "b")
  {
    assert [RoomLeave("b")][..0] == [];
  }

  /** Somebody leaves a lobby nobody entered. */
  lemma LobbyMissesALeave()
    ensures !LobbyShowsBalance(TWO_ROOMS, [LobbyLeave])
  {
    assert [LobbyLeave][..0] == [];
  }

  lemma {:induction false} ManyJoins(n: nat) returns (es: seq<Event>)
    requires n < UINT32
    ensures |es| == n && Run(TWO_ROOMS, es) == Counts(0, n, map["a" := n, "b" := 0])
  {
    if n == 0 {
      es := [];
    } else {
      var p := ManyJoins(n - 1);
      es := p + [RoomJoin("a")];
      assert es[..n - 1] == p;
    }
  }

  /** 2^32 - 1 joins of one room and one of another: the total wraps to 0. */
  lemma TotalWraps() returns (es: seq<Event>)
    ensures |es| == UINT32 && Empty(TWO_ROOMS)
    ensures var r := Run(TWO_ROOMS, es); r.roomers == 0 && Sum(r.rooms) == UINT32
  {
    var p := ManyJoins(MAX);
    es := p + [RoomJoin("b")];
    assert es[..MAX] == p;
    assert Run(TWO_ROOMS, es).rooms == map["a" := MAX, "b" := 1];
    SumOfTwo(MAX, 1);
  }

  /** 2^32 - 1 joins of one room, a leave from the other, and one more join: the room wraps to 0, the total does not. */
  lemma RoomWraps() returns (es: seq<Event>)
    ensures |es| == UINT32 + 1
    ensures var r := Run(TWO_ROOMS, es); r.roomers == MAX && Sum(r.rooms) == 0
  {
    var p := ManyJoins(MAX);
    var q := p + [RoomLeave("b")];
    es := q + [RoomJoin("a")];
    assert q[..MAX] == p && es[..UINT32] == q;
    assert Run(TWO_ROOMS, q) == Counts(0, MAX - 1, map["a" := MAX, "b" := 0]);
    assert Run(TWO_ROOMS, es).rooms == map["a" := 0, "b" := 0];
    SumOfTwo(0, 0);
  }

  lemma SumOfTwo(a: uint32, b: uint32)
    ensures Sum(map["a" := a, "b" := b]) == a + b
  {
    var rooms := map["a" := a, "b" := b];
    SumWithout(rooms, "a");
    SumWithout(rooms - {"a"}, "b");
    assert rooms - {"a"} - {"b"} == map[];
  }

  // ---------- the class ----------

  class Counter {
    var joiners: uint32
    var roomers: uint32
    var allRoomsJoins: map<string, uint32>

    ghost function State(): Counts
      reads this
    {
      Counts(joiners, roomers, allRoomsJoins)
    }

    constructor (names: set<string>)
      ensures Empty(State()) && State().rooms.Keys == names
    {
      joiners, roomers := 0, 0;
      allRoomsJoins := map k | k in names :: 0;
    }

    /** A join: the message carries the table's count and the site total; an unknown room sends none. */
    method OnRoomJoin(room: string) returns (sent: bool, joiner: uint32, total: uint32)
      modifies this
      ensures State() == Step(old(State()), RoomJoin(room))
      ensures sent <==> room in allRoomsJoins
      ensures sent ==> joiner == allRoomsJoins[room] && total == (roomers + joiners) % UINT32
    {
      sent, joiner, total := room in allRoomsJoins, 0, 0;
      if sent {
        roomers := Inc(roomers);
        allRoomsJoins := allRoomsJoins[room := Inc(allRoomsJoins[room])];
        joiner, total := allRoomsJoins[room], (roomers + joiners) % UINT32;
      }
    }

    method OnRoomLeave(room: string) returns (sent: bool, joiner: uint32, total: uint32)
      modifies this
      ensures State() == Step(old(State()), RoomLeave(room))
      ensures sent <==> room in allRoomsJoins
      ensures sent ==> joiner == allRoomsJoins[room] && total == (roomers + joiners) % UINT32
    {
      sent, joiner, total := room in allRoomsJoins, 0, 0;
      if sent {
        if roomers >= 1 {
          roomers := roomers - 1;
        }
        if allRoomsJoins[room] >= 1 {
          allRoomsJoins := allRoomsJoins[room := allRoomsJoins[room] - 1];
        }
        joiner, total := allRoomsJoins[room], (roomers + joiners) % UINT32;
      }
    }

    method OnLobbyJoin() returns (joiner: uint32, total: uint32)
      modifies this
      ensures State() == Step(old(State()), LobbyJoin)
      ensures joiner == joiners && total == (roomers + joiners) % UINT32
    {
      joiners := Inc(joiners);
      joiner, total := joiners, (roomers + joiners) % UINT32;
    }

    method OnLobbyLeave() returns (joiner: uint32, total: uint32)
      modifies this
      ensures State() == Step(old(State()), LobbyLeave)
      ensures joiner == joiners && total == (roomers + joiners) % UINT32
    {
      if joiners >= 1 {
        joiners := joiners - 1;
      }
      joiner, total := joiners, (roomers + joiners) % UINT32;
    }
  }
}
