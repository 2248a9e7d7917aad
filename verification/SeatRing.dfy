/** The ring of four seats of game/room_manager.go. The ring is seen from its current position, which moves with almost
    every request; connections are opaque, and Nil marks a vacant seat. */
module SeatRings {
  import opened Entities

  datatype Conn = Nil | Conn(id: nat)

  /** One seat of the ring as a value; `value` is the card last saved with it. */
  datatype Place = Place(zone: Seat, conn: Conn, name: string, value: Slot)

  type Places = p: seq<Place> | |p| == 4
    witness [Place(EAST, Nil, "", 0), Place(SOUTH, Nil, "", 0), Place(WEST, Nil, "", 0), Place(NORTH, Nil, "", 0)]

  /** `players` counts the taken seats, `aa` the actions of the round. */
  datatype RingState = RingState(places: Places, players: int, aa: int)

  datatype Request =
    | EnterGame(conn: Conn, name: string)
    | LeaveGame(conn: Conn)
    | SeatShift(seat: Seat)
    | FindPlayer(seat: Seat, closed: set<Conn>)
    | TableInfo
    | IsPlayerOnSeat(user: int)
    | PlayerAction(seat: Seat, conn: Conn, card: Slot, closed: set<Conn>)

  // ---------- the ring as a value ----------

  /** The ring after k moves. */
  function Rot(places: Places, k: nat): Places
    requires k <= 4
  {
    places[k..] + places[..k]
  }

  predicate Cyclic(places: Places) {
    && places[1].zone == Next(places[0].zone)
    && places[2].zone == Next(places[1].zone)
    && places[3].zone == Next(places[2].zone)
  }

  function Taken(p: Place): nat {
    if p.conn == Nil then 0 else 1
  }

  function Occupied(places: Places): nat {
    Taken(places[0]) + Taken(places[1]) + Taken(places[2]) + Taken(places[3])
  }

  predicate Differ(p: Place, q: Place) {
    p.conn == Nil || p.conn != q.conn
  }

  /** No connection holds two seats. */
  predicate OneSeatEach(places: Places) {
    && Differ(places[0], places[1]) && Differ(places[0], places[2]) && Differ(places[0], places[3])
    && Differ(places[1], places[2]) && Differ(places[1], places[3]) && Differ(places[2], places[3])
  }

  predicate NoNameIfVacant(p: Place) {
    p.conn == Nil ==> p.name == ""
  }

  predicate VacantHaveNoName(places: Places) {
    NoNameIfVacant(places[0]) && NoNameIfVacant(places[1]) && NoNameIfVacant(places[2]) && NoNameIfVacant(places[3])
  }

  predicate RingOK(r: RingState) {
    && Cyclic(r.places)
    && r.players == Occupied(r.places)
    && 0 <= r.aa <= 4
    && OneSeatEach(r.places)
    && VacantHaveNoName(r.places)
  }

  /** Where a connection sits, 4 if nowhere; for Nil, the first vacant seat. */
  function IndexOf(places: Places, conn: Conn): nat {
    if places[0].conn == conn then 0
    else if places[1].conn == conn then 1
    else if places[2].conn == conn then 2
    else if places[3].conn == conn then 3
    else 4
  }

  function IndexOfSeat(places: Places, seat: int): nat {
    if places[0].zone == seat then 0
    else if places[1].zone == seat then 1
    else if places[2].zone == seat then 2
    else if places[3].zone == seat then 3
    else 4
  }

  /** Puts p at position k and moves just past it. */
  function FillAndPass(places: Places, k: nat, p: Place): Places
    requires k < 4
  {
    Rot(places[k := p], k + 1)
  }

  /** playerJoin with SitDown: the first vacant seat from the current position on is taken. */
  function SitDown(r: RingState, conn: Conn, name: string): (RingState, int) {
    var k := IndexOf(r.places, Nil);
    if k == 4 then (r, VALUE_NOT_SET)
    else
      var zone := r.places[k].zone;
      (RingState(FillAndPass(r.places, k, r.places[k].(conn := conn, name := name)), r.players + 1, r.aa), zone)
  }

  /** playerJoin with StandUp: the seat of the connection is vacated. */
  function StandUp(r: RingState, conn: Conn): (RingState, int) {
    var k := IndexOf(r.places, conn);
    if conn == Nil || k == 4 then (r, VALUE_NOT_SET)
    else
      var zone := r.places[k].zone;
      (RingState(FillAndPass(r.places, k, r.places[k].(conn := Nil, name := "")), r.players - 1, r.aa), zone)
  }

  /** The EnterGame request: refused when the connection equals that of some seat, vacant seats included. */
  function Enter(r: RingState, conn: Conn, name: string): (RingState, int) {
    if IndexOf(r.places, conn) < 4 then (r, VALUE_NOT_SET) else SitDown(r, conn, name)
  }

  function MoveTo(r: RingState, k: nat): RingState
    requires k <= 4
  {
    r.(places := Rot(r.places, k))
  }

  predicate Live(p: Place, closed: set<Conn>) {
    p.conn != Nil && p.conn !in closed
  }

  /** findPlayer: only a seat other than the current one is asked for a live connection. */
  predicate Finds(places: Places, seat: Seat, closed: set<Conn>) {
    var k := IndexOfSeat(places, seat);
    k < 4 && (k == 0 || Live(places[k], closed))
  }

  /** The name under which a connection is seated, "" if it is not. */
  function NameOf(places: Places, conn: Conn): string {
    var k := IndexOf(places, conn);
    if conn == Nil || k == 4 then "" else places[k].name
  }

  function Find(r: RingState, seat: Seat, closed: set<Conn>): RingState {
    if Finds(r.places, seat, closed) then MoveTo(r, IndexOfSeat(r.places, seat)) else r
  }

  /** Passes the seat whose player is asked for; SEAT_YET stands for a user who is the player of no seat. */
  function PassUser(r: RingState, user: int): RingState {
    var k := IndexOfSeat(r.places, user);
    if k < 4 then MoveTo(r, k + 1) else r
  }

  /** savePlayerCardValue: the seat asked for is found and held by the connection. */
  predicate Saves(places: Places, seat: Seat, conn: Conn, closed: set<Conn>) {
    Finds(places, seat, closed) && places[IndexOfSeat(places, seat)].conn == conn
  }

  function Save(places: Places, card: Slot): Places {
    places[0 := places[0].(value := card)]
  }

  /** An action counts when its card is saved, up to the fourth of the round; the seat is looked up either way. */
  function Act(r: RingState, seat: Seat, conn: Conn, card: Slot, closed: set<Conn>): RingState {
    if r.aa >= 4 then r
    else
      var found := Find(r, seat, closed);
      if Saves(r.places, seat, conn, closed) then found.(places := Save(found.places, card), aa := r.aa + 1) else found
  }

  function Answer(r: RingState, q: Request): RingState {
    match q
    case EnterGame(conn, name) => Enter(r, conn, name).0
    case LeaveGame(conn) => StandUp(r, conn).0
    case SeatShift(seat) => MoveTo(r, IndexOfSeat(r.places, seat))
    case FindPlayer(seat, closed) => Find(r, seat, closed)
    case TableInfo => MoveTo(r, IndexOf(r.places, Nil))
    case IsPlayerOnSeat(user) => PassUser(r, user)
    case PlayerAction(seat, conn, card, closed) => Act(r, seat, conn, card, closed)
  }

  function Answers(r: RingState, qs: seq<Request>): RingState {
    if qs == [] then r else Answer(Answers(r, qs[..|qs| - 1]), qs[|qs| - 1])
  }

  const NEW_TABLE :=
    RingState([Place(EAST, Nil, "", 0), Place(SOUTH, Nil, "", 0), Place(WEST, Nil, "", 0), Place(NORTH, Nil, "", 0)],
              0, 0)

  // ---------- what every run keeps ----------

  lemma FourSeats(places: Places, seat: Seat)
    requires Cyclic(places)
    ensures IndexOfSeat(places, seat) < 4
    ensures places[0].zone == Next(places[3].zone)
    ensures forall i, j :: 0 <= i < j < 4 ==> places[i].zone != places[j].zone
  {
  }

  // ---------- the seats but one ----------

  /** The connections of the first k places but that of one seat. */
  function ConnsBefore(places: Places, exclude: Seat, k: nat): (conns: seq<Conn>)
    requires k <= 4
  {
    if k == 0 then []
    else ConnsBefore(places, exclude, k - 1) + if places[k - 1].zone == exclude then [] else [places[k - 1].conn]
  }

  /** The connections of the other three seats, from the current position on. */
  function ConnsExcept(places: Places, exclude: Seat): (Conn, Conn, Conn) {
    var c := ConnsBefore(places, exclude, 4);
    if |c| == 3 then (c[0], c[1], c[2]) else (Nil, Nil, Nil)
  }

  lemma ThreeOthers(places: Places, exclude: Seat)
    requires Cyclic(places)
    ensures var i := IndexOfSeat(places, exclude);
            i < 4 && |ConnsBefore(places, exclude, 4)| == 3 &&
            ConnsExcept(places, exclude) == if i == 0 then (places[1].conn, places[2].conn, places[3].conn)
                                            else if i == 1 then (places[0].conn, places[2].conn, places[3].conn)
                                            else if i == 2 then (places[0].conn, places[1].conn, places[3].conn)
                                            else (places[0].conn, places[1].conn, places[2].conn)
  {
    FourSeats(places, exclude);
    assert ConnsBefore(places, exclude, 1) == if places[0].zone == exclude then [] else [places[0].conn];
    assert ConnsBefore(places, exclude, 2) ==
           ConnsBefore(places, exclude, 1) + if places[1].zone == exclude then [] else [places[1].conn];
    assert ConnsBefore(places, exclude, 3) ==
           ConnsBefore(places, exclude, 2) + if places[2].zone == exclude then [] else [places[2].conn];
  }

  predicate Hears(told: (Conn, Conn, Conn), conn: Conn) {
    told.0 == conn || told.1 == conn || told.2 == conn
  }

  /** Told of a departure are the connections of all seats but the one whose zone the user sends. All who stay are
      told iff that zone is the seat left or nobody sits there. */
  lemma AllWhoStayAreToldIff(r: RingState, conn: Conn, zone: Seat)
    requires RingOK(r) && StandUp(r, conn).1 != VALUE_NOT_SET
    ensures var (u, left) := StandUp(r, conn);
            (forall s: Seat :: Occupant(u.places, s) != Nil ==>
                                 Hears(ConnsExcept(u.places, zone), Occupant(u.places, s)))
            <==> zone == left || Occupant(r.places, zone) == Nil
  {
    var (u, left) := StandUp(r, conn);
    StandUpKeepsRing(r, conn);
    HearsIffElsewhere(u, zone);
    var k := IndexOf(r.places, conn);
    FourSeats(r.places, zone);
    FillChangesOneSeat(r.places, k, r.places[k].(conn := Nil, name := ""), zone);
  }

  /** When that zone is the seat left, those told are the players of the next three seats, clockwise. */
  lemma LeaverTellsTheOthers(r: RingState, conn: Conn)
    requires RingOK(r) && StandUp(r, conn).1 != VALUE_NOT_SET
    ensures var (u, left) := StandUp(r, conn);
            && (left == EAST || left == SOUTH || left == WEST || left == NORTH)
            && ConnsExcept(u.places, left) ==
               (Occupant(r.places, Next(left)), Occupant(r.places, Partner(left)),
                Occupant(r.places, Next(Partner(left))))
  {
    var (u, left) := StandUp(r, conn);
    var k := IndexOf(r.places, conn);
    FourSeats(r.places, left);
    StandUpKeepsRing(r, conn);
    RotOfFour(r.places[k := r.places[k].(conn := Nil, name := "")], k + 1);
    ThreeOthers(u.places, left);
    SeatsGoRound(left);
  }

  /** Of those seated, exactly the one at the seat excluded does not hear. */
  lemma HearsIffElsewhere(r: RingState, zone: Seat)
    requires RingOK(r)
    ensures forall s: Seat :: Occupant(r.places, s) != Nil ==>
              (Hears(ConnsExcept(r.places, zone), Occupant(r.places, s)) <==> s != zone)
  {
    ThreeOthers(r.places, zone);
    forall s: Seat | Occupant(r.places, s) != Nil
      ensures Hears(ConnsExcept(r.places, zone), Occupant(r.places, s)) <==> s != zone
    {
      SeatOfConnection(r, s);
      FourSeats(r.places, zone);
    }
  }

  /** Four players; the one at East leaves, and its user record says South: the player at South is not told. */
  lemma PlayerNotTold()
    ensures var r := RingState([Place(EAST, Conn(1), "e", 0), Place(SOUTH, Conn(2), "s", 0),
                                Place(WEST, Conn(3), "w", 0), Place(NORTH, Conn(4), "n", 0)], 4, 0);
            var (u, left) := StandUp(r, Conn(1));
            && RingOK(r) && left == EAST && Occupant(u.places, SOUTH) == Conn(2)
            && !Hears(ConnsExcept(u.places, SOUTH), Conn(2))
  {
    var r := RingState([Place(EAST, Conn(1), "e", 0), Place(SOUTH, Conn(2), "s", 0),
                        Place(WEST, Conn(3), "w", 0), Place(NORTH, Conn(4), "n", 0)], 4, 0);
    var (u, left) := StandUp(r, Conn(1));
    StandUpKeepsRing(r, Conn(1));
    FillChangesOneSeat(r.places, 0, r.places[0].(conn := Nil, name := ""), SOUTH);
    HearsIffElsewhere(u, SOUTH);
  }

  /** The ring after k moves, spelled out. */
  lemma RotOfFour(p: Places, k: nat)
    requires |p| == 4 && k <= 4
    ensures Rot(p, k) == if k == 1 then [p[1], p[2], p[3], p[0]]
                         else if k == 2 then [p[2], p[3], p[0], p[1]]
                         else if k == 3 then [p[3], p[0], p[1], p[2]]
                         else [p[0], p[1], p[2], p[3]]
  {
  }

  lemma RotKeepsRing(r: RingState, k: nat)
    requires RingOK(r) && k <= 4
    ensures RingOK(MoveTo(r, k))
  {
    FourSeats(r.places, r.places[0].zone);
    RotOfFour(r.places, k);
  }

  lemma PutKeepsRing(r: RingState, k: nat, p: Place)
    requires RingOK(r) && k < 4 && p.zone == r.places[k].zone
    requires p.conn == Nil ==> p.name == ""
    requires p.conn != Nil ==> IndexOf(r.places, p.conn) == 4
    ensures RingOK(RingState(r.places[k := p], r.players + Taken(p) - Taken(r.places[k]), r.aa))
  {
  }

  lemma FillKeepsRing(r: RingState, k: nat, p: Place)
    requires RingOK(r) && k < 4 && p.zone == r.places[k].zone
    requires p.conn == Nil ==> p.name == ""
    requires p.conn != Nil ==> IndexOf(r.places, p.conn) == 4
    ensures RingOK(RingState(FillAndPass(r.places, k, p), r.players + Taken(p) - Taken(r.places[k]), r.aa))
  {
    PutKeepsRing(r, k, p);
    RotKeepsRing(RingState(r.places[k := p], r.players + Taken(p) - Taken(r.places[k]), r.aa), k + 1);
  }

  lemma SitDownKeepsRing(r: RingState, conn: Conn, name: string)
    requires RingOK(r) && conn != Nil && IndexOf(r.places, conn) == 4
    ensures RingOK(SitDown(r, conn, name).0)
  {
    var k := IndexOf(r.places, Nil);
    if k < 4 {
      FillKeepsRing(r, k, r.places[k].(conn := conn, name := name));
    }
  }

  lemma StandUpKeepsRing(r: RingState, conn: Conn)
    requires RingOK(r)
    ensures RingOK(StandUp(r, conn).0)
  {
    var k := IndexOf(r.places, conn);
    if conn != Nil && k < 4 {
      FillKeepsRing(r, k, r.places[k].(conn := Nil, name := ""));
    }
  }

  lemma FindKeepsRing(r: RingState, seat: Seat, closed: set<Conn>)
    requires RingOK(r)
    ensures RingOK(Find(r, seat, closed))
  {
    RotKeepsRing(r, IndexOfSeat(r.places, seat));
  }

  lemma ActKeepsRing(r: RingState, seat: Seat, conn: Conn, card: Slot, closed: set<Conn>)
    requires RingOK(r)
    ensures RingOK(Act(r, seat, conn, card, closed))
  {
    FindKeepsRing(r, seat, closed);
  }

  lemma PassUserKeepsRing(r: RingState, user: int)
    requires RingOK(r)
    ensures RingOK(PassUser(r, user))
  {
    var k := IndexOfSeat(r.places, user);
    if k < 4 {
      RotKeepsRing(r, k + 1);
    }
  }

  /** Every request keeps the clockwise order, the two counts and one seat per connection. */
  lemma {:induction false} AnswerKeepsRing(r: RingState, q: Request)
    requires RingOK(r)
    ensures RingOK(Answer(r, q))
  {
    match q
    case EnterGame(conn, name) =>
      if conn != Nil && IndexOf(r.places, conn) == 4 {
        SitDownKeepsRing(r, conn, name);
      }
    case LeaveGame(conn) =>
      StandUpKeepsRing(r, conn);
    case SeatShift(seat) =>
      RotKeepsRing(r, IndexOfSeat(r.places, seat));
    case FindPlayer(seat, closed) =>
      FindKeepsRing(r, seat, closed);
    case TableInfo =>
      RotKeepsRing(r, IndexOf(r.places, Nil));
    case IsPlayerOnSeat(user) =>
      PassUserKeepsRing(r, user);
    case PlayerAction(seat, conn, card, closed) =>
      ActKeepsRing(r, seat, conn, card, closed);
  }

  /** After any sequence of requests the seats are still in clockwise order, the counter is the number of taken seats,
      between 0 and 4, and no connection holds two. */
  lemma {:induction false} EveryRunKeepsRing(qs: seq<Request>)
    ensures var r := Answers(NEW_TABLE, qs);
            && RingOK(r)
            && 0 <= r.players <= 4 && 0 <= r.aa <= 4
            && (r.players == 4 <==> IndexOf(r.places, Nil) == 4)
  {
    if qs != [] {
      EveryRunKeepsRing(qs[..|qs| - 1]);
      AnswerKeepsRing(Answers(NEW_TABLE, qs[..|qs| - 1]), qs[|qs| - 1]);
    }
  }

  /** A request to sit succeeds iff it comes with a connection not yet seated and some seat is free; the seat it gets is
      one that was vacant, and no other seat changes hands. */
  lemma SitsIffFree(r: RingState, conn: Conn, name: string)
    requires RingOK(r)
    ensures var (u, seat) := Enter(r, conn, name);
            && (seat != VALUE_NOT_SET <==> conn != Nil && IndexOf(r.places, conn) == 4 && r.players < 4)
            && (seat != VALUE_NOT_SET ==>
                  && (forall s: Seat {:trigger Occupant(u.places, s)} ::
                        Occupant(u.places, s) == if s == seat then conn else Occupant(r.places, s))
                  && exists i :: 0 <= i < 4 && r.places[i].zone == seat && r.places[i].conn == Nil
                                 && forall j :: 0 <= j < i ==> r.places[j].conn != Nil)
  {
    var k := IndexOf(r.places, Nil);
    if IndexOf(r.places, conn) == 4 && k < 4 {
      var p := r.places[k].(conn := conn, name := name);
      forall s: Seat ensures Occupant(FillAndPass(r.places, k, p), s) ==
                             if s == p.zone then conn else Occupant(r.places, s) {
        FillChangesOneSeat(r.places, k, p, s);
      }
    }
  }

  /** What is on record of a seat. */
  function PlaceOf(places: Places, seat: Seat): Place
    requires Cyclic(places)
  {
    FourSeats(places, seat);
    places[IndexOfSeat(places, seat)]
  }

  lemma FillChangesOnePlace(places: Places, k: nat, p: Place, s: Seat)
    requires Cyclic(places) && k < 4 && p.zone == places[k].zone
    ensures Cyclic(FillAndPass(places, k, p))
    ensures PlaceOf(FillAndPass(places, k, p), s) == if s == p.zone then p else PlaceOf(places, s)
  {
    var filled := places[k := p];
    FourSeats(places, s);
    assert Cyclic(filled);
    FourSeats(filled, s);
    DriftDoesNotMatter(filled, k + 1, s);
    IndexAfterMoves(filled, k + 1, s);
  }

  /** Wherever the ring stands, what is on record of a seat is the same. */
  lemma DriftKeepsPlaces(places: Places, k: nat, s: Seat)
    requires Cyclic(places) && k <= 4
    ensures Cyclic(Rot(places, k)) && PlaceOf(Rot(places, k), s) == PlaceOf(places, s)
  {
    DriftDoesNotMatter(places, k, s);
    IndexAfterMoves(places, k, s);
  }

  /** The seat taken goes on record with the connection and the name; the other seats stay on record as they were. */
  lemma SeatedByName(r: RingState, conn: Conn, name: string, s: Seat)
    requires RingOK(r) && Enter(r, conn, name).1 != VALUE_NOT_SET
    ensures var (u, seat) := Enter(r, conn, name);
            && Cyclic(u.places)
            && PlaceOf(u.places, s) ==
               if s == seat then PlaceOf(r.places, s).(conn := conn, name := name) else PlaceOf(r.places, s)
  {
    var k := IndexOf(r.places, Nil);
    FourSeats(r.places, s);
    FillChangesOnePlace(r.places, k, r.places[k].(conn := conn, name := name), s);
  }

  /** A seat whose player leaves goes on record as vacant and without a name; the others stay as they were. */
  lemma LeaverIsStruckOff(r: RingState, conn: Conn, s: Seat)
    requires RingOK(r) && StandUp(r, conn).1 != VALUE_NOT_SET
    ensures var (u, left) := StandUp(r, conn);
            && Cyclic(u.places)
            && (s == left ==> PlaceOf(r.places, s).conn == conn)
            && PlaceOf(u.places, s) ==
               if s == left then PlaceOf(r.places, s).(conn := Nil, name := "") else PlaceOf(r.places, s)
  {
    var k := IndexOf(r.places, conn);
    FourSeats(r.places, s);
    FillChangesOnePlace(r.places, k, r.places[k].(conn := Nil, name := ""), s);
  }

  /** A card saved goes on record with its seat, and with no other. */
  lemma SavedWithItsSeat(r: RingState, seat: Seat, conn: Conn, card: Slot, closed: set<Conn>, s: Seat)
    requires RingOK(r)
    ensures var u := Act(r, seat, conn, card, closed);
            && Cyclic(u.places)
            && (u.aa == r.aa || u.aa == r.aa + 1)
            && (u.aa != r.aa <==> r.aa < 4 && Finds(r.places, seat, closed) && PlaceOf(r.places, seat).conn == conn)
            && PlaceOf(u.places, s) ==
               if u.aa != r.aa && s == seat then PlaceOf(r.places, s).(value := card) else PlaceOf(r.places, s)
  {
    var k := IndexOfSeat(r.places, seat);
    FourSeats(r.places, seat);
    FourSeats(r.places, s);
    DriftKeepsPlaces(r.places, k, s);
    TurnedTo(r.places, seat);
    var found := Find(r, seat, closed);
    if Saves(r.places, seat, conn, closed) && r.aa < 4 {
      FourSeats(found.places, s);
      assert Cyclic(Save(found.places, card));
      FourSeats(Save(found.places, card), s);
    }
  }

  /** The seat and the name of a player, by connection. */
  ghost predicate SeatedAs(places: Places, conn: Conn, seat: Seat, name: string) {
    Cyclic(places) && PlaceOf(places, seat).conn == conn && PlaceOf(places, seat).name == name
  }

  lemma StaysWhenOthersCome(r: RingState, other: Conn, n: string, conn: Conn, seat: Seat, name: string)
    requires RingOK(r) && conn != Nil && SeatedAs(r.places, conn, seat, name)
    ensures SeatedAs(Enter(r, other, n).0.places, conn, seat, name)
  {
    if Enter(r, other, n).1 != VALUE_NOT_SET {
      SeatedByName(r, other, n, seat);
      SitsIffFree(r, other, n);
      FourSeats(r.places, seat);
    }
  }

  lemma StaysWhenOthersGo(r: RingState, other: Conn, conn: Conn, seat: Seat, name: string)
    requires RingOK(r) && conn != Nil && SeatedAs(r.places, conn, seat, name) && other != conn
    ensures SeatedAs(StandUp(r, other).0.places, conn, seat, name)
  {
    if StandUp(r, other).1 != VALUE_NOT_SET {
      LeaverIsStruckOff(r, other, seat);
    }
  }

  lemma StaysWhenTheRingMoves(r: RingState, k: nat, conn: Conn, seat: Seat, name: string)
    requires RingOK(r) && SeatedAs(r.places, conn, seat, name) && k <= 4
    ensures SeatedAs(MoveTo(r, k).places, conn, seat, name)
  {
    DriftKeepsPlaces(r.places, k, seat);
  }

  /** No request but the player's own to leave takes a player's seat or name away. */
  lemma StaysSeated(r: RingState, q: Request, conn: Conn, seat: Seat, name: string)
    requires RingOK(r) && conn != Nil && SeatedAs(r.places, conn, seat, name) && q != LeaveGame(conn)
    ensures SeatedAs(Answer(r, q).places, conn, seat, name)
  {
    match q
    case EnterGame(other, n) => StaysWhenOthersCome(r, other, n, conn, seat, name);
    case LeaveGame(other) => StaysWhenOthersGo(r, other, conn, seat, name);
    case SeatShift(to) => StaysWhenTheRingMoves(r, IndexOfSeat(r.places, to), conn, seat, name);
    case FindPlayer(to, closed) => StaysWhenTheRingMoves(r, IndexOfSeat(r.places, to), conn, seat, name);
    case TableInfo => StaysWhenTheRingMoves(r, IndexOf(r.places, Nil), conn, seat, name);
    case IsPlayerOnSeat(user) =>
      if IndexOfSeat(r.places, user) < 4 {
        StaysWhenTheRingMoves(r, IndexOfSeat(r.places, user) + 1, conn, seat, name);
      }
    case PlayerAction(to, other, card, closed) => SavedWithItsSeat(r, to, other, card, closed, seat);
  }

  /** The name told when a player leaves is the name the player came with, and the seat the one it was given,
      whatever was requested in between. */
  lemma {:induction false} NameStays(r: RingState, conn: Conn, name: string, qs: seq<Request>)
    requires RingOK(r) && Enter(r, conn, name).1 != VALUE_NOT_SET && LeaveGame(conn) !in qs
    ensures var (u, seat) := Enter(r, conn, name);
            var v := Answers(u, qs);
            RingOK(v) && NameOf(v.places, conn) == name && StandUp(v, conn).1 == seat
  {
    var (u, seat) := Enter(r, conn, name);
    SitsIffFree(r, conn, name);
    SeatedByName(r, conn, name, seat);
    SitDownKeepsRing(r, conn, name);
    StaySeated(u, qs, conn, seat, name);
    SeatOfConnection(Answers(u, qs), seat);
  }

  lemma {:induction false} StaySeated(u: RingState, qs: seq<Request>, conn: Conn, seat: Seat, name: string)
    requires RingOK(u) && conn != Nil && SeatedAs(u.places, conn, seat, name) && LeaveGame(conn) !in qs
    ensures RingOK(Answers(u, qs)) && SeatedAs(Answers(u, qs).places, conn, seat, name)
  {
    if qs != [] {
      var n := |qs| - 1;
      StaySeated(u, qs[..n], conn, seat, name);
      AnswerKeepsRing(Answers(u, qs[..n]), qs[n]);
      StaysSeated(Answers(u, qs[..n]), qs[n], conn, seat, name);
    }
  }

  /** Where a request leaves the ring: on the seat shifted to or found, on the first vacant seat when the table is
      listed, just past the seat taken, left or asked for. Any other request leaves it where it was. */
  lemma WhereTheRingStands(r: RingState, q: Request)
    requires Cyclic(r.places)
    ensures var p, places := r.places, Answer(r, q).places;
            match q
            case EnterGame(conn, name) =>
              var seat := Enter(r, conn, name).1;
              if seat == VALUE_NOT_SET then places == p else places[3].zone == seat
            case LeaveGame(conn) =>
              var left := StandUp(r, conn).1;
              if left == VALUE_NOT_SET then places == p else places[3].zone == left
            case SeatShift(seat) => places[0].zone == seat
            case FindPlayer(seat, closed) => if Finds(p, seat, closed) then places[0].zone == seat else places == p
            case TableInfo => if IndexOf(p, Nil) < 4 then places[0].conn == Nil else places == p
            case IsPlayerOnSeat(user) => if IndexOfSeat(p, user) < 4 then places[3].zone == user else places == p
            case PlayerAction(seat, conn, card, closed) =>
              if r.aa < 4 && Finds(p, seat, closed) then places[0].zone == seat else places == p
  {
    match q
    case EnterGame(conn, name) => EnteringPassesSeat(r, conn, name);
    case LeaveGame(conn) => LeavingPassesSeat(r, conn);
    case SeatShift(seat) => TurnedTo(r.places, seat);
    case FindPlayer(seat, closed) => FindingStopsAtSeat(r, seat, closed);
    case TableInfo => ListingStopsAtVacant(r);
    case IsPlayerOnSeat(user) => AskingPassesUser(r, user);
    case PlayerAction(seat, conn, card, closed) => ActingStopsAtSeat(r, seat, conn, card, closed);
  }

  lemma FindingStopsAtSeat(r: RingState, seat: Seat, closed: set<Conn>)
    requires Cyclic(r.places)
    ensures var places := Find(r, seat, closed).places;
            if Finds(r.places, seat, closed) then places[0].zone == seat else places == r.places
  {
    TurnedTo(r.places, seat);
  }

  lemma ListingStopsAtVacant(r: RingState)
    ensures var places := MoveTo(r, IndexOf(r.places, Nil)).places;
            if IndexOf(r.places, Nil) < 4 then places[0].conn == Nil else places == r.places
  {
    RotOfFour(r.places, IndexOf(r.places, Nil));
  }

  lemma AskingPassesUser(r: RingState, user: int)
    ensures var places := PassUser(r, user).places;
            if IndexOfSeat(r.places, user) < 4 then places[3].zone == user else places == r.places
  {
    if IndexOfSeat(r.places, user) < 4 {
      RotOfFour(r.places, IndexOfSeat(r.places, user) + 1);
    }
  }

  lemma ActingStopsAtSeat(r: RingState, seat: Seat, conn: Conn, card: Slot, closed: set<Conn>)
    requires Cyclic(r.places)
    ensures var places := Act(r, seat, conn, card, closed).places;
            if r.aa < 4 && Finds(r.places, seat, closed) then places[0].zone == seat else places == r.places
  {
    FindingStopsAtSeat(r, seat, closed);
  }

  lemma EnteringPassesSeat(r: RingState, conn: Conn, name: string)
    ensures var (u, seat) := Enter(r, conn, name);
            if seat == VALUE_NOT_SET then u.places == r.places else u.places[3].zone == seat
  {
    PassedPlaceIsLast(r.places, IndexOf(r.places, Nil), conn, name);
  }

  lemma LeavingPassesSeat(r: RingState, conn: Conn)
    ensures var (u, left) := StandUp(r, conn);
            if left == VALUE_NOT_SET then u.places == r.places else u.places[3].zone == left
  {
    PassedPlaceIsLast(r.places, IndexOf(r.places, conn), Nil, "");
  }

  lemma PassedPlaceIsLast(places: Places, k: nat, conn: Conn, name: string)
    ensures k < 4 ==> FillAndPass(places, k, places[k].(conn := conn, name := name))[3].zone == places[k].zone
  {
    if k < 4 {
      RotOfFour(places[k := places[k].(conn := conn, name := name)], k + 1);
    }
  }

  /** Only an action moves the count of actions. */
  lemma OnlyActionsCount(r: RingState, q: Request)
    ensures !q.PlayerAction? ==> Answer(r, q).aa == r.aa
    ensures !q.EnterGame? && !q.LeaveGame? ==> Answer(r, q).players == r.players
  {
  }

  /** Leaving frees exactly the seat of the connection, so entering and then leaving gives the seats back as they
      were. */
  lemma LeaveUndoesEnter(r: RingState, conn: Conn, name: string, s: Seat)
    requires RingOK(r) && Enter(r, conn, name).1 != VALUE_NOT_SET
    ensures var (u, seat) := Enter(r, conn, name);
            var (v, left) := StandUp(u, conn);
            left == seat && v.players == r.players && Occupant(v.places, s) == Occupant(r.places, s)
  {
    SitsIffFree(r, conn, name);
    SitDownKeepsRing(r, conn, name);
    var (u, seat) := Enter(r, conn, name);
    assert Occupant(u.places, seat) == conn;
    SeatOfConnection(u, seat);
    var k := IndexOf(u.places, conn);
    FillChangesOneSeat(u.places, k, u.places[k].(conn := Nil, name := ""), s);
    var i :| 0 <= i < 4 && r.places[i].zone == seat && r.places[i].conn == Nil;
    FourSeats(r.places, seat);
  }

  /** The seat a connection holds is the only place it is found at. */
  lemma SeatOfConnection(r: RingState, seat: Seat)
    requires RingOK(r) && Occupant(r.places, seat) != Nil
    ensures var k := IndexOf(r.places, Occupant(r.places, seat));
            k == IndexOfSeat(r.places, seat) < 4 && r.places[k].zone == seat
  {
    FourSeats(r.places, seat);
  }

  /** The connection at a seat, looked up by name of the seat as tablePlayers does. */
  function Occupant(places: Places, seat: Seat): Conn {
    var k := IndexOfSeat(places, seat);
    if k < 4 then places[k].conn else Nil
  }

  lemma FillChangesOneSeat(places: Places, k: nat, p: Place, s: Seat)
    requires Cyclic(places) && k < 4 && p.zone == places[k].zone
    ensures Occupant(FillAndPass(places, k, p), s) == if s == p.zone then p.conn else Occupant(places, s)
  {
    var filled := places[k := p];
    FourSeats(places, s);
    assert Cyclic(filled);
    FourSeats(filled, s);
    DriftDoesNotMatter(filled, k + 1, s);
  }

  // ---------- drift ----------

  /** Wherever the ring stands, a seat is followed by its clockwise neighbour and held by the same connection. */
  lemma DriftDoesNotMatter(places: Places, k: nat, seat: Seat)
    requires Cyclic(places) && k <= 4
    ensures var q := Rot(places, k);
            && Cyclic(q)
            && Occupant(q, seat) == Occupant(places, seat)
            && IndexOfSeat(q, seat) < 4
            && Rot(q, IndexOfSeat(q, seat))[0].zone == seat
            && Rot(q, IndexOfSeat(q, seat))[1].zone == Next(seat)
  {
    var q := Rot(places, k);
    FourSeats(places, seat);
    RotOfFour(places, k);
    IndexAfterMoves(places, k, seat);
    TurnedTo(q, seat);
  }

  lemma TurnedTo(places: Places, seat: Seat)
    requires Cyclic(places)
    ensures IndexOfSeat(places, seat) < 4
    ensures Rot(places, IndexOfSeat(places, seat))[0].zone == seat
    ensures Rot(places, IndexOfSeat(places, seat))[1].zone == Next(seat)
  {
  }

  lemma IndexAfterMoves(places: Places, k: nat, seat: Seat)
    requires Cyclic(places) && k <= 4
    ensures var i, j := IndexOfSeat(places, seat), IndexOfSeat(Rot(places, k), seat);
            && i < 4 && j < 4
            && j == (if i >= k then i - k else i + 4 - k)
            && Rot(places, k)[j] == places[i]
  {
    var q := Rot(places, k);
    FourSeats(places, seat);
    RotOfFour(places, k);
    FourSeats(q, seat);
    var i := IndexOfSeat(places, seat);
    var j := if i >= k then i - k else i + 4 - k;
    assert q[j] == places[i];
  }

  /** Whether findPlayer finds a seat is the same from every position of the ring iff the seat has a live connection:
      a vacant or disconnected seat is found when the ring happens to stand on it, and not otherwise. */
  lemma FindDependsOnDrift(places: Places, seat: Seat, closed: set<Conn>)
    requires Cyclic(places)
    ensures (forall k :: 0 <= k < 4 ==> Finds(Rot(places, k), seat, closed) == Finds(places, seat, closed))
            <==> exists p :: p in places && p.zone == seat && Live(p, closed)
  {
    var i := IndexOfSeat(places, seat);
    FourSeats(places, seat);
    forall k | 0 <= k < 4
      ensures Finds(Rot(places, k), seat, closed) <==> k == i || Live(places[i], closed)
    {
      IndexAfterMoves(places, k, seat);
    }
    assert Rot(places, 0) == places;
    var other := if i == 0 then 1 else 0;
    assert Finds(Rot(places, i), seat, closed);
    assert Finds(Rot(places, other), seat, closed) <==> Live(places[i], closed);
    assert forall p :: p in places && p.zone == seat ==> p == places[i];
  }

  /** At a table where nobody sits, East is found while the ring stands on East, and no longer after one move. */
  lemma VacantSeatFoundByPosition()
    ensures Finds(NEW_TABLE.places, EAST, {}) && !Finds(Rot(NEW_TABLE.places, 1), EAST, {})
  {
  }

  // ---------- the class ----------

  /** A ring item. It is never replaced: sitting down and standing up change its player. */
  class TablePlayer {
    const zone: Seat
    var conn: Conn
    var name: string
    var value: Slot

    constructor (zone: Seat)
      ensures this.zone == zone && conn == Nil && name == "" && value == 0
    {
      this.zone := zone;
      conn := Nil;
      name := "";
      value := 0;
    }
  }

  /** Four items zoned clockwise, and so four different ones. */
  ghost predicate FourItems(ring: seq<TablePlayer>) {
    && |ring| == 4
    && (ring[1].zone, ring[2].zone, ring[3].zone) == (Next(ring[0].zone), Next(ring[1].zone), Next(ring[2].zone))
  }

  ghost function PlaceAt(item: TablePlayer): Place
    reads item
  {
    Place(item.zone, item.conn, item.name, item.value)
  }

  ghost function PlacesOf(ring: seq<TablePlayer>): (places: Places)
    requires FourItems(ring)
    reads ring
    ensures Cyclic(places)
  {
    [PlaceAt(ring[0]), PlaceAt(ring[1]), PlaceAt(ring[2]), PlaceAt(ring[3])]
  }

  /** The ring turned to a seat. */
  function Turned(ring: seq<TablePlayer>, seat: Seat): seq<TablePlayer>
    requires |ring| == 4
  {
    if ring[0].zone == seat then ring
    else if ring[1].zone == seat then [ring[1], ring[2], ring[3], ring[0]]
    else if ring[2].zone == seat then [ring[2], ring[3], ring[0], ring[1]]
    else [ring[3], ring[0], ring[1], ring[2]]
  }

  ghost predicate IsTurn(before: seq<TablePlayer>, after: seq<TablePlayer>, seat: Seat) {
    |before| == 4 && after == Turned(before, seat)
  }

  /** The items of the ring after k moves. */
  ghost function Moved(ring: seq<TablePlayer>, k: nat): seq<TablePlayer>
    requires k <= |ring|
  {
    ring[k..] + ring[..k]
  }

  lemma MovedOfFour(r: seq<TablePlayer>, k: nat)
    requires FourItems(r) && k <= 4
    ensures Moved(r, k) == if k == 1 then [r[1], r[2], r[3], r[0]]
                           else if k == 2 then [r[2], r[3], r[0], r[1]]
                           else if k == 3 then [r[3], r[0], r[1], r[2]]
                           else r
  {
  }

  lemma Standing(ring: seq<TablePlayer>, k: nat)
    requires |ring| == 4 && k < 4
    ensures |Moved(ring, k)| == 4 && Moved(ring, k)[0] == ring[k]
    ensures Moved(ring, 0) == Moved(ring, 4) == ring
  {
  }

  lemma MovedPlaces(ring: seq<TablePlayer>, k: nat)
    requires FourItems(ring) && k <= 4
    ensures FourItems(Moved(ring, k))
    ensures PlacesOf(Moved(ring, k)) == Rot(PlacesOf(ring), k)
  {
    MovedOfFour(ring, k);
    RotOfFour(PlacesOf(ring), k);
    SeatsGoRound(ring[0].zone);
  }

  class SeatRing {
    var ring: seq<TablePlayer>
    var players: int
    var aa: int

    ghost predicate Shape()
      reads this
    {
      FourItems(ring)
    }

    ghost function State(): RingState
      requires Shape()
      reads this, ring
    {
      RingState(PlacesOf(ring), players, aa)
    }

    constructor ()
      ensures Shape() && State() == NEW_TABLE && fresh(ring)
    {
      var e := new TablePlayer(EAST);
      var s := new TablePlayer(SOUTH);
      var w := new TablePlayer(WEST);
      var n := new TablePlayer(NORTH);
      ring := [e, s, w, n];
      players, aa := 0, 0;
    }

    /** One move of the ring. */
    method MoveOn(ghost start: seq<TablePlayer>, ghost k: nat)
      requires |start| == 4 && k < 4 && ring == Moved(start, k)
      modifies `ring
      ensures ring == Moved(start, k + 1)
    {
      ring := ring[1..] + [ring[0]];
    }

    /** The loop of playerJoin: looks at each seat once, moving on every time, and stops just past the one wanted. */
    method PassSeat(wanted: Conn) returns (seatAt: TablePlayer?, ghost k: nat)
      requires Shape()
      modifies `ring
      ensures k == IndexOf(old(PlacesOf(ring)), wanted)
      ensures k < 4 ==> seatAt == old(ring)[k] && ring == Moved(old(ring), k + 1)
      ensures k == 4 ==> seatAt == null && ring == old(ring)
    {
      ghost var start, places := ring, PlacesOf(ring);
      Standing(start, 0);
      k := 0;
      for i := 0 to 4
        invariant ring == Moved(start, i) && k == i <= IndexOf(places, wanted)
      {
        Standing(start, i);
        assert places[i].conn == start[i].conn;
        seatAt := ring[0];
        MoveOn(start, i);
        if seatAt.conn == wanted {
          return;
        }
        k := k + 1;
      }
      seatAt := null;
    }

    /** The SitDown arm of playerJoin. */
    method TakeSeat(conn: Conn, name: string) returns (zoneSeat: int)
      requires Shape()
      modifies this, ring
      ensures Shape()
      ensures (State(), zoneSeat) == SitDown(old(State()), conn, name)
    {
      ghost var start, k := ring, 0;
      zoneSeat := VALUE_NOT_SET;
      var seatAt: TablePlayer?;
      seatAt, k := PassSeat(Nil);
      if seatAt != null {
        zoneSeat := seatAt.zone;
        SetPlayer(seatAt, conn, name, 1, start, k);
      }
    }

    /** The StandUp arm of playerJoin. */
    method VacateSeat(conn: Conn) returns (zoneSeat: int, userName: string)
      requires Shape()
      modifies this, ring
      ensures Shape()
      ensures (State(), zoneSeat) == StandUp(old(State()), conn)
      ensures userName == NameOf(old(PlacesOf(ring)), conn)
    {
      ghost var start, k := ring, 0;
      zoneSeat, userName := VALUE_NOT_SET, "";
      if conn != Nil {
        var seatAt: TablePlayer?;
        seatAt, k := PassSeat(conn);
        if seatAt != null {
          zoneSeat, userName := seatAt.zone, seatAt.name;
          SetPlayer(seatAt, Nil, "", -1, start, k);
        }
      }
    }

    /** The item just passed gets another player. */
    method SetPlayer(item: TablePlayer, conn: Conn, name: string, change: int,
                     ghost start: seq<TablePlayer>, ghost k: nat)
      requires FourItems(start) && k < 4 && item == start[k] && ring == Moved(start, k + 1)
      modifies item, `players
      ensures Shape()
      ensures PlacesOf(ring) == FillAndPass(old(PlacesOf(start)), k, Place(item.zone, conn, name, old(item.value)))
      ensures players == old(players) + change
    {
      item.conn := conn;
      item.name := name;
      players := players + change;
      MovedPlaces(start, k + 1);
      assert PlacesOf(start) == old(PlacesOf(start))[k := Place(item.zone, conn, name, old(item.value))];
    }

    /** tablePlayers: the items by seat, wherever the ring stands. */
    method TablePlayers() returns (e: TablePlayer, s: TablePlayer, w: TablePlayer, n: TablePlayer)
      requires Shape()
      ensures e in ring && s in ring && w in ring && n in ring
      ensures e.zone == EAST && s.zone == SOUTH && w.zone == WEST && n.zone == NORTH
      ensures forall v :: v in ring ==> v == ItemOf(e, s, w, n, v.zone)
    {
      e, s, w, n := ring[0], ring[0], ring[0], ring[0];
      FourSeats(PlacesOf(ring), EAST);
      FourSeats(PlacesOf(ring), SOUTH);
      FourSeats(PlacesOf(ring), WEST);
      FourSeats(PlacesOf(ring), NORTH);
      for i := 0 to 4
        invariant forall j :: 0 <= j < i ==> ring[j] == ItemOf(e, s, w, n, ring[j].zone)
        invariant e in ring && s in ring && w in ring && n in ring
      {
        var v := ring[i];
        if v.zone == EAST {
          e := v;
        } else if v.zone == SOUTH {
          s := v;
        } else if v.zone == WEST {
          w := v;
        } else {
          n := v;
        }
      }
    }

    /** The EnterGame request. */
    method EnterGame(conn: Conn, name: string) returns (err: bool, seat: int, isGameStart: bool)
      requires Shape()
      modifies this, ring
      ensures Shape()
      ensures (State(), seat) == Enter(old(State()), conn, name)
      ensures err <==> IndexOf(old(PlacesOf(ring)), conn) < 4
      ensures isGameStart <==> !err && players >= 4
    {
      var e, s, w, n := TablePlayers();
      SeatedIffInRing(ring, e, s, w, n, conn);
      if conn == e.conn || conn == s.conn || conn == w.conn || conn == n.conn {
        return true, VALUE_NOT_SET, false;
      }
      err := false;
      seat := TakeSeat(conn, name);
      isGameStart := players >= 4;
    }

    /** The LeaveGame request. */
    method LeaveGame(conn: Conn, zone: Seat)
      returns (seat: int, userName: string, isGameStart: bool, alives: (Conn, Conn, Conn))
      requires Shape()
      modifies this, ring
      ensures Shape()
      ensures (State(), seat) == StandUp(old(State()), conn)
      ensures userName == NameOf(old(PlacesOf(ring)), conn) && (isGameStart <==> players >= 4)
      ensures alives == ConnsExcept(State().places, zone)
    {
      seat, userName := VacateSeat(conn);
      isGameStart := players >= 4;
      alives := AcquirePlayerConnectionsByExclude(zone);
    }

    /** The connections of the three other seats, in the order of the ring. */
    method AcquirePlayerConnectionsByExclude(exclude: Seat) returns (alives: (Conn, Conn, Conn))
      requires Shape()
      ensures alives == ConnsExcept(State().places, exclude)
    {
      ghost var places := PlacesOf(ring);
      FourSeats(places, exclude);
      var c := [];
      for i := 0 to 4
        invariant c == ConnsBefore(places, exclude, i)
      {
        assert places[i] == PlaceAt(ring[i]);
        var v := ring[i];
        if v.zone != exclude {
          c := c + [v.conn];
        }
      }
      ThreeOthers(places, exclude);
      alives := (c[0], c[1], c[2]);
    }

    /** The loop of IsPlayerOnSeat: looks at each seat once, moving on every time, and stops just past the user. */
    method SeekUser(user: TablePlayer?) returns (isOnSeat: bool, seat: Seat, ghost moves: nat)
      requires Shape()
      modifies `ring
      ensures moves <= 4 && ring == Moved(old(ring), moves)
      ensures isOnSeat <==> user in old(ring)
      ensures isOnSeat ==> moves > 0 && user == old(ring)[moves - 1] && seat == user.zone
      ensures !isOnSeat ==> moves == 4 && seat == EAST
    {
      ghost var start := ring;
      Standing(start, 0);
      isOnSeat, seat, moves := false, EAST, 0;
      var limit := 4;
      while limit > 0 && !isOnSeat
        invariant moves <= 4 && limit == 4 - moves && ring == Moved(start, moves)
        invariant isOnSeat <==> user in start[..moves]
        invariant if isOnSeat then moves > 0 && user == start[moves - 1] && seat == user.zone else seat == EAST
      {
        Standing(start, moves);
        assert start[..moves + 1] == start[..moves] + [start[moves]];
        limit := limit - 1;
        if user == ring[0] {
          isOnSeat, seat := true, ring[0].zone;
        }
        MoveOn(start, moves);
        moves := moves + 1;
      }
      assert start[..4] == start;
    }

    /** IsPlayerOnSeat: is the user the player of some seat? */
    method OnSeat(user: TablePlayer?) returns (isOnSeat: bool, seat: Seat)
      requires Shape()
      modifies `ring
      ensures Shape()
      ensures isOnSeat <==> user in old(ring)
      ensures seat == if isOnSeat then user.zone else EAST
      ensures State() == PassUser(old(State()), if isOnSeat then seat else SEAT_YET)
    {
      ghost var start, places := ring, PlacesOf(ring);
      ghost var moves;
      isOnSeat, seat, moves := SeekUser(user);
      MovedPlaces(start, moves);
      if isOnSeat {
        FourSeats(places, seat);
        assert places[moves - 1] == PlaceAt(start[moves - 1]);
      }
    }

    /** PlayerAction: the card is saved with its seat, and the action counted, if the connection holds the seat. */
    method Action(seat: Seat, conn: Conn, card: Slot, closed: set<Conn>) returns (count: int)
      requires Shape()
      modifies `ring, `aa, ring
      ensures Shape() && State() == Act(old(State()), seat, conn, card, closed)
      ensures count == aa
    {
      if aa < 4 {
        ghost var before := State();
        var found := FindPlayer(seat, closed);
        assert State() == Find(before, seat, closed);
        if found != null && found.conn == conn {
          SaveCard(found, card);
          aa := aa + 1;
        }
      }
      count := aa;
    }

    method SaveCard(found: TablePlayer, card: Slot)
      requires Shape() && found == ring[0]
      modifies found
      ensures State() == old(State()).(places := Save(old(State()).places, card))
    {
      found.value := card;
    }

    /** The loop of seatShift: turns the ring until it stands on the seat. It terminates for each of the four seats. */
    method TurnTo(seat: Seat)
      requires Shape()
      modifies `ring
      ensures ring == Moved(old(ring), IndexOfSeat(PlacesOf(old(ring)), seat))
    {
      ghost var start, k, i := ring, IndexOfSeat(PlacesOf(ring), seat), 0;
      FourSeats(PlacesOf(ring), seat);
      assert k < 4 && start[k].zone == seat && forall j :: 0 <= j < k ==> start[j].zone != seat;
      Standing(start, 0);
      while ring[0].zone != seat
        invariant 0 <= i <= k && ring == Moved(start, i) && ring != [] && ring[0] == start[i]
        decreases 4 - i
      {
        MoveOn(start, i);
        i := i + 1;
        Standing(start, i);
      }
    }

    /** seatShift: turns the ring to a seat and returns the seat after it, the same from every position of the ring. */
    method SeatShift(seat: Seat) returns (next: Seat)
      requires Shape()
      modifies `ring
      ensures Shape() && State() == MoveTo(old(State()), IndexOfSeat(old(State()).places, seat))
      ensures next == Next(seat) && ring[0].zone == seat && IsTurn(old(ring), ring, seat)
    {
      ghost var start, places := ring, PlacesOf(ring);
      ghost var k := IndexOfSeat(places, seat);
      DriftDoesNotMatter(places, 0, seat);
      assert Rot(places, 0) == places;
      MovedPlaces(start, k);
      MovedOfFour(start, k);
      FourSeats(places, seat);
      TurnTo(seat);
      next := ring[1].zone;
    }

    /** The loop of findPlayer: the seat the ring stands on is returned unseen, any other only if its connection is
        live. */
    method Search(seat: Seat, closed: set<Conn>) returns (player: TablePlayer?)
      requires Shape()
      modifies `ring
      ensures var start, k := old(ring), IndexOfSeat(PlacesOf(old(ring)), seat);
              if Finds(PlacesOf(start), seat, closed) then player == start[k] && ring == Moved(start, k)
              else player == null && ring == start
    {
      ghost var start, places := ring, PlacesOf(ring);
      ghost var k := IndexOfSeat(places, seat);
      FourSeats(places, seat);
      Standing(start, 0);
      if ring[0].zone == seat {
        return ring[0];
      }
      MoveOn(start, 0);
      for i := 1 to 4
        invariant ring == Moved(start, i) && (k < i ==> !Live(places[k], closed))
      {
        Standing(start, i);
        assert places[i] == PlaceAt(start[i]) && (places[i].zone == seat <==> i == k);
        if ring[0].zone == seat && ring[0].conn != Nil && ring[0].conn !in closed {
          return ring[0];
        }
        MoveOn(start, i);
      }
      player := null;
    }

    method FindPlayer(seat: Seat, closed: set<Conn>) returns (player: TablePlayer?)
      requires Shape()
      modifies `ring
      ensures Shape() && State() == Find(old(State()), seat, closed)
      ensures player != null <==> Finds(old(PlacesOf(ring)), seat, closed)
      ensures player != null ==> player in old(ring) && player == ring[0]
      ensures player != null ==> PlaceAt(player) == old(PlacesOf(ring))[IndexOfSeat(old(PlacesOf(ring)), seat)]
    {
      ghost var start, places := ring, PlacesOf(ring);
      FourSeats(places, seat);
      MovedPlaces(start, IndexOfSeat(places, seat));
      MovedOfFour(start, IndexOfSeat(places, seat));
      player := Search(seat, closed);
    }

    /** lastLeaveOrder: turns the ring to the first vacant seat, if there is one, and lists the four seats from
        there. */
    method LastLeaveOrder() returns (order: seq<TablePlayer>)
      requires Shape() && VacantHaveNoName(PlacesOf(ring))
      modifies `ring
      ensures Shape() && State() == MoveTo(old(State()), IndexOf(old(State()).places, Nil))
      ensures order == ring && ((exists p :: p in old(PlacesOf(ring)) && p.conn == Nil) ==> order[0].conn == Nil)
    {
      ghost var start, places, i := ring, PlacesOf(ring), 0;
      ghost var k := IndexOf(places, Nil);
      Standing(start, 0);
      var limit := 4;
      while limit > 0
        invariant 0 <= i <= k && limit == 4 - i && ring == Moved(start, i)
        invariant players == old(players)
      {
        Standing(start, i);
        limit := limit - 1;
        assert PlaceAt(ring[0]) == places[i];
        if ring[0].name == "" && ring[0].conn == Nil {
          break;
        }
        MoveOn(start, i);
        i := i + 1;
      }
      MovedPlaces(start, k);
      order := ring;
    }
  }

  lemma SeatedIffInRing(ring: seq<TablePlayer>, e: TablePlayer, s: TablePlayer, w: TablePlayer, n: TablePlayer,
                        conn: Conn)
    requires FourItems(ring) && e in ring && s in ring && w in ring && n in ring
    requires forall v :: v in ring ==> v == ItemOf(e, s, w, n, v.zone)
    ensures IndexOf(PlacesOf(ring), conn) < 4 <==> conn == e.conn || conn == s.conn || conn == w.conn || conn == n.conn
  {
  }

  ghost function ItemOf(e: TablePlayer, s: TablePlayer, w: TablePlayer, n: TablePlayer, seat: Seat): TablePlayer {
    if seat == EAST then e else if seat == SOUTH then s else if seat == WEST then w else n
  }
}
