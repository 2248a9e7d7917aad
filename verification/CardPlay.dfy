/** The card play of game/game.go on values: the state the server keeps for a table, what one play does to it, what
    the next player is told, and how all that relates to the laws in PlayLaws. */
module CardPlay {
  import opened Entities
  import opened PlayLaws
  import opened Engines

  /** The fields of Game and Engine that the play of the cards reads and writes. */
  datatype Table = Table(
    hands: map<Seat, seq<Slot>>,
    east: Slot, south: Slot, west: Slot, north: Slot,
    roundMin: int, roundMax: int,
    declarer: int, dummy: int, lead: int, defender: int,
    kingSuit: int, trumpRange: CardRange, currentPlay: int)

  // ---------- the range a player is given ----------

  /** First card left among the first n slots, 0 if none. */
  function FirstCard(hand: seq<Slot>, n: nat): Slot
    requires n <= |hand|
  {
    if n == 0 then 0
    else if FirstCard(hand, n - 1) != 0 then FirstCard(hand, n - 1)
    else hand[n - 1]
  }

  predicate Counts(c: Slot, lo: int, hi: int) {
    c != 0 && lo <= c <= hi
  }

  /** Lowest card in [lo, hi] among the first n slots, 53 if none. */
  function Lowest(hand: seq<Slot>, n: nat, lo: int, hi: int): int
    requires n <= |hand|
  {
    if n == 0 then 53
    else if Counts(hand[n - 1], lo, hi) && hand[n - 1] < Lowest(hand, n - 1, lo, hi) then hand[n - 1]
    else Lowest(hand, n - 1, lo, hi)
  }

  /** Highest card in [lo, hi] among the first n slots, 0 if none. */
  function Highest(hand: seq<Slot>, n: nat, lo: int, hi: int): Slot
    requires n <= |hand|
  {
    if n == 0 then 0
    else if Counts(hand[n - 1], lo, hi) && hand[n - 1] > Highest(hand, n - 1, lo, hi) then hand[n - 1]
    else Highest(hand, n - 1, lo, hi)
  }

  lemma {:induction false} FirstCardIsFirst(hand: seq<Slot>, n: nat)
    requires n <= |hand|
    ensures FirstCard(hand, n) == 0 ==> forall i :: 0 <= i < n ==> hand[i] == 0
    ensures FirstCard(hand, n) != 0 ==>
              exists k :: 0 <= k < n && hand[k] == FirstCard(hand, n) && forall i :: 0 <= i < k ==> hand[i] == 0
  {
    if n > 0 {
      FirstCardIsFirst(hand, n - 1);
    }
  }

  lemma {:induction false} LowestIsLeast(hand: seq<Slot>, n: nat, lo: int, hi: int)
    requires n <= |hand|
    ensures var m := Lowest(hand, n, lo, hi);
            && (m == 53 || exists i :: 0 <= i < n && hand[i] == m && Counts(hand[i], lo, hi))
            && (forall i :: 0 <= i < n && Counts(hand[i], lo, hi) ==> m <= hand[i])
  {
    if n > 0 {
      LowestIsLeast(hand, n - 1, lo, hi);
    }
  }

  lemma {:induction false} HighestIsGreatest(hand: seq<Slot>, n: nat, lo: int, hi: int)
    requires n <= |hand|
    ensures var m := Highest(hand, n, lo, hi);
            && (m == 0 || exists i :: 0 <= i < n && hand[i] == m && Counts(hand[i], lo, hi))
            && (forall i :: 0 <= i < n && Counts(hand[i], lo, hi) ==> hand[i] <= m)
  {
    if n > 0 {
      HighestIsGreatest(hand, n - 1, lo, hi);
    }
  }

  datatype PlayRange = PlayRange(minimum: int, maximum: int, timeout: int)

  /** What AvailablePlayerPlayRange computes. */
  function RangeFor(hand: seq<Slot>, isRoundStart: bool, lo: int, hi: int): PlayRange {
    var n := |hand|;
    var first := FirstCard(hand, n);
    if isRoundStart then
      if first == 0 then PlayRange(1, 52, 0) else PlayRange(first, Highest(hand, n, 1, 52), first)
    else
      if Highest(hand, n, lo, hi) == 0 then PlayRange(1, 52, first)
      else PlayRange(Lowest(hand, n, lo, hi), Highest(hand, n, lo, hi), Lowest(hand, n, lo, hi))
  }

  /** A sorted hand with the played slots zeroed. */
  predicate HandShape(hand: seq<Slot>) {
    forall i, j :: 0 <= i < j < |hand| && hand[i] != 0 && hand[j] != 0 ==> hand[i] < hand[j]
  }

  ghost predicate HasSuit(hand: seq<Slot>, suit: int) {
    exists c: Card :: c in hand && CardSuit(c) == suit
  }

  /** At the start of a round every card held lies in the interval. */
  lemma LeadAnyCard(hand: seq<Slot>, lo: int, hi: int, c: Card)
    requires HandShape(hand) && c in hand
    ensures RangeFor(hand, true, lo, hi).minimum <= c <= RangeFor(hand, true, lo, hi).maximum
  {
    var i :| 0 <= i < |hand| && hand[i] == c;
    assert Counts(hand[i], 1, 52);
    FirstCardIsFirst(hand, |hand|);
    HighestIsGreatest(hand, |hand|, 1, 52);
    var first := FirstCard(hand, |hand|);
    var k :| 0 <= k < |hand| && hand[k] == first && forall i :: 0 <= i < k ==> hand[i] == 0;
    assert k <= i;
  }

  /** The interval refines follow-suit: of the cards held it contains exactly those of the led suit if there are any,
      and otherwise, or at the start of a round, all of them. */
  lemma RangeIsFollowSuit(hand: seq<Slot>, isRoundStart: bool, led: Card, c: Card)
    requires HandShape(hand) && c in hand
    ensures var r := RangeFor(hand, isRoundStart, GetRoundRangeByFirstPlay(led).0, GetRoundRangeByFirstPlay(led).1);
            r.minimum <= c <= r.maximum <==>
            isRoundStart || CardSuit(c) == CardSuit(led) || !HasSuit(hand, CardSuit(led))
  {
    var (lo, hi) := GetRoundRangeByFirstPlay(led);
    if isRoundStart {
      LeadAnyCard(hand, lo, hi, c);
    } else {
      var i :| 0 <= i < |hand| && hand[i] == c;
      RangesAreSuits(led, c, TRUMP);
      HighestIsGreatest(hand, |hand|, lo, hi);
      LowestIsLeast(hand, |hand|, lo, hi);
      SuitInRange(hand, led);
      assert Counts(hand[i], lo, hi) <==> CardSuit(c) == CardSuit(led);
    }
  }

  lemma SuitInRange(hand: seq<Slot>, led: Card)
    ensures var (lo, hi) := GetRoundRangeByFirstPlay(led);
            HasSuit(hand, CardSuit(led)) <==> Highest(hand, |hand|, lo, hi) != 0
    ensures var (lo, hi) := GetRoundRangeByFirstPlay(led);
            Highest(hand, |hand|, lo, hi) != 0 ==>
              && Lowest(hand, |hand|, lo, hi) in hand
              && Highest(hand, |hand|, lo, hi) in hand
              && lo <= Lowest(hand, |hand|, lo, hi) <= Highest(hand, |hand|, lo, hi) <= hi
  {
    var (lo, hi) := GetRoundRangeByFirstPlay(led);
    var m := Highest(hand, |hand|, lo, hi);
    HighestIsGreatest(hand, |hand|, lo, hi);
    LowestIsLeast(hand, |hand|, lo, hi);
    if m != 0 {
      RangesAreSuits(led, m, TRUMP);
    }
    forall c: Card | c in hand && CardSuit(c) == CardSuit(led) ensures m != 0 {
      RangesAreSuits(led, c, TRUMP);
      var i :| 0 <= i < |hand| && hand[i] == c;
      assert Counts(hand[i], lo, hi);
    }
  }

  /** The card played when the time runs out is held and lies in the notified range. */
  lemma TimeoutIsPlayable(hand: seq<Slot>, isRoundStart: bool, led: Card)
    requires HandShape(hand) && exists i :: 0 <= i < |hand| && hand[i] != 0
    ensures var r := RangeFor(hand, isRoundStart, GetRoundRangeByFirstPlay(led).0, GetRoundRangeByFirstPlay(led).1);
            1 <= r.timeout <= 52 && r.timeout in hand && r.minimum <= r.timeout <= r.maximum
  {
    SuitInRange(hand, led);
    FirstCardIsFirst(hand, |hand|);
    HighestIsGreatest(hand, |hand|, 1, 52);
    var first := FirstCard(hand, |hand|);
    var k :| 0 <= k < |hand| && hand[k] == first;
    assert Counts(hand[k], 1, 52);
  }

  /** The cards that may be played: all at the start of a round or when void in the suit led, else those of that
      suit. */
  ghost predicate Playable(hand: seq<Slot>, isRoundStart: bool, led: Card, c: Card) {
    c in hand && (isRoundStart || CardSuit(c) == CardSuit(led) || !HasSuit(hand, CardSuit(led)))
  }

  /** The card for an expired time is the least card that may be played. The bounds are the least and the greatest one,
      unless the hand is void in the suit led: then every card is within bounds. */
  lemma RangeIsLeastAndGreatest(hand: seq<Slot>, isRoundStart: bool, led: Card, c: Card)
    requires HandShape(hand) && Playable(hand, isRoundStart, led, c)
    ensures var r := RangeFor(hand, isRoundStart, GetRoundRangeByFirstPlay(led).0, GetRoundRangeByFirstPlay(led).1);
            && 1 <= r.timeout <= 52 && Playable(hand, isRoundStart, led, r.timeout) && r.timeout <= c
            && (if isRoundStart || HasSuit(hand, CardSuit(led)) then
                  && r.minimum == r.timeout
                  && 1 <= r.maximum <= 52 && Playable(hand, isRoundStart, led, r.maximum) && c <= r.maximum
                else r.minimum == 1 && r.maximum == 52)
  {
    var i :| 0 <= i < |hand| && hand[i] == c;
    TimeoutIsPlayable(hand, isRoundStart, led);
    if isRoundStart {
      LeastAndGreatestLead(hand, c);
    } else if HasSuit(hand, CardSuit(led)) {
      LeastAndGreatestOfSuit(hand, led, c);
    } else {
      SuitInRange(hand, led);
      LeastAndGreatestLead(hand, c);
    }
  }

  /** A hand without cards is told any card, and none when the time expires. */
  lemma RangeOfEmptyHand(hand: seq<Slot>, isRoundStart: bool, lo: int, hi: int)
    requires forall i :: 0 <= i < |hand| ==> hand[i] == 0
    ensures RangeFor(hand, isRoundStart, lo, hi) == PlayRange(1, 52, 0)
  {
    FirstCardIsFirst(hand, |hand|);
    HighestIsGreatest(hand, |hand|, lo, hi);
  }

  lemma LeastAndGreatestLead(hand: seq<Slot>, c: Card)
    requires HandShape(hand) && c in hand
    ensures var first, last := FirstCard(hand, |hand|), Highest(hand, |hand|, 1, 52);
            first in hand && last in hand && 1 <= first <= c <= last <= 52
  {
    var i :| 0 <= i < |hand| && hand[i] == c;
    assert Counts(hand[i], 1, 52);
    FirstCardIsFirst(hand, |hand|);
    HighestIsGreatest(hand, |hand|, 1, 52);
    var first := FirstCard(hand, |hand|);
    var k :| 0 <= k < |hand| && hand[k] == first && forall i :: 0 <= i < k ==> hand[i] == 0;
    assert k <= i;
  }

  lemma LeastAndGreatestOfSuit(hand: seq<Slot>, led: Card, c: Card)
    requires HandShape(hand) && c in hand && CardSuit(c) == CardSuit(led)
    ensures var (lo, hi) := GetRoundRangeByFirstPlay(led);
            var least, greatest := Lowest(hand, |hand|, lo, hi), Highest(hand, |hand|, lo, hi);
            && greatest != 0 && 1 <= least <= c <= greatest <= 52
            && least in hand && CardSuit(least) == CardSuit(led)
            && greatest in hand && CardSuit(greatest) == CardSuit(led)
  {
    var (lo, hi) := GetRoundRangeByFirstPlay(led);
    var i :| 0 <= i < |hand| && hand[i] == c;
    RangesAreSuits(led, c, TRUMP);
    assert Counts(hand[i], lo, hi);
    SuitInRange(hand, led);
    LowestIsLeast(hand, |hand|, lo, hi);
    HighestIsGreatest(hand, |hand|, lo, hi);
    RangesAreSuits(led, Lowest(hand, |hand|, lo, hi), TRUMP);
    RangesAreSuits(led, Highest(hand, |hand|, lo, hi), TRUMP);
  }

  // ---------- one play ----------

  /** PlayOutHandRefresh: the slot of the card is zeroed. */
  function PlayOut(hand: seq<Slot>, card: Card): (rest: seq<Slot>)
    ensures |rest| == |hand|
    ensures forall i :: 0 <= i < |hand| ==> rest[i] == if hand[i] == card then 0 else hand[i]
  {
    seq(|hand|, i requires 0 <= i < |hand| => if hand[i] == card then 0 else hand[i])
  }

  function RecordOf(t: Table, s: Seat): Slot {
    CardOf(t.east, t.south, t.west, t.north, s)
  }

  function SaveRecord(t: Table, s: Seat, card: Slot): (u: Table)
    ensures RecordOf(u, s) == card
    ensures forall r: Seat :: r != s ==> RecordOf(u, r) == RecordOf(t, r)
    ensures u == t.(east := u.east, south := u.south, west := u.west, north := u.north)
  {
    if s == EAST then t.(east := card)
    else if s == SOUTH then t.(south := card)
    else if s == WEST then t.(west := card)
    else t.(north := card)
  }

  function ResetRecords(t: Table): Table {
    t.(east := 0, south := 0, west := 0, north := 0)
  }

  function SetRange(t: Table, led: Card): Table {
    var (lo, hi) := GetRoundRangeByFirstPlay(led);
    t.(roundMin := lo, roundMax := hi)
  }

  /** The card leaves the hand and goes on the table; the first of a round sets the range of the round. */
  function PutCard(t: Table, hitting: nat, p: Play): Table
    requires p.seat in t.hands
  {
    var t1 := if hitting % 4 == 1 then SetRange(t, p.card) else t;
    SaveRecord(t1, p.seat, p.card).(hands := t.hands[p.seat := PlayOut(t.hands[p.seat], p.card)])
  }

  /** The trick on the table when `last` was the last to play; empty unless the four cards are there. */
  function TableTrick(t: Table, last: Seat): (ps: seq<Play>) {
    if AllPlayed(t.east, t.south, t.west, t.north) then TrickOf(t.east, t.south, t.west, t.north, last) else []
  }

  /** The turn passes on; after the fourth card of a round to the winner, and the table is cleared. */
  function PassTurn(t: Table, hitting: nat, s: Seat): Table {
    var ps := TableTrick(t, s);
    if hitting % 4 != 0 then t.(currentPlay := Next(s))
    else if ps != [] then ResetRecords(t.(currentPlay := BestPlay(ps, t.kingSuit).seat))
    else ResetRecords(t)
  }

  /** The effect of play number `hitting` of the deal. */
  function Step(t: Table, hitting: nat, p: Play): Table
    requires p.seat in t.hands
  {
    PassTurn(PutCard(t, hitting, p), hitting, p.seat)
  }

  /** What a play changes, apart from whose turn it is and the clearing of the table. */
  ghost predicate CardWasPut(t: Table, u: Table, hitting: nat, p: Play, cleared: bool)
    requires p.seat in t.hands
  {
    && u.hands == t.hands[p.seat := PlayOut(t.hands[p.seat], p.card)]
    && (u.roundMin, u.roundMax) ==
       (if hitting % 4 == 1 then GetRoundRangeByFirstPlay(p.card) else (t.roundMin, t.roundMax))
    && SameRoles(t, u)
    && (!cleared ==>
          && RecordOf(u, p.seat) == p.card
          && forall r: Seat :: r != p.seat ==> RecordOf(u, r) == RecordOf(t, r))
  }

  lemma PutCardChanges(t: Table, hitting: nat, p: Play)
    requires p.seat in t.hands
    ensures CardWasPut(t, PutCard(t, hitting, p), hitting, p, false)
  {
  }

  predicate SameRoles(t: Table, u: Table) {
    && u.declarer == t.declarer && u.dummy == t.dummy && u.lead == t.lead && u.defender == t.defender
    && u.kingSuit == t.kingSuit && u.trumpRange == t.trumpRange
  }

  lemma StepChanges(t: Table, hitting: nat, p: Play)
    requires p.seat in t.hands
    ensures CardWasPut(t, Step(t, hitting, p), hitting, p, hitting % 4 == 0)
    ensures hitting % 4 != 0 ==> Step(t, hitting, p).currentPlay == Next(p.seat)
  {
    PutCardChanges(t, hitting, p);
  }

  /** Whose card play number n+1 is: the opening leader is told so, later players follow the engine. */
  function DueSeat(t: Table, n: nat): int {
    if n == 0 then t.lead else t.currentPlay
  }

  /** playTurn: dummy's cards are played by declarer. */
  function PlayTurn(t: Table, s: Seat): (int, bool) {
    if s == t.dummy then (t.declarer, true) else (s, false)
  }

  /** The range notified for play number n+1. */
  function NotifiedRange(t: Table, n: nat, s: Seat): PlayRange
    requires s in t.hands
  {
    RangeFor(t.hands[s], n % 4 == 0, t.roundMin, t.roundMax)
  }

  /** A client keeps to the notice: the card is held by the seat due and lies in the range. */
  predicate Notified(t: Table, n: nat, p: Play) {
    && p.seat == DueSeat(t, n)
    && p.seat in t.hands
    && p.card in t.hands[p.seat]
    && NotifiedRange(t, n, p.seat).minimum <= p.card <= NotifiedRange(t, n, p.seat).maximum
  }

  // ---------- the invariant of the play ----------

  /** Declarer and dummy are partners, so are leader and defender, and the engine's trump range is that of the suit. */
  predicate RolesSet(t: Table) {
    && IsSeat(t.declarer) && IsSeat(t.lead)
    && t.dummy == Partner(t.declarer)
    && t.lead == Next(t.declarer)
    && t.defender == Partner(t.lead)
    && CLUB <= t.kingSuit <= TRUMP
    && t.trumpRange == GetTrumpRange(t.kingSuit)
  }

  /** Slot by slot, the hand is the hand dealt with the cards played zeroed. */
  ghost predicate HandMatches(dealt: seq<Card>, log: seq<Play>, hand: seq<Slot>) {
    && |hand| == |dealt|
    && forall i {:trigger hand[i]} :: 0 <= i < |dealt| ==>
         hand[i] == if Played(log, |log|, dealt[i]) then 0 else dealt[i]
  }

  ghost predicate HandsMatch(d: Deal, log: seq<Play>, t: Table) {
    && (forall s: Seat :: s in d && s in t.hands)
    && (forall s: Seat {:trigger t.hands[s]} :: s in d && s in t.hands ==> HandMatches(d[s], log, t.hands[s]))
  }

  /** The cards of the trick under way are on record, and the range is that of the suit led. */
  ghost predicate RecordsMatch(log: seq<Play>, t: Table) {
    var n := |log|;
    && (forall j {:trigger RecordOf(t, log[j].seat)} :: n - n % 4 <= j < n ==> RecordOf(t, log[j].seat) == log[j].card)
    && (n % 4 != 0 ==> (t.roundMin, t.roundMax) == GetRoundRangeByFirstPlay(LedCard(log, n)))
  }

  ghost predicate Inv(b: Board, log: seq<Play>, t: Table) {
    && IsDeal(b.deal)
    && RolesSet(t) && t.lead == b.lead && t.kingSuit == b.trump
    && LegalRecord(b, log)
    && HandsMatch(b.deal, log, t)
    && DueSeat(t, |log|) == ToPlay(b, log, |log|)
    && RecordsMatch(log, t)
  }

  lemma HandIsHeld(d: Deal, log: seq<Play>, t: Table, s: Seat)
    requires IsDeal(d) && HandsMatch(d, log, t)
    ensures s in t.hands && HandShape(t.hands[s])
    ensures forall c: Card :: c in t.hands[s] <==> Holds(d, log, |log|, s, c)
  {
    assert HandMatches(d[s], log, t.hands[s]);
    forall c: Card ensures c in t.hands[s] <==> Holds(d, log, |log|, s, c) {
      if c in d[s] {
        var i :| 0 <= i < 13 && d[s][i] == c;
        assert t.hands[s][i] == if Played(log, |log|, c) then 0 else c;
      }
    }
  }

  /** The plays the server's notice allows are exactly the legal ones. */
  lemma NoticeIffLegal(b: Board, log: seq<Play>, t: Table, p: Play)
    requires Inv(b, log, t)
    ensures Notified(t, |log|, p) <==> LegalPlay(b, log, |log|, p)
  {
    var n := |log|;
    HandIsHeld(b.deal, log, t, p.seat);
    if p.card in t.hands[p.seat] {
      if n % 4 == 0 {
        AnyRangeAtRoundStart(t.hands[p.seat], t.roundMin, t.roundMax, p.card);
        RangeIsFollowSuit(t.hands[p.seat], true, p.card, p.card);
      } else {
        RangeIsFollowSuit(t.hands[p.seat], false, LedCard(log, n), p.card);
        assert HasSuit(t.hands[p.seat], CardSuit(LedCard(log, n))) <==>
               CanFollow(b.deal, log, n, p.seat, CardSuit(LedCard(log, n)));
      }
    }
  }

  /** At the start of a round the led-suit interval of the round before does not matter. */
  lemma AnyRangeAtRoundStart(hand: seq<Slot>, lo: int, hi: int, led: Card)
    ensures RangeFor(hand, true, lo, hi) ==
            RangeFor(hand, true, GetRoundRangeByFirstPlay(led).0, GetRoundRangeByFirstPlay(led).1)
  {
  }

  // ---------- a play keeps the invariant ----------

  lemma PlayKeepsHand(dealt: seq<Card>, log: seq<Play>, hand: seq<Slot>, p: Play)
    requires HandMatches(dealt, log, hand) && !Played(log, |log|, p.card)
    ensures HandMatches(dealt, log + [p], PlayOut(hand, p.card))
    ensures p.card !in dealt ==> HandMatches(dealt, log + [p], hand)
  {
    var g := log + [p];
    forall c: Card ensures Played(g, |g|, c) <==> Played(log, |log|, c) || c == p.card {
      assert forall i :: 0 <= i < |log| ==> g[i] == log[i];
      assert g[|log|] == p;
    }
    forall i | 0 <= i < |dealt| ensures (PlayOut(hand, p.card)[i] == if Played(g, |g|, dealt[i]) then 0 else dealt[i]) {
      assert hand[i] == if Played(log, |log|, dealt[i]) then 0 else dealt[i];
    }
  }

  lemma PlayKeepsHands(d: Deal, log: seq<Play>, t: Table, p: Play, u: Table)
    requires IsDeal(d) && HandsMatch(d, log, t) && Holds(d, log, |log|, p.seat, p.card)
    requires u.hands == t.hands[p.seat := PlayOut(t.hands[p.seat], p.card)]
    ensures HandsMatch(d, log + [p], u)
  {
    forall s: Seat ensures s in d && s in u.hands && HandMatches(d[s], log + [p], u.hands[s]) {
      assert s in d && s in t.hands;
      assert HandMatches(d[s], log, t.hands[s]);
      assert s != p.seat ==> !DealtTo(d, s, p.card);
      PlayKeepsHand(d[s], log, t.hands[s], p);
    }
  }

  lemma RecordsInOrder(t: Table, a: Seat, c0: Card, c1: Card, c2: Card, c3: Card)
    requires RecordOf(t, a) == c0 && RecordOf(t, Next(a)) == c1
    requires RecordOf(t, Partner(a)) == c2 && RecordOf(t, Next(Partner(a))) == c3
    requires c0 != c1 && c0 != c2 && c0 != c3 && c1 != c2 && c1 != c3 && c2 != c3
    ensures TableTrick(t, Next(Partner(a))) ==
            [Play(a, c0), Play(Next(a), c1), Play(Partner(a), c2), Play(Next(Partner(a)), c3)]
  {
  }

  /** When a trick is resolved the four records are exactly its cards and the player recorded is the fourth, whatever
      was left in the records before: so the first card of the play order is the card led. */
  lemma RecordsAreTheTrick(b: Board, log: seq<Play>, t: Table, p: Play, u: Table)
    requires LegalRecord(b, log) && RecordsMatch(log, t) && |log| % 4 == 3
    requires p.seat == ToPlay(b, log, |log|) && p.seat in t.hands && !Played(log, |log|, p.card)
    requires CardWasPut(t, u, |log| + 1, p, false)
    ensures TableTrick(u, p.seat) == log[|log| - 3..] + [p]
  {
    var n := |log|;
    LastTurns(b, log, n);
    CardsPlayedOnce(b, log);
    var a := log[n - 3].seat;
    SeatsGoRound(a);
    assert RecordOf(t, log[n - 3].seat) == log[n - 3].card && RecordOf(t, log[n - 2].seat) == log[n - 2].card
           && RecordOf(t, log[n - 1].seat) == log[n - 1].card;
    RecordsInOrder(u, a, log[n - 3].card, log[n - 2].card, log[n - 1].card, p.card);
    assert log[n - 3..] + [p] == [log[n - 3], log[n - 2], log[n - 1], p];
  }

  /** The fourth card of a round passes the turn to the winner of the trick and clears the table. */
  lemma TrickPassesTurnToWinner(b: Board, log: seq<Play>, t: Table, p: Play)
    requires LegalRecord(b, log) && RecordsMatch(log, t) && |log| % 4 == 3 && t.kingSuit == b.trump
    requires p.seat == ToPlay(b, log, |log|) && p.seat in t.hands && !Played(log, |log|, p.card)
    ensures var u := Step(t, |log| + 1, p);
            && u.currentPlay == BestPlay(log[|log| - 3..] + [p], b.trump).seat
            && u.east == u.south == u.west == u.north == 0
  {
    PutCardChanges(t, |log| + 1, p);
    RecordsAreTheTrick(b, log, t, p, PutCard(t, |log| + 1, p));
  }

  /** The seats that have already played to the trick are not the one that plays next. */
  lemma TurnIsNew(b: Board, log: seq<Play>, j: nat)
    requires LegalRecord(b, log) && |log| - |log| % 4 <= j < |log|
    ensures log[j].seat != ToPlay(b, log, |log|)
  {
    NotYetInTrick(b, log);
  }

  lemma PlayKeepsRecords(b: Board, log: seq<Play>, t: Table, p: Play, u: Table, j: nat)
    requires LegalRecord(b, log) && RecordsMatch(log, t) && p.seat == ToPlay(b, log, |log|) && p.seat in t.hands
    requires CardWasPut(t, u, |log| + 1, p, (|log| + 1) % 4 == 0)
    requires |log| + 1 - (|log| + 1) % 4 <= j <= |log|
    ensures RecordOf(u, (log + [p])[j].seat) == (log + [p])[j].card
  {
    if j < |log| {
      TurnIsNew(b, log, j);
    }
  }

  lemma PlayKeepsRange(log: seq<Play>, t: Table, p: Play, u: Table)
    requires RecordsMatch(log, t) && p.seat in t.hands && CardWasPut(t, u, |log| + 1, p, (|log| + 1) % 4 == 0)
    requires |log| % 4 != 3
    ensures (u.roundMin, u.roundMax) == GetRoundRangeByFirstPlay(LedCard(log + [p], |log| + 1))
  {
  }

  lemma PlayKeepsMatch(b: Board, log: seq<Play>, t: Table, p: Play, u: Table)
    requires LegalRecord(b, log) && RecordsMatch(log, t) && p.seat == ToPlay(b, log, |log|) && p.seat in t.hands
    requires CardWasPut(t, u, |log| + 1, p, (|log| + 1) % 4 == 0)
    ensures RecordsMatch(log + [p], u)
  {
    var n := |log| + 1;
    forall j | n - n % 4 <= j < n ensures RecordOf(u, (log + [p])[j].seat) == (log + [p])[j].card {
      PlayKeepsRecords(b, log, t, p, u, j);
    }
    if n % 4 != 0 {
      PlayKeepsRange(log, t, p, u);
    }
  }

  lemma StepKeepsTurn(b: Board, log: seq<Play>, t: Table, p: Play)
    requires LegalRecord(b, log) && RecordsMatch(log, t) && t.kingSuit == b.trump
    requires p.seat == ToPlay(b, log, |log|) && p.seat in t.hands && !Played(log, |log|, p.card)
    ensures Step(t, |log| + 1, p).currentPlay == ToPlay(b, log + [p], |log| + 1)
  {
    TurnAfter(b, log, p);
    if |log| % 4 == 3 {
      TrickPassesTurnToWinner(b, log, t, p);
    }
  }

  lemma InvFromParts(b: Board, log: seq<Play>, t: Table, p: Play, u: Table)
    requires Inv(b, log, t) && LegalPlay(b, log, |log|, p)
    requires CardWasPut(t, u, |log| + 1, p, (|log| + 1) % 4 == 0)
    requires u.currentPlay == ToPlay(b, log + [p], |log| + 1)
    ensures Inv(b, log + [p], u)
  {
    PlayKeepsHands(b.deal, log, t, p, u);
    PlayKeepsMatch(b, log, t, p, u);
    AppendLegal(b, log, p);
  }

  /** A play keeps the invariant. */
  lemma StepKeepsInv(b: Board, log: seq<Play>, t: Table, p: Play)
    requires Inv(b, log, t) && LegalPlay(b, log, |log|, p)
    ensures Inv(b, log + [p], Step(t, |log| + 1, p))
  {
    StepChanges(t, |log| + 1, p);
    StepKeepsTurn(b, log, t, p);
    InvFromParts(b, log, t, p, Step(t, |log| + 1, p));
  }

  // ---------- whole deals ----------

  /** A table with the cards just dealt and the roles set, before the opening lead. */
  lemma DealStarts(b: Board, t: Table)
    requires IsDeal(b.deal) && t.hands == b.deal && RolesSet(t) && t.lead == b.lead && t.kingSuit == b.trump
    ensures Inv(b, [], t)
  {
  }

  /** The plays of ps, made one after the other from play number n+1 on. */
  function Run(t: Table, n: nat, ps: seq<Play>): Table
    decreases |ps|
  {
    if ps == [] || ps[0].seat !in t.hands then t else Run(Step(t, n + 1, ps[0]), n + 1, ps[1..])
  }

  /** Every play of ps keeps to the notice sent just before it. */
  predicate NotifiedRun(t: Table, n: nat, ps: seq<Play>)
    decreases |ps|
  {
    ps == [] || (Notified(t, n, ps[0]) && NotifiedRun(Step(t, n + 1, ps[0]), n + 1, ps[1..]))
  }

  /** Play number n+1 of a record whose first n plays were made at the table. */
  lemma NextPlayOfRecord(b: Board, record: seq<Play>, n: nat, t: Table)
    requires n < |record| && Inv(b, record[..n], t)
    ensures Notified(t, n, record[n]) <==> LegalPlay(b, record, n, record[n])
    ensures Notified(t, n, record[n]) ==> Inv(b, record[..n + 1], Step(t, n + 1, record[n]))
    ensures record[n..][0] == record[n] && record[n..][1..] == record[n + 1..]
  {
    var log, p := record[..n], record[n];
    NoticeIffLegal(b, log, t, p);
    SameFirstPlays(b, record, log, n, p);
    if Notified(t, n, p) {
      StepKeepsInv(b, log, t, p);
      assert record[..n + 1] == log + [p];
    }
  }

  lemma {:induction false} LegalRunIsNotified(b: Board, record: seq<Play>, n: nat, t: Table)
    requires n <= |record| && LegalRecord(b, record) && Inv(b, record[..n], t)
    ensures NotifiedRun(t, n, record[n..])
    decreases |record| - n
  {
    if n < |record| {
      NextPlayOfRecord(b, record, n, t);
      LegalRunIsNotified(b, record, n + 1, Step(t, n + 1, record[n]));
    }
  }

  lemma {:induction false} NotifiedRunKeepsInv(b: Board, record: seq<Play>, n: nat, t: Table)
    requires n <= |record| && Inv(b, record[..n], t) && NotifiedRun(t, n, record[n..])
    ensures Inv(b, record, Run(t, n, record[n..]))
    decreases |record| - n
  {
    if n == |record| {
      assert record[..n] == record;
    } else {
      NextPlayOfRecord(b, record, n, t);
      NotifiedRunKeepsInv(b, record, n + 1, Step(t, n + 1, record[n]));
    }
  }

  /** The server's notices, followed play by play, admit exactly the legal records of the deal; and after any such run
      the table is the one the laws prescribe. */
  lemma NoticesAdmitLegalRecords(b: Board, log: seq<Play>, t: Table, ps: seq<Play>)
    requires Inv(b, log, t)
    ensures NotifiedRun(t, |log|, ps) <==> LegalRecord(b, log + ps)
    ensures NotifiedRun(t, |log|, ps) ==> Inv(b, log + ps, Run(t, |log|, ps)) && |log| + |ps| <= 52
  {
    var record := log + ps;
    assert record[..|log|] == log && record[|log|..] == ps;
    if NotifiedRun(t, |log|, ps) {
      NotifiedRunKeepsInv(b, record, |log|, t);
      RecordLength(b, record);
    }
    if LegalRecord(b, record) {
      LegalRunIsNotified(b, record, |log|, t);
    }
  }

  /** The play made for a player whose time has run out. */
  ghost predicate IsTimeoutPlay(t: Table, n: nat, p: Play) {
    p.seat == DueSeat(t, n) && p.seat in t.hands && p.card == NotifiedRange(t, n, p.seat).timeout
  }

  ghost predicate TimeoutRun(t: Table, n: nat, ps: seq<Play>)
    decreases |ps|
  {
    ps == [] || (IsTimeoutPlay(t, n, ps[0]) && TimeoutRun(Step(t, n + 1, ps[0]), n + 1, ps[1..]))
  }

  lemma TimeoutIsLeast(b: Board, log: seq<Play>, t: Table, q: Play)
    requires Inv(b, log, t) && LegalPlay(b, log, |log|, q)
    ensures q.seat == DueSeat(t, |log|) && q.seat in t.hands && NotifiedRange(t, |log|, q.seat).timeout <= q.card
  {
    var n, hand := |log|, t.hands[q.seat];
    HandIsHeld(b.deal, log, t, q.seat);
    if n % 4 == 0 {
      AnyRangeAtRoundStart(hand, t.roundMin, t.roundMax, q.card);
      RangeIsLeastAndGreatest(hand, true, q.card, q.card);
    } else {
      var led := LedCard(log, n);
      assert HasSuit(hand, CardSuit(led)) <==> CanFollow(b.deal, log, n, q.seat, CardSuit(led));
      RangeIsLeastAndGreatest(hand, false, led, q.card);
    }
  }

  /** Before the 52nd play the card for an expired time is a legal play, and the least one. */
  lemma TimeoutIsLegal(b: Board, log: seq<Play>, t: Table) returns (p: Play)
    requires Inv(b, log, t) && |log| < 52
    ensures IsTimeoutPlay(t, |log|, p) && Notified(t, |log|, p)
    ensures forall q :: LegalPlay(b, log, |log|, q) ==> p.card <= q.card
  {
    var n := |log|;
    RecordLength(b, log);
    var s: Seat := ToPlay(b, log, n);
    HandIsHeld(b.deal, log, t, s);
    var c :| c in HeldCards(b.deal, log, n, s);
    assert c in t.hands[s] && c != 0;
    if n % 4 == 0 {
      AnyRangeAtRoundStart(t.hands[s], t.roundMin, t.roundMax, c);
      TimeoutIsPlayable(t.hands[s], true, c);
    } else {
      TimeoutIsPlayable(t.hands[s], false, LedCard(log, n));
    }
    p := Play(s, NotifiedRange(t, n, s).timeout);
    forall q | LegalPlay(b, log, n, q) ensures p.card <= q.card {
      TimeoutIsLeast(b, log, t, q);
    }
  }

  /** From any point of any deal, if every player lets the time run out the deal reaches its 52nd play, legally. */
  lemma {:induction false} TimeoutsFinishTheDeal(b: Board, log: seq<Play>, t: Table) returns (ps: seq<Play>)
    requires Inv(b, log, t)
    ensures TimeoutRun(t, |log|, ps) && NotifiedRun(t, |log|, ps) && |log| + |ps| == 52
    decreases 52 - |log|
  {
    RecordLength(b, log);
    if |log| == 52 {
      ps := [];
    } else {
      var p := TimeoutIsLegal(b, log, t);
      NoticeIffLegal(b, log, t, p);
      StepKeepsInv(b, log, t, p);
      var rest := TimeoutsFinishTheDeal(b, log + [p], Step(t, |log| + 1, p));
      ps := [p] + rest;
      assert ps[1..] == rest;
    }
  }

  /** The seat notified to act is never dummy. */
  lemma DummyNeverActs(b: Board, log: seq<Play>, t: Table)
    requires Inv(b, log, t)
    ensures var due := ToPlay(b, log, |log|);
            var (actor, isAgent) := PlayTurn(t, due);
            && actor != t.dummy && (isAgent <==> due == t.dummy)
            && actor == if isAgent then Partner(due) else due
  {
  }

  /** After the 52nd play every slot of every hand is empty. */
  lemma DealIsPlayedOut(b: Board, log: seq<Play>, t: Table)
    requires Inv(b, log, t) && |log| == 52
    ensures forall s: Seat, i :: s in b.deal && 0 <= i < 13 ==> t.hands[s][i] == 0
  {
    RecordLength(b, log);
    forall s: Seat, i | s in b.deal && 0 <= i < 13 ensures t.hands[s][i] == 0 {
      assert DealtTo(b.deal, s, b.deal[s][i]) && b.deal[s][i] !in HeldCards(b.deal, log, 52, s);
    }
  }
}
