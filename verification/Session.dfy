/** The whole table as one machine: deal, auction, then a new deal or thirteen tricks, settlement, and the next deal. */
module Session {
  import opened Entities
  import opened BidManager
  import opened Auction
  import opened PlayLaws
  import opened Engines
  import opened CardPlay
  import opened Packs

  datatype Phase = Bidding | Playing

  /** `h` is the auction so far, `deal` the hands as dealt, `log` the cards played from them. */
  datatype Session =
    Session(phase: Phase, opener: Seat, clock: nat, h: History, deal: FullDeal, log: seq<Play>, table: Table)

  /** A call, or a card. */
  datatype Event = Call(zone: Seat, bid: Call) | Card(play: Play)

  /** What chance brings when an event starts a new deal: the shuffled hands and who opens the auction. */
  datatype Fresh = Fresh(deal: FullDeal, opener: Seat)

  // ---------- the steps of the server ----------

  function NewDeal(s: Session, next: Fresh): Session {
    s.(phase := Bidding, opener := next.opener, deal := next.deal, log := [],
       table := s.table.(hands := next.deal))
  }

  /** SetGamePlayInfo and the engine's part of it; the engine is left one seat past the opening leader. */
  function Contracted(t: Table, info: PlayInfo): Table
    requires info.PlayInfo?
  {
    t.(declarer := info.declarer, dummy := info.dummy, lead := info.lead, defender := Partner(info.lead),
       kingSuit := info.suit, trumpRange := GetTrumpRange(info.suit), currentPlay := Next(info.lead))
  }

  function Called(s: Session, zone: Seat, bid: Call): Session {
    s.(h := s.h + [CreateBidItem(zone, bid, s.clock + 1)], clock := s.clock + 1)
  }

  function PlayFrom(s: Session, info: PlayInfo): Session
    requires info.PlayInfo?
  {
    s.(phase := Playing, h := [], log := [], table := Contracted(s.table, info))
  }

  /** The branches of GamePrivateNotyBid, the call being recorded: the auction goes on, there is a new deal, or play
      begins. */
  function Decide(s: Session, next: Fresh): Session
    requires s.h != []
  {
    if !Complete(s.h) then s.(table := s.table.(currentPlay := Next(s.h[|s.h| - 1].bidder)))
    else if NeedReBid(s.h) then
      var u := NewDeal(s.(h := []), next);
      u.(table := u.table.(currentPlay := next.opener))
    else
      FinishedHasBasis(s.h);
      PlayFrom(s, Outcome(s.h))
  }

  function CallStep(s: Session, zone: Seat, bid: Call, next: Fresh): Session {
    Decide(Called(s, zone, bid), next)
  }

  /** A card played under a number, the one the client sends. */
  function CardAt(s: Session, number: nat, p: Play): Session
    requires p.seat in s.table.hands
  {
    s.(log := s.log + [p], table := Step(s.table, number, p))
  }

  function CardOnLog(s: Session, p: Play): Session
    requires p.seat in s.table.hands
  {
    CardAt(s, |s.log| + 1, p)
  }

  /** GameSettle: the last card is recorded once more after the reset, and the next deal starts. */
  function Settled(s: Session, last: Play, next: Fresh): Session {
    NewDeal(s.(table := SaveRecord(s.table, last.seat, last.card)), next)
  }

  /** The card numbered 52 settles the deal. */
  function PlayStepAt(s: Session, number: nat, p: Play, next: Fresh): Session
    requires p.seat in s.table.hands
  {
    if number == 52 then Settled(CardAt(s, number, p), p, next) else CardAt(s, number, p)
  }

  function PlayStep(s: Session, p: Play, next: Fresh): Session
    requires p.seat in s.table.hands
  {
    PlayStepAt(s, |s.log| + 1, p, next)
  }

  /** From an empty log a lead is the step any card makes. */
  lemma LeadIsFirstCard(s: Session, p: Play, next: Fresh)
    requires s.log == [] && p.seat in s.table.hands
    ensures CardAt(s, 1, p) == PlayStep(s, p, next)
  {
  }

  /** Whose call is due. */
  function DueCaller(s: Session): int {
    if s.h == [] then s.opener else s.table.currentPlay
  }

  /** Clients answer the notices they get: the seat due, and a call or card within what was offered. */
  predicate Keeps(s: Session, e: Event) {
    match e
    case Call(zone, bid) => s.phase == Bidding && zone == DueCaller(s) && OfferedCall(s.h, bid)
    case Card(p) => s.phase == Playing && Notified(s.table, |s.log|, p)
  }

  function After(s: Session, e: Event, next: Fresh): Session
    requires Keeps(s, e)
  {
    match e
    case Call(zone, bid) => CallStep(s, zone, bid, next)
    case Card(p) => PlayStep(s, p, next)
  }

  // ---------- the invariant ----------

  function BoardOf(s: Session): Board
    requires IsSeat(s.table.lead)
  {
    Board(s.deal, s.table.lead, s.table.kingSuit)
  }

  ghost predicate InAuction(s: Session) {
    && s.log == []
    && s.table.hands == s.deal
    && AuctionRun(s.h) && !Complete(s.h)
    && (s.h != [] ==> s.table.currentPlay == Next(s.h[|s.h| - 1].bidder))
  }

  ghost predicate InPlay(s: Session) {
    s.h == [] && RolesSet(s.table) && Inv(BoardOf(s), s.log, s.table) && |s.log| < 52
  }

  ghost predicate SessionInv(s: Session) {
    if s.phase == Bidding then InAuction(s) else InPlay(s)
  }

  /** The state between recording a call and deciding what follows. */
  ghost predicate CallRecorded(s: Session) {
    && s.phase == Bidding && s.h != [] && s.log == []
    && s.table.hands == s.deal
    && AuctionRun(s.h)
    && (Complete(s.h) && !NeedReBid(s.h) ==> ContractAt(s.h) >= 0)
  }

  lemma {:induction false} CallIsRun(s: Session, zone: Seat, bid: Call)
    requires s.phase == Bidding && InAuction(s) && Keeps(s, Event.Call(zone, bid))
    ensures CallRecorded(Called(s, zone, bid))
    ensures 0 <= CallsLeft(Called(s, zone, bid).h) < CallsLeft(s.h)
  {
    var h := Called(s, zone, bid).h;
    assert h[..|h| - 1] == s.h;
    CallsLeftDrops(h);
    CallsLeftIsNatural(h);
    if Complete(h) {
      AuctionEnd(h);
    }
  }

  /** The roles that come out of an auction: declarer and dummy are partners, declarer's left-hand opponent leads, the
      four roles are the four seats, and the engine's trump range is that of the denomination. */
  lemma ContractSetsRoles(t: Table, h: History)
    requires ContractAt(h) >= 0
    ensures var u := Contracted(t, Outcome(h));
            && RolesSet(u) && u.currentPlay == Next(u.lead)
            && forall s: Seat {:trigger SameSide(s, EAST)} ::
                 s == u.declarer || s == u.dummy || s == u.lead || s == u.defender
  {
  }

  lemma NewDealIsAuction(s: Session, next: Fresh)
    requires s.h == []
    ensures InAuction(NewDeal(s, next))
  {
  }

  lemma ContractStartsPlay(s: Session, h: History)
    requires s.table.hands == s.deal && ContractAt(h) >= 0
    ensures InPlay(PlayFrom(s, Outcome(h)))
  {
    var u := PlayFrom(s, Outcome(h));
    ContractSetsRoles(s.table, h);
    DealStarts(BoardOf(u), u.table);
  }

  lemma NextCallerIsDue(s: Session, next: Fresh)
    requires CallRecorded(s) && !Complete(s.h)
    ensures InAuction(Decide(s, next))
  {
  }

  lemma DecideKeepsInv(s: Session, next: Fresh)
    requires CallRecorded(s)
    ensures SessionInv(Decide(s, next))
  {
    if !Complete(s.h) {
      NextCallerIsDue(s, next);
    } else if NeedReBid(s.h) {
      NewDealIsAuction(s.(h := []), next);
    } else {
      ContractStartsPlay(s, s.h);
    }
  }

  lemma CardKeepsPlay(s: Session, p: Play)
    requires s.phase == Playing && InPlay(s) && Keeps(s, Event.Card(p))
    ensures Inv(BoardOf(s), s.log + [p], Step(s.table, |s.log| + 1, p))
  {
    NoticeIffLegal(BoardOf(s), s.log, s.table, p);
    StepKeepsInv(BoardOf(s), s.log, s.table, p);
  }

  lemma CardKeepsInv(s: Session, p: Play, next: Fresh)
    requires s.phase == Playing && InPlay(s) && Keeps(s, Event.Card(p))
    ensures SessionInv(PlayStep(s, p, next))
  {
    CardKeepsPlay(s, p);
    var u := CardOnLog(s, p);
    if |s.log| == 51 {
      NewDealIsAuction(u.(table := SaveRecord(u.table, p.seat, p.card)), next);
    } else {
      PlayGoesOn(s, p, u.table);
    }
  }

  lemma PlayGoesOn(s: Session, p: Play, t: Table)
    requires s.h == [] && RolesSet(s.table) && Inv(BoardOf(s), s.log + [p], t) && |s.log| < 51
    ensures InPlay(s.(log := s.log + [p], table := t))
  {
  }

  /** Every event of a client that keeps to the notices leads from a good state to a good state. */
  lemma {:induction false} StepKeepsSession(s: Session, e: Event, next: Fresh)
    requires SessionInv(s) && Keeps(s, e)
    ensures SessionInv(After(s, e, next))
  {
    match e
    case Call(zone, bid) =>
      CallIsRun(s, zone, bid);
      DecideKeepsInv(Called(s, zone, bid), next);
    case Card(p) => CardKeepsInv(s, p, next);
  }

  /** The last card of a deal is left on record when the table is otherwise clear, and the next deal is the one chance
      brings, with its opener to call first. */
  lemma AfterSettlement(s: Session, p: Play, next: Fresh, seat: Seat)
    requires SessionInv(s) && s.phase == Playing && Keeps(s, Event.Card(p)) && |s.log| == 51
    ensures var u := PlayStep(s, p, next);
            && RecordOf(u.table, seat) == (if seat == p.seat then p.card else 0)
            && u.deal == next.deal && u.table.hands == next.deal
            && u.opener == next.opener && DueCaller(u) == next.opener
            && u.phase == Bidding && u.h == [] && u.log == [] && u.clock == s.clock
  {
    NoticeIffLegal(BoardOf(s), s.log, s.table, p);
    TrickPassesTurnToWinner(BoardOf(s), s.log, s.table, p);
  }

  /** After four passes the next deal is likewise the one chance brings, and its opener the current seat. */
  lemma AfterFourPasses(s: Session, next: Fresh)
    requires s.h != [] && NeedReBid(s.h)
    ensures var u := Decide(s, next);
            && u.deal == next.deal && u.table.hands == next.deal
            && u.opener == next.opener && DueCaller(u) == next.opener
            && u.phase == Bidding && u.h == [] && u.log == [] && u.clock == s.clock
            && u.table == s.table.(hands := next.deal, currentPlay := next.opener)
  {
  }

  // ---------- cards outside the discipline ----------

  /** A card of dummy that is refused has been played nevertheless. The table stays in a good state iff it was not
      the last card; after the last one the deal is not settled and no event keeps to the notices, so the table
      stands still. */
  lemma RefusedCardIsSafeIff(s: Session, p: Play)
    requires SessionInv(s) && s.phase == Playing && Keeps(s, Event.Card(p))
    ensures SessionInv(CardOnLog(s, p)) <==> |s.log| != 51
    ensures |s.log| == 51 ==> forall e :: !Keeps(CardOnLog(s, p), e)
  {
    var u := CardOnLog(s, p);
    CardKeepsPlay(s, p);
    if |s.log| == 51 {
      forall e ensures !Keeps(u, e) {
        if e.Card? {
          NothingIsLeft(BoardOf(s), u.log, u.table, e.play);
        }
      }
    } else {
      PlayGoesOn(s, p, u.table);
    }
  }

  lemma NothingIsLeft(b: Board, log: seq<Play>, t: Table, p: Play)
    requires Inv(b, log, t) && |log| == 52
    ensures !Notified(t, |log|, p)
  {
    NoticeIffLegal(b, log, t, p);
    AppendLegal(b, log, p);
    if LegalPlay(b, log, |log|, p) {
      RecordLength(b, log + [p]);
    }
  }

  /** When a card taken for a lead, play number 1, does what the laws prescribe for the card it really is. As the first
      of a trick always; as the second or third if it follows suit; as the fourth if the trick is won by its leader. */
  predicate LeadFits(s: Session, p: Play)
    requires s.log != []
  {
    var n := |s.log|;
    if n % 4 == 0 then true
    else if n % 4 == 3 then BestPlay(s.log[n - 3..] + [p], s.table.kingSuit).seat == Next(p.seat)
    else CardSuit(p.card) == CardSuit(LedCard(s.log, n))
  }

  /** A card taken for a lead in the middle of the play leaves the table in a good state iff the table expected that
      card, it is not the last, and a lead fits. */
  lemma RepeatedLeadIsSafeIff(s: Session, p: Play)
    requires SessionInv(s) && s.phase == Playing && s.log != []
    ensures p.seat in s.table.hands
    ensures SessionInv(CardAt(s, 1, p)) <==> Keeps(s, Event.Card(p)) && |s.log| < 51 && LeadFits(s, p)
  {
    HandIsHeld(s.deal, s.log, s.table, p.seat);
    if SessionInv(CardAt(s, 1, p)) {
      GoodLeadFits(s, p);
    }
    if Keeps(s, Event.Card(p)) && |s.log| < 51 && LeadFits(s, p) {
      FittingLeadIsGood(s, p);
    }
  }

  lemma GoodLeadFits(s: Session, p: Play)
    requires SessionInv(s) && s.phase == Playing && s.log != [] && p.seat in s.table.hands
    requires SessionInv(CardAt(s, 1, p))
    ensures Keeps(s, Event.Card(p)) && |s.log| < 51 && LeadFits(s, p)
  {
    StepChanges(s.table, 1, p);
    AppendLegal(BoardOf(s), s.log, p);
    NoticeIffLegal(BoardOf(s), s.log, s.table, p);
    if |s.log| % 4 == 3 {
      TurnAfter(BoardOf(s), s.log, p);
    } else if |s.log| % 4 != 0 {
      MatchingLeadFollowsSuit(s.log, s.table, p);
    }
  }

  lemma MatchingLeadFollowsSuit(log: seq<Play>, t: Table, p: Play)
    requires p.seat in t.hands && |log| % 4 != 0 && |log| % 4 != 3 && RecordsMatch(log + [p], Step(t, 1, p))
    ensures CardSuit(p.card) == CardSuit(LedCard(log, |log|))
  {
    SameRangeSameSuit(log, t, p);
  }

  /** A lead sets the range of its suit; a range kept since the lead of the trick is that of the suit led. */
  lemma SameRangeSameSuit(log: seq<Play>, t: Table, p: Play)
    requires p.seat in t.hands && |log| % 4 != 0 && |log| % 4 != 3
    ensures (Step(t, 1, p).roundMin, Step(t, 1, p).roundMax) == GetRoundRangeByFirstPlay(p.card)
    ensures LedCard(log + [p], |log| + 1) == LedCard(log, |log|)
    ensures GetRoundRangeByFirstPlay(p.card) == GetRoundRangeByFirstPlay(LedCard(log, |log|))
            <==> CardSuit(p.card) == CardSuit(LedCard(log, |log|))
  {
    RangesAreSuits(LedCard(log, |log|), p.card, TRUMP);
    RangesAreSuits(p.card, p.card, TRUMP);
  }

  lemma FittingLeadIsGood(s: Session, p: Play)
    requires SessionInv(s) && s.phase == Playing && s.log != []
    requires Keeps(s, Event.Card(p)) && |s.log| < 51 && LeadFits(s, p)
    ensures SessionInv(CardAt(s, 1, p))
  {
    FittingLeadKeepsPlay(s, p);
    PlayGoesOn(s, p, Step(s.table, 1, p));
  }

  lemma FittingLeadKeepsPlay(s: Session, p: Play)
    requires SessionInv(s) && s.phase == Playing && s.log != []
    requires Keeps(s, Event.Card(p)) && LeadFits(s, p)
    ensures Inv(BoardOf(s), s.log + [p], Step(s.table, 1, p))
  {
    CardKeepsPlay(s, p);
    if |s.log| % 4 == 3 {
      LeadAsFourth(BoardOf(s), s.log, s.table, p);
    } else {
      LeadIsSameStep(s.log, s.table, p);
    }
  }

  lemma LeadIsSameStep(log: seq<Play>, t: Table, p: Play)
    requires RecordsMatch(log, t) && p.seat in t.hands && |log| % 4 != 3
    requires |log| % 4 != 0 ==> CardSuit(p.card) == CardSuit(LedCard(log, |log|))
    ensures Step(t, 1, p) == Step(t, |log| + 1, p)
  {
    if |log| % 4 != 0 {
      SameRangeSameSuit(log, t, p);
    }
  }

  lemma LeadAsFourth(b: Board, log: seq<Play>, t: Table, p: Play)
    requires p.seat in t.hands && |log| % 4 == 3 && Inv(b, log + [p], Step(t, |log| + 1, p))
    requires BestPlay(log[|log| - 3..] + [p], b.trump).seat == Next(p.seat)
    ensures Inv(b, log + [p], Step(t, 1, p))
  {
    LeadNextToFourth(t, |log| + 1, p);
    TurnAfter(b, log, p);
    AnyRecordsBetweenTricks(b, log + [p], Step(t, |log| + 1, p), Step(t, 1, p));
  }

  /** A lead and a fourth card differ in the range, the records and the turn only. */
  lemma LeadNextToFourth(t: Table, n: nat, p: Play)
    requires p.seat in t.hands && n % 4 == 0
    ensures Step(t, 1, p).hands == Step(t, n, p).hands && SameRoles(Step(t, n, p), Step(t, 1, p))
    ensures Step(t, 1, p).currentPlay == Next(p.seat)
  {
    StepChanges(t, 1, p);
    StepChanges(t, n, p);
  }

  /** Between two tricks the records and the range do not matter. */
  lemma AnyRecordsBetweenTricks(b: Board, log: seq<Play>, t: Table, u: Table)
    requires Inv(b, log, t) && log != [] && |log| % 4 == 0
    requires u.hands == t.hands && SameRoles(t, u) && u.currentPlay == ToPlay(b, log, |log|)
    ensures Inv(b, log, u)
  {
  }

  /** The leader's client sends the opening lead twice: whatever was led, the table is no longer in a good state. */
  lemma RepeatingTheLeadBreaks(s: Session)
    requires SessionInv(s) && s.phase == Playing && |s.log| == 1
    ensures s.log[0].seat in s.table.hands && !SessionInv(CardAt(s, 1, s.log[0]))
  {
    RepeatedLeadIsSafeIff(s, s.log[0]);
  }

  // ---------- whole runs ----------

  /** A run: events that keep to the notices, each with what chance would bring if it starts a new deal. */
  ghost predicate IsRun(s: Session, es: seq<(Event, Fresh)>)
    decreases |es|
  {
    es == [] || (Keeps(s, es[0].0) && IsRun(After(s, es[0].0, es[0].1), es[1..]))
  }

  function AfterRun(s: Session, es: seq<(Event, Fresh)>): Session
    decreases |es|
  {
    if es == [] || !Keeps(s, es[0].0) then s else AfterRun(After(s, es[0].0, es[0].1), es[1..])
  }

  /** A run goes on with any event that keeps to the notices. */
  lemma {:induction false} RunGoesOn(s: Session, es: seq<(Event, Fresh)>, e: Event, next: Fresh)
    requires IsRun(s, es) && Keeps(AfterRun(s, es), e)
    ensures IsRun(s, es + [(e, next)])
    ensures AfterRun(s, es + [(e, next)]) == After(AfterRun(s, es), e, next)
    decreases |es|
  {
    var g := es + [(e, next)];
    if es == [] {
      assert g[1..] == [];
    } else {
      RunGoesOn(After(s, es[0].0, es[0].1), es[1..], e, next);
      assert g[1..] == es[1..] + [(e, next)] && g[0] == es[0];
    }
  }

  /** Safety over any number of deals: the auction is always a run of the laws of bidding, the play always a legal
      record, and the cards in the hands and on the log always the hands dealt. */
  lemma {:induction false} EveryRunIsSafe(s: Session, es: seq<(Event, Fresh)>)
    requires SessionInv(s) && IsRun(s, es)
    ensures SessionInv(AfterRun(s, es))
    decreases |es|
  {
    if es != [] {
      StepKeepsSession(s, es[0].0, es[0].1);
      EveryRunIsSafe(After(s, es[0].0, es[0].1), es[1..]);
    }
  }

  ghost predicate InHand(t: Table, seat: Seat, c: Card) {
    seat in t.hands && c in t.hands[seat]
  }

  ghost predicate InSomeHand(t: Table, c: Card) {
    exists seat: Seat :: InHand(t, seat, c)
  }

  lemma HandsAreWhatIsHeld(s: Session, seat: Seat, c: Card)
    requires SessionInv(s)
    ensures InHand(s.table, seat, c) <==> Holds(s.deal, s.log, |s.log|, seat, c)
  {
    if s.phase == Playing {
      HandIsHeld(s.deal, s.log, s.table, seat);
    }
  }

  /** Conservation: in every reachable state each of the 52 cards is in the hand of exactly one seat or on the log,
      never both and never twice. */
  lemma CardsAreAccountedFor(s: Session)
    requires SessionInv(s)
    ensures forall c: Card :: Played(s.log, |s.log|, c) <==> !InSomeHand(s.table, c)
    ensures forall c: Card, a: Seat, b: Seat :: InHand(s.table, a, c) && InHand(s.table, b, c) ==> a == b
    ensures forall i, j :: 0 <= i < j < |s.log| ==> s.log[i].card != s.log[j].card
  {
    forall seat: Seat, c: Card ensures InHand(s.table, seat, c) <==> Holds(s.deal, s.log, |s.log|, seat, c) {
      HandsAreWhatIsHeld(s, seat, c);
    }
    if s.phase == Playing {
      CardsPlayedOnce(BoardOf(s), s.log);
    }
    forall c: Card ensures Played(s.log, |s.log|, c) <==> !InSomeHand(s.table, c) {
      assert Dealt(s.deal, c);
      var seat: Seat :| DealtTo(s.deal, seat, c);
      assert InHand(s.table, seat, c) <==> !Played(s.log, |s.log|, c);
    }
  }

  /** In every state some event keeps to the notices: the machine never blocks. */
  lemma NeverBlocks(s: Session) returns (e: Event)
    requires SessionInv(s)
    ensures Keeps(s, e)
  {
    if s.phase == Bidding {
      var zone: Seat := if s.h == [] then s.opener else Next(s.h[|s.h| - 1].bidder);
      e := Event.Call(zone, 1);
    } else {
      var p := TimeoutIsLegal(BoardOf(s), s.log, s.table);
      e := Event.Card(p);
    }
  }

  /** An upper bound on the events left in this deal. */
  function EventsLeft(s: Session): int {
    if s.phase == Bidding then CallsLeft(s.h) + 52 else 52 - |s.log|
  }

  predicate StartsDeal(s: Session) {
    s.phase == Bidding && s.h == []
  }

  lemma DecideUsesUpCalls(s: Session, next: Fresh)
    requires CallRecorded(s)
    ensures var u := Decide(s, next);
            StartsDeal(u) || EventsLeft(u) <= 52 + CallsLeft(s.h) || EventsLeft(u) == 52
  {
  }

  lemma {:induction false} EventsLeftDrops(s: Session, e: Event, next: Fresh)
    requires SessionInv(s) && Keeps(s, e)
    ensures EventsLeft(s) > 0
    ensures StartsDeal(After(s, e, next)) || EventsLeft(After(s, e, next)) < EventsLeft(s)
  {
    match e
    case Call(zone, bid) =>
      CallIsRun(s, zone, bid);
      DecideUsesUpCalls(Called(s, zone, bid), next);
    case Card(p) =>
  }

  /** A run during which no new deal starts before its last event. */
  predicate WithinDeal(s: Session, es: seq<(Event, Fresh)>)
    decreases |es|
  {
    || |es| <= 1
    || (Keeps(s, es[0].0)
        && !StartsDeal(After(s, es[0].0, es[0].1))
        && WithinDeal(After(s, es[0].0, es[0].1), es[1..]))
  }

  /** A run during which no new deal starts at all. */
  ghost predicate QuietRun(s: Session, es: seq<(Event, Fresh)>)
    decreases |es|
  {
    || es == []
    || (Keeps(s, es[0].0)
        && !StartsDeal(After(s, es[0].0, es[0].1))
        && QuietRun(After(s, es[0].0, es[0].1), es[1..]))
  }

  /** One more event makes it a run within the deal, and a quiet one if it starts no deal either. */
  lemma {:induction false} QuietRunGoesOn(s: Session, es: seq<(Event, Fresh)>, e: Event, next: Fresh)
    requires QuietRun(s, es) && Keeps(AfterRun(s, es), e)
    ensures var g, u := es + [(e, next)], After(AfterRun(s, es), e, next);
            && IsRun(s, g) && WithinDeal(s, g) && AfterRun(s, g) == u
            && (!StartsDeal(u) ==> QuietRun(s, g))
    decreases |es|
  {
    var g := es + [(e, next)];
    if es == [] {
      assert g[1..] == [];
    } else {
      var u := After(s, es[0].0, es[0].1);
      assert g[1..] == es[1..] + [(e, next)] && g[0] == es[0];
      QuietRunGoesOn(u, es[1..], e, next);
    }
  }

  /** Every deal ends, by settlement or by being dealt again, within 231 events of its first call: 179 calls and 52
      cards. */
  lemma {:induction false} EveryDealEnds(s: Session, es: seq<(Event, Fresh)>)
    requires SessionInv(s) && IsRun(s, es) && WithinDeal(s, es)
    ensures es != [] ==> |es| <= EventsLeft(s)
    ensures StartsDeal(s) ==> |es| <= 231
    decreases |es|
  {
    if es != [] {
      EventsLeftDrops(s, es[0].0, es[0].1);
      if |es| > 1 {
        StepKeepsSession(s, es[0].0, es[0].1);
        EveryDealEnds(After(s, es[0].0, es[0].1), es[1..]);
      }
    }
  }
}
