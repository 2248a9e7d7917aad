/** game/game.go: one table of the server with the messaging taken out. Each operation is proved to take the step of the
    machine in Session; what a method returns is what the source sends to the players. */
module Games {
  import opened Entities
  import opened BidManager
  import opened Auction
  import opened PlayLaws
  import opened Engines
  import opened CardPlay
  import opened Packs
  import opened Dealer
  import opened SeatRings
  import S = Session

  /** The notice to the next player: who is to act, for whom, in which range, and the number to echo back. */
  datatype PlayNotice = PlayNotice(seat: int, isPlayAgent: bool, range: PlayRange, numOfCardPlayHitting: nat)

  /** What a call leads to. */
  datatype BidReply =
    | NextCall(bidder: Seat, limit: Call, db: DoubleButton, db2: DoubleButton)
    | NewDeal(opener: Seat)
    | PlayBegins(info: PlayInfo, notice: PlayNotice)

  /** What a card leads to: no answer, the notice to whoever is next, or a new deal. */
  datatype CardReply = Refused | NextCard(notice: PlayNotice) | DealOver(opener: Seat)

  /** The cards left in a hand, in order. */
  function Left(hand: seq<Slot>): seq<Slot> {
    if hand == [] then []
    else Left(hand[..|hand| - 1]) + if hand[|hand| - 1] == 0 then [] else [hand[|hand| - 1]]
  }

  /** They are exactly the cards of the hand that are not gone. */
  lemma {:induction false} LeftIsWhatRemains(hand: seq<Slot>, c: Slot)
    ensures c in Left(hand) <==> c in hand && c != 0
  {
    if hand != [] {
      LeftIsWhatRemains(hand[..|hand| - 1], c);
      assert hand == hand[..|hand| - 1] + [hand[|hand| - 1]];
    }
  }

  /** A sorted hand stays sorted. */
  lemma {:induction false} LeftStaysSorted(hand: seq<Slot>)
    requires HandShape(hand)
    ensures forall i, j :: 0 <= i < j < |Left(hand)| ==> Left(hand)[i] < Left(hand)[j]
  {
    if hand != [] && hand[|hand| - 1] != 0 {
      var rest := hand[..|hand| - 1];
      LeftStaysSorted(rest);
      forall i | 0 <= i < |Left(rest)| ensures Left(rest)[i] < hand[|hand| - 1] {
        LeftIsWhatRemains(rest, Left(rest)[i]);
        var k :| 0 <= k < |rest| && rest[k] == Left(rest)[i];
        assert hand[k] == rest[k];
      }
    } else if hand != [] {
      LeftStaysSorted(hand[..|hand| - 1]);
    }
  }

  class Game {
    const roomManager: SeatRing
    const engine: Engine
    const deck: array<Card>
    const deckInPlay: map<Seat, array<Slot>>
    var declarer: int
    var dummy: int
    var lead: int
    var defender: int
    var kingSuit: int
    var eastCard: Slot
    var southCard: Slot
    var westCard: Slot
    var northCard: Slot
    var roundMax: int
    var roundMin: int
    ghost var phase: S.Phase
    ghost var opener: Seat
    ghost var dealt: FullDeal
    ghost var log: seq<Play>

    ghost predicate Shape()
      reads this`dealt, roomManager, engine.bidHistory, deck
    {
      Parts() && HandArrays(deckInPlay)
    }

    ghost predicate Parts()
      reads this`dealt, roomManager, engine.bidHistory, deck
    {
      roomManager.Shape() && engine.Valid() && HoldsDeal(deck, dealt)
    }

    ghost function TableState(): Table
      reads this, engine, ArraysOf(deckInPlay)
    {
      Table(HandsOf(deckInPlay), eastCard, southCard, westCard, northCard, roundMin, roundMax,
            declarer, dummy, lead, defender, kingSuit, engine.trumpRange, engine.currentPlay)
    }

    ghost function State(): S.Session
      reads this, engine, engine.bidHistory, ArraysOf(deckInPlay)
    {
      S.Session(phase, opener, engine.bidHistory.clock, engine.bidHistory.h, dealt, log, TableState())
    }

    /** CreateCBGame: a new pack dealt out in order, and nobody seated. */
    constructor ()
      ensures Shape() && fresh(roomManager) && fresh(engine) && fresh(engine.bidHistory)
      ensures fresh(engine.bidOrder) && fresh(deck) && fresh(ArraysOf(deckInPlay))
      ensures roomManager.State() == NEW_TABLE && dealt == OneSuitEach()
      ensures S.StartsDeal(State()) && S.SessionInv(State())
    {
      roomManager := new SeatRing();
      engine := new Engine();
      var pack, hands := NewDeck();
      deck, deckInPlay := pack, hands;
      declarer, dummy, lead, defender, kingSuit := 0, 0, 0, 0, 0;
      eastCard, southCard, westCard, northCard := 0, 0, 0, 0;
      roundMax, roundMin := 52, 1;
      phase, opener, dealt, log := S.Bidding, EAST, OneSuitEach(), [];
    }

    // ---------- small operations ----------

    method SetRoundAvailableRange(firstPlay: Card)
      requires HandArrays(deckInPlay)
      modifies `roundMin, `roundMax
      ensures TableState() == SetRange(old(TableState()), firstPlay)
    {
      var roundRange := GetRoundRangeByFirstPlay(firstPlay);
      roundMin := roundRange.0;
      roundMax := roundRange.1;
    }

    method SavePlayCardRecord(player: Seat, card: Slot)
      requires HandArrays(deckInPlay)
      modifies `eastCard, `southCard, `westCard, `northCard
      ensures TableState() == SaveRecord(old(TableState()), player, card)
    {
      if player == EAST {
        eastCard := card;
      } else if player == SOUTH {
        southCard := card;
      } else if player == WEST {
        westCard := card;
      } else {
        northCard := card;
      }
    }

    method ResetPlayCardRecord()
      requires HandArrays(deckInPlay)
      modifies `eastCard, `southCard, `westCard, `northCard
      ensures TableState() == ResetRecords(old(TableState()))
    {
      eastCard, westCard, northCard, southCard := 0, 0, 0, 0;
    }

    /** The card's slot is zeroed in place; the cards left are returned in order. */
    method PlayOutHandRefresh(player: Seat, card: Card) returns (refresh: seq<Slot>, cardIdx: nat)
      requires HandArrays(deckInPlay)
      modifies deckInPlay[player]
      ensures deckInPlay[player][..] == PlayOut(old(deckInPlay[player][..]), card)
      ensures refresh == Left(deckInPlay[player][..]) && cardIdx == 13
    {
      var cards := deckInPlay[player];
      refresh, cardIdx := [], 0;
      while cardIdx < cards.Length
        invariant cardIdx <= cards.Length
        invariant forall k :: 0 <= k < cardIdx ==> cards[k] == if old(cards[k]) == card then 0 else old(cards[k])
        invariant forall k :: cardIdx <= k < cards.Length ==> cards[k] == old(cards[k])
        invariant refresh == Left(cards[..cardIdx])
      {
        if cards[cardIdx] != card && cards[cardIdx] != 0 {
          refresh := refresh + [cards[cardIdx]];
        } else {
          cards[cardIdx] := 0;
        }
        assert cards[..cardIdx + 1][..cardIdx] == cards[..cardIdx];
        cardIdx := cardIdx + 1;
      }
      assert cards[..cards.Length] == cards[..];
    }

    /** One pass over the hand for the lowest and highest card that may be played, the card to play when the time runs
        out, and its position. */
    method AvailablePlayerPlayRange(player: Seat, isRoundStart: bool)
      returns (minimum: int, maximum: int, timeout: int, timeoutCardIndex: nat)
      requires HandArrays(deckInPlay)
      ensures PlayRange(minimum, maximum, timeout) == RangeFor(deckInPlay[player][..], isRoundStart, roundMin, roundMax)
      ensures timeout != 0 ==> timeoutCardIndex < 13 && deckInPlay[player][timeoutCardIndex] == timeout
    {
      var hand: array<Slot> := deckInPlay[player];
      ghost var cards: seq<Slot> := hand[..];
      ghost var lo, hi := if isRoundStart then 1 else roundMin, if isRoundStart then 52 else roundMax;
      var hitAvailable, hitFirst := false, false;
      var m: int, M: int := 53, 0;
      minimum, maximum, timeout, timeoutCardIndex := 1, 52, 0, 0;
      for i := 0 to 13
        invariant timeout == FirstCard(cards, i) && (hitFirst <==> timeout != 0)
        invariant M == Highest(cards, i, lo, hi) && (hitAvailable <==> M != 0)
        invariant m == if isRoundStart then (if timeout == 0 then 53 else timeout) else Lowest(cards, i, lo, hi)
        invariant timeoutCardIndex < 13
        invariant hitFirst && !hitAvailable ==> cards[timeoutCardIndex] == timeout
        invariant hitAvailable ==> cards[timeoutCardIndex] == m
        invariant hitAvailable ==> hitFirst && m < 53
        invariant !hitAvailable ==> m == 53
        invariant isRoundStart ==> (hitAvailable <==> hitFirst)
      {
        if hand[i] == 0 {
          continue;
        }
        if !hitFirst {
          hitFirst := true;
          timeout := hand[i];
          timeoutCardIndex := i;
        }
        if !isRoundStart {
          if roundMin <= hand[i] && roundMax >= hand[i] {
            hitAvailable := true;
            if M < hand[i] {
              M := hand[i];
            }
            if m > hand[i] {
              m := hand[i];
              timeoutCardIndex := i;
            }
          }
        } else {
          hitAvailable := true;
          if m == 53 {
            m := hand[i];
            timeoutCardIndex := i;
          }
          if hand[i] > M {
            M := hand[i];
          }
        }
      }
      if hitAvailable {
        minimum := m;
        maximum := M;
        timeout := minimum;
      }
    }

    // ---------- dealing ----------

    /** The new hands, shuffled and copied into play. */
    method DealCards(swaps: Swapping)
      requires HoldsDeal(deck, dealt) && HandArrays(deckInPlay)
      modifies `dealt, deck, ArraysOf(deckInPlay)
      ensures HoldsDeal(deck, dealt) && dealt == NextDeal(old(dealt), swaps)
      ensures State() == old(State()).(deal := dealt, table := old(TableState()).(hands := dealt))
    {
      Shuffle(deck, deckInPlay, swaps, dealt);
      dealt := NextDeal(dealt, swaps);
    }

    /** The opener is drawn for a new auction. */
    method DrawOpener(randomSeat: Seat) returns (bidder: Seat)
      requires HandArrays(deckInPlay) && engine.bidOrder.Length == 4
      modifies `phase, `opener, `log, engine.bidOrder
      ensures bidder == opener == randomSeat && phase == S.Bidding && log == []
      ensures IsBidOrder(engine.bidOrder, randomSeat)
      ensures State() == old(State()).(phase := S.Bidding, opener := randomSeat, log := [])
    {
      bidder := engine.StartBid(randomSeat);
      phase, opener, log := S.Bidding, bidder, [];
    }

    /** start: deals and draws the opener. */
    method Start(swaps: Swapping, randomSeat: Seat) returns (bidder: Seat)
      requires Shape()
      modifies `phase, `opener, `dealt, `log, deck, ArraysOf(deckInPlay), engine.bidOrder
      ensures Parts() && bidder == opener == randomSeat && IsBidOrder(engine.bidOrder, randomSeat)
      ensures State() == S.NewDeal(old(State()), Brought(old(dealt), swaps, randomSeat))
    {
      DealCards(swaps);
      bidder := DrawOpener(randomSeat);
    }

    /** SendGameStart: called when the fourth player sits down, and after every settlement. The ring is turned to
        the opener. */
    method SendGameStart(swaps: Swapping, randomSeat: Seat) returns (bidder: Seat)
      requires Shape()
      modifies `phase, `opener, `dealt, `log, deck, ArraysOf(deckInPlay), engine.bidOrder, roomManager`ring
      ensures Shape() && bidder == opener == randomSeat && IsBidOrder(engine.bidOrder, randomSeat)
      ensures IsTurn(old(roomManager.ring), roomManager.ring, randomSeat)
      ensures State() == S.NewDeal(old(State()), Brought(old(dealt), swaps, randomSeat))
    {
      bidder := Start(swaps, randomSeat);
      TurnRing(bidder);
    }

    method TurnRing(seat: Seat)
      requires roomManager.Shape() && HandArrays(deckInPlay)
      modifies roomManager`ring
      ensures roomManager.Shape() && IsTurn(old(roomManager.ring), roomManager.ring, seat)
      ensures State() == old(State())
    {
      var next := roomManager.SeatShift(seat);
    }

    // ---------- the auction ----------

    /** Roles at the table when a contract is made; a suit of ZERO_SUIT clears them. */
    method SetGamePlayInfo(declarer: int, dummy: int, firstLead: int, kingSuit: int)
      modifies `declarer, `dummy, `lead, `defender, `kingSuit
      ensures this.kingSuit == kingSuit
      ensures (this.declarer, this.dummy, lead) ==
              if kingSuit == ZERO_SUIT then (SEAT_YET, SEAT_YET, SEAT_YET) else (declarer, dummy, firstLead)
      ensures defender == if IsSeat(lead) then Partner(lead) else SEAT_YET
    {
      this.kingSuit := kingSuit;
      if kingSuit == ZERO_SUIT {
        this.declarer, this.dummy, lead := SEAT_YET, SEAT_YET, SEAT_YET;
      } else {
        this.declarer, this.dummy, lead := declarer, dummy, firstLead;
      }
      if lead == EAST {
        defender := WEST;
      } else if lead == SOUTH {
        defender := NORTH;
      } else if lead == WEST {
        defender := EAST;
      } else if lead == NORTH {
        defender := SOUTH;
      } else {
        defender := SEAT_YET;
      }
    }

    /** setEnginePlayer. */
    method SetEnginePlayer(player: Seat)
      requires HandArrays(deckInPlay)
      modifies engine`currentPlay
      ensures engine.currentPlay == player
      ensures State() == old(State()).(table := old(TableState()).(currentPlay := player))
    {
      engine.SetCurrentSeat(player);
    }

    /** The history is cleared. */
    method ClearBidding()
      requires HandArrays(deckInPlay)
      modifies engine.bidHistory
      ensures engine.bidHistory.Valid() && engine.bidHistory.h == []
      ensures State() == old(State()).(h := [])
    {
      engine.ClearBiddingState();
    }

    /** The ring is turned to a seat, and the engine set to the seat after it. */
    method PassOn(seat: Seat) returns (next: Seat)
      requires roomManager.Shape() && HandArrays(deckInPlay)
      modifies engine`currentPlay, roomManager`ring
      ensures roomManager.Shape() && next == engine.currentPlay && IsTurn(old(roomManager.ring), roomManager.ring, seat)
      ensures TableState() == old(TableState()).(currentPlay := Next(seat))
    {
      next := roomManager.SeatShift(seat);
      SetEnginePlayer(next);
    }

    /** The auction goes on with the next seat. */
    method PassCallOn(zone: Seat, ghost brought: S.Fresh) returns (next: Seat)
      requires Shape()
      requires |State().h| > 0 && !Complete(State().h) && zone == State().h[|State().h| - 1].bidder
      modifies engine`currentPlay, roomManager`ring
      ensures Parts() && next == Next(zone) && IsTurn(old(roomManager.ring), roomManager.ring, zone)
      ensures State() == S.Decide(old(State()), brought)
    {
      next := PassOn(zone);
    }

    /** Four passes: the history is cleared, the cards are dealt again, and a new opener is drawn. */
    method DealAgain(swaps: Swapping, randomSeat: Seat) returns (bidder: Seat)
      requires Shape()
      modifies `phase, `opener, `dealt, `log, deck, ArraysOf(deckInPlay), roomManager`ring
      modifies engine`currentPlay, engine.bidOrder, engine.bidHistory
      ensures Parts() && bidder == opener == randomSeat && IsBidOrder(engine.bidOrder, randomSeat)
      ensures IsTurn(old(roomManager.ring), roomManager.ring, randomSeat)
      ensures var u := S.NewDeal(old(State()).(h := []), Brought(old(dealt), swaps, randomSeat));
              State() == u.(table := u.table.(currentPlay := opener))
    {
      ClearBidding();
      bidder := SendGameStart(swaps, randomSeat);
      SetEnginePlayer(bidder);
    }

    /** The history is cleared, the ring turned to the leader, and the engine set one seat past it. */
    method CloseAuction(leader: Seat)
      requires roomManager.Shape() && HandArrays(deckInPlay)
      modifies `phase, `log, engine`currentPlay, engine.bidHistory, roomManager`ring
      ensures roomManager.Shape() && engine.bidHistory.Valid()
      ensures IsTurn(old(roomManager.ring), roomManager.ring, leader)
      ensures State() == old(State()).(phase := S.Playing, h := [], log := [],
                                       table := old(TableState()).(currentPlay := Next(leader)))
    {
      phase, log := S.Playing, [];
      ClearBidding();
      var next := PassOn(leader);
    }

    /** The result of the auction goes to the engine and the table. */
    method TakeContract() returns (info: PlayInfo)
      requires engine.Valid() && HandArrays(deckInPlay)
      requires Complete(engine.bidHistory.h) && !NeedReBid(engine.bidHistory.h)
      modifies `declarer, `dummy, `lead, `defender, `kingSuit, engine
      ensures BasisAt(engine.bidHistory.h) < |engine.bidHistory.h| && info == Outcome(engine.bidHistory.h)
      ensures info.suit != ZERO_SUIT && lead == info.lead
      ensures engine.declarer == info.declarer && engine.dummy == info.dummy
      ensures TableState() == S.Contracted(old(TableState()), info).(currentPlay := info.lead)
    {
      info := engine.GameStartPlayInfo();
      SetGamePlayInfo(info.declarer, info.dummy, info.lead, info.suit);
    }

    /** A contract: its roles are taken over, and the auction is closed. */
    method BeginPlay() returns (info: PlayInfo)
      requires roomManager.Shape() && engine.Valid() && HandArrays(deckInPlay)
      requires Complete(engine.bidHistory.h) && !NeedReBid(engine.bidHistory.h)
      modifies `declarer, `dummy, `lead, `defender, `kingSuit, `phase, `log
      modifies engine, engine.bidHistory, roomManager`ring
      ensures roomManager.Shape() && engine.bidHistory.Valid()
      ensures BasisAt(old(engine.bidHistory.h)) < |old(engine.bidHistory.h)|
      ensures info == Outcome(old(engine.bidHistory.h)) && lead == info.lead
      ensures IsTurn(old(roomManager.ring), roomManager.ring, info.lead)
      ensures State() == S.PlayFrom(old(State()), info)
    {
      info := TakeContract();
      CloseAuction(info.lead);
    }

    /** The notice to whoever is to act next. */
    method NextNotice(nextPlayer: Seat, isRoundStart: bool, numOfCardPlayHitting: nat) returns (notice: PlayNotice)
      requires HandArrays(deckInPlay)
      requires numOfCardPlayHitting > 0 && nextPlayer == DueSeat(TableState(), numOfCardPlayHitting - 1)
      requires isRoundStart <==> (numOfCardPlayHitting - 1) % 4 == 0
      ensures NoticeFits(notice, TableState(), numOfCardPlayHitting - 1)
    {
      var (nextRealPlaySeat, isPlayAgent) := if nextPlayer == dummy then (declarer, true) else (nextPlayer, false);
      var minimum, maximum, timeout, idx := AvailablePlayerPlayRange(nextPlayer, isRoundStart);
      notice := PlayNotice(nextRealPlaySeat, isPlayAgent, PlayRange(minimum, maximum, timeout), numOfCardPlayHitting);
    }

    /** A new deal is announced to its opener. */
    method ReplyNewDeal(swaps: Swapping, randomSeat: Seat) returns (reply: BidReply)
      requires Shape() && NeedReBid(State().h)
      modifies `phase, `opener, `dealt, `log, deck, ArraysOf(deckInPlay), roomManager`ring
      modifies engine`currentPlay, engine.bidOrder, engine.bidHistory
      ensures Parts() && reply == NewDeal(randomSeat) && IsBidOrder(engine.bidOrder, randomSeat)
      ensures IsTurn(old(roomManager.ring), roomManager.ring, randomSeat)
      ensures State() == S.Decide(old(State()), Brought(old(dealt), swaps, randomSeat))
      ensures ReplyFits(reply, old(State()).h, State())
    {
      var bidder := DealAgain(swaps, randomSeat);
      reply := NewDeal(bidder);
    }

    /** The contract is announced, and the leader is told what may be led. */
    method ReplyContract(ghost brought: S.Fresh) returns (reply: BidReply)
      requires Shape()
      requires Complete(State().h) && !NeedReBid(State().h)
      modifies `declarer, `dummy, `lead, `defender, `kingSuit, `phase, `log
      modifies engine, engine.bidHistory, roomManager`ring
      ensures Parts() && reply.PlayBegins?
      ensures TurnedAfterCall(reply, EAST, old(roomManager.ring), roomManager.ring)
      ensures State() == S.Decide(old(State()), brought)
      ensures ReplyFits(reply, old(State()).h, State())
    {
      var info := BeginPlay();
      var notice := NextNotice(info.lead, true, 1);
      reply := PlayBegins(info, notice);
    }

    /** What follows a call just recorded. */
    method AnswerCall(zone: Seat, limit: Call, db: DoubleButton, db2: DoubleButton,
                      swaps: Swapping, randomSeat: Seat)
      returns (reply: BidReply)
      requires Shape() && |State().h| > 0 && zone == State().h[|State().h| - 1].bidder
      requires limit == StandingBid(State().h) && (db, db2) == ButtonsAfter(State().h)
      modifies this, engine, engine.bidHistory, engine.bidOrder, deck, ArraysOf(deckInPlay), roomManager`ring
      ensures Parts()
      ensures reply.NewDeal? ==> IsBidOrder(engine.bidOrder, randomSeat)
      ensures TurnedAfterCall(reply, zone, old(roomManager.ring), roomManager.ring)
      ensures State() == S.Decide(old(State()), Brought(old(dealt), swaps, randomSeat))
      ensures ReplyFits(reply, old(State()).h, State())
    {
      var complete, needReBid := engine.bidHistory.IsBidFinishedOrReBid();
      if !complete {
        var next := PassCallOn(zone, Brought(dealt, swaps, randomSeat));
        reply := NextCall(next, limit, db, db2);
      } else if needReBid {
        reply := ReplyNewDeal(swaps, randomSeat);
      } else {
        reply := ReplyContract(Brought(dealt, swaps, randomSeat));
      }
    }

    /** A client's call, whoever sends it and whatever it is. */
    method GamePrivateNotyBid(zone: Seat, bid: Call, swaps: Swapping, randomSeat: Seat) returns (reply: BidReply)
      requires Shape()
      modifies this, engine, engine.bidHistory, engine.bidOrder, deck, ArraysOf(deckInPlay), roomManager`ring
      ensures Shape()
      ensures reply.NewDeal? ==> IsBidOrder(engine.bidOrder, randomSeat)
      ensures TurnedAfterCall(reply, zone, old(roomManager.ring), roomManager.ring)
      ensures State() == S.CallStep(old(State()), zone, bid, Brought(old(dealt), swaps, randomSeat))
      ensures ReplyFits(reply, S.Called(old(State()), zone, bid).h, State())
    {
      ghost var before := State();
      var limit, db, db2 := engine.GetNextBid(zone, bid);
      assert State() == S.Called(before, zone, bid);
      reply := AnswerCall(zone, limit, db, db2, swaps, randomSeat);
    }

    // ---------- the play ----------

    /** The effect of PlayOutHandRefresh on the table. */
    method TakeFromHand(playSeat: Seat, card: Card) returns (refresh: seq<Slot>)
      requires HandArrays(deckInPlay)
      modifies deckInPlay[playSeat]
      ensures var t := old(TableState());
              State() == old(State()).(table := t.(hands := t.hands[playSeat := PlayOut(t.hands[playSeat], card)]))
      ensures refresh == Left(deckInPlay[playSeat][..])
    {
      var cardIdx;
      refresh, cardIdx := PlayOutHandRefresh(playSeat, card);
    }

    /** The card goes on record; the card led first sets the range of the round. */
    method RecordCard(playSeat: Seat, card: Card, hitting: nat)
      requires HandArrays(deckInPlay)
      modifies `log, `roundMin, `roundMax, `eastCard, `southCard, `westCard, `northCard
      ensures var t := if hitting % 4 == 1 then SetRange(old(TableState()), card) else old(TableState());
              State() == old(State()).(log := old(log) + [Play(playSeat, card)], table := SaveRecord(t, playSeat, card))
    {
      log := log + [Play(playSeat, card)];
      if hitting % 4 == 1 {
        SetRoundAvailableRange(card);
      }
      SavePlayCardRecord(playSeat, card);
    }

    /** The card goes on record and leaves the hand. */
    method PutCardOnTable(playSeat: Seat, card: Card, hitting: nat) returns (refresh: seq<Slot>)
      requires HandArrays(deckInPlay)
      modifies `log, `roundMin, `roundMax, `eastCard, `southCard, `westCard, `northCard, deckInPlay[playSeat]
      ensures State() == old(State()).(log := old(log) + [Play(playSeat, card)],
                                       table := PutCard(old(TableState()), hitting, Play(playSeat, card)))
      ensures refresh == Left(deckInPlay[playSeat][..])
    {
      RecordCard(playSeat, card, hitting);
      refresh := TakeFromHand(playSeat, card);
    }

    /** The fourth card of a round: the trick is resolved and the table cleared. */
    method ResolveTrick(playSeat: Seat) returns (nextPlayer: Seat)
      requires HandArrays(deckInPlay) && Resolvable(TableState(), playSeat)
      modifies `eastCard, `southCard, `westCard, `northCard, engine`currentPlay
      ensures nextPlayer == engine.currentPlay
      ensures TableState() == PassTurn(old(TableState()), 4, playSeat)
    {
      SetEnginePlayer(playSeat);
      nextPlayer := engine.GetPlayResult(eastCard, southCard, westCard, northCard, kingSuit);
      ResetPlayCardRecord();
    }

    /** The turn passes to the winner of a finished trick, and clockwise within one. */
    method PassTurnOn(playSeat: Seat, hitting: nat) returns (nextPlayer: Seat)
      requires roomManager.Shape() && HandArrays(deckInPlay)
      requires hitting % 4 == 0 ==> Resolvable(TableState(), playSeat)
      modifies `eastCard, `southCard, `westCard, `northCard, engine`currentPlay, roomManager`ring
      ensures roomManager.Shape() && nextPlayer == engine.currentPlay
      ensures TurnedAfterCard(hitting, playSeat, old(roomManager.ring), roomManager.ring)
      ensures State() == old(State()).(table := PassTurn(old(TableState()), hitting, playSeat))
    {
      if hitting % 4 == 0 {
        nextPlayer := ResolveTrick(playSeat);
      } else {
        nextPlayer := PassOn(playSeat);
      }
    }

    /** The opening lead takes the steps of a later card in another order. */
    method LeadCard(leader: Seat, card: Card) returns (nextPlayer: Seat)
      requires roomManager.Shape() && HandArrays(deckInPlay)
      modifies `log, `roundMin, `roundMax, `eastCard, `southCard, `westCard, `northCard, deckInPlay[leader]
      modifies engine`currentPlay, roomManager`ring
      ensures roomManager.Shape() && nextPlayer == engine.currentPlay
      ensures IsTurn(old(roomManager.ring), roomManager.ring, leader)
      ensures State() == S.CardAt(old(State()), 1, Play(leader, card))
    {
      nextPlayer := TakeLead(leader, card);
      RecordLead(leader, card);
    }

    /** The card led leaves the hand, and the turn passes. */
    method TakeLead(leader: Seat, card: Card) returns (nextPlayer: Seat)
      requires roomManager.Shape() && HandArrays(deckInPlay)
      modifies deckInPlay[leader], engine`currentPlay, roomManager`ring
      ensures roomManager.Shape() && nextPlayer == engine.currentPlay
      ensures IsTurn(old(roomManager.ring), roomManager.ring, leader)
      ensures var t := old(TableState());
              State() == old(State()).(table := t.(hands := t.hands[leader := PlayOut(t.hands[leader], card)],
                                                   currentPlay := Next(leader)))
    {
      nextPlayer := roomManager.SeatShift(leader);
      var refresh := TakeFromHand(leader, card);
      SetEnginePlayer(nextPlayer);
    }

    /** A card led goes on record and sets the range of the round. */
    method RecordLead(leader: Seat, card: Card)
      requires HandArrays(deckInPlay)
      modifies `log, `roundMin, `roundMax, `eastCard, `southCard, `westCard, `northCard
      ensures State() == old(State()).(log := old(log) + [Play(leader, card)],
                                       table := SetRange(SaveRecord(old(TableState()), leader, card), card))
    {
      log := log + [Play(leader, card)];
      SavePlayCardRecord(leader, card);
      SetRoundAvailableRange(card);
    }

    /** The opening lead, recorded, and the notice that follows it. */
    method LeadAndNotify(leader: Seat, card: Card) returns (notice: PlayNotice)
      requires roomManager.Shape() && HandArrays(deckInPlay)
      modifies `log, `roundMin, `roundMax, `eastCard, `southCard, `westCard, `northCard, deckInPlay[leader]
      modifies engine`currentPlay, roomManager`ring
      ensures roomManager.Shape() && IsTurn(old(roomManager.ring), roomManager.ring, leader)
      ensures State() == S.CardAt(old(State()), 1, Play(leader, card))
      ensures NoticeFits(notice, TableState(), 1)
    {
      var nextPlayer := LeadCard(leader, card);
      notice := NextNotice(nextPlayer, false, 2);
    }

    /** The opening lead. A lead by anyone but the leader is ignored; one repeated by the leader is taken for a lead
        again. */
    method GamePrivateFirstLead(zone: Seat, card: Card, numOfCardPlayHitting: nat) returns (reply: CardReply)
      requires roomManager.Shape() && HandArrays(deckInPlay)
      requires zone == lead ==> numOfCardPlayHitting == 1
      modifies `log, `roundMin, `roundMax, `eastCard, `southCard, `westCard, `northCard, deckInPlay[zone]
      modifies engine`currentPlay, roomManager`ring
      ensures roomManager.Shape() && (reply.Refused? <==> zone != lead)
      ensures !reply.Refused? ==> State() == S.CardAt(old(State()), 1, Play(zone, card))
      ensures !reply.Refused? ==> reply.NextCard? && NoticeFits(reply.notice, TableState(), 1)
      ensures reply.Refused? ==> roomManager.ring == old(roomManager.ring)
      ensures !reply.Refused? ==> IsTurn(old(roomManager.ring), roomManager.ring, zone)
      ensures reply.Refused? ==> State() == old(State())
    {
      if zone != lead {
        return Refused;
      }
      var notice := LeadAndNotify(zone, card);
      reply := NextCard(notice);
    }

    /** A later card: one step of the session. */
    method PlayCard(playSeat: Seat, card: Card, numOfCardPlayHitting: nat) returns (nextPlayer: Seat)
      requires roomManager.Shape() && HandArrays(deckInPlay)
      requires Fits(TableState(), numOfCardPlayHitting, Play(playSeat, card))
      modifies `log, `roundMin, `roundMax, `eastCard, `southCard, `westCard, `northCard, deckInPlay[playSeat]
      modifies engine`currentPlay, roomManager`ring
      ensures roomManager.Shape() && nextPlayer == engine.currentPlay
      ensures TurnedAfterCard(numOfCardPlayHitting, playSeat, old(roomManager.ring), roomManager.ring)
      ensures State() == S.CardAt(old(State()), numOfCardPlayHitting, Play(playSeat, card))
    {
      var refresh := PutCardOnTable(playSeat, card, numOfCardPlayHitting);
      nextPlayer := PassTurnOn(playSeat, numOfCardPlayHitting);
    }

    /** A card, recorded, and the notice that follows it. */
    method PlayAndNotify(playSeat: Seat, card: Card, numOfCardPlayHitting: nat) returns (notice: PlayNotice)
      requires roomManager.Shape() && HandArrays(deckInPlay) && numOfCardPlayHitting > 0
      requires Fits(TableState(), numOfCardPlayHitting, Play(playSeat, card))
      modifies `log, `roundMin, `roundMax, `eastCard, `southCard, `westCard, `northCard, deckInPlay[playSeat]
      modifies engine`currentPlay, roomManager`ring
      ensures roomManager.Shape()
      ensures TurnedAfterCard(numOfCardPlayHitting, playSeat, old(roomManager.ring), roomManager.ring)
      ensures State() == S.CardAt(old(State()), numOfCardPlayHitting, Play(playSeat, card))
      ensures NoticeFits(notice, TableState(), numOfCardPlayHitting)
    {
      var nextPlayer := PlayCard(playSeat, card, numOfCardPlayHitting);
      notice := NextNotice(nextPlayer, numOfCardPlayHitting % 4 == 0, numOfCardPlayHitting + 1);
    }

    /** After the 52nd card its record is written once more, and the next deal starts. */
    method GameSettle(playSeat: Seat, card: Card, swaps: Swapping, randomSeat: Seat) returns (bidder: Seat)
      requires Shape()
      modifies `eastCard, `southCard, `westCard, `northCard
      modifies `phase, `opener, `dealt, `log, deck, ArraysOf(deckInPlay), engine.bidOrder, roomManager`ring
      ensures Parts() && bidder == opener == randomSeat && IsBidOrder(engine.bidOrder, randomSeat)
      ensures IsTurn(old(roomManager.ring), roomManager.ring, randomSeat)
      ensures State() == S.Settled(old(State()), Play(playSeat, card), Brought(old(dealt), swaps, randomSeat))
    {
      SavePlayCardRecord(playSeat, card);
      bidder := SendGameStart(swaps, randomSeat);
    }

    /** What follows a card just played. */
    method AnswerCard(zone: Seat, playSeat: Seat, card: Card, numOfCardPlayHitting: nat, notice: PlayNotice,
                      swaps: Swapping, randomSeat: Seat)
      returns (reply: CardReply)
      requires Shape() && NoticeFits(notice, TableState(), numOfCardPlayHitting)
      modifies this, roomManager`ring, deck, ArraysOf(deckInPlay), engine.bidOrder
      ensures Parts() && (reply.Refused? <==> playSeat == old(dummy) && zone != old(declarer))
      ensures reply.DealOver? <==> !reply.Refused? && numOfCardPlayHitting == 52
      ensures reply.DealOver? ==> IsBidOrder(engine.bidOrder, randomSeat)
      ensures TurnedAfterReply(reply, 0, playSeat, randomSeat, old(roomManager.ring), roomManager.ring)
      ensures State() == if reply.DealOver?
                         then S.Settled(old(State()), Play(playSeat, card), Brought(old(dealt), swaps, randomSeat))
                         else old(State())
      ensures CardReplyFits(reply, numOfCardPlayHitting, State())
    {
      if playSeat == dummy && zone != declarer {
        return Refused;
      }
      if numOfCardPlayHitting != 52 {
        return NextCard(notice);
      }
      var bidder := GameSettle(playSeat, card, swaps, randomSeat);
      reply := DealOver(bidder);
    }

    /** Every later card, from whatever hand and whoever sends it, under the number the client sends. Only one sender is
        looked at: a card of dummy not sent by declarer is refused, but after it has been played. Nobody is told then,
        and if it was the last card the deal is not settled. */
    method GamePrivateCardPlayClick(zone: Seat, playSeat: Seat, card: Card, numOfCardPlayHitting: nat,
                                    swaps: Swapping, randomSeat: Seat)
      returns (reply: CardReply)
      requires Shape() && numOfCardPlayHitting > 0
      requires Fits(TableState(), numOfCardPlayHitting, Play(playSeat, card))
      modifies this, engine`currentPlay, roomManager`ring, deck, ArraysOf(deckInPlay), engine.bidOrder
      ensures Shape()
      ensures reply.Refused? <==> playSeat == old(dummy) && zone != old(declarer)
      ensures reply.DealOver? <==> !reply.Refused? && numOfCardPlayHitting == 52
      ensures reply.DealOver? ==> IsBidOrder(engine.bidOrder, randomSeat)
      ensures TurnedAfterReply(reply, numOfCardPlayHitting, playSeat, randomSeat,
                               old(roomManager.ring), roomManager.ring)
      ensures var p, next := Play(playSeat, card), Brought(old(dealt), swaps, randomSeat);
              !reply.Refused? ==> State() == S.PlayStepAt(old(State()), numOfCardPlayHitting, p, next)
      ensures reply.Refused? ==> State() == S.CardAt(old(State()), numOfCardPlayHitting, Play(playSeat, card))
      ensures CardReplyFits(reply, numOfCardPlayHitting, State())
    {
      ghost var r0 := roomManager.ring;
      var notice := PlayAndNotify(playSeat, card, numOfCardPlayHitting);
      ghost var r1 := roomManager.ring;
      reply := AnswerCard(zone, playSeat, card, numOfCardPlayHitting, notice, swaps, randomSeat);
      TurnedOnce(reply, numOfCardPlayHitting, playSeat, randomSeat, r0, r1, roomManager.ring);
    }
  }

  /** A call leaves the ring turned to the caller, or to the opener of the new deal, or to the opening leader. */
  ghost predicate TurnedAfterCall(reply: BidReply, zone: Seat, before: seq<TablePlayer>, after: seq<TablePlayer>) {
    match reply
    case NextCall(_, _, _, _) => IsTurn(before, after, zone)
    case NewDeal(opener) => IsTurn(before, after, opener)
    case PlayBegins(info, _) => info.PlayInfo? && IsTurn(before, after, info.lead)
  }

  /** A card leaves the ring turned to the seat it was played from, but the fourth of a round leaves it as it is. */
  ghost predicate TurnedAfterCard(number: nat, playSeat: Seat, before: seq<TablePlayer>, after: seq<TablePlayer>) {
    if number % 4 == 0 then after == before else IsTurn(before, after, playSeat)
  }

  /** When the deal is over the ring is turned to the new opener. */
  ghost predicate TurnedAfterReply(reply: CardReply, number: nat, playSeat: Seat, randomSeat: Seat,
                                   before: seq<TablePlayer>, after: seq<TablePlayer>)
  {
    match reply
    case DealOver(_) => IsTurn(before, after, randomSeat)
    case _ => TurnedAfterCard(number, playSeat, before, after)
  }

  lemma TurnedOnce(reply: CardReply, number: nat, playSeat: Seat, randomSeat: Seat,
                   r0: seq<TablePlayer>, r1: seq<TablePlayer>, r2: seq<TablePlayer>)
    requires TurnedAfterCard(number, playSeat, r0, r1) && TurnedAfterReply(reply, 0, playSeat, randomSeat, r1, r2)
    requires reply.DealOver? ==> number == 52
    ensures TurnedAfterReply(reply, number, playSeat, randomSeat, r0, r2)
  {
  }

  /** What chance brings to a table that was last dealt `last`: the deal its swaps make, and the opener drawn. */
  ghost function Brought(last: FullDeal, swaps: Swapping, randomSeat: Seat): S.Fresh {
    S.Fresh(NextDeal(last, swaps), randomSeat)
  }

  /** The trick on the table can be resolved: four different cards, and the trump range of the contract. */
  ghost predicate Resolvable(t: Table, last: Seat) {
    TableTrick(t, last) != [] && CLUB <= t.kingSuit <= TRUMP && t.trumpRange == GetTrumpRange(t.kingSuit)
  }

  /** A card that, if it is the last of a round, makes a trick that can be resolved. */
  ghost predicate Fits(t: Table, number: nat, p: Play) {
    p.seat in t.hands && (number % 4 == 0 ==> Resolvable(PutCard(t, number, p), p.seat))
  }

  /** The answer to a card tells the state the table is in: whose card is due and in which range, or who opens the
      new deal. */
  ghost predicate CardReplyFits(reply: CardReply, number: nat, s: S.Session) {
    match reply
    case Refused => true
    case NextCard(notice) => NoticeFits(notice, s.table, number)
    case DealOver(opener) => s.phase == S.Bidding && s.log == [] && opener == s.opener
  }

  /** The notice due after n plays: the player to act for the seat whose card is due, the range for that seat, and
      the number to echo. */
  ghost predicate NoticeFits(notice: PlayNotice, t: Table, n: nat) {
    var seat := DueSeat(t, n);
    && IsSeat(seat) && seat in t.hands
    && var (actor, isAgent) := PlayTurn(t, seat);
       notice == PlayNotice(actor, isAgent, NotifiedRange(t, n, seat), n + 1)
  }

  /** A card that keeps to the notices is playable: when the fourth of a trick comes, the records and the trump
      range are what the resolver needs. */
  lemma TrickIsReady(s: S.Session, p: Play)
    requires S.InPlay(s) && s.phase == S.Playing && S.Keeps(s, S.Card(p))
    ensures Fits(s.table, |s.log| + 1, p)
  {
    NoticeIffLegal(S.BoardOf(s), s.log, s.table, p);
    PutCardChanges(s.table, |s.log| + 1, p);
    if |s.log| % 4 == 3 {
      RecordsAreTheTrick(S.BoardOf(s), s.log, s.table, p, PutCard(s.table, |s.log| + 1, p));
    }
  }

  /** The reply to the last call of an auction tells the players the state the table is in: whose call it is and what is
      offered, or who opens the new deal, or the contract the auction determines, who leads, and what may be led. */
  ghost predicate ReplyFits(reply: BidReply, auction: History, s: S.Session) {
    match reply
    case NextCall(bidder, limit, db, db2) =>
      s.h == auction && bidder == S.DueCaller(s)
      && limit == StandingBid(s.h) && (db, db2) == ButtonsAfter(s.h)
    case NewDeal(opener) => S.StartsDeal(s) && opener == S.DueCaller(s)
    case PlayBegins(info, notice) =>
      s.phase == S.Playing && BasisAt(auction) < |auction| && info == Outcome(auction)
      && s.log == [] && NoticeFits(notice, s.table, 0)
  }
}
