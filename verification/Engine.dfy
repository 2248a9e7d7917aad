/** game/engine.go: the rules engine of one table, with its bidding order, trump range and current player. */
module Engines {
  import opened Entities
  import opened BidManager
  import opened Auction
  import opened PlayLaws

  predicate IsSeat(x: int) {
    x == EAST || x == SOUTH || x == WEST || x == NORTH
  }

  function CardOf(east: Slot, south: Slot, west: Slot, north: Slot, s: Seat): Slot {
    if s == EAST then east else if s == SOUTH then south else if s == WEST then west else north
  }

  predicate AllPlayed(east: Slot, south: Slot, west: Slot, north: Slot) {
    && east != 0 && south != 0 && west != 0 && north != 0
    && east != south && east != west && east != north && south != west && south != north && west != north
  }

  /** The four cards on the table as a trick, when `last` was the last to play. */
  function TrickOf(east: Slot, south: Slot, west: Slot, north: Slot, last: Seat): (ps: seq<Play>)
    requires AllPlayed(east, south, west, north)
    ensures |ps| == 4
  {
    var a, b, c := Next(last), Next(Next(last)), Next(Next(Next(last)));
    [Play(a, CardOf(east, south, west, north, a)), Play(b, CardOf(east, south, west, north, b)),
     Play(c, CardOf(east, south, west, north, c)), Play(last, CardOf(east, south, west, north, last))]
  }

  lemma TrickOfCards(east: Card, south: Card, west: Card, north: Card, last: Seat)
    requires AllPlayed(east, south, west, north)
    ensures var ps := TrickOf(east, south, west, north, last);
            && (forall i, j :: 0 <= i < j < 4 ==> ps[i].card != ps[j].card)
            && (forall i :: 0 <= i < 4 ==> ps[i].card == CardOf(east, south, west, north, ps[i].seat))
            && (forall s: Seat :: Play(s, CardOf(east, south, west, north, s)) in ps)
  {
  }

  /** Which seat played the winning card: the last switch of both resolvers. */
  function SeatOfCard(win: Slot, east: Slot, south: Slot, west: Slot, north: Slot): (s: Seat)
    ensures win in [east, south, west, north] ==> CardOf(east, south, west, north, s) == win
  {
    if win == east then EAST else if win == south then SOUTH else if win == west then WEST
    else if win == north then NORTH else EAST
  }

  /** The order of calls: from the opener clockwise. */
  ghost predicate IsBidOrder(order: array<int>, opener: Seat)
    reads order
  {
    order.Length == 4
    && (order[0], order[1], order[2], order[3]) == (opener, Next(opener), Partner(opener), Next(Partner(opener)))
  }

  class Engine {
    const bidHistory: BidHistory
    const bidOrder: array<int>
    var trumpRange: CardRange
    var declarer: int
    var dummy: int
    var currentPlay: int

    ghost predicate Valid()
      reads bidHistory
    {
      bidOrder.Length == 4 && bidHistory.Valid()
    }

    constructor ()
      ensures Valid() && fresh(bidHistory) && fresh(bidOrder)
      ensures bidHistory.h == [] && trumpRange == (0, 0)
      ensures declarer == dummy == SEAT_YET && currentPlay == bidOrder[0] == VALUE_NOT_SET
    {
      bidHistory := new BidHistory();
      bidOrder := new int[4](i => if i == 0 then VALUE_NOT_SET else 0);
      trumpRange := (0, 0);
      declarer := SEAT_YET;
      dummy := SEAT_YET;
      currentPlay := VALUE_NOT_SET;
    }

    method SetCurrentSeat(seat: Seat)
      modifies `currentPlay
      ensures currentPlay == seat
    {
      currentPlay := seat;
    }

    method ClearBiddingState()
      modifies bidHistory
      ensures bidHistory.Valid() && bidHistory.h == [] && bidHistory.clock == old(bidHistory.clock)
    {
      bidHistory.Clear();
    }

    /** The opener is drawn at random; the order of calls goes round the table from there. */
    method StartBid(randomSeat: Seat) returns (nextBidder: Seat)
      requires bidOrder.Length == 4
      modifies bidOrder
      ensures nextBidder == randomSeat && IsBidOrder(bidOrder, randomSeat)
    {
      nextBidder := randomSeat;
      bidOrder[0] := nextBidder;
      if nextBidder == EAST {
        bidOrder[1], bidOrder[2], bidOrder[3] := SOUTH, WEST, NORTH;
      } else if nextBidder == SOUTH {
        bidOrder[1], bidOrder[2], bidOrder[3] := WEST, NORTH, EAST;
      } else if nextBidder == WEST {
        bidOrder[1], bidOrder[2], bidOrder[3] := NORTH, EAST, SOUTH;
      } else {
        bidOrder[1], bidOrder[2], bidOrder[3] := EAST, SOUTH, WEST;
      }
    }

    /** Records a call and works out what the next caller is offered. */
    method GetNextBid(seat: Seat, bid: Call) returns (nextBiddingLimit: Call, db: DoubleButton, db2: DoubleButton)
      requires Valid()
      modifies bidHistory
      ensures Valid()
      ensures bidHistory.h == old(bidHistory.h) + [CreateBidItem(seat, bid, old(bidHistory.clock) + 1)]
      ensures bidHistory.clock == old(bidHistory.clock) + 1
      ensures nextBiddingLimit == StandingBid(bidHistory.h)
      ensures (db, db2) == ButtonsAfter(bidHistory.h)
    {
      var bidding := bidHistory.Bid(seat, bid);
      nextBiddingLimit := bidHistory.LastBid();
      db, db2 := DoubleButton(0, false), DoubleButton(0, false);
      CallKinds(bidding);
      if IsCrucial(bidding) {
        var (d, r) := GetDoubleAtSameLine(bid);
        db, db2 := DoubleButton(d, false), DoubleButton(r, false);
        if IsDouble(bidding) {
          if bidding.dbType == DOUBLE {
            db2 := db2.(isOn := true);
          }
        } else {
          db := db.(isOn := true);
        }
      }
    }

    /** Takes the result of the auction into the engine; an unfinished auction leaves it as it was. */
    method GameStartPlayInfo() returns (info: PlayInfo)
      requires Valid()
      modifies this
      ensures info.NoContract? <==> !Complete(bidHistory.h) || NeedReBid(bidHistory.h)
      ensures info.NoContract? ==> unchanged(this)
      ensures info.PlayInfo? ==> BasisAt(bidHistory.h) < |bidHistory.h| && info == Outcome(bidHistory.h)
      ensures info.PlayInfo? ==>
                && trumpRange == GetTrumpRange(info.suit) && currentPlay == info.lead
                && declarer == info.declarer && dummy == info.dummy
    {
      info := bidHistory.GameStartPlayInfo();
      if info.PlayInfo? {
        trumpRange := GetTrumpRange(info.suit);
        currentPlay := info.lead;
        declarer := info.declarer;
        dummy := info.dummy;
      }
    }

    /** The card led, and the three cards that followed it. */
    method PlayOrder(east: Card, south: Card, west: Card, north: Card) returns (firstPlay: Card, flowers: seq<Card>)
      requires IsSeat(currentPlay) && AllPlayed(east, south, west, north)
      ensures |flowers| == 3
      ensures var ps := TrickOf(east, south, west, north, currentPlay);
              firstPlay == ps[0].card && forall i :: 0 <= i < 3 ==> flowers[i] == ps[i + 1].card
    {
      if currentPlay == EAST {
        firstPlay, flowers := south, [west, north, east];
      } else if currentPlay == SOUTH {
        firstPlay, flowers := west, [north, east, south];
      } else if currentPlay == WEST {
        firstPlay, flowers := north, [east, south, west];
      } else {
        firstPlay, flowers := east, [south, west, north];
      }
    }

    /** The highest card of the led suit: the loop both resolvers end in when nobody trumped. */
    static method HighestOfLedSuit(first: Card, flowers: seq<Card>, ghost ps: seq<Play>, ghost trump: int)
      returns (win: Card)
      requires |ps| == 1 + |flowers| && first == ps[0].card
      requires forall i :: 0 <= i < |flowers| ==> flowers[i] == ps[i + 1].card
      requires forall i :: 0 <= i < |ps| ==> CardSuit(ps[i].card) != trump
      requires forall i, j :: 0 <= i < j < |ps| ==> ps[i].card != ps[j].card
      ensures win == BestPlay(ps, trump).card
    {
      var playRange := GetRoundRangeByFirstPlay(first);
      win := first;
      for i := 0 to |flowers|
        invariant win == BestPlay(ps[..i + 1], trump).card && CardSuit(win) == CardSuit(first)
      {
        var card := flowers[i];
        RangesAreSuits(first, card, TRUMP);
        BestWithoutTrump(ps, i + 1, trump);
        if InRange(card, playRange) {
          if card < win {
            continue;
          }
          win := card;
        }
      }
      assert ps[..|ps|] == ps;
    }

    /** The resolver of no-trump contracts. */
    method PlayResultInTrump(east: Card, south: Card, west: Card, north: Card) returns (winner: Seat)
      requires IsSeat(currentPlay) && AllPlayed(east, south, west, north)
      ensures winner == BestPlay(TrickOf(east, south, west, north, currentPlay), TRUMP).seat
    {
      var first, flowers := PlayOrder(east, south, west, north);
      TrickOfCards(east, south, west, north, currentPlay);
      var win := HighestOfLedSuit(first, flowers, TrickOf(east, south, west, north, currentPlay), TRUMP);
      winner := SeatOfCard(win, east, south, west, north);
    }

    method TrumpsAmong(cards: seq<Card>, ghost trump: int) returns (kings: seq<Card>)
      requires CLUB <= trump <= SPADE && trumpRange == GetTrumpRange(trump)
      ensures forall c :: c in kings <==> c in cards && CardSuit(c) == trump
    {
      kings := [];
      for i := 0 to |cards|
        invariant forall c :: c in kings <==> c in cards[..i] && CardSuit(c) == trump
      {
        RangesAreSuits(cards[i], cards[i], trump);
        assert cards[..i + 1] == cards[..i] + [cards[i]];
        if InRange(cards[i], trumpRange) {
          kings := kings + [cards[i]];
        }
      }
      assert cards[..|cards|] == cards;
    }

    /** The resolver of suit contracts. */
    method PlayResultInSuit(east: Card, south: Card, west: Card, north: Card, ghost trump: int) returns (winner: Seat)
      requires IsSeat(currentPlay) && AllPlayed(east, south, west, north)
      requires CLUB <= trump <= SPADE && trumpRange == GetTrumpRange(trump)
      ensures winner == BestPlay(TrickOf(east, south, west, north, currentPlay), trump).seat
    {
      var cards := [east, south, west, north];
      var kings := TrumpsAmong(cards, trump);
      var win: Card;
      if |kings| == 1 {
        win := kings[0];
      } else if |kings| > 1 {
        win := HighestOf(kings);
      } else {
        assert east == cards[0] && south == cards[1] && west == cards[2] && north == cards[3];
        var first, flowers := PlayOrder(east, south, west, north);
        TrickOfCards(east, south, west, north, currentPlay);
        win := HighestOfLedSuit(first, flowers, TrickOf(east, south, west, north, currentPlay), trump);
      }
      winner := SeatOfCard(win, east, south, west, north);
      if kings != [] {
        HighestTrumpTakesTrick(east, south, west, north, currentPlay, trump, win);
      }
    }

    static method HighestOf(kings: seq<Card>) returns (win: Card)
      requires kings != []
      ensures win in kings && forall c :: c in kings ==> c <= win
    {
      win := kings[0];
      for i := 1 to |kings|
        invariant win in kings && forall j :: 0 <= j < i ==> kings[j] <= win
      {
        if kings[i] < win {
          continue;
        }
        win := kings[i];
      }
    }

    /** Resolves the trick; the winner becomes the current player, who leads next (Law 44G). */
    method GetPlayResult(east: Card, south: Card, west: Card, north: Card, gameSuit: int) returns (winner: Seat)
      requires IsSeat(currentPlay) && AllPlayed(east, south, west, north)
      requires CLUB <= gameSuit <= TRUMP && trumpRange == GetTrumpRange(gameSuit)
      modifies `currentPlay
      ensures winner == BestPlay(TrickOf(east, south, west, north, old(currentPlay)), gameSuit).seat
      ensures currentPlay == winner
    {
      if gameSuit == TRUMP {
        winner := PlayResultInTrump(east, south, west, north);
      } else {
        winner := PlayResultInSuit(east, south, west, north, gameSuit);
      }
      currentPlay := winner;
    }
  }

  /** Adding the next card when no trump was played: it takes over iff it is a higher card of the led suit. */
  lemma BestWithoutTrump(ps: seq<Play>, k: nat, trump: int)
    requires 1 <= k < |ps| && forall i, j :: 0 <= i < j < |ps| ==> ps[i].card != ps[j].card
    requires CardSuit(ps[k].card) != trump && CardSuit(BestPlay(ps[..k], trump).card) != trump
    ensures var best := BestPlay(ps[..k], trump);
            BestPlay(ps[..k + 1], trump) ==
            if CardSuit(ps[k].card) == CardSuit(ps[0].card)
               && (CardSuit(best.card) == CardSuit(ps[0].card) ==> ps[k].card >= best.card)
            then ps[k] else best
  {
    var q, best := ps[..k + 1], BestPlay(ps[..k], trump);
    assert q[..k] == ps[..k] && |q| == k + 1 && q[k] == ps[k] && q[0] == ps[0];
    assert best in ps[..k];
    assert BestPlay(q, trump) == if Beats(ps[k].card, best.card, CardSuit(ps[0].card), trump) then ps[k] else best;
  }

  lemma {:induction false} HighestTrumpWins(ps: seq<Play>, trump: int, w: Play)
    requires ps != [] && w in ps && CardSuit(w.card) == trump
    requires forall i, j :: 0 <= i < j < |ps| ==> ps[i].card != ps[j].card
    requires forall i :: 0 <= i < |ps| && CardSuit(ps[i].card) == trump ==> ps[i].card <= w.card
    ensures BestPlay(ps, trump) == w
  {
    BestPlayWins(ps, trump);
    forall p | p in ps && p != w ensures Beats(w.card, p.card, CardSuit(ps[0].card), trump) {
      assert p.card != w.card;
    }
  }

  lemma HighestTrumpTakesTrick(east: Card, south: Card, west: Card, north: Card, last: Seat, trump: int, win: Card)
    requires AllPlayed(east, south, west, north)
    requires win in [east, south, west, north] && CardSuit(win) == trump
    requires forall c: Card :: c in [east, south, west, north] && CardSuit(c) == trump ==> c <= win
    ensures BestPlay(TrickOf(east, south, west, north, last), trump).seat == SeatOfCard(win, east, south, west, north)
  {
    var ps := TrickOf(east, south, west, north, last);
    TrickOfCards(east, south, west, north, last);
    forall i | 0 <= i < 4 && CardSuit(ps[i].card) == trump ensures ps[i].card <= win {
      assert CardOf(east, south, west, north, ps[i].seat) in [east, south, west, north];
    }
    HighestTrumpWins(ps, trump, Play(SeatOfCard(win, east, south, west, north), win));
  }
}
