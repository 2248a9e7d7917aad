/** Seats, calls and cards as the server encodes them in one byte, and the
    constant tables of game/entities.go. */
module Entities {

  /** A seat occupies the two high bits of a byte: east, south, west, north in clockwise order. */
  type Seat = s: int | s == 0 || s == 64 || s == 128 || s == 192

  const EAST: Seat := 0
  const SOUTH: Seat := 64
  const WEST: Seat := 128
  const NORTH: Seat := 192

  /** A vacant seat (the source's seatYet). */
  const SEAT_YET := 255

  /** The source's valueNotSet. */
  const VALUE_NOT_SET := 0x88

  /** A call: eight consecutive values per level, in the order pass, five denominations, double, redouble. */
  type Call = v: int | 1 <= v <= 56 witness 1

  /** A card: clubs 1..13, diamonds 14..26, hearts 27..39, spades 40..52. */
  type Card = c: int | 1 <= c <= 52 witness 1

  /** A hand slot, or an on-table record: a card, or 0 once the card is gone. */
  type Slot = c: int | 0 <= c <= 52

  const CLUB := 0
  const DIAMOND := 1
  const HEART := 2
  const SPADE := 3
  const TRUMP := 4
  const DOUBLE := 5
  const REDOUBLE := 6
  const PASS := 7
  const ZERO_SUIT := 8

  type CardRange = (int, int)

  function Next(s: Seat): Seat {
    if s == NORTH then EAST else s + 64
  }

  /** GetPartnerByPlayerSeat. */
  function Partner(s: Seat): Seat {
    if s == EAST then WEST
    else if s == SOUTH then NORTH
    else if s == WEST then EAST
    else SOUTH
  }

  predicate SameSide(s: Seat, t: Seat) {
    s == t || s == Partner(t)
  }

  lemma SeatsGoRound(s: Seat)
    ensures Next(Next(s)) == Partner(s)
    ensures Next(Next(Next(Next(s)))) == s
    ensures forall t: Seat {:trigger SameSide(t, s)} ::
              t == s || t == Next(s) || t == Partner(s) || t == Next(Partner(s))
  {
  }

  /** The denomination of a call: the table seatBiddingMapperSuit, which does not depend on the seat. */
  function SuitOf(v: Call): (suit: int)
    ensures 0 <= suit <= 7
  {
    (v + 6) % 8
  }

  /** The byte operations seat|value and raw&mask are addition and its inverse on the encodings used:
      a seat has its low six bits clear, a value its two high bits. */
  lemma PackingIsAddition(seat: bv8, value: bv8)
    requires seat & 0x3F == 0 && value & 0xC0 == 0
    ensures seat | value == seat + value
    ensures (seat | value) & 0xC0 == seat
    ensures (seat | value) & 0x3F == value
  {
  }

  function GetTrumpRange(suit: int): CardRange {
    if suit == CLUB then (1, 13)
    else if suit == DIAMOND then (14, 26)
    else if suit == HEART then (27, 39)
    else if suit == SPADE then (40, 52)
    else if suit == TRUMP then (1, 52)
    else (ZERO_SUIT, ZERO_SUIT)
  }

  function GetRoundRangeByFirstPlay(first: Slot): CardRange {
    if first < 14 then (1, 13)
    else if 13 < first && first < 27 then (14, 26)
    else if 26 < first && first < 40 then (27, 39)
    else (40, 52)
  }

  /** The suit of a card, numbered like the denominations of the contract. */
  function CardSuit(c: Card): (suit: int)
    ensures 0 <= suit <= 3
  {
    (c - 1) / 13
  }

  predicate InRange(c: int, r: CardRange) {
    r.0 <= c && c <= r.1
  }

  /** Both range tables pick out exactly the cards of one suit; for a no-trump contract the "trump" range is every
      card. */
  lemma RangesAreSuits(led: Card, c: Card, suit: int)
    ensures InRange(c, GetRoundRangeByFirstPlay(led)) <==> CardSuit(c) == CardSuit(led)
    ensures CLUB <= suit <= TRUMP ==> (InRange(c, GetTrumpRange(suit)) <==> suit == TRUMP || CardSuit(c) == suit)
    ensures !(CLUB <= suit <= TRUMP) ==> (InRange(c, GetTrumpRange(suit)) <==> c == 8)
  {
  }
}
