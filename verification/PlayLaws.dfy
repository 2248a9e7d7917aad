/** The play of the cards by the Laws of Duplicate Bridge (2017), Laws 41 and 44, stated without reference to the
    server: what a legal record of plays is, and what holds of every such record. */
module PlayLaws {
  import opened Entities

  datatype Play = Play(seat: Seat, card: Card)

  type Deal = map<Seat, seq<Card>>

  /** What the play of a deal depends on: the hands dealt, the opening leader and the denomination of the contract. */
  datatype Board = Board(deal: Deal, lead: Seat, trump: int)

  // ---------- one trick ----------

  /** Laws 44E and 44F: a trump beats every other suit, and only the led suit counts besides. */
  predicate Beats(a: Card, b: Card, led: int, trump: int) {
    if CardSuit(a) == trump then CardSuit(b) == trump ==> a > b
    else CardSuit(b) != trump && CardSuit(a) == led && (CardSuit(b) == led ==> a > b)
  }

  /** The best of a sequence of plays, the first of which was led. */
  function BestPlay(ps: seq<Play>, trump: int): (best: Play)
    requires ps != []
    ensures best in ps
  {
    var n := |ps| - 1;
    if n == 0 then ps[0]
    else
      var best := BestPlay(ps[..n], trump);
      if Beats(ps[n].card, best.card, CardSuit(ps[0].card), trump) then ps[n] else best
  }

  /** With distinct cards the best play beats every other one, so it is the only one to do so. */
  lemma {:induction false} BestPlayWins(ps: seq<Play>, trump: int)
    requires ps != [] && forall i, j :: 0 <= i < j < |ps| ==> ps[i].card != ps[j].card
    ensures var best, led := BestPlay(ps, trump), CardSuit(ps[0].card);
            && (CardSuit(best.card) == trump || CardSuit(best.card) == led)
            && (forall p :: p in ps && p != best ==> Beats(best.card, p.card, led, trump))
            && (forall w ::
                  w in ps && (forall p :: p in ps && p != w ==> Beats(w.card, p.card, led, trump)) ==> w == best)
  {
    var n := |ps| - 1;
    if n > 0 {
      BestPlayWins(ps[..n], trump);
      assert forall p :: p in ps ==> p in ps[..n] || p == ps[n];
    }
    var best, led := BestPlay(ps, trump), CardSuit(ps[0].card);
    forall w | w in ps && w != best && Beats(best.card, w.card, led, trump)
      ensures !Beats(w.card, best.card, led, trump)
    {
    }
  }

  /** Laws 44E and 44F in plain words: the highest trump wins if a trump was played, else the highest card of the
      suit led. */
  lemma BestPlayIsHighest(ps: seq<Play>, trump: int)
    requires ps != [] && forall i, j :: 0 <= i < j < |ps| ==> ps[i].card != ps[j].card
    ensures var best, led := BestPlay(ps, trump), CardSuit(ps[0].card);
            if exists p :: p in ps && CardSuit(p.card) == trump
            then
              CardSuit(best.card) == trump && forall p :: p in ps && CardSuit(p.card) == trump ==> p.card <= best.card
            else
              CardSuit(best.card) == led && forall p :: p in ps && CardSuit(p.card) == led ==> p.card <= best.card
  {
    BestPlayWins(ps, trump);
  }

  // ---------- a deal ----------

  predicate Increasing(s: seq<Card>) {
    forall i, j :: 0 <= i < j < |s| ==> s[i] < s[j]
  }

  /** The seat holding a card at the start. */
  ghost predicate DealtTo(d: Deal, s: Seat, c: Card) {
    s in d && c in d[s]
  }

  /** Four sorted hands of thirteen that share out the pack. */
  ghost predicate IsDeal(d: Deal) {
    && (forall s: Seat :: s in d && |d[s]| == 13 && Increasing(d[s]))
    && (forall s: Seat, t: Seat, c: Card :: DealtTo(d, s, c) && DealtTo(d, t, c) ==> s == t)
    && (forall c: Card :: Dealt(d, c))
  }

  ghost predicate Dealt(d: Deal, c: Card) {
    exists s: Seat :: DealtTo(d, s, c)
  }

  // ---------- a record of plays ----------
  // The predicates below look at the first n plays of a log.

  ghost predicate Played(log: seq<Play>, n: nat, c: Card)
    requires n <= |log|
  {
    exists i :: 0 <= i < n && log[i].card == c
  }

  /** A seat holds the cards it was dealt and has not played. */
  ghost predicate Holds(d: Deal, log: seq<Play>, n: nat, s: Seat, c: Card)
    requires n <= |log|
  {
    DealtTo(d, s, c) && !Played(log, n, c)
  }

  /** Whose card is due: the opening leader's, then clockwise, and the winner of a trick leads to the next (Law 44G). */
  function ToPlay(b: Board, log: seq<Play>, n: nat): Seat
    requires n <= |log|
  {
    if n == 0 then b.lead
    else if n % 4 == 0 then BestPlay(log[n - 4..n], b.trump).seat
    else Next(log[n - 1].seat)
  }

  lemma TurnAfter(b: Board, log: seq<Play>, p: Play)
    ensures ToPlay(b, log + [p], |log| + 1) ==
            if |log| % 4 == 3 then BestPlay(log[|log| - 3..] + [p], b.trump).seat else Next(p.seat)
  {
    if |log| % 4 == 3 {
      assert (log + [p])[|log| - 3..|log| + 1] == log[|log| - 3..] + [p];
    }
  }

  /** The card led to the trick under way. */
  function LedCard(log: seq<Play>, n: nat): Card
    requires n <= |log| && n % 4 != 0
  {
    log[n - n % 4].card
  }

  ghost predicate CanFollow(d: Deal, log: seq<Play>, n: nat, s: Seat, suit: int)
    requires n <= |log|
  {
    exists c: Card :: Holds(d, log, n, s, c) && CardSuit(c) == suit
  }

  /** Law 44C: follow suit if able; any card may be led, or discarded when unable. */
  ghost predicate LegalPlay(b: Board, log: seq<Play>, n: nat, p: Play)
    requires n <= |log|
  {
    && p.seat == ToPlay(b, log, n)
    && Holds(b.deal, log, n, p.seat, p.card)
    && (n % 4 != 0 && CanFollow(b.deal, log, n, p.seat, CardSuit(LedCard(log, n))) ==>
          CardSuit(p.card) == CardSuit(LedCard(log, n)))
  }

  ghost predicate LegalRecord(b: Board, log: seq<Play>) {
    forall k {:trigger LegalPlay(b, log, k, log[k])} :: 0 <= k < |log| ==>
      LegalPlay(b, log, k, log[k])
  }

  /** Everything above depends on the first n plays only. */
  lemma SameFirstPlays(b: Board, log: seq<Play>, g: seq<Play>, n: nat, p: Play)
    requires n <= |log| && n <= |g| && log[..n] == g[..n]
    ensures forall c :: Played(log, n, c) <==> Played(g, n, c)
    ensures ToPlay(b, log, n) == ToPlay(b, g, n)
    ensures n % 4 != 0 ==> LedCard(log, n) == LedCard(g, n)
    ensures LegalPlay(b, log, n, p) <==> LegalPlay(b, g, n, p)
  {
    assert forall i :: 0 <= i < n ==> log[i] == log[..n][i] && g[i] == g[..n][i];
    if n >= 4 {
      assert log[n - 4..n] == g[n - 4..n];
    }
    forall c ensures Played(log, n, c) <==> Played(g, n, c) { }
    if n % 4 != 0 {
      var suit := CardSuit(LedCard(log, n));
      assert CanFollow(b.deal, log, n, p.seat, suit) <==> CanFollow(b.deal, g, n, p.seat, suit) by {
        assert forall c :: Holds(b.deal, log, n, p.seat, c) <==> Holds(b.deal, g, n, p.seat, c);
      }
    }
  }

  /** Two logs with the same first n plays agree on the legality of those. */
  lemma SamePrefixSameRecord(b: Board, log: seq<Play>, g: seq<Play>, n: nat)
    requires n <= |log| && n <= |g| && log[..n] == g[..n]
    requires LegalRecord(b, log)
    ensures forall k :: 0 <= k < n ==> LegalPlay(b, g, k, g[k])
  {
    forall k | 0 <= k < n ensures LegalPlay(b, g, k, g[k]) {
      assert LegalPlay(b, log, k, log[k]);
      assert log[..n][..k] == log[..k] && g[..n][..k] == g[..k];
      assert log[k] == log[..n][k] && g[k] == g[..n][k];
      SameFirstPlays(b, log, g, k, log[k]);
    }
  }

  /** A legal record extended by p is legal iff p is a legal play. */
  lemma AppendLegal(b: Board, log: seq<Play>, p: Play)
    requires LegalRecord(b, log)
    ensures LegalRecord(b, log + [p]) <==> LegalPlay(b, log, |log|, p)
  {
    var g := log + [p];
    assert g[..|log|] == log[..|log|];
    SamePrefixSameRecord(b, log, g, |log|);
    LastPlaySame(b, log, p);
  }

  lemma LastPlaySame(b: Board, log: seq<Play>, p: Play)
    ensures var g := log + [p];
            LegalPlay(b, g, |g| - 1, g[|g| - 1]) <==> LegalPlay(b, log, |log|, p)
  {
    var g := log + [p];
    assert g[..|log|] == log[..|log|];
    SameFirstPlays(b, log, g, |log|, p);
  }

  // ---------- what every legal record keeps ----------

  /** No card is played twice, and each comes from the hand it was dealt to. */
  lemma CardsPlayedOnce(b: Board, log: seq<Play>)
    requires LegalRecord(b, log)
    ensures forall i, j :: 0 <= i < j < |log| ==> log[i].card != log[j].card
    ensures forall i :: 0 <= i < |log| ==> DealtTo(b.deal, log[i].seat, log[i].card)
  {
    forall j | 0 <= j < |log|
      ensures DealtTo(b.deal, log[j].seat, log[j].card) && !Played(log, j, log[j].card)
    {
      assert LegalPlay(b, log, j, log[j]);
    }
  }

  /** Within a trick the turn passes clockwise. */
  lemma TurnIsClockwise(b: Board, log: seq<Play>, i: nat)
    requires LegalRecord(b, log) && i < |log| && i % 4 != 0
    ensures log[i].seat == Next(log[i - 1].seat)
  {
    assert LegalPlay(b, log, i, log[i]);
  }

  /** Every trick holds one card of each seat, in clockwise order from its leader, who is the opening leader or the
      winner of the trick before. */
  lemma TrickIsOnePerSeat(b: Board, log: seq<Play>, n: nat)
    requires LegalRecord(b, log) && n % 4 == 0 && n + 4 <= |log|
    ensures var first := if n == 0 then b.lead else BestPlay(log[n - 4..n], b.trump).seat;
            && log[n].seat == first
            && log[n + 1].seat == Next(first)
            && log[n + 2].seat == Partner(first)
            && log[n + 3].seat == Next(Partner(first))
  {
    assert LegalPlay(b, log, n, log[n]);
    TurnIsClockwise(b, log, n + 1);
    TurnIsClockwise(b, log, n + 2);
    TurnIsClockwise(b, log, n + 3);
    SeatsGoRound(log[n].seat);
  }

  // ---------- counting ----------

  function PlaysBy(log: seq<Play>, n: nat, s: Seat): nat
    requires n <= |log|
  {
    if n == 0 then 0 else PlaysBy(log, n - 1, s) + if log[n - 1].seat == s then 1 else 0
  }

  /** Has s already played to the trick under way? */
  predicate InCurrentTrick(log: seq<Play>, n: nat, s: Seat)
    requires n <= |log|
  {
    exists i :: n - n % 4 <= i < n && log[i].seat == s
  }

  /** After 4t+k plays the last k seats are consecutive. */
  lemma LastTurns(b: Board, log: seq<Play>, n: nat)
    requires LegalRecord(b, log) && n <= |log|
    ensures n % 4 >= 2 ==> log[n - 1].seat == Next(log[n - 2].seat)
    ensures n % 4 >= 3 ==> log[n - 2].seat == Next(log[n - 3].seat)
    ensures n % 4 == 0 && n > 0 ==>
              && log[n - 1].seat == Next(log[n - 2].seat)
              && log[n - 2].seat == Next(log[n - 3].seat)
              && log[n - 3].seat == Next(log[n - 4].seat)
  {
    if n > 0 && n % 4 != 1 { TurnIsClockwise(b, log, n - 1); }
    if n > 0 && (n % 4 == 0 || n % 4 == 3) { TurnIsClockwise(b, log, n - 2); }
    if n > 0 && n % 4 == 0 { TurnIsClockwise(b, log, n - 3); }
  }

  /** After n plays every seat has played n/4 cards, and one more if it has played to the trick under way. */
  lemma {:induction false} PlaysAreEven(b: Board, log: seq<Play>, n: nat, s: Seat)
    requires LegalRecord(b, log) && n <= |log|
    ensures PlaysBy(log, n, s) == n / 4 + if InCurrentTrick(log, n, s) then 1 else 0
  {
    if n > 0 {
      PlaysAreEven(b, log, n - 1, s);
      if n % 4 == 0 {
        TrickIsOver(b, log, n, s);
      } else {
        CurrentTrickAfter(b, log, n, s);
      }
    }
  }

  lemma CurrentTrickAfter(b: Board, log: seq<Play>, n: nat, s: Seat)
    requires LegalRecord(b, log) && 0 < n <= |log| && n % 4 != 0
    ensures !(InCurrentTrick(log, n - 1, s) && log[n - 1].seat == s)
    ensures InCurrentTrick(log, n, s) <==> InCurrentTrick(log, n - 1, s) || log[n - 1].seat == s
  {
    LastTurns(b, log, n);
    LastTurns(b, log, n - 1);
  }

  lemma TrickIsOver(b: Board, log: seq<Play>, n: nat, s: Seat)
    requires LegalRecord(b, log) && 0 < n <= |log| && n % 4 == 0
    ensures !InCurrentTrick(log, n, s)
    ensures InCurrentTrick(log, n - 1, s) <==> log[n - 1].seat != s
  {
    LastTurns(b, log, n);
    SeatsGoRound(log[n - 4].seat);
    assert s == log[n - 4].seat || s == log[n - 3].seat || s == log[n - 2].seat || s == log[n - 1].seat;
  }

  lemma NotYetInTrick(b: Board, log: seq<Play>)
    requires LegalRecord(b, log)
    ensures !InCurrentTrick(log, |log|, ToPlay(b, log, |log|))
  {
    LastTurns(b, log, |log|);
  }

  ghost function HeldCards(d: Deal, log: seq<Play>, n: nat, s: Seat): (cards: set<Card>)
    requires s in d && n <= |log|
    ensures forall c :: c in cards <==> Holds(d, log, n, s, c)
  {
    set c | c in d[s] && !Played(log, n, c)
  }

  ghost function CardsOf(hand: seq<Card>): set<Card> {
    set c | c in hand
  }

  lemma {:induction false} HandHasThirteen(hand: seq<Card>)
    requires Increasing(hand)
    ensures |CardsOf(hand)| == |hand|
  {
    if hand == [] {
      assert CardsOf(hand) == {};
    } else {
      var n := |hand| - 1;
      HandHasThirteen(hand[..n]);
      assert hand[n] !in hand[..n];
      assert CardsOf(hand) == CardsOf(hand[..n]) + {hand[n]};
    }
  }

  lemma HeldAfterPlay(b: Board, log: seq<Play>, n: nat, s: Seat)
    requires IsDeal(b.deal) && LegalRecord(b, log) && n < |log|
    ensures log[n].seat == s ==> log[n].card in HeldCards(b.deal, log, n, s)
    ensures HeldCards(b.deal, log, n + 1, s) ==
            HeldCards(b.deal, log, n, s) - if log[n].seat == s then {log[n].card} else {}
  {
    assert LegalPlay(b, log, n, log[n]);
    assert DealtTo(b.deal, log[n].seat, log[n].card);
    assert log[n].seat != s ==> !DealtTo(b.deal, s, log[n].card);
    forall c: Card ensures Played(log, n + 1, c) <==> Played(log, n, c) || c == log[n].card {
    }
  }

  /** Each hand has lost exactly one card for each play from its seat. */
  lemma {:induction false} HandsShrinkByPlays(b: Board, log: seq<Play>, n: nat, s: Seat)
    requires IsDeal(b.deal) && LegalRecord(b, log) && n <= |log|
    ensures |HeldCards(b.deal, log, n, s)| + PlaysBy(log, n, s) == 13
  {
    if n == 0 {
      HandHasThirteen(b.deal[s]);
      assert HeldCards(b.deal, log, n, s) == CardsOf(b.deal[s]);
    } else {
      HandsShrinkByPlays(b, log, n - 1, s);
      HeldAfterPlay(b, log, n - 1, s);
    }
  }

  // ---------- conservation and termination ----------

  /** At every moment each of the 52 cards has either been played, once, or is held by exactly one seat; the hand of
      each seat has 13 cards less the ones it has played. */
  lemma CardsAreConserved(b: Board, log: seq<Play>)
    requires IsDeal(b.deal) && LegalRecord(b, log)
    ensures forall c: Card :: Played(log, |log|, c) <==> !exists s: Seat :: Holds(b.deal, log, |log|, s, c)
    ensures forall c: Card, s: Seat, t: Seat ::
              Holds(b.deal, log, |log|, s, c) && Holds(b.deal, log, |log|, t, c) ==> s == t
    ensures forall i, j :: 0 <= i < j < |log| ==> log[i].card != log[j].card
    ensures forall s: Seat :: |HeldCards(b.deal, log, |log|, s)| == 13 - PlaysBy(log, |log|, s)
  {
    CardsPlayedOnce(b, log);
    forall s: Seat ensures |HeldCards(b.deal, log, |log|, s)| == 13 - PlaysBy(log, |log|, s) {
      HandsShrinkByPlays(b, log, |log|, s);
    }
    forall c: Card ensures Played(log, |log|, c) <==> !exists s: Seat :: Holds(b.deal, log, |log|, s, c) {
      assert Dealt(b.deal, c);
      var s: Seat :| DealtTo(b.deal, s, c);
      assert !Played(log, |log|, c) ==> Holds(b.deal, log, |log|, s, c);
    }
  }

  /** No legal record is longer than 52 plays; at 52 every hand is empty, and before that the seat to play holds a
      card. */
  lemma RecordLength(b: Board, log: seq<Play>)
    requires IsDeal(b.deal) && LegalRecord(b, log)
    ensures |log| <= 52
    ensures |log| == 52 ==> forall s: Seat :: HeldCards(b.deal, log, 52, s) == {}
    ensures |log| < 52 ==> HeldCards(b.deal, log, |log|, ToPlay(b, log, |log|)) != {}
  {
    var n := |log|;
    forall s: Seat
      ensures n / 4 + (if InCurrentTrick(log, n, s) then 1 else 0) == 13 - |HeldCards(b.deal, log, n, s)| {
      PlaysAreEven(b, log, n, s);
      HandsShrinkByPlays(b, log, n, s);
    }
    NotYetInTrick(b, log);
    assert n / 4 == 13 - |HeldCards(b.deal, log, n, ToPlay(b, log, n))|;
    if n % 4 != 0 {
      assert InCurrentTrick(log, n, log[n - 1].seat);
      assert n / 4 + 1 == 13 - |HeldCards(b.deal, log, n, log[n - 1].seat)|;
    }
  }

  /** A seat with cards left always has a legal play: a card of the led suit if it holds one, else any. */
  lemma SomePlayIsLegal(b: Board, log: seq<Play>) returns (p: Play)
    requires IsDeal(b.deal) && LegalRecord(b, log) && |log| < 52
    ensures LegalPlay(b, log, |log|, p)
  {
    RecordLength(b, log);
    var n := |log|;
    var s := ToPlay(b, log, n);
    var c :| c in HeldCards(b.deal, log, n, s);
    if n % 4 != 0 && CanFollow(b.deal, log, n, s, CardSuit(LedCard(log, n))) {
      c :| Holds(b.deal, log, n, s, c) && CardSuit(c) == CardSuit(LedCard(log, n));
    }
    p := Play(s, c);
  }
}
