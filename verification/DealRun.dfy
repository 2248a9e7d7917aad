/** Runs of a deal: one of the greatest length, one in which the opening lead is sent twice, and one that ends with
    dummy's last card. */
module DealRuns {
  import opened Entities
  import opened BidManager
  import opened Auction
  import opened PlayLaws
  import opened Engines
  import opened CardPlay
  import opened Packs
  import S = Session

  type Run = seq<(S.Event, S.Fresh)>

  /** The hands just dealt, and East to open on a clock at 0. */
  function Opened(deal: FullDeal): S.Session {
    S.Session(S.Bidding, EAST, 0, [], deal, [],
              Table(deal, 0, 0, 0, 0, 1, 52, 0, 0, 0, 0, 0, (0, 0), 0))
  }

  lemma OpenedIsGood(deal: FullDeal)
    ensures S.SessionInv(Opened(deal)) && S.StartsDeal(Opened(deal))
  {
  }

  /** What the deal is after n calls of an auction. */
  ghost predicate InAuctionAt(s: S.Session, deal: FullDeal, h: History, n: nat)
    requires n <= |h|
  {
    S.SessionInv(s) && s.phase == S.Bidding && s.opener == EAST && s.deal == deal && s.clock == n && s.h == h[..n]
  }

  /** The call made after n calls of an auction is expected, and recorded as it stands in the auction. */
  lemma NextCallIsExpected(s: S.Session, deal: FullDeal, h: History, n: nat)
    requires n < |h| && AuctionRun(h) && FromEast(h) && InAuctionAt(s, deal, h, n)
    ensures S.Keeps(s, S.Call(h[n].bidder, h[n].value))
    ensures S.Called(s, h[n].bidder, h[n].value).h == h[..n + 1]
  {
    StepOfRun(h, n);
    LastOfPrefix(h, n);
  }

  lemma LastOfPrefix(h: History, n: nat)
    requires n < |h|
    ensures n > 0 ==> h[..n][|h[..n]| - 1] == h[n - 1]
    ensures h[..n] + [h[n]] == h[..n + 1] && WellFormed(h[n])
  {
  }

  lemma {:induction false} CallsGoOn(deal: FullDeal, h: History, n: nat, next: S.Fresh) returns (es: Run)
    requires AuctionRun(h) && FromEast(h) && n <= |h| && !Complete(h[..n])
    ensures S.QuietRun(Opened(deal), es) && |es| == n
    ensures InAuctionAt(S.AfterRun(Opened(deal), es), deal, h, n)
  {
    es := [];
    OpenedIsGood(deal);
    if n > 0 {
      StepOfRun(h, n - 1);
      var e := S.Call(h[n - 1].bidder, h[n - 1].value);
      var fs := CallsGoOn(deal, h, n - 1, next);
      var s := S.AfterRun(Opened(deal), fs);
      NextCallIsExpected(s, deal, h, n - 1);
      S.StepKeepsSession(s, e, next);
      S.QuietRunGoesOn(Opened(deal), fs, e, next);
      es := fs + [(e, next)];
    }
  }

  /** What the deal is after an auction and n cards. */
  ghost predicate InPlayAt(s: S.Session, deal: FullDeal, info: PlayInfo, n: nat) {
    && S.SessionInv(s) && s.phase == S.Playing && s.deal == deal && |s.log| == n
    && info.PlayInfo? && s.table.declarer == info.declarer && s.table.dummy == info.dummy
    && s.table.lead == info.lead && s.table.kingSuit == info.suit
  }

  lemma ContractGoesOn(deal: FullDeal, h: History, next: S.Fresh) returns (es: Run)
    requires AuctionRun(h) && FromEast(h) && Complete(h) && !NeedReBid(h)
    ensures S.QuietRun(Opened(deal), es) && |es| == |h|
    ensures BasisAt(h) < |h| && InPlayAt(S.AfterRun(Opened(deal), es), deal, Outcome(h), 0)
  {
    var n := |h| - 1;
    var e := S.Call(h[n].bidder, h[n].value);
    StepOfRun(h, n);
    FinishedHasBasis(h);
    var fs := CallsGoOn(deal, h, n, next);
    var s := S.AfterRun(Opened(deal), fs);
    NextCallIsExpected(s, deal, h, n);
    assert h[..n + 1] == h;
    S.StepKeepsSession(s, e, next);
    S.QuietRunGoesOn(Opened(deal), fs, e, next);
    es := fs + [(e, next)];
  }

  /** Short of the last card the play goes on. */
  lemma {:induction false} CardsGoOn(deal: FullDeal, info: PlayInfo, es: Run, n: nat, next: S.Fresh) returns (fs: Run)
    requires S.QuietRun(Opened(deal), es) && InPlayAt(S.AfterRun(Opened(deal), es), deal, info, 0) && n < 52
    ensures S.QuietRun(Opened(deal), fs) && |fs| == |es| + n
    ensures InPlayAt(S.AfterRun(Opened(deal), fs), deal, info, n)
  {
    fs := es;
    if n > 0 {
      var gs := CardsGoOn(deal, info, es, n - 1, next);
      var s := S.AfterRun(Opened(deal), gs);
      var e := S.NeverBlocks(s);
      S.StepKeepsSession(s, e, next);
      S.QuietRunGoesOn(Opened(deal), gs, e, next);
      StepChanges(s.table, n, e.play);
      fs := gs + [(e, next)];
    }
  }

  /** The bound on the length of a deal is exact: with any cards some deal takes 231 events, the last of which
      settles it. */
  lemma LongestDeal(deal: FullDeal, next: S.Fresh) returns (es: Run)
    ensures |es| == 231 && S.IsRun(Opened(deal), es) && S.WithinDeal(Opened(deal), es)
    ensures S.StartsDeal(Opened(deal)) && S.StartsDeal(S.AfterRun(Opened(deal), es))
  {
    OpenedIsGood(deal);
    var h := LongestAuction();
    AuctionEnd(h);
    var calls := ContractGoesOn(deal, h, next);
    var fs := CardsGoOn(deal, Outcome(h), calls, 51, next);
    var s := S.AfterRun(Opened(deal), fs);
    var e := S.NeverBlocks(s);
    S.QuietRunGoesOn(Opened(deal), fs, e, next);
    es := fs + [(e, next)];
  }

  /** After the opening lead of any deal, the same lead sent again takes the table out of its good states. */
  lemma RepeatedLead(deal: FullDeal, next: S.Fresh) returns (es: Run)
    ensures var s := S.AfterRun(Opened(deal), es);
            && S.QuietRun(Opened(deal), es) && S.SessionInv(s) && s.phase == S.Playing && |s.log| == 1
            && s.log[0].seat in s.table.hands && !S.SessionInv(S.CardAt(s, 1, s.log[0]))
  {
    var h := OneSpade();
    var calls := ContractGoesOn(deal, h, next);
    es := CardsGoOn(deal, Outcome(h), calls, 1, next);
    S.RepeatingTheLeadBreaks(S.AfterRun(Opened(deal), es));
  }

  // ---------- a last card that is dummy's ----------

  lemma NorthHasTheSpades(s: Seat, c: Card)
    requires DealtTo(OneSuitEach(), s, c)
    ensures CardSuit(c) == SPADE <==> s == NORTH
  {
    FirstDealIsBySuit(s, c);
  }

  lemma TrumpsAreNorths(b: Board, log: seq<Play>, i: nat)
    requires b.deal == OneSuitEach() && LegalRecord(b, log) && i < |log|
    ensures CardSuit(log[i].card) == SPADE <==> log[i].seat == NORTH
  {
    CardsPlayedOnce(b, log);
    NorthHasTheSpades(log[i].seat, log[i].card);
  }

  /** When North was dealt all the trumps, North wins every trick. */
  lemma NorthWins(b: Board, log: seq<Play>, n: nat)
    requires b.deal == OneSuitEach() && b.trump == SPADE
    requires LegalRecord(b, log) && n % 4 == 0 && n + 4 <= |log|
    ensures BestPlay(log[n..n + 4], SPADE).seat == NORTH
  {
    var k := NorthsTurn(b, log, n);
    var ps := log[n..n + 4];
    DistinctCards(b, log, n);
    forall i | 0 <= i < 4 ensures CardSuit(ps[i].card) == SPADE <==> i == k {
      TrumpsAreNorths(b, log, n + i);
      assert ps[i] == log[n + i];
    }
    OneTrumpWins(ps, SPADE, k);
  }

  lemma DistinctCards(b: Board, log: seq<Play>, n: nat)
    requires LegalRecord(b, log) && n + 4 <= |log|
    ensures var ps := log[n..n + 4]; forall i, j :: 0 <= i < j < 4 ==> ps[i].card != ps[j].card
  {
    CardsPlayedOnce(b, log);
  }

  lemma NorthsTurn(b: Board, log: seq<Play>, n: nat) returns (k: nat)
    requires LegalRecord(b, log) && n % 4 == 0 && n + 4 <= |log|
    ensures k < 4 && forall i {:trigger log[i]} :: n <= i < n + 4 ==> (log[i].seat == NORTH <==> i == n + k)
  {
    TrickIsOnePerSeat(b, log, n);
    var first := log[n].seat;
    k := if first == NORTH then 0 else if first == WEST then 1 else if first == SOUTH then 2 else 3;
  }

  lemma OneTrumpWins(ps: seq<Play>, trump: int, k: nat)
    requires k < |ps| && forall i, j :: 0 <= i < j < |ps| ==> ps[i].card != ps[j].card
    requires forall i :: 0 <= i < |ps| ==> (CardSuit(ps[i].card) == trump <==> i == k)
    ensures BestPlay(ps, trump) == ps[k]
  {
    HighestTrumpWins(ps, trump, ps[k]);
  }

  /** Against a contract of East's in North's suit the last card is West's, and so dummy's. */
  lemma LastCardIsWests(b: Board, log: seq<Play>)
    requires b.deal == OneSuitEach() && b.trump == SPADE && LegalRecord(b, log) && |log| == 51
    ensures ToPlay(b, log, 51) == WEST
  {
    NorthWins(b, log, 44);
    assert LegalPlay(b, log, 48, log[48]);
    TurnIsClockwise(b, log, 49);
    TurnIsClockwise(b, log, 50);
  }

  /** East opens one spade and all pass. */
  lemma OneSpade() returns (h: History)
    ensures AuctionRun(h) && FromEast(h) && Complete(h) && !NeedReBid(h)
    ensures BasisAt(h) < |h| && Outcome(h).declarer == EAST && Outcome(h).suit == SPADE
  {
    var h1 := OneMoreCall([], 5);
    var h2 := OneMoreCall(h1, 1);
    var h3 := OneMoreCall(h2, 1);
    h := OneMoreCall(h3, 1);
    assert h[2] == h3[2] && h[1] == h3[..2][1] == h2[1] && h[0] == h3[..2][0] == h2[..1][0] == h1[0];
    DeclarerNamedItFirst(h);
    FromEastGoesOn([], h1);
    FromEastGoesOn(h1, h2);
    FromEastGoesOn(h2, h3);
    FromEastGoesOn(h3, h);
  }

  /** A run that ends with dummy's last card. If anybody but declarer sends it, it is played and refused, the deal
      is not settled, and nothing the players can send moves the table again. */
  lemma RefusedLastCard(next: S.Fresh) returns (es: Run, p: Play)
    ensures var s := S.AfterRun(Opened(OneSuitEach()), es);
            && S.QuietRun(Opened(OneSuitEach()), es) && S.SessionInv(s)
            && S.Keeps(s, S.Card(p)) && p.seat == s.table.dummy
            && !S.SessionInv(S.CardOnLog(s, p)) && forall e :: !S.Keeps(S.CardOnLog(s, p), e)
  {
    var deal := OneSuitEach();
    var h := OneSpade();
    var calls := ContractGoesOn(deal, h, next);
    es := CardsGoOn(deal, Outcome(h), calls, 51, next);
    var s := S.AfterRun(Opened(deal), es);
    var e := S.NeverBlocks(s);
    p := e.play;
    LastCardIsWests(S.BoardOf(s), s.log);
    S.RefusedCardIsSafeIff(s, p);
  }
}
