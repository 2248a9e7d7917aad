/** Whole auctions: what holds of every run in which each caller keeps to what the server offered.
    The rules are those of the Laws of Duplicate Bridge (2017), Laws 18, 19 and 22. */
module Auction {
  import opened Entities
  import opened BidManager

  /** The two buttons offered to the caller after h; only the last call decides. */
  function ButtonsAfter(h: History): (DoubleButton, DoubleButton) {
    if h == [] || IsPass(h[|h| - 1]) then (DoubleButton(0, false), DoubleButton(0, false))
    else
      var last := h[|h| - 1];
      var (d, r) := GetDoubleAtSameLine(last.value);
      (DoubleButton(d, !IsDouble(last)), DoubleButton(r, last.dbType == DOUBLE))
  }

  /** A client keeps to the offer: a pass, a contract above the limit, or a button that is on. */
  predicate OfferedCall(h: History, v: Call) {
    var (db, db2) := ButtonsAfter(h);
    || SuitOf(v) == PASS
    || (SuitOf(v) <= TRUMP && v > StandingBid(h))
    || (db.isOn && v == db.value)
    || (db2.isOn && v == db2.value)
  }

  /** A run of the auction: offered calls, made in turn, none after the auction is complete. */
  predicate AuctionRun(h: History) {
    h == [] ||
    var n := |h| - 1;
    var p: History := h[..n];
    && AuctionRun(p)
    && !Complete(p)
    && OfferedCall(p, h[n].value)
    && (n > 0 ==> h[n].bidder == Next(h[n - 1].bidder))
  }

  lemma PrefixIsRun(h: History, k: nat)
    requires AuctionRun(h) && k <= |h|
    ensures AuctionRun(h[..k])
  {
    if k == |h| {
      assert h[..k] == h;
    } else {
      PrefixIsRun(h[..|h| - 1], k);
      assert h[..|h| - 1][..k] == h[..k];
    }
  }

  /** What the last step of a run obeyed, for any position in the run. */
  lemma {:induction false} StepOfRun(h: History, k: nat)
    requires AuctionRun(h) && k < |h|
    ensures AuctionRun(h[..k]) && !Complete(h[..k])
    ensures OfferedCall(h[..k], h[k].value)
    ensures k > 0 ==> h[k].bidder == Next(h[k - 1].bidder)
  {
    PrefixIsRun(h, k + 1);
    var p: History := h[..k + 1];
    assert p[..k] == h[..k];
  }

  function NextCaller(h: History): Seat {
    if h == [] then EAST else Next(h[|h| - 1].bidder)
  }

  /** The auction was opened by East on a clock at 0, and every call moved the clock by one. */
  predicate FromEast(h: History) {
    && (h != [] ==> h[0].bidder == EAST)
    && (forall i :: 0 <= i < |h| ==> h[i].t == i + 1)
  }

  /** A run that has not ended goes on with any offered call of the next caller. */
  lemma {:induction false} OneMoreCall(h: History, v: Call) returns (g: History)
    requires AuctionRun(h) && !Complete(h) && OfferedCall(h, v)
    ensures AuctionRun(g) && |g| == |h| + 1 && g[..|h|] == h
    ensures g[|h|].value == v && g[|h|].bidder == NextCaller(h) && g[|h|].t == |h| + 1
    ensures IsPass(g[|h|]) <==> SuitOf(v) == PASS
    ensures SuitOf(v) <= TRUMP ==> StandingBid(g) == v && ContractAt(g) == |h|
    ensures SuitOf(v) > TRUMP ==> StandingBid(g) == StandingBid(h) && ContractAt(g) == ContractAt(h)
    ensures var (d, r) := GetDoubleAtSameLine(v);
            ButtonsAfter(g) == if SuitOf(v) == PASS then (DoubleButton(0, false), DoubleButton(0, false))
                               else (DoubleButton(d, SuitOf(v) <= TRUMP), DoubleButton(r, SuitOf(v) == DOUBLE))
    ensures Complete(g) ==> SuitOf(v) == PASS && |h| >= 3 && IsPass(h[|h| - 1]) && IsPass(h[|h| - 2])
  {
    var x := CreateBidItem(NextCaller(h), v, |h| + 1);
    CallKinds(x);
    g := h + [x];
    assert g[|h|] == x && g[..|h|] == h;
    assert |h| >= 1 ==> g[|h| - 1] == h[|h| - 1];
    assert |h| >= 2 ==> g[|h| - 2] == h[|h| - 2];
    assert ContractAt(g) >= 0 && ContractAt(h) >= 0 && SuitOf(v) > TRUMP ==> g[ContractAt(g)] == h[ContractAt(h)];
  }

  /** Such a call keeps the clock of an auction opened by East. */
  lemma FromEastGoesOn(h: History, g: History)
    requires FromEast(h) && |g| == |h| + 1 && g[..|h|] == h
    requires g[|h|].t == |h| + 1 && (h == [] ==> g[0].bidder == EAST)
    ensures FromEast(g)
  {
    assert forall i :: 0 <= i < |h| ==> g[i] == h[i];
  }

  // ---------- Law 18: sufficient bids ----------

  /** Comparing bids as numbers is comparing level first and then denomination. */
  lemma BidOrderIsLaw18(a: Call, b: Call)
    requires SuitOf(a) <= TRUMP && SuitOf(b) <= TRUMP
    ensures a < b <==> BiddingLine(a) < BiddingLine(b) || (BiddingLine(a) == BiddingLine(b) && SuitOf(a) < SuitOf(b))
  {
    var la, ka := LevelAndPosition(a);
    var lb, kb := LevelAndPosition(b);
  }

  lemma ContractOfPrefix(h: History, k: nat)
    requires k < |h|
    ensures ContractAt(h[..k + 1]) == if IsContract(h[k]) then k else ContractAt(h[..k])
  {
  }

  /** Every bid of a run is higher than every earlier one. */
  lemma {:induction false} BidsIncrease(h: History, i: nat, j: nat)
    requires AuctionRun(h) && i < j < |h| && IsContract(h[i]) && IsContract(h[j])
    ensures h[i].value < h[j].value
  {
    StepOfRun(h, j);
    CallKinds(h[j]);
    OfferedBidIsHigher(h[..j], h[j].value);
    var p: History := h[..j];
    var c := ContractAt(p);
    assert IsContract(p[i]);
    if i != c {
      BidsIncrease(h, i, c);
    }
  }

  lemma OfferedBidIsHigher(h: History, v: Call)
    requires OfferedCall(h, v) && SuitOf(v) <= TRUMP
    ensures v > StandingBid(h)
  {
  }

  /** The contract reported at the end is the highest ever bid, whatever passes and doubles follow it. */
  lemma {:induction false} FinalContractIsHighest(h: History, i: nat)
    requires AuctionRun(h) && i < |h| && IsContract(h[i])
    ensures ContractAt(h) >= 0
    ensures h[i].value <= Outcome(h).record.contract == StandingBid(h)
    ensures h[i].value == StandingBid(h) ==> i == ContractAt(h)
  {
    if i != ContractAt(h) {
      BidsIncrease(h, i, ContractAt(h));
    }
  }

  // ---------- Law 19: doubles and redoubles ----------

  function LastNonPass(h: History): (i: int)
    ensures -1 <= i < |h|
    ensures i >= 0 ==> !IsPass(h[i])
    ensures forall j {:trigger IsPass(h[j])} :: i < j < |h| ==> IsPass(h[j])
  {
    if h == [] then -1
    else if IsPass(h[|h| - 1]) then LastNonPass(h[..|h| - 1])
    else |h| - 1
  }

  /** Law 19: the last call other than pass was an opponent's bid (for a double) or double (for a redouble). */
  predicate LawfulDouble(h: History, seat: Seat, v: Call) {
    var k := LastNonPass(h);
    && k >= 0
    && !SameSide(h[k].bidder, seat)
    && BiddingLine(v) == h[k].line
    && ((SuitOf(v) == DOUBLE && IsContract(h[k])) || (SuitOf(v) == REDOUBLE && h[k].dbType == DOUBLE))
  }

  /** The server offers exactly the lawful doubles and redoubles that directly follow the call they answer.
      Law 19 also allows them after intervening passes; see LawfulDoubleNotOffered. */
  lemma OfferedDoubleIffLawful(h: History, v: Call)
    requires AuctionRun(h) && h != []
    requires SuitOf(v) == DOUBLE || SuitOf(v) == REDOUBLE
    ensures OfferedCall(h, v) <==> LawfulDouble(h, Next(h[|h| - 1].bidder), v) && !IsPass(h[|h| - 1])
  {
    var last := h[|h| - 1];
    if !IsPass(last) {
      CallKinds(last);
      DoublesOnTheSameLine(last.value);
      var (d, r) := GetDoubleAtSameLine(last.value);
      var l0, k0 := LevelAndPosition(v);
      var l1, k1 := LevelAndPosition(d);
      var l2, k2 := LevelAndPosition(r);
    }
  }

  /** East opens 1C, South and West pass: Law 19 lets North double, the server does not offer it. */
  lemma LawfulDoubleNotOffered() returns (h: History)
    ensures AuctionRun(h) && !Complete(h) && h != []
    ensures LawfulDouble(h, Next(h[|h| - 1].bidder), 7) && !OfferedCall(h, 7)
  {
    var h1 := OneMoreCall([], 2);
    var h2 := OneMoreCall(h1, 1);
    h := OneMoreCall(h2, 1);
    assert h1[0].value == 2 && h2[0] == h1[0] && h[0] == h2[..1][0] && h[1] == h2[1];
    assert LastNonPass(h) == 0;
    CallKinds(h[0]);
    assert h2[..1] == h1 && h[..2] == h2;
  }

  /** In every run a double answers the standing contract just bid by an opponent, and a redouble answers such a
      double of one's own side's contract, all on one level. */
  lemma {:induction false} DoublesInRunAreLawful(h: History, i: nat)
    requires AuctionRun(h) && i < |h| && IsDouble(h[i])
    ensures var c := ContractAt(h[..i]);
            && c >= 0
            && h[i].line == h[c].line
            && (h[i].dbType == DOUBLE ==> c == i - 1 && !SameSide(h[i].bidder, h[c].bidder))
            && (h[i].dbType == REDOUBLE ==>
                  c == i - 2 && h[i - 1].dbType == DOUBLE && SameSide(h[i].bidder, h[c].bidder))
  {
    StepOfRun(h, i);
    CallKinds(h[i]);
    var p: History := h[..i];
    assert p != [];
    OfferedDoubleIffLawful(p, h[i].value);
    CallKinds(h[i - 1]);
    ContractOfPrefix(h, i - 1);
    if h[i].dbType == REDOUBLE {
      DoublesInRunAreLawful(h, i - 1);
      StepOfRun(h, i - 1);
    }
  }

  // ---------- Law 22: the end of the auction ----------

  lemma OnlyPassesBeforeTheFirstBid(h: History)
    requires AuctionRun(h) && ContractAt(h) < 0
    ensures AllPass(h, 0)
  {
    if h != [] {
      var n := |h| - 1;
      OnlyPassesBeforeTheFirstBid(h[..n]);
      CallKinds(h[n]);
      assert n > 0 ==> IsPass(h[..n][n - 1]);
    }
  }

  lemma NoCallAfterCompletion(h: History)
    requires AuctionRun(h) && |h| > 4
    ensures !(IsPass(h[|h| - 4]) && IsPass(h[|h| - 3]) && IsPass(h[|h| - 2]))
  {
  }

  /** A run that has just ended is either four passes and nothing else, exactly when a new deal is ordered, or a call
      other than pass followed by exactly three passes, and then a contract was bid. */
  lemma AuctionEnd(h: History)
    requires AuctionRun(h) && Complete(h)
    ensures NeedReBid(h) <==> |h| == 4 && AllPass(h, 0)
    ensures !NeedReBid(h) ==> !IsPass(h[|h| - 4]) && AllPass(h, |h| - 3) && ContractAt(h) >= 0
  {
    if |h| > 4 {
      NoCallAfterCompletion(h);
    }
    if ContractAt(h) < 0 {
      OnlyPassesBeforeTheFirstBid(h);
    }
  }

  /** What the server makes of a finished auction: the contract is the highest bid; declarer is the player of the
      side that made it who first named its denomination; dummy is the partner; and the opponent on declarer's left
      leads (Law 41A). */
  lemma {:induction false} OutcomeIsLawful(h: History)
    requires AuctionRun(h) && Complete(h) && !NeedReBid(h)
    ensures ContractAt(h) >= 0
    ensures var o, c, i := Outcome(h), h[ContractAt(h)], DeclarerAt(h);
            && o.record.contract == c.value && o.suit == SuitOf(c.value) <= TRUMP
            && (forall j :: 0 <= j < |h| && IsContract(h[j]) ==> h[j].value <= c.value)
            && SameSide(o.declarer, c.bidder)
            && i <= ContractAt(h) && h[i].bidder == o.declarer && SuitOf(h[i].value) == o.suit
            && (forall j :: 0 <= j < i && SameSide(h[j].bidder, c.bidder) ==> SuitOf(h[j].value) != o.suit)
            && o.dummy == Partner(o.declarer)
            && o.lead == Next(o.declarer) && !SameSide(o.lead, o.declarer)
  {
    AuctionEnd(h);
    DeclarerNamedItFirst(h);
    forall j | 0 <= j < |h| && IsContract(h[j]) ensures h[j].value <= StandingBid(h) {
      FinalContractIsHighest(h, j);
    }
  }

  /** The result of the backward scan says truly that the contract is doubled; but it reports a redoubled contract as
      merely doubled, so the reported kind is right iff nobody redoubled. */
  lemma {:induction false} ReportedDouble(h: History)
    requires AuctionRun(h) && ContractAt(h) >= 0
    ensures var r, c := Outcome(h).record, ContractAt(h);
            && (r.isDouble <==> exists i :: c < i < |h| && IsDouble(h[i]))
            && r.dbType == (if r.isDouble then DOUBLE else ZERO_SUIT)
            && ((r.isDouble ==> r.dbType == h[LastDoubleAfter(h, c)].dbType)
                <==> !exists i :: c < i < |h| && h[i].dbType == REDOUBLE)
  {
    var c := ContractAt(h);
    var d := FirstDoubleAfter(h, c);
    if d < |h| {
      var k := LastDoubleAfter(h, c);
      assert IsDouble(h[k]);
      CallKinds(h[d]);
      CallKinds(h[k]);
      DoublesInRunAreLawful(h, d);
      DoublesInRunAreLawful(h, k);
      ContractOfMiddle(h, d);
      ContractOfMiddle(h, k);
      if h[d].dbType == REDOUBLE { CallKinds(h[d - 1]); }
      forall i | c < i < |h| && h[i].dbType == REDOUBLE ensures k == i {
        CallKinds(h[i]);
        DoublesInRunAreLawful(h, i);
        ContractOfMiddle(h, i);
      }
    } else {
      forall i | c < i < |h| ensures h[i].dbType != REDOUBLE { CallKinds(h[i]); }
    }
  }

  /** On any history with a contract: "doubled" is reported iff a double or redouble follows it, and if none does
      the kind reported is that of no double. */
  lemma UndoubledIsReportedSo(h: History)
    requires ContractAt(h) >= 0
    ensures var r, c := Outcome(h).record, ContractAt(h);
            && (r.isDouble <==> exists i :: c < i < |h| && IsDouble(h[i]))
            && (!r.isDouble ==> r.dbType == ZERO_SUIT)
            && (forall i :: c < i < |h| && IsDouble(h[i]) && (forall j :: c < j < i ==> !IsDouble(h[j])) ==>
                  r.dbType == h[i].dbType)
            && r.contract == h[c].value
  {
    var c := ContractAt(h);
    var d := FirstDoubleAfter(h, c);
    forall i | c < i < |h| && IsDouble(h[i]) && (forall j :: c < j < i ==> !IsDouble(h[j])) ensures i == d {
      assert d < |h| ==> IsDouble(h[d]);
    }
  }

  /** East opens 1C, South doubles, West redoubles, all pass: the contract is reported as doubled, not redoubled. */
  lemma {:induction false} RedoubleReportedAsDouble() returns (h: History)
    ensures AuctionRun(h) && Complete(h) && ContractAt(h) == 0 && |h| == 6
    ensures h[2].dbType == REDOUBLE && Outcome(h).record.dbType == DOUBLE
  {
    var h1 := OneMoreCall([], 2);
    var h2 := OneMoreCall(h1, 7);
    var h3 := OneMoreCall(h2, 8);
    CallKinds(h3[2]);
    var h4 := OneMoreCall(h3, 1);
    var h5 := OneMoreCall(h4, 1);
    h := OneMoreCall(h5, 1);
    assert h[3] == h5[..4][3] == h4[3] && h[4] == h5[4] && h[2] == h5[..4][2] == h4[..3][2] == h3[2];
    ReportedDouble(h);
    CallKinds(h[2]);
  }

  function LastDoubleAfter(h: History, c: int): (i: int)
    requires -1 <= c < |h|
    ensures c <= i < |h|
    ensures i > c ==> IsDouble(h[i])
    ensures forall j {:trigger IsDouble(h[j])} :: i < j < |h| ==> !IsDouble(h[j])
  {
    if |h| - 1 == c then c
    else if IsDouble(h[|h| - 1]) then |h| - 1
    else LastDoubleAfter(h[..|h| - 1], c)
  }

  lemma {:induction false} ContractOfMiddle(h: History, i: nat)
    requires ContractAt(h) < i <= |h|
    ensures ContractAt(h[..i]) == ContractAt(h)
  {
    if i == |h| {
      assert h[..i] == h;
    } else {
      ContractOfMiddle(h[..|h| - 1], i);
      assert h[..|h| - 1][..i] == h[..i];
    }
  }

  // ---------- termination ----------

  /** 1 for one club up to 35 for seven no-trumps. */
  function Rank(v: Call): (r: int) {
    5 * ((v - 1) / 8) + (v - 1) % 8
  }

  lemma RankIsMonotone(a: Call, b: Call)
    requires SuitOf(a) <= TRUMP && SuitOf(b) <= TRUMP
    ensures 1 <= Rank(a) <= 35
    ensures a < b ==> Rank(a) < Rank(b)
  {
    var la, ka := LevelAndPosition(a);
    var lb, kb := LevelAndPosition(b);
  }

  function TrailingPasses(h: History): (n: nat)
    ensures n <= |h|
    ensures forall i {:trigger IsPass(h[i])} :: |h| - n <= i < |h| ==> IsPass(h[i])
    ensures n < |h| ==> !IsPass(h[|h| - n - 1])
  {
    if h == [] || !IsPass(h[|h| - 1]) then 0 else 1 + TrailingPasses(h[..|h| - 1])
  }

  /** Calls the last contract can still draw: double, redouble and three passes. */
  function Tail(h: History): nat
    requires h != []
  {
    var n := TrailingPasses(h);
    if n >= 3 then 0
    else if n > 0 then 3 - n
    else if h[|h| - 1].dbType == REDOUBLE then 3
    else if h[|h| - 1].dbType == DOUBLE then 4
    else 5
  }

  /** An upper bound on the number of calls to come: five for every contract still above the standing one. */
  function CallsLeft(h: History): int {
    if ContractAt(h) < 0 then 179 - |h| else 5 * (35 - Rank(StandingBid(h))) + Tail(h)
  }

  lemma CallsLeftIsNatural(h: History)
    requires AuctionRun(h)
    ensures CallsLeft(h) >= 0
  {
    if ContractAt(h) < 0 {
      OnlyPassesBeforeTheFirstBid(h);
      if |h| > 4 { NoCallAfterCompletion(h); }
    } else {
      RankIsMonotone(StandingBid(h), StandingBid(h));
    }
  }

  lemma BidDropsCallsLeft(h: History)
    requires AuctionRun(h) && h != [] && IsContract(h[|h| - 1])
    ensures CallsLeft(h) < CallsLeft(h[..|h| - 1])
  {
    var p: History := h[..|h| - 1];
    var x := h[|h| - 1];
    CallKinds(x);
    OfferedBidIsHigher(p, x.value);
    RankIsMonotone(x.value, x.value);
    assert TrailingPasses(h) == 0;
    if ContractAt(p) >= 0 {
      RankIsMonotone(StandingBid(p), x.value);
      assert Tail(p) >= 1 by { assert TrailingPasses(p) < 3 by { FewTrailingPasses(p); } CallKinds(p[|p| - 1]); }
    } else {
      OnlyPassesBeforeTheFirstBid(p);
      assert !Complete(p);
    }
  }

  lemma FewTrailingPasses(h: History)
    requires !Complete(h) && ContractAt(h) >= 0
    ensures TrailingPasses(h) < 3
  {
    CallKinds(h[ContractAt(h)]);
    assert TrailingPasses(h) >= 3 ==> |h| >= 4;
  }

  /** The measure drops with every call of a run. */
  lemma {:induction false} CallsLeftDrops(h: History)
    requires AuctionRun(h) && h != []
    ensures CallsLeft(h) < CallsLeft(h[..|h| - 1])
  {
    var n := |h| - 1;
    var p: History := h[..n];
    var x := h[n];
    CallKinds(x);
    if IsContract(x) {
      BidDropsCallsLeft(h);
    } else if ContractAt(p) >= 0 {
      assert h[n - 1] == p[n - 1];
      CallKinds(h[n - 1]);
      FewTrailingPasses(p);
      if IsDouble(x) {
        DoublesInRunAreLawful(h, n);
        assert TrailingPasses(h) == TrailingPasses(p) == 0;
      } else {
        assert TrailingPasses(h) == 1 + TrailingPasses(p);
      }
    }
  }

  /** No run of the auction is longer than 179 calls. */
  lemma {:induction false} AuctionTerminates(h: History)
    requires AuctionRun(h)
    ensures |h| + CallsLeft(h) <= 179
    ensures |h| <= 179
  {
    CallsLeftIsNatural(h);
    if h != [] {
      AuctionTerminates(h[..|h| - 1]);
      CallsLeftDrops(h);
    }
  }

  // ---------- the bound is reached ----------

  /** The longest answer to a bid that still lets a higher one in: double, redouble, pass, pass. */
  lemma {:induction false} LongRound(h: History, v: Call) returns (g: History)
    requires AuctionRun(h) && !Complete(h) && SuitOf(v) <= TRUMP && v > StandingBid(h)
    ensures AuctionRun(g) && !Complete(g) && |g| == |h| + 5 && StandingBid(g) == v
    ensures FromEast(h) ==> FromEast(g)
    ensures IsPass(g[|g| - 1]) && IsPass(g[|g| - 2])
  {
    DoublesOnTheSameLine(v);
    var (d, r) := GetDoubleAtSameLine(v);
    SameLineSameDoubles(v, d);
    var g0 := OneMoreCall(h, v);
    var g1 := OneMoreCall(g0, d);
    var g2 := OneMoreCall(g1, r);
    var g3 := OneMoreCall(g2, 1);
    g := OneMoreCall(g3, 1);
    assert g[|g| - 2] == g3[|g3| - 1];
    if FromEast(h) {
      FromEastGoesOn(h, g0);
      FromEastGoesOn(g0, g1);
      FromEastGoesOn(g1, g2);
      FromEastGoesOn(g2, g3);
      FromEastGoesOn(g3, g);
    }
  }

  lemma SameLineSameDoubles(v: Call, w: Call)
    requires SuitOf(v) != PASS && SuitOf(w) != PASS && BiddingLine(v) == BiddingLine(w)
    ensures GetDoubleAtSameLine(v) == GetDoubleAtSameLine(w)
  {
  }

  /** The bid of rank k. */
  function BidOfRank(k: nat): Call
    requires 1 <= k <= 35
  {
    8 * ((k - 1) / 5) + (k - 1) % 5 + 2
  }

  lemma BidOfRankIsBid(k: nat)
    requires 1 <= k <= 35
    ensures SuitOf(BidOfRank(k)) <= TRUMP
    ensures k > 1 ==> BidOfRank(k - 1) < BidOfRank(k)
  {
    var level, j := (k - 1) / 5, (k - 1) % 5;
    var l, p := LevelAndPosition(BidOfRank(k));
    assert l == level && p == j + 1;
  }

  lemma ThreePasses() returns (h: History)
    ensures AuctionRun(h) && !Complete(h) && |h| == 3 && StandingBid(h) == 1 && FromEast(h)
    ensures IsPass(h[|h| - 1]) && IsPass(h[|h| - 2])
  {
    var h1 := OneMoreCall([], 1);
    var h2 := OneMoreCall(h1, 1);
    h := OneMoreCall(h2, 1);
    assert h[1] == h2[1];
    FromEastGoesOn([], h1);
    FromEastGoesOn(h1, h2);
    FromEastGoesOn(h2, h);
  }

  /** Three passes, then every bid from one club up, each answered by double, redouble, pass, pass. */
  lemma {:induction false} SlowAuction(k: nat) returns (h: History)
    requires k <= 35
    ensures AuctionRun(h) && !Complete(h) && |h| == 3 + 5 * k && FromEast(h)
    ensures StandingBid(h) == if k == 0 then 1 else BidOfRank(k)
    ensures IsPass(h[|h| - 1]) && IsPass(h[|h| - 2])
  {
    if k == 0 {
      h := ThreePasses();
    } else {
      var p := SlowAuction(k - 1);
      BidOfRankIsBid(k);
      assert BidOfRank(k) > StandingBid(p);
      h := LongRound(p, BidOfRank(k));
    }
  }

  /** The bound of AuctionTerminates is exact: some run completes with its 179th call. */
  lemma LongestAuction() returns (h: History)
    ensures AuctionRun(h) && Complete(h) && |h| == 179 && FromEast(h)
  {
    var g := SlowAuction(35);
    h := OneMoreCall(g, 1);
    assert h[|h| - 2] == g[|g| - 1] && h[|h| - 3] == g[|g| - 2];
    FromEastGoesOn(g, h);
  }
}
