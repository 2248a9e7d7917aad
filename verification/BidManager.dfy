/** game/bid_manager.go: the call history, its first-naming index, and the backward scans over it. */
module BidManager {
  import opened Entities

  /** A double or redouble button of the bidding box: the call it makes, and whether it is switched on. */
  datatype DoubleButton = DoubleButton(value: int, isOn: bool)

  /** One call. `t` is a logical clock standing for the time of the call; `b` packs seat and value in a byte. */
  datatype BidItem = BidItem(t: nat, bidder: Seat, value: Call, line: int, dbType: int, b: int)

  /** The source's record type: what the scoring will need to know about the contract. */
  datatype Record = Record(isDouble: bool, dbType: int, contract: int)

  datatype PlayInfo =
    | NoContract
    | PlayInfo(lead: Seat, declarer: Seat, dummy: Seat, suit: int, record: Record)

  // ---------- one call ----------

  function BiddingLine(v: Call): int {
    if 1 <= v <= 8 then 1
    else if 9 <= v <= 16 then 2
    else if 17 <= v <= 24 then 3
    else if 25 <= v <= 32 then 4
    else if 33 <= v <= 40 then 5
    else if 41 <= v <= 48 then 6
    else 7
  }

  predicate IsDoubleValue(v: int) {
    v == 7 || v == 15 || v == 23 || v == 31 || v == 39 || v == 47 || v == 55
  }

  predicate IsRedoubleValue(v: int) {
    v == 8 || v == 16 || v == 24 || v == 32 || v == 40 || v == 48 || v == 56
  }

  function CreateBidItem(seat: Seat, bid: Call, now: nat): BidItem {
    var dbType :=
      if IsDoubleValue(bid) then DOUBLE
      else if IsRedoubleValue(bid) then REDOUBLE
      else ZERO_SUIT;
    BidItem(now, seat, bid, BiddingLine(bid), dbType, seat + bid)
  }

  predicate WellFormed(x: BidItem) {
    x == CreateBidItem(x.bidder, x.value, x.t)
  }

  /** Unsigned byte subtraction, hence the explicit wrap. */
  predicate IsPass(x: BidItem) {
    (x.b + 255) % 256 % 8 == 0
  }

  predicate IsDouble(x: BidItem) {
    IsDoubleValue(x.b % 64) || IsRedoubleValue(x.b % 64)
  }

  predicate IsCrucial(x: BidItem) {
    !IsPass(x) && x.b % 64 != VALUE_NOT_SET
  }

  predicate IsContract(x: BidItem) {
    SuitOf(x.value) <= TRUMP
  }

  /** The byte tests see through the seat bits. */
  lemma SeatBitsDoNotMatter(seat: Seat, v: Call)
    ensures (seat + v) % 64 == v
    ensures (seat + v + 255) % 256 % 8 == (v + 7) % 8
  {
    assert (seat + v + 255) % 256 == seat + v - 1;
    if seat == EAST {
    } else if seat == SOUTH {
    } else if seat == WEST {
    } else {
    }
  }

  /** Writing a call as level and position in the level. */
  lemma LevelAndPosition(v: Call) returns (level: int, k: int)
    ensures 0 <= level <= 6 && 0 <= k <= 7 && v == 8 * level + k + 1
    ensures level == (v - 1) / 8 && BiddingLine(v) == level + 1
    ensures SuitOf(v) == (if k == 0 then PASS else k - 1)
    ensures (v + 7) % 8 == k
  {
    level, k := (v - 1) / 8, (v - 1) % 8;
  }

  /** The byte tests agree with the denomination table: every call is a pass, a double, a redouble or a contract. */
  lemma CallKinds(x: BidItem)
    requires WellFormed(x)
    ensures IsPass(x) <==> SuitOf(x.value) == PASS
    ensures IsDouble(x) <==> SuitOf(x.value) == DOUBLE || SuitOf(x.value) == REDOUBLE
    ensures x.dbType == DOUBLE <==> SuitOf(x.value) == DOUBLE
    ensures x.dbType == REDOUBLE <==> SuitOf(x.value) == REDOUBLE
    ensures IsCrucial(x) <==> !IsPass(x)
    ensures IsContract(x) <==> IsCrucial(x) && !IsDouble(x)
    ensures x.line == (x.value - 1) / 8 + 1
  {
    SeatBitsDoNotMatter(x.bidder, x.value);
    var level, k := LevelAndPosition(x.value);
  }

  /** GetDoubleAtSameLine. */
  function GetDoubleAtSameLine(bid: Call): (int, int) {
    if bid < 9 then (7, 8)
    else if 10 <= bid && bid < 17 then (15, 16)
    else if 18 <= bid && bid < 25 then (23, 24)
    else if 26 <= bid && bid < 33 then (31, 32)
    else if 34 <= bid && bid < 41 then (39, 40)
    else if 42 <= bid && bid < 49 then (47, 48)
    else if bid >= 50 then (55, 56)
    else (0, 0)
  }

  /** For anything but a pass, the two values are the double and the redouble of the same level. */
  lemma DoublesOnTheSameLine(v: Call)
    requires SuitOf(v) != PASS
    ensures var (d, r) := GetDoubleAtSameLine(v);
            1 <= d <= 56 && 1 <= r <= 56
            && SuitOf(d) == DOUBLE && SuitOf(r) == REDOUBLE
            && BiddingLine(d) == BiddingLine(v) == BiddingLine(r)
  {
  }

  // ---------- scanning a history ----------

  type History = h: seq<BidItem> | forall i {:trigger WellFormed(h[i])} :: 0 <= i < |h| ==> WellFormed(h[i])

  /** The key of the first-naming index: seat and denomination in one byte. */
  function Key(seat: Seat, suit: int): int {
    seat + suit
  }

  function Token(x: BidItem): int {
    Key(x.bidder, SuitOf(x.value))
  }

  lemma TokenIsInjective(x: BidItem, seat: Seat, suit: int)
    requires 0 <= suit <= 7
    ensures Token(x) == Key(seat, suit) <==> x.bidder == seat && SuitOf(x.value) == suit
  {
  }

  /** Where `token` was first named; the length of the history when it never was. */
  function FirstAt(h: History, token: int): (i: nat)
    ensures i <= |h|
    ensures i < |h| ==> Token(h[i]) == token
    ensures forall j {:trigger Token(h[j])} :: 0 <= j < i ==> Token(h[j]) != token
  {
    if h == [] then 0
    else if Token(h[0]) == token then 0
    else 1 + FirstAt(h[1..], token)
  }

  /** Position of the standing contract, -1 when nobody has bid. */
  function ContractAt(h: History): (i: int)
    ensures -1 <= i < |h|
    ensures i >= 0 ==> IsContract(h[i])
    ensures forall j {:trigger IsContract(h[j])} :: i < j < |h| ==> !IsContract(h[j])
  {
    if h == [] then -1
    else if IsContract(h[|h| - 1]) then |h| - 1
    else ContractAt(h[..|h| - 1])
  }

  function StandingBid(h: History): Call {
    if ContractAt(h) < 0 then 1 else h[ContractAt(h)].value
  }

  /** Of call c and those before it: where its side first made a call of its kind. */
  function FirstOfSide(h: History, c: nat): nat
    requires c < |h|
    ensures FirstOfSide(h, c) < |h|
  {
    var own := FirstAt(h, Token(h[c]));
    var other := FirstAt(h, Key(Partner(h[c].bidder), SuitOf(h[c].value)));
    assert own <= c;
    if own < other then own else other
  }

  /** Where the side of the contract first named its denomination. */
  function DeclarerAt(h: History): nat
    requires ContractAt(h) >= 0
  {
    FirstOfSide(h, ContractAt(h))
  }

  /** The "Declarer" of the Definitions: of the side that made the final bid, the player who first named its
      denomination. */
  lemma DeclarerNamedItFirst(h: History)
    requires ContractAt(h) >= 0
    ensures var c, i := h[ContractAt(h)], DeclarerAt(h);
            && i <= ContractAt(h)
            && SameSide(h[i].bidder, c.bidder) && SuitOf(h[i].value) == SuitOf(c.value)
            && forall j :: 0 <= j < i && SuitOf(h[j].value) == SuitOf(c.value) ==> !SameSide(h[j].bidder, c.bidder)
  {
    var c, i := h[ContractAt(h)], DeclarerAt(h);
    assert Token(h[ContractAt(h)]) == Token(c);
    TokenIsInjective(h[i], c.bidder, SuitOf(c.value));
    TokenIsInjective(h[i], Partner(c.bidder), SuitOf(c.value));
    forall j | 0 <= j < i && SuitOf(h[j].value) == SuitOf(c.value) ensures !SameSide(h[j].bidder, c.bidder) {
      assert Token(h[j]) != Token(c) && Token(h[j]) != Key(Partner(c.bidder), SuitOf(c.value));
    }
  }

  /** Where the standing contract was first doubled; the length of the history when it was not. */
  function FirstDoubleAfter(h: History, c: int): (i: int)
    requires -1 <= c < |h|
    ensures c < i <= |h|
    ensures i < |h| ==> IsDouble(h[i])
    ensures forall j {:trigger IsDouble(h[j])} :: c < j < i ==> !IsDouble(h[j])
    decreases |h| - c
  {
    if c + 1 == |h| then |h|
    else if IsDouble(h[c + 1]) then c + 1
    else FirstDoubleAfter(h, c + 1)
  }

  /** What the backward scan records of the doubles after position c. */
  function DoublesAfter(h: History, c: int): (bool, int)
    requires -1 <= c < |h|
  {
    var d := FirstDoubleAfter(h, c);
    if d < |h| then (true, h[d].dbType) else (false, ZERO_SUIT)
  }

  predicate AllPass(h: History, from: nat) {
    forall i :: from <= i < |h| ==> IsPass(h[i])
  }

  /** Law 22: the auction is over after four or more calls of which the last three are passes. */
  predicate Complete(h: History) {
    |h| >= 4 && IsPass(h[|h| - 1]) && IsPass(h[|h| - 2]) && IsPass(h[|h| - 3])
  }

  predicate NeedReBid(h: History) {
    Complete(h) && IsPass(h[|h| - 4])
  }

  /** The call the outcome rests on: the standing contract, or, if nobody has bid, the first double or redouble. A
      run never comes to the latter. */
  function BasisAt(h: History): (i: nat)
    ensures i <= |h|
  {
    if ContractAt(h) >= 0 then ContractAt(h) else if h == [] then 0 else FirstDoubleAfter(h, -1)
  }

  /** The basis is the standing contract; without one it is the first double or redouble, which nothing but passes
      precede. */
  lemma BasisIsContractOrFirstDouble(h: History)
    ensures ContractAt(h) >= 0 ==> BasisAt(h) == ContractAt(h)
    ensures ContractAt(h) < 0 && BasisAt(h) < |h| ==> IsDouble(h[BasisAt(h)])
    ensures ContractAt(h) < 0 ==> forall j :: 0 <= j < BasisAt(h) ==> IsPass(h[j])
  {
    if ContractAt(h) < 0 {
      forall j | 0 <= j < BasisAt(h) ensures IsPass(h[j]) {
        CallKinds(h[j]);
      }
    }
  }

  lemma FinishedHasBasis(h: History)
    requires Complete(h) && !NeedReBid(h)
    ensures BasisAt(h) < |h|
  {
    CallKinds(h[|h| - 4]);
  }

  /** The answer the auction must produce, stated on the history alone. */
  function Outcome(h: History): PlayInfo
    requires BasisAt(h) < |h|
  {
    var c := BasisAt(h);
    var declarer := h[FirstOfSide(h, c)].bidder;
    var (isDouble, dbType) := DoublesAfter(h, ContractAt(h));
    PlayInfo(Next(declarer), declarer, Partner(declarer), SuitOf(h[c].value), Record(isDouble, dbType, h[c].value))
  }

  // ---------- the class ----------

  /** Calls are stamped with strictly increasing times. */
  ghost predicate Stamped(h: History, clock: int) {
    && (forall i :: 0 <= i < |h| ==> 0 < h[i].t <= clock)
    && (forall i, j :: 0 <= i < j < |h| ==> h[i].t < h[j].t)
  }

  /** A key is present iff the seat named the denomination, and maps to the time of its first such call. */
  ghost predicate IndexAgrees(h: History, index: map<int, nat>) {
    forall token :: EntryAgrees(h, index, token)
  }

  ghost predicate EntryAgrees(h: History, index: map<int, nat>, token: int) {
    && (token in index <==> FirstAt(h, token) < |h|)
    && (token in index ==> index[token] == h[FirstAt(h, token)].t)
  }

  /** A missing key reads as the zero time. */
  function Lookup(index: map<int, nat>, token: int): nat {
    if token in index then index[token] else 0
  }

  class BidHistory {
    var h: History
    var histories: map<int, nat>
    var clock: nat

    ghost predicate Valid()
      reads this
    {
      Stamped(h, clock) && IndexAgrees(h, histories)
    }

    constructor ()
      ensures Valid() && h == [] && clock == 0
    {
      h := [];
      histories := map[];
      clock := 0;
    }

    method LastBid() returns (bid: Call)
      ensures bid == StandingBid(h)
    {
      var l := |h|;
      var shift := 1;
      if l < 1 {
        return 1;
      }
      while shift <= l
        invariant 1 <= shift <= l + 1
        invariant forall j :: l - shift < j < l ==> !IsContract(h[j])
      {
        CallKinds(h[l - shift]);
        if IsCrucial(h[l - shift]) && !IsDouble(h[l - shift]) {
          return h[l - shift].value;
        }
        shift := shift + 1;
      }
      return 1;
    }

    method Bid(seat: Seat, bid: Call) returns (item: BidItem)
      requires Valid()
      modifies this
      ensures Valid()
      ensures item == CreateBidItem(seat, bid, old(clock) + 1)
      ensures h == old(h) + [item] && clock == old(clock) + 1
    {
      item := CreateBidItem(seat, bid, clock + 1);
      AppendKeepsIndex(h, histories, item);
      var token := Key(seat, SuitOf(bid));
      assert token == Token(item);
      clock, h := clock + 1, h + [item];
      if token !in histories {
        histories := histories[token := item.t];
      }
    }

    method Clear()
      modifies this
      ensures Valid() && h == [] && clock == old(clock)
    {
      h := [];
      histories := map[];
    }

    method IsBidFinishedOrReBid() returns (bidComplete: bool, needReBid: bool)
      ensures bidComplete == Complete(h) && needReBid == NeedReBid(h)
    {
      var l := |h|;
      if l < 4 {
        return false, false;
      }
      var last1, last2, last3, last4 := h[l - 1], h[l - 2], h[l - 3], h[l - 4];
      CallKinds(last4);
      bidComplete :=
        (IsPass(last1) && IsPass(last2) && IsPass(last3) && IsCrucial(last4))
        || (IsPass(last1) && IsPass(last2) && IsPass(last3) && IsDouble(last4))
        || (IsPass(last1) && IsPass(last2) && IsPass(last3) && IsPass(last4));
      needReBid := IsPass(last1) && IsPass(last2) && IsPass(last3) && IsPass(last4);
    }

    /** The backward scan of GameStartPlayInfo: the last contract, and what it records of the doubles it passes. */
    method ScanForContract() returns (at: nat, isDouble: bool, dbType: int)
      requires Complete(h) && !NeedReBid(h)
      ensures at == BasisAt(h) < |h|
      ensures (isDouble, dbType) == DoublesAfter(h, ContractAt(h))
    {
      var h := this.h;
      isDouble, dbType := false, ZERO_SUIT;
      var l := |h|;
      var shift, found := 1, l;
      while shift <= l
        invariant 1 <= shift <= l + 1
        invariant ContractAt(h) <= l - shift
        invariant found == FirstDoubleAfter(h, l - shift)
        invariant (isDouble, dbType) == DoublesAfter(h, l - shift)
      {
        ScanStep(h, l - shift);
        if IsCrucial(h[l - shift]) {
          if IsDouble(h[l - shift]) {
            found, isDouble, dbType := l - shift, true, h[l - shift].dbType;
          } else {
            return l - shift, isDouble, dbType;
          }
        }
        shift := shift + 1;
      }
      CallKinds(h[l - 4]);
      assert IsDouble(h[l - 4]);
      at := found;
    }

    /** Declarer, dummy, opening leader and contract. The error is exactly "not complete, or to be dealt again". */
    method GameStartPlayInfo() returns (info: PlayInfo)
      requires Valid()
      ensures info.NoContract? <==> !Complete(h) || NeedReBid(h)
      ensures info.PlayInfo? ==> BasisAt(h) < |h| && info == Outcome(h)
    {
      var bidComplete, needReBid := IsBidFinishedOrReBid();
      if !bidComplete || needReBid {
        return NoContract;
      }
      var at, isDouble, dbType := ScanForContract();
      OutcomeByTime(h, histories, clock);
      info := InfoByTime(h[at], histories, Record(isDouble, dbType, h[at].value));
    }
  }

  /** Opening leader, declarer and dummy from the bidder of the contract and the times at which the bidder and the
      partner first named the denomination; zero values when no case of the switch applies. */
  function RolesByTime(bidder: Seat, t1: nat, t2: nat): (Seat, Seat, Seat) {
    var partner := Partner(bidder);
    if (t1 != 0 && t2 == 0) || (t2 != 0 && t1 != 0 && t1 < t2) then (Next(bidder), bidder, partner)
    else if (t1 == 0 && t2 != 0) || (t2 != 0 && t1 != 0 && t2 < t1) then (Next(partner), partner, bidder)
    else (EAST, EAST, EAST)
  }

  /** The last part of GameStartPlayInfo: of the bidder of the contract and the partner, the one whose index entry for
      the denomination is earlier is declarer. */
  function InfoByTime(contract: BidItem, index: map<int, nat>, record: Record): PlayInfo {
    var contractSuit := SuitOf(contract.value);
    var t1 := Lookup(index, Key(contract.bidder, contractSuit));
    var t2 := Lookup(index, Key(Partner(contract.bidder), contractSuit));
    var (lead, declarer, dummy) := RolesByTime(contract.bidder, t1, t2);
    PlayInfo(lead, declarer, dummy, contractSuit, record)
  }

  /** Computing through the index of times gives the outcome the history determines. */
  lemma OutcomeByTime(h: History, index: map<int, nat>, clock: nat)
    requires Stamped(h, clock) && IndexAgrees(h, index)
    requires BasisAt(h) < |h|
    ensures var c := h[BasisAt(h)];
            var (isDouble, dbType) := DoublesAfter(h, ContractAt(h));
            InfoByTime(c, index, Record(isDouble, dbType, c.value)) == Outcome(h)
  {
    EarlierTimeIsDeclarer(h, index, clock, BasisAt(h));
  }

  lemma ScanStep(h: History, m: nat)
    requires m < |h|
    ensures IsCrucial(h[m]) && !IsDouble(h[m]) ==> ContractAt(h) >= m
    ensures !(IsCrucial(h[m]) && !IsDouble(h[m])) ==> ContractAt(h) != m
    ensures IsCrucial(h[m]) && IsDouble(h[m]) <==> FirstDoubleAfter(h, m - 1) == m
    ensures FirstDoubleAfter(h, m - 1) != m ==> FirstDoubleAfter(h, m - 1) == FirstDoubleAfter(h, m)
  {
    CallKinds(h[m]);
  }

  /** The index entry of a key of the history is the time of the first call with that key. */
  lemma LookupIsFirstTime(h: History, index: map<int, nat>, clock: nat, token: int)
    requires Stamped(h, clock) && IndexAgrees(h, index)
    ensures FirstAt(h, token) == |h| ==> Lookup(index, token) == 0
    ensures FirstAt(h, token) < |h| ==> Lookup(index, token) == h[FirstAt(h, token)].t > 0
  {
    assert EntryAgrees(h, index, token);
  }

  /** The times under two keys compare as the positions of their first calls. */
  lemma TimesCompareAsPositions(h: History, index: map<int, nat>, clock: nat, a: int, b: int)
    requires Stamped(h, clock) && IndexAgrees(h, index)
    requires FirstAt(h, a) < |h| && FirstAt(h, a) != FirstAt(h, b)
    ensures Lookup(index, a) != 0
    ensures FirstAt(h, a) < FirstAt(h, b) ==> Lookup(index, b) == 0 || Lookup(index, a) < Lookup(index, b)
    ensures FirstAt(h, b) < FirstAt(h, a) ==> 0 < Lookup(index, b) < Lookup(index, a)
  {
    LookupIsFirstTime(h, index, clock, a);
    LookupIsFirstTime(h, index, clock, b);
  }

  /** The first of the side of a call is its bidder or the partner, whoever comes first in the history. */
  lemma FirstOfSideIsBidderOrPartner(h: History, c: nat)
    requires c < |h|
    ensures var own, other := FirstAt(h, Token(h[c])), FirstAt(h, Key(Partner(h[c].bidder), SuitOf(h[c].value)));
            && own < |h| && own != other
            && h[FirstOfSide(h, c)].bidder == if own < other then h[c].bidder else Partner(h[c].bidder)
  {
  }

  /** Comparing the two index entries of the side of a call finds the first of that side, who is declarer if the
      call is the contract. */
  lemma EarlierTimeIsDeclarer(h: History, index: map<int, nat>, clock: nat, c: nat)
    requires Stamped(h, clock) && IndexAgrees(h, index) && c < |h|
    ensures var t1 := Lookup(index, Token(h[c]));
            var t2 := Lookup(index, Key(Partner(h[c].bidder), SuitOf(h[c].value)));
            var declarer := h[FirstOfSide(h, c)].bidder;
            RolesByTime(h[c].bidder, t1, t2) == (Next(declarer), declarer, Partner(declarer))
  {
    var a, b := Token(h[c]), Key(Partner(h[c].bidder), SuitOf(h[c].value));
    FirstOfSideIsBidderOrPartner(h, c);
    TimesCompareAsPositions(h, index, clock, a, b);
    RolesFollowTimes(h[c].bidder, Lookup(index, a), Lookup(index, b));
  }

  lemma RolesFollowTimes(bidder: Seat, t1: nat, t2: nat)
    requires t1 != 0 && t1 != t2
    ensures var declarer := if t2 == 0 || t1 < t2 then bidder else Partner(bidder);
            RolesByTime(bidder, t1, t2) == (Next(declarer), declarer, Partner(declarer))
  {
  }

  function FirstAfterAppend(h: History, x: BidItem, token: int): nat {
    if FirstAt(h, token) < |h| then FirstAt(h, token)
    else if Token(x) == token then |h|
    else |h| + 1
  }

  lemma AppendKeepsFirst(h: History, x: BidItem, token: int)
    requires WellFormed(x)
    ensures FirstAt(h + [x], token) == FirstAfterAppend(h, x, token)
  {
    var g: History := h + [x];
    assert forall j :: 0 <= j < |h| ==> g[j] == h[j];
    assert g[|h|] == x;
    assert FirstAt(h, token) < |h| ==> Token(g[FirstAt(h, token)]) == token;
    assert FirstAt(g, token) < |h| ==> Token(h[FirstAt(g, token)]) == token;
  }

  /** Appending a later call and adding its key when missing keeps the index in agreement with the history. */
  lemma AppendKeepsIndex(h: History, index: map<int, nat>, x: BidItem)
    requires WellFormed(x) && IndexAgrees(h, index)
    ensures Token(x) in index ==> IndexAgrees(h + [x], index)
    ensures Token(x) !in index ==> IndexAgrees(h + [x], index[Token(x) := x.t])
  {
    var next := if Token(x) in index then index else index[Token(x) := x.t];
    forall token ensures EntryAgrees(h + [x], next, token) {
      AppendKeepsEntry(h, index, x, token);
    }
  }

  lemma AppendKeepsEntry(h: History, index: map<int, nat>, x: BidItem, token: int)
    requires WellFormed(x) && EntryAgrees(h, index, token)
    ensures var next := if Token(x) in index then index else index[Token(x) := x.t];
            EntryAgrees(h + [x], next, token)
  {
    AppendKeepsFirst(h, x, token);
  }
}
