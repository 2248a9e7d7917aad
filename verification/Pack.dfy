/** The pack on values: how swaps move its cards, and how its sorted quarters are dealt. */
module Packs {
  import opened Entities
  import opened PlayLaws

  /** Where the slice of a seat starts in the deck. */
  function Quarter(s: Seat): (lo: nat)
    ensures lo + 13 <= 52
  {
    if s == EAST then 0 else if s == SOUTH then 13 else if s == WEST then 26 else 39
  }

  /** Every card once. */
  ghost predicate IsPack(s: seq<Card>) {
    |s| == 52 && forall c: Card :: multiset(s)[c] == 1
  }

  predicate Ascending(s: seq<Card>, lo: int, hi: int)
    requires 0 <= lo <= hi <= |s|
  {
    forall i, j :: lo <= i < j < hi ==> s[i] <= s[j]
  }

  function DealOf(s: seq<Card>): Deal
    requires |s| == 52
  {
    map[EAST := s[0..13], SOUTH := s[13..26], WEST := s[26..39], NORTH := s[39..52]]
  }

  /** The cards in ascending order, dealt out. */
  ghost function FirstDeal(): (d: Deal)
    ensures IsDeal(d)
    ensures d == DealOf(seq(52, i requires 0 <= i < 52 => i + 1))
  {
    var s: seq<Card> := seq(52, i requires 0 <= i < 52 => i + 1);
    NewDeckIsPack(s);
    SortedPackIsDeal(s);
    DealOf(s)
  }

  /** Hands that share out the pack. */
  type FullDeal = d: Deal | IsDeal(d) ghost witness FirstDeal()

  /** The deal of a new table: the cards in ascending order, before any shuffle. */
  ghost function OneSuitEach(): FullDeal {
    FirstDeal()
  }

  lemma NoCardTwice(s: seq<Card>, i: nat, j: nat)
    requires IsPack(s) && i < j < |s|
    ensures s[i] != s[j]
  {
    assert s == s[..i] + [s[i]] + s[i + 1..j] + [s[j]] + s[j + 1..];
    assert multiset(s) ==
           multiset(s[..i]) + multiset{s[i]} + multiset(s[i + 1..j]) + multiset{s[j]} + multiset(s[j + 1..]);
    assert multiset(s)[s[i]] == 1;
  }

  lemma QuarterIsIncreasing(s: seq<Card>, p: Seat)
    requires IsPack(s) && Ascending(s, Quarter(p), Quarter(p) + 13)
    ensures var d := DealOf(s);
            p in d && d[p] == s[Quarter(p)..Quarter(p) + 13] && Increasing(d[p])
  {
    var lo, hand := Quarter(p), DealOf(s)[p];
    assert hand == s[lo..lo + 13];
    forall i, j | 0 <= i < j < 13 ensures hand[i] < hand[j] {
      assert hand[i] == s[lo + i] && hand[j] == s[lo + j];
      NoCardTwice(s, lo + i, lo + j);
    }
  }

  lemma QuartersAreDisjoint(s: seq<Card>, p: Seat, q: Seat, c: Card)
    requires IsPack(s)
    requires c in s[Quarter(p)..Quarter(p) + 13] && c in s[Quarter(q)..Quarter(q) + 13]
    ensures p == q
  {
    var k :| Quarter(p) <= k < Quarter(p) + 13 && s[k] == c;
    var l :| Quarter(q) <= l < Quarter(q) + 13 && s[l] == c;
    if k < l {
      NoCardTwice(s, k, l);
    } else if l < k {
      NoCardTwice(s, l, k);
    }
  }

  lemma CardIsInAQuarter(s: seq<Card>, c: Card) returns (p: Seat)
    requires IsPack(s)
    ensures c in s[Quarter(p)..Quarter(p) + 13]
  {
    assert c in multiset(s);
    var k :| 0 <= k < 52 && s[k] == c;
    p := if k < 13 then EAST else if k < 26 then SOUTH else if k < 39 then WEST else NORTH;
    assert s[Quarter(p)..Quarter(p) + 13][k - Quarter(p)] == c;
  }

  /** A pack whose quarters are sorted is a deal: four strictly increasing hands that share out the 52 cards. */
  lemma SortedPackIsDeal(s: seq<Card>)
    requires IsPack(s) && forall p: Seat :: Ascending(s, Quarter(p), Quarter(p) + 13)
    ensures IsDeal(DealOf(s))
  {
    var d := DealOf(s);
    forall p: Seat ensures p in d && d[p] == s[Quarter(p)..Quarter(p) + 13] && Increasing(d[p]) {
      assert Ascending(s, Quarter(p), Quarter(p) + 13);
      QuarterIsIncreasing(s, p);
    }
    forall p: Seat, q: Seat, c: Card | DealtTo(d, p, c) && DealtTo(d, q, c) ensures p == q {
      QuartersAreDisjoint(s, p, q, c);
    }
    forall c: Card ensures Dealt(d, c) {
      var p := CardIsInAQuarter(s, c);
      assert DealtTo(d, p, c);
    }
  }

  lemma NewDeckIsPack(s: seq<Card>)
    requires |s| == 52 && forall i :: 0 <= i < 52 ==> s[i] == i + 1
    ensures IsPack(s)
  {
    forall c: Card ensures multiset(s)[c] == 1 {
      assert s == s[..c - 1] + [c] + s[c..];
      assert multiset(s) == multiset(s[..c - 1]) + multiset{c} + multiset(s[c..]);
      assert c !in s[..c - 1] && c !in s[c..];
    }
  }

  // ---------- swaps ----------

  /** The swaps of one shuffle. */
  type Swapping = s: seq<(nat, nat)> | forall k :: 0 <= k < |s| ==> s[k].0 < 52 && s[k].1 < 52

  function Exchanged(s: seq<Card>, i: nat, j: nat): (r: seq<Card>)
    requires i < |s| && j < |s|
    ensures |r| == |s| && r[i] == s[j] && r[j] == s[i]
    ensures forall k :: 0 <= k < |s| && k != i && k != j ==> r[k] == s[k]
  {
    s[i := s[j]][j := s[i]]
  }

  /** The pack after the swaps, first to last. */
  function Swapped(s: seq<Card>, swaps: Swapping): (r: seq<Card>)
    requires |s| == 52
    ensures |r| == 52
  {
    if swaps == [] then s
    else
      var n := |swaps| - 1;
      Exchanged(Swapped(s, swaps[..n]), swaps[n].0, swaps[n].1)
  }

  function OneSwap(i: nat, j: nat): Swapping
    requires i < 52 && j < 52
  {
    [(i, j)]
  }

  function Then(first: Swapping, rest: Swapping): Swapping {
    first + rest
  }

  /** A single swap exchanges two positions and nothing else. */
  lemma SwapExchanges(s: seq<Card>, i: nat, j: nat)
    requires |s| == 52 && i < 52 && j < 52
    ensures var r := Swapped(s, OneSwap(i, j));
            r[i] == s[j] && r[j] == s[i] && forall k :: 0 <= k < 52 && k != i && k != j ==> r[k] == s[k]
    ensures Swapped(s, OneSwap(i, j)) == Exchanged(s, i, j)
  {
    assert OneSwap(i, j)[..0] == [];
  }

  /** The swaps are made one after the other, each on what those before it have left. */
  lemma {:induction false} SwapsInOrder(s: seq<Card>, first: Swapping, rest: Swapping)
    requires |s| == 52
    ensures Swapped(s, Then(first, rest)) == Swapped(Swapped(s, first), rest)
  {
    if rest == [] {
      assert Then(first, rest) == first;
    } else {
      var n := |rest| - 1;
      SwapsInOrder(s, first, rest[..n]);
      LastOfBoth(first, rest);
    }
  }

  lemma LastOfBoth(first: Swapping, rest: Swapping)
    requires rest != []
    ensures var all, n := Then(first, rest), |rest| - 1;
            all != [] && all[..|all| - 1] == Then(first, rest[..n]) && all[|all| - 1] == rest[n]
  {
  }

  lemma ExchangeKeepsCards(s: seq<Card>, i: nat, j: nat)
    requires i < |s| && j < |s|
    ensures multiset(Exchanged(s, i, j)) == multiset(s)
  {
  }

  lemma {:induction false} SwapsKeepCards(s: seq<Card>, swaps: Swapping)
    requires |s| == 52
    ensures multiset(Swapped(s, swaps)) == multiset(s)
  {
    if swaps != [] {
      var n := |swaps| - 1;
      SwapsKeepCards(s, swaps[..n]);
      ExchangeKeepsCards(Swapped(s, swaps[..n]), swaps[n].0, swaps[n].1);
    }
  }

  /** Any order of the cards can be reached by swaps. */
  lemma {:induction false} SwapsReach(s: seq<Card>, t: seq<Card>, k: nat) returns (swaps: Swapping)
    requires |s| == |t| == 52 && multiset(s) == multiset(t) && k <= 52 && s[..k] == t[..k]
    ensures Swapped(s, swaps) == t
    decreases 52 - k
  {
    if k == 52 {
      swaps := [];
      assert s == s[..52] && t == t[..52];
    } else {
      var j := WhereItIs(s, t, k);
      var u := Exchanged(s, k, j);
      ExchangeKeepsCards(s, k, j);
      OneMoreInPlace(s, t, k, j);
      var rest := SwapsReach(u, t, k + 1);
      SwapExchanges(s, k, j);
      SwapsInOrder(s, OneSwap(k, j), rest);
      swaps := Then(OneSwap(k, j), rest);
    }
  }

  lemma OneMoreInPlace(s: seq<Card>, t: seq<Card>, k: nat, j: nat)
    requires |s| == |t| && k <= j < |s| && s[..k] == t[..k] && s[j] == t[k]
    ensures Exchanged(s, k, j)[..k + 1] == t[..k + 1]
  {
    assert forall i :: 0 <= i < k ==> s[i] == s[..k][i] && t[i] == t[..k][i];
  }

  /** Of two packs that agree up to k, the card that one holds at k is found in the other from k on. */
  lemma WhereItIs(s: seq<Card>, t: seq<Card>, k: nat) returns (j: nat)
    requires |s| == |t| && multiset(s) == multiset(t) && k < |s| && s[..k] == t[..k]
    ensures k <= j < |s| && s[j] == t[k]
  {
    assert s == s[..k] + s[k..] && t == t[..k] + t[k..];
    assert multiset(s) == multiset(s[..k]) + multiset(s[k..]);
    assert multiset(t) == multiset(t[..k]) + multiset(t[k..]);
    assert t[k..][0] == t[k];
    assert multiset(s[k..]) == multiset(s) - multiset(s[..k]) == multiset(t[k..]);
    assert t[k] in multiset(s[k..]);
    var i :| 0 <= i < |s[k..]| && s[k..][i] == t[k];
    j := k + i;
  }

  // ---------- sorting ----------

  function Inserted(c: Card, s: seq<Card>): seq<Card> {
    if s == [] || c <= s[0] then [c] + s else [s[0]] + Inserted(c, s[1..])
  }

  /** The cards of s in ascending order. */
  function Sorted(s: seq<Card>): seq<Card> {
    if s == [] then [] else Inserted(s[0], Sorted(s[1..]))
  }

  lemma {:induction false} InsertedCards(c: Card, s: seq<Card>)
    ensures multiset(Inserted(c, s)) == multiset{c} + multiset(s)
    ensures |Inserted(c, s)| == |s| + 1
  {
    if s != [] && c > s[0] {
      InsertedCards(c, s[1..]);
      WithoutFirst(s);
    }
  }

  lemma {:induction false} InsertedIsAscending(c: Card, s: seq<Card>)
    requires Ascending(s, 0, |s|)
    ensures Ascending(Inserted(c, s), 0, |Inserted(c, s)|)
    ensures Inserted(c, s)[0] == if s == [] || c <= s[0] then c else s[0]
  {
    if s != [] && c > s[0] {
      InsertedIsAscending(c, s[1..]);
    }
  }

  /** Sorting keeps the cards and puts them in ascending order. */
  lemma {:induction false} SortedIsAscending(s: seq<Card>)
    ensures Ascending(Sorted(s), 0, |Sorted(s)|)
    ensures multiset(Sorted(s)) == multiset(s) && |Sorted(s)| == |s|
  {
    if s != [] {
      SortedIsAscending(s[1..]);
      InsertedCards(s[0], Sorted(s[1..]));
      InsertedIsAscending(s[0], Sorted(s[1..]));
      WithoutFirst(s);
    }
  }

  /** There is only one ascending order. */
  lemma {:induction false} OneAscendingOrder(a: seq<Card>, b: seq<Card>)
    requires Ascending(a, 0, |a|) && Ascending(b, 0, |b|) && multiset(a) == multiset(b)
    ensures a == b
    decreases |a|
  {
    assert |multiset(a)| == |a| && |multiset(b)| == |b|;
    if a != [] {
      SameLeast(a, b);
      WithoutFirst(a);
      WithoutFirst(b);
      OneAscendingOrder(a[1..], b[1..]);
    }
  }

  lemma SameLeast(a: seq<Card>, b: seq<Card>)
    requires Ascending(a, 0, |a|) && Ascending(b, 0, |b|) && multiset(a) == multiset(b) && a != [] && b != []
    ensures a[0] == b[0]
  {
    assert a[0] in multiset(b) && b[0] in multiset(a);
    var i :| 0 <= i < |b| && b[i] == a[0];
    var j :| 0 <= j < |a| && a[j] == b[0];
  }

  lemma WithoutFirst(a: seq<Card>)
    requires a != []
    ensures multiset(a[1..]) == multiset(a) - multiset{a[0]} && a == [a[0]] + a[1..]
  {
    assert a == [a[0]] + a[1..];
  }

  // ---------- dealing ----------

  /** Each seat is dealt its quarter of the pack, sorted. */
  function SortedDealOf(s: seq<Card>): Deal
    requires |s| == 52
  {
    map[EAST := Sorted(s[0..13]), SOUTH := Sorted(s[13..26]), WEST := Sorted(s[26..39]), NORTH := Sorted(s[39..52])]
  }

  /** The pack with the hands of a deal in its quarters. */
  function PackOf(d: FullDeal): (s: seq<Card>)
    ensures |s| == 52
    ensures s[0..13] == d[EAST] && s[13..26] == d[SOUTH] && s[26..39] == d[WEST] && s[39..52] == d[NORTH]
  {
    assert forall p: Seat :: p in d && |d[p]| == 13;
    d[EAST] + d[SOUTH] + d[WEST] + d[NORTH]
  }

  lemma PackOfDealsIt(d: FullDeal)
    ensures DealOf(PackOf(d)) == d
  {
    assert forall p: Seat :: p in d;
  }

  /** A deal is a pack. */
  lemma DealIsPack(d: FullDeal)
    ensures IsPack(PackOf(d))
  {
    var s: seq<Card> := PackOf(d);
    assert s == d[EAST] + d[SOUTH] + d[WEST] + d[NORTH];
    forall c: Card ensures multiset(s)[c] == 1 {
      assert Dealt(d, c);
      var p: Seat :| DealtTo(d, p, c);
      forall q: Seat ensures multiset(d[q])[c] == if q == p then 1 else 0 {
        assert DealtTo(d, q, c) ==> p == q;
        CardInHandOnce(d[q], c);
      }
    }
  }

  lemma CardInHandOnce(hand: seq<Card>, c: Card)
    requires Increasing(hand)
    ensures multiset(hand)[c] == if c in hand then 1 else 0
  {
    if c in hand {
      var k :| 0 <= k < |hand| && hand[k] == c;
      assert hand == hand[..k] + [c] + hand[k + 1..];
      assert multiset(hand) == multiset(hand[..k]) + multiset{c} + multiset(hand[k + 1..]);
      assert c !in hand[..k] && c !in hand[k + 1..];
    }
  }

  /** Sorting the quarters of a pack deals it. */
  lemma SortedQuartersAreDeal(s: seq<Card>)
    requires IsPack(s)
    ensures IsDeal(SortedDealOf(s))
  {
    var d := SortedDealOf(s);
    forall p: Seat ensures p in d && |d[p]| == 13 && Increasing(d[p]) {
      SortedDealAt(s, p);
      SortedQuarterIsHand(s, p);
    }
    forall p: Seat, q: Seat, c: Card | DealtTo(d, p, c) && DealtTo(d, q, c) ensures p == q {
      DealtIffInQuarter(s, p, c);
      DealtIffInQuarter(s, q, c);
      QuartersAreDisjoint(s, p, q, c);
    }
    forall c: Card ensures Dealt(d, c) {
      var p := CardIsInAQuarter(s, c);
      DealtIffInQuarter(s, p, c);
    }
  }

  lemma SortedDealAt(s: seq<Card>, p: Seat)
    requires |s| == 52
    ensures p in SortedDealOf(s) && SortedDealOf(s)[p] == Sorted(s[Quarter(p)..Quarter(p) + 13])
  {
  }

  lemma DealtIffInQuarter(s: seq<Card>, p: Seat, c: Card)
    requires |s| == 52
    ensures DealtTo(SortedDealOf(s), p, c) <==> c in s[Quarter(p)..Quarter(p) + 13]
  {
    SortedDealAt(s, p);
    SortedHasSameCards(s[Quarter(p)..Quarter(p) + 13], c);
  }

  lemma SortedHasSameCards(s: seq<Card>, c: Card)
    ensures c in Sorted(s) <==> c in s
  {
    SortedIsAscending(s);
    assert c in Sorted(s) <==> c in multiset(Sorted(s));
    assert c in s <==> c in multiset(s);
  }

  lemma SortedQuarterIsHand(s: seq<Card>, p: Seat)
    requires IsPack(s)
    ensures var hand := Sorted(s[Quarter(p)..Quarter(p) + 13]); |hand| == 13 && Increasing(hand)
  {
    var quarter := s[Quarter(p)..Quarter(p) + 13];
    SortedIsAscending(quarter);
    NoneTwice(quarter, Sorted(quarter), s, Quarter(p));
  }

  lemma NoneTwice(quarter: seq<Card>, hand: seq<Card>, s: seq<Card>, lo: nat)
    requires IsPack(s) && lo + 13 <= 52 && quarter == s[lo..lo + 13]
    requires multiset(hand) == multiset(quarter) && Ascending(hand, 0, |hand|)
    ensures Increasing(hand)
  {
    forall i, j | 0 <= i < j < |hand| ensures hand[i] < hand[j] {
      if hand[i] == hand[j] {
        TwiceInMultiset(hand, i, j);
        QuarterInPack(s, lo, hand[i]);
      }
    }
  }

  lemma TwiceInMultiset(s: seq<Card>, i: nat, j: nat)
    requires i < j < |s| && s[i] == s[j]
    ensures multiset(s)[s[i]] >= 2
  {
    assert s == s[..i] + [s[i]] + s[i + 1..j] + [s[j]] + s[j + 1..];
    assert multiset(s) ==
           multiset(s[..i]) + multiset{s[i]} + multiset(s[i + 1..j]) + multiset{s[j]} + multiset(s[j + 1..]);
  }

  lemma QuarterInPack(s: seq<Card>, lo: nat, c: Card)
    requires lo + 13 <= |s|
    ensures multiset(s[lo..lo + 13])[c] <= multiset(s)[c]
  {
    assert s == s[..lo] + s[lo..lo + 13] + s[lo + 13..];
    assert multiset(s) == multiset(s[..lo]) + multiset(s[lo..lo + 13]) + multiset(s[lo + 13..]);
  }

  /** The deal that a shuffle makes of the pack as the last deal left it: the pack is swapped, and each seat is
      dealt its quarter, sorted. */
  ghost function NextDeal(last: FullDeal, swaps: Swapping): FullDeal {
    var s := Swapped(PackOf(last), swaps);
    SwappedIsPack(PackOf(last), swaps);
    DealIsPack(last);
    SortedQuartersAreDeal(s);
    SortedDealOf(s)
  }

  lemma SwappedIsPack(s: seq<Card>, swaps: Swapping)
    requires |s| == 52
    ensures IsPack(s) ==> IsPack(Swapped(s, swaps))
  {
    SwapsKeepCards(s, swaps);
  }

  /** A seat is dealt a card iff the swaps leave it in the quarter of the seat. */
  lemma DealtFromQuarter(last: FullDeal, swaps: Swapping, p: Seat, c: Card)
    ensures DealtTo(NextDeal(last, swaps), p, c) <==> c in Swapped(PackOf(last), swaps)[Quarter(p)..Quarter(p) + 13]
  {
    DealtIffInQuarter(Swapped(PackOf(last), swaps), p, c);
  }

  /** Every deal can follow every other: some shuffle makes it. */
  lemma EveryDealCanFollow(last: FullDeal, next: FullDeal) returns (swaps: Swapping)
    ensures NextDeal(last, swaps) == next
  {
    DealIsPack(last);
    DealIsPack(next);
    SamePack(PackOf(last), PackOf(next));
    swaps := SwapsReach(PackOf(last), PackOf(next), 0);
    SortedHandsStay(next);
  }

  lemma SamePack(s: seq<Card>, t: seq<Card>)
    requires IsPack(s) && IsPack(t)
    ensures multiset(s) == multiset(t)
  {
    forall c: Card ensures multiset(s)[c] == multiset(t)[c] {
    }
  }

  lemma SortedHandsStay(d: FullDeal)
    ensures SortedDealOf(PackOf(d)) == d
  {
    assert forall p: Seat :: p in d && Increasing(d[p]);
    forall p: Seat ensures Sorted(d[p]) == d[p] {
      SortedIsAscending(d[p]);
      OneAscendingOrder(Sorted(d[p]), d[p]);
    }
  }

  /** A new table's hands, before any shuffle: East has the clubs, South the diamonds, West the hearts, North the
      spades. */
  lemma FirstDealIsBySuit(p: Seat, c: Card)
    ensures DealtTo(OneSuitEach(), p, c) <==>
            CardSuit(c) ==
            if p == EAST then CLUB else if p == SOUTH then DIAMOND else if p == WEST then HEART else SPADE
  {
    var k := c - 1;
    var s: seq<Card> := seq(52, i requires 0 <= i < 52 => i + 1);
    assert s[k] == c;
    assert s[Quarter(p)..Quarter(p) + 13] == FirstDeal()[p];
    if Quarter(p) <= k < Quarter(p) + 13 {
      assert FirstDeal()[p][k - Quarter(p)] == c;
    }
  }
}
