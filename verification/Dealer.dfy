/** game/dealer.go: one pack for the whole life of a table. The four hands of Game.Deck are slices of the deck array, so
    sorting a hand sorts a quarter of the deck in place; the play hands are copies. */
module Dealer {
  import opened Entities
  import opened PlayLaws
  import opened Packs

  /** The deck as a deal left it: the hands dealt are its quarters. */
  ghost predicate HoldsDeal(deck: array<Card>, d: FullDeal)
    reads deck
  {
    deck[..] == PackOf(d)
  }

  // ---------- operations ----------

  method Swap(deck: array<Card>, i: nat, j: nat)
    requires i < deck.Length && j < deck.Length
    modifies deck
    ensures deck[..] == Exchanged(old(deck[..]), i, j)
    ensures multiset(deck[..]) == old(multiset(deck[..]))
  {
    ExchangeKeepsCards(deck[..], i, j);
    deck[i], deck[j] := deck[j], deck[i];
  }

  /** rand.Shuffle: the swaps chance brings, in order. */
  method ShuffleDeck(deck: array<Card>, swaps: Swapping)
    requires deck.Length == 52
    modifies deck
    ensures deck[..] == Swapped(old(deck[..]), swaps)
  {
    for k := 0 to |swaps|
      invariant deck[..] == Swapped(old(deck[..]), swaps[..k])
    {
      assert swaps[..k + 1][..k] == swaps[..k];
      Swap(deck, swaps[k].0, swaps[k].1);
    }
    assert swaps[..|swaps|] == swaps;
  }

  /** sortHand on the slice [lo, hi) of the deck: sorts it in place and touches nothing else. */
  method SortHand(deck: array<Card>, lo: nat, hi: nat)
    requires lo <= hi <= deck.Length
    modifies deck
    ensures deck[lo..hi] == Sorted(old(deck[lo..hi]))
    ensures forall k :: 0 <= k < lo || hi <= k < deck.Length ==> deck[k] == old(deck[k])
  {
    var i := lo;
    while i < hi
      invariant lo <= i <= hi
      invariant Ascending(deck[..], lo, i)
      invariant forall k :: 0 <= k < lo || i <= k < deck.Length ==> deck[k] == old(deck[k])
      invariant multiset(deck[..]) == old(multiset(deck[..]))
    {
      SinkInto(deck, lo, i);
      i := i + 1;
    }
    SortedSlice(old(deck[..]), deck[..], lo, hi);
  }

  /** A slice that is in ascending order, when nothing else of the deck has moved, is sorted. */
  lemma SortedSlice(before: seq<Card>, after: seq<Card>, lo: nat, hi: nat)
    requires |before| == |after| && lo <= hi <= |after| && multiset(before) == multiset(after)
    requires Ascending(after, lo, hi)
    requires forall k :: 0 <= k < lo || hi <= k < |after| ==> after[k] == before[k]
    ensures after[lo..hi] == Sorted(before[lo..hi])
  {
    SliceCards(before, after, lo, hi);
    SortedIsAscending(before[lo..hi]);
    OneAscendingOrder(after[lo..hi], Sorted(before[lo..hi]));
  }

  lemma SliceCards(before: seq<Card>, after: seq<Card>, lo: nat, hi: nat)
    requires |before| == |after| && lo <= hi <= |after| && multiset(before) == multiset(after)
    requires forall k :: 0 <= k < lo || hi <= k < |after| ==> after[k] == before[k]
    ensures multiset(before[lo..hi]) == multiset(after[lo..hi])
  {
    assert before[..lo] == after[..lo] && before[hi..] == after[hi..];
    SliceOf(before, lo, hi);
    SliceOf(after, lo, hi);
  }

  lemma SliceOf(s: seq<Card>, lo: nat, hi: nat)
    requires lo <= hi <= |s|
    ensures multiset(s[lo..hi]) == multiset(s) - multiset(s[..lo]) - multiset(s[hi..])
  {
    assert s == s[..lo] + s[lo..hi] + s[hi..];
  }

  /** Moves the card at position i down to its place among the sorted cards before it. */
  method SinkInto(deck: array<Card>, lo: nat, i: nat)
    requires lo <= i < deck.Length && Ascending(deck[..], lo, i)
    modifies deck
    ensures Ascending(deck[..], lo, i + 1)
    ensures forall k :: 0 <= k < lo || i < k < deck.Length ==> deck[k] == old(deck[k])
    ensures multiset(deck[..]) == old(multiset(deck[..]))
  {
    var j := i;
    while j > lo && deck[j - 1] > deck[j]
      invariant lo <= j <= i
      invariant forall a, b :: lo <= a < b <= i && b != j ==> deck[a] <= deck[b]
      invariant forall k :: 0 <= k < lo || i < k < deck.Length ==> deck[k] == old(deck[k])
      invariant multiset(deck[..]) == old(multiset(deck[..]))
    {
      Swap(deck, j - 1, j);
      j := j - 1;
    }
  }

  /** The play hands of a table: four arrays of thirteen slots. */
  ghost predicate HandArrays(hands: map<Seat, array<Slot>>) {
    && (forall s: Seat :: s in hands && hands[s].Length == 13)
    && (forall s: Seat, t: Seat :: s != t ==> hands[s] != hands[t])
  }

  ghost function ArraysOf(hands: map<Seat, array<Slot>>): set<object> {
    set s | s in hands :: hands[s]
  }

  /** The cards in the play hands. */
  ghost function HandsOf(hands: map<Seat, array<Slot>>): map<Seat, seq<Slot>>
    reads ArraysOf(hands)
  {
    if HandArrays(hands) then
      map[EAST := hands[EAST][..], SOUTH := hands[SOUTH][..], WEST := hands[WEST][..], NORTH := hands[NORTH][..]]
    else map[]
  }

  /** inPlaySync for one seat. */
  method CopyHand(deck: array<Card>, lo: nat, hand: array<Slot>)
    requires lo + 13 <= deck.Length && hand.Length == 13
    modifies hand
    ensures hand[..] == deck[lo..lo + 13]
  {
    for i := 0 to 13
      invariant forall k :: 0 <= k < i ==> hand[k] == deck[lo + k]
    {
      hand[i] := deck[lo + i];
    }
  }

  /** Copies the four quarters of the deck into the play hands, whatever these held. */
  method InPlaySync(deck: array<Card>, hands: map<Seat, array<Slot>>)
    requires deck.Length == 52 && HandArrays(hands)
    modifies ArraysOf(hands)
    ensures HandsOf(hands) == DealOf(deck[..])
  {
    CopyHand(deck, 0, hands[EAST]);
    CopyHand(deck, 13, hands[SOUTH]);
    CopyHand(deck, 26, hands[WEST]);
    CopyHand(deck, 39, hands[NORTH]);
  }

  /** Sorts the four slices, in whatever order the map yields them. */
  method SortHands(deck: array<Card>)
    requires deck.Length == 52
    modifies deck
    ensures DealOf(deck[..]) == SortedDealOf(old(deck[..]))
  {
    var todo: set<Seat> := {EAST, SOUTH, WEST, NORTH};
    ghost var before := deck[..];
    while todo != {}
      invariant forall s: Seat ::
                  QuarterIs(deck[..], s, if s in todo then QuarterOf(before, s) else Sorted(QuarterOf(before, s)))
    {
      var s :| s in todo;
      ghost var was := deck[..];
      SortHand(deck, Quarter(s), Quarter(s) + 13);
      OtherQuartersStay(was, deck[..], s);
      todo := todo - {s};
    }
    assert QuarterIs(deck[..], EAST, Sorted(QuarterOf(before, EAST)));
    assert QuarterIs(deck[..], SOUTH, Sorted(QuarterOf(before, SOUTH)));
    assert QuarterIs(deck[..], WEST, Sorted(QuarterOf(before, WEST)));
    assert QuarterIs(deck[..], NORTH, Sorted(QuarterOf(before, NORTH)));
  }

  lemma OtherQuartersStay(before: seq<Card>, after: seq<Card>, s: Seat)
    requires |before| == |after| == 52
    requires forall k :: 0 <= k < Quarter(s) || Quarter(s) + 13 <= k < 52 ==> after[k] == before[k]
    ensures forall t: Seat {:trigger QuarterOf(after, t)} :: t != s ==> QuarterOf(after, t) == QuarterOf(before, t)
  {
  }

  function QuarterOf(s: seq<Card>, p: Seat): seq<Card>
    requires |s| == 52
  {
    s[Quarter(p)..Quarter(p) + 13]
  }

  predicate QuarterIs(s: seq<Card>, p: Seat, hand: seq<Card>)
    requires |s| == 52
  {
    QuarterOf(s, p) == hand
  }

  /** Shuffle: swaps, sorts the quarters in place, copies them into the play hands. Whatever the play hands held,
      they and the deck hold the deal that the swaps make of the one before. */
  method Shuffle(deck: array<Card>, hands: map<Seat, array<Slot>>, swaps: Swapping, ghost last: FullDeal)
    requires HoldsDeal(deck, last) && HandArrays(hands)
    modifies deck, ArraysOf(hands)
    ensures HoldsDeal(deck, NextDeal(last, swaps)) && HandsOf(hands) == NextDeal(last, swaps)
  {
    ShuffleDeck(deck, swaps);
    SortHands(deck);
    assert DealOf(deck[..]) == NextDeal(last, swaps);
    DealtPack(deck[..], NextDeal(last, swaps));
    InPlaySync(deck, hands);
  }

  lemma DealtPack(s: seq<Card>, d: FullDeal)
    requires |s| == 52 && DealOf(s) == d
    ensures s == PackOf(d)
  {
    assert s == s[0..13] + s[13..26] + s[26..39] + s[39..52];
  }

  /** NewDeck: the cards in ascending order, and a play hand for every seat. */
  method NewDeck() returns (deck: array<Card>, hands: map<Seat, array<Slot>>)
    ensures fresh(deck) && HoldsDeal(deck, OneSuitEach())
    ensures HandArrays(hands) && fresh(ArraysOf(hands))
    ensures HandsOf(hands) == OneSuitEach()
  {
    deck := new Card[52](i requires 0 <= i < 52 => i + 1);
    assert deck[..] == seq(52, i requires 0 <= i < 52 => i + 1);
    DealtPack(deck[..], OneSuitEach());
    var east, south, west, north := new Slot[13], new Slot[13], new Slot[13], new Slot[13];
    hands := map[EAST := east, SOUTH := south, WEST := west, NORTH := north];
    InPlaySync(deck, hands);
  }
}
