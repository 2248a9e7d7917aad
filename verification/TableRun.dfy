/** One table and its clients over a whole run. The server answers whatever it is sent; what is assumed here is that
    each client sends a message only if it is in order by what it was last told. Such clients never lead the table
    out of the machine of Session. */
module TableRuns {
  import opened Entities
  import opened BidManager
  import opened Auction
  import opened PlayLaws
  import opened CardPlay
  import opened Engines
  import opened Packs
  import opened Dealer
  import opened SeatRings
  import opened Games
  import S = Session

  /** A message of a client: a call, or a card from one of the hands. */
  datatype Message = CallMessage(zone: Seat, bid: Call) | CardMessage(zone: Seat, playSeat: Seat, card: Card)

  /** What chance brings if the message starts a new deal. */
  datatype Chance = Chance(swaps: Swapping, randomSeat: Seat)

  /** What it brings to a table that was last dealt `last`. */
  ghost function FreshOf(last: FullDeal, chance: Chance): S.Fresh {
    Brought(last, chance.swaps, chance.randomSeat)
  }

  /** What the players were last told. */
  datatype Told = ToCall(bidder: Seat, limit: Call, db: DoubleButton, db2: DoubleButton) | ToPlay(notice: PlayNotice)

  ghost predicate ToldRight(told: Told, s: S.Session) {
    match told
    case ToCall(bidder, limit, db, db2) =>
      s.phase == S.Bidding && bidder == S.DueCaller(s) && limit == StandingBid(s.h) && (db, db2) == ButtonsAfter(s.h)
    case ToPlay(notice) => s.phase == S.Playing && NoticeFits(notice, s.table, |s.log|)
  }

  function EventOf(m: Message): S.Event {
    match m
    case CallMessage(zone, bid) => S.Event.Call(zone, bid)
    case CardMessage(zone, playSeat, card) => S.Event.Card(Play(playSeat, card))
  }

  /** The hand a notice asks a card from. */
  function HandDue(notice: PlayNotice, dummy: int): int {
    if notice.isPlayAgent then dummy else notice.seat
  }

  /** The sender can tell that the message is in order: it is the one told to act, and calls within the limit and
      the buttons, or plays a card of the hand asked for within the range. */
  predicate InOrder(told: Told, m: Message, dummy: int, hand: seq<Slot>) {
    match told
    case ToCall(bidder, limit, db, db2) =>
      && m.CallMessage? && m.zone == bidder
      && (|| SuitOf(m.bid) == PASS
          || (SuitOf(m.bid) <= TRUMP && m.bid > limit)
          || (db.isOn && m.bid == db.value)
          || (db2.isOn && m.bid == db2.value))
    case ToPlay(notice) =>
      && m.CardMessage? && m.zone == notice.seat && m.playSeat == HandDue(notice, dummy)
      && m.card in hand && notice.range.minimum <= m.card <= notice.range.maximum
  }

  /** The right player sends the message. */
  predicate RightSender(m: Message, t: Table) {
    m.CardMessage? ==> m.zone == PlayTurn(t, m.playSeat).0
  }

  /** The table expects the message, and from this player. */
  ghost predicate Expected(s: S.Session, m: Message) {
    S.Keeps(s, EventOf(m)) && RightSender(m, s.table)
  }

  /** A message is in order by what was told iff the table expects it. */
  lemma InOrderIffKept(told: Told, m: Message, s: S.Session, hand: seq<Slot>)
    requires S.SessionInv(s) && ToldRight(told, s)
    requires m.CardMessage? ==> m.playSeat in s.table.hands && hand == s.table.hands[m.playSeat]
    ensures InOrder(told, m, s.table.dummy, hand) <==> Expected(s, m)
  {
  }

  function FirstCall(opener: Seat): Told {
    ToCall(opener, 1, DoubleButton(0, false), DoubleButton(0, false))
  }

  function ToldAfterCall(reply: BidReply): Told {
    match reply
    case NextCall(bidder, limit, db, db2) => ToCall(bidder, limit, db, db2)
    case NewDeal(opener) => FirstCall(opener)
    case PlayBegins(info, notice) => ToPlay(notice)
  }

  function ToldAfterCard(reply: CardReply): Told
    requires !reply.Refused?
  {
    match reply
    case NextCard(notice) => ToPlay(notice)
    case DealOver(opener) => FirstCall(opener)
  }

  lemma CallIsAnsweredRight(s: S.Session, zone: Seat, bid: Call, next: S.Fresh, reply: BidReply)
    requires s.phase == S.Bidding && ReplyFits(reply, S.Called(s, zone, bid).h, S.CallStep(s, zone, bid, next))
    ensures ToldRight(ToldAfterCall(reply), S.CallStep(s, zone, bid, next))
  {
  }

  lemma CardIsAnsweredRight(s: S.Session, p: Play, next: S.Fresh, reply: CardReply)
    requires s.phase == S.Playing && s.h == [] && p.seat in s.table.hands && !reply.Refused?
    requires CardReplyFits(reply, |s.log| + 1, S.PlayStep(s, p, next)) && (reply.DealOver? <==> |s.log| == 51)
    ensures ToldRight(ToldAfterCard(reply), S.PlayStep(s, p, next))
  {
  }

  method HandleCall(g: Game, zone: Seat, bid: Call, chance: Chance) returns (next: Told)
    requires g.Shape() && g.phase == S.Bidding
    modifies g, g.engine, g.engine.bidHistory, g.engine.bidOrder, g.deck, ArraysOf(g.deckInPlay), g.roomManager`ring
    ensures g.Shape() && ToldRight(next, g.State())
    ensures g.State() == S.CallStep(old(g.State()), zone, bid, FreshOf(old(g.dealt), chance))
  {
    ghost var before := g.State();
    var reply := g.GamePrivateNotyBid(zone, bid, chance.swaps, chance.randomSeat);
    CallIsAnsweredRight(before, zone, bid, FreshOf(before.deal, chance), reply);
    next := ToldAfterCall(reply);
  }

  lemma LeadIsAnsweredRight(s: S.Session, p: Play, notice: PlayNotice)
    requires s.phase == S.Playing && s.log == [] && p.seat in s.table.hands
    requires NoticeFits(notice, S.CardAt(s, 1, p).table, 1)
    ensures ToldRight(ToPlay(notice), S.CardAt(s, 1, p))
  {
  }

  method HandleLead(g: Game, leader: Seat, card: Card, ghost chance: Chance) returns (next: Told)
    requires g.Shape() && g.phase == S.Playing && g.log == [] && leader == g.lead
    modifies g, g.engine, g.deckInPlay[leader], g.roomManager`ring
    ensures g.Parts() && ToldRight(next, g.State())
    ensures g.State() == S.PlayStep(old(g.State()), Play(leader, card), FreshOf(old(g.dealt), chance))
  {
    ghost var before := g.State();
    var reply := g.GamePrivateFirstLead(leader, card, 1);
    LeadIsAnsweredRight(before, Play(leader, card), reply.notice);
    S.LeadIsFirstCard(before, Play(leader, card), FreshOf(before.deal, chance));
    next := ToldAfterCard(reply);
  }

  method HandleClick(g: Game, zone: Seat, playSeat: Seat, card: Card, number: nat, chance: Chance) returns (next: Told)
    requires g.Shape() && g.phase == S.Playing && g.State().h == []
    requires Fits(g.TableState(), number, Play(playSeat, card)) && zone == PlayTurn(g.TableState(), playSeat).0
    requires number == |g.log| + 1
    modifies g, g.engine, g.engine.bidOrder, g.deck, ArraysOf(g.deckInPlay), g.roomManager`ring
    ensures g.Shape() && ToldRight(next, g.State())
    ensures g.State() == S.PlayStep(old(g.State()), Play(playSeat, card), FreshOf(old(g.dealt), chance))
  {
    ghost var before := g.State();
    var reply := g.GamePrivateCardPlayClick(zone, playSeat, card, number, chance.swaps, chance.randomSeat);
    CardIsAnsweredRight(before, Play(playSeat, card), FreshOf(before.deal, chance), reply);
    next := ToldAfterCard(reply);
  }

  /** A message in order is handled. */
  method HandleInOrder(g: Game, told: Told, m: Message, chance: Chance) returns (next: Told)
    requires g.Shape() && S.SessionInv(g.State()) && ToldRight(told, g.State())
    requires Expected(g.State(), m)
    modifies g, g.engine, g.engine.bidHistory, g.engine.bidOrder, g.deck, ArraysOf(g.deckInPlay), g.roomManager`ring
    ensures g.Shape() && ToldRight(next, g.State())
    ensures g.State() == S.After(old(g.State()), EventOf(m), FreshOf(old(g.dealt), chance))
  {
    match m
    case CallMessage(zone, bid) => next := HandleCall(g, zone, bid, chance);
    case CardMessage(zone, playSeat, card) =>
      if told.notice.numOfCardPlayHitting == 1 {
        next := HandleLead(g, zone, card, chance);
      } else {
        TrickIsReady(g.State(), Play(playSeat, card));
        next := HandleClick(g, zone, playSeat, card, told.notice.numOfCardPlayHitting, chance);
      }
  }

  /** One message of a client that sends it only if it is in order. */
  method Handle(g: Game, told: Told, m: Message, chance: Chance) returns (next: Told, sent: bool)
    requires g.Shape() && S.SessionInv(g.State()) && ToldRight(told, g.State())
    modifies g, g.engine, g.engine.bidHistory, g.engine.bidOrder, g.deck, ArraysOf(g.deckInPlay), g.roomManager`ring
    ensures g.Shape() && ToldRight(next, g.State())
    ensures sent <==> Expected(old(g.State()), m)
    ensures sent ==> g.State() == S.After(old(g.State()), EventOf(m), FreshOf(old(g.dealt), chance))
    ensures !sent ==> g.State() == old(g.State())
  {
    var hand := if m.CardMessage? then g.deckInPlay[m.playSeat][..] else [];
    InOrderIffKept(told, m, g.State(), hand);
    sent := InOrder(told, m, g.dummy, hand);
    next := told;
    if sent {
      next := HandleInOrder(g, told, m, chance);
    }
  }

  // ---------- whole runs ----------

  /** The run made by clients with these messages in mind: of each message that is expected when its turn comes, the
      event, with what its chance makes of the deal before. The other messages are never sent. */
  ghost function RunOf(start: S.Session, messages: seq<(Message, Chance)>): seq<(S.Event, S.Fresh)> {
    if messages == [] then []
    else
      var (m, chance) := messages[|messages| - 1];
      OneMore(start, RunOf(start, messages[..|messages| - 1]), m, chance)
  }

  ghost function OneMore(start: S.Session, run: seq<(S.Event, S.Fresh)>, m: Message, chance: Chance)
    : seq<(S.Event, S.Fresh)>
  {
    var s := S.AfterRun(start, run);
    if Expected(s, m) then run + [(EventOf(m), FreshOf(s.deal, chance))] else run
  }

  lemma RunGoesOn(start: S.Session, messages: seq<(Message, Chance)>, m: Message, chance: Chance)
    ensures RunOf(start, messages + [(m, chance)]) == OneMore(start, RunOf(start, messages), m, chance)
  {
    assert (messages + [(m, chance)])[..|messages|] == messages;
  }

  /** It is a run of the machine. */
  lemma {:induction false} RunOfIsRun(start: S.Session, messages: seq<(Message, Chance)>)
    ensures S.IsRun(start, RunOf(start, messages))
  {
    if messages != [] {
      var (m, chance) := messages[|messages| - 1];
      var run := RunOf(start, messages[..|messages| - 1]);
      RunOfIsRun(start, messages[..|messages| - 1]);
      if Expected(S.AfterRun(start, run), m) {
        S.RunGoesOn(start, run, EventOf(m), FreshOf(S.AfterRun(start, run).deal, chance));
      }
    }
  }

  /** What holds of the table between two messages. */
  ghost predicate InStep(told: Told, s: S.Session, start: S.Session, messages: seq<(Message, Chance)>) {
    ToldRight(told, s) && s == S.AfterRun(start, RunOf(start, messages))
  }

  lemma InStepIsSafe(told: Told, s: S.Session, start: S.Session, messages: seq<(Message, Chance)>)
    requires S.SessionInv(start) && InStep(told, s, start, messages)
    ensures S.SessionInv(s)
  {
    RunOfIsRun(start, messages);
    S.EveryRunIsSafe(start, RunOf(start, messages));
  }

  lemma StaysInStep(told: Told, s: S.Session, start: S.Session, messages: seq<(Message, Chance)>,
                    m: Message, chance: Chance, now: Told, u: S.Session)
    requires InStep(told, s, start, messages) && ToldRight(now, u)
    requires Expected(s, m) ==> u == S.After(s, EventOf(m), FreshOf(s.deal, chance))
    requires !Expected(s, m) ==> u == s
    ensures InStep(now, u, start, messages + [(m, chance)])
  {
    RunGoesOn(start, messages, m, chance);
    if Expected(s, m) {
      RunOfIsRun(start, messages);
      S.RunGoesOn(start, RunOf(start, messages), EventOf(m), FreshOf(s.deal, chance));
    }
  }

  method ServeOne(g: Game, told: Told, m: Message, chance: Chance, ghost start: S.Session,
                  ghost messages: seq<(Message, Chance)>)
    returns (now: Told)
    requires g.Shape() && S.SessionInv(start)
    requires InStep(told, g.State(), start, messages)
    modifies g, g.engine, g.engine.bidHistory, g.engine.bidOrder, g.deck, ArraysOf(g.deckInPlay), g.roomManager`ring
    ensures g.Shape() && InStep(now, g.State(), start, messages + [(m, chance)])
  {
    ghost var before := g.State();
    InStepIsSafe(told, before, start, messages);
    var sent;
    now, sent := Handle(g, told, m, chance);
    StaysInStep(told, before, start, messages, m, chance, now, g.State());
  }

  lemma MessagesSoFar(messages: seq<(Message, Chance)>, i: nat)
    requires i <= |messages|
    ensures i < |messages| ==> messages[..i] + [(messages[i].0, messages[i].1)] == messages[..i + 1]
    ensures messages[..0] == [] && messages[..|messages|] == messages
  {
  }

  method ServeAll(g: Game, told: Told, messages: seq<(Message, Chance)>, ghost start: S.Session) returns (now: Told)
    requires g.Shape() && S.SessionInv(start) && g.State() == start && ToldRight(told, start)
    modifies g, g.engine, g.engine.bidHistory, g.engine.bidOrder, g.deck, ArraysOf(g.deckInPlay), g.roomManager`ring
    ensures g.Shape() && InStep(now, g.State(), start, messages)
  {
    now := told;
    MessagesSoFar(messages, 0);
    for i := 0 to |messages|
      invariant g.Shape() && InStep(now, g.State(), start, messages[..i])
    {
      MessagesSoFar(messages, i);
      now := ServeOne(g, now, messages[i].0, messages[i].1, start, messages[..i]);
    }
  }

  method OpenTable(first: Chance) returns (g: Game, opener: Seat)
    ensures fresh(g) && fresh(g.engine) && fresh(g.engine.bidHistory) && fresh(g.engine.bidOrder)
    ensures fresh(g.deck) && fresh(ArraysOf(g.deckInPlay)) && fresh(g.roomManager)
    ensures g.Shape() && opener == first.randomSeat
    ensures S.SessionInv(g.State()) && IsOpening(g.State(), first)
  {
    g := new Game();
    opener := g.SendGameStart(first.swaps, first.randomSeat);
  }

  /** The first deal of a table: what chance makes of the new pack. */
  ghost predicate IsOpening(s: S.Session, first: Chance) {
    S.StartsDeal(s) && s.opener == first.randomSeat && s.deal == NextDeal(OneSuitEach(), first.swaps)
  }

  /** A table from its creation on, with clients that send a message only if it is in order by what they were last
      told. Whatever they have in mind to send, the table goes through the run made of the messages that are in
      order when their turn comes, and of no others, and it is in a good state. */
  method Serve(first: Chance, messages: seq<(Message, Chance)>) returns (g: Game, ghost start: S.Session)
    ensures fresh(g) && g.Shape() && IsOpening(start, first)
    ensures S.IsRun(start, RunOf(start, messages)) && g.State() == S.AfterRun(start, RunOf(start, messages))
    ensures S.SessionInv(g.State())
  {
    var opener;
    g, opener := OpenTable(first);
    start := g.State();
    var now := ServeAll(g, FirstCall(opener), messages, start);
    InStepIsSafe(now, g.State(), start, messages);
    RunOfIsRun(start, messages);
  }
}
