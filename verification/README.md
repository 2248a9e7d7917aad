# A contract-bridge table, verified

The server keeps bridge tables: it seats four players, deals, runs the auction, works out the contract, tells each
player which cards may be played, resolves the tricks and deals again. This project models one table as a state
machine in its entirety - deal, auction, then a new deal or thirteen tricks, settlement, next deal - with the
messaging taken out, and proves that it keeps the Laws of Duplicate Bridge (WBF, 2017) over every run, or says
exactly where it does not. The counter of the site's users (`counter.go`) is modelled as well.

## How it is organised

| file | content |
|---|---|
| `Entities.dfy` | seats, calls, cards and the constant tables |
| `BidManager.dfy` | one call; the history with its first-naming index and its backward scans (class `BidHistory`) |
| `Auction.dfy` | whole auctions: Laws 18, 19, 22, declarer, termination |
| `PlayLaws.dfy` | Laws 41 and 44 stated without reference to the server, and what every legal record of plays keeps |
| `Engine.dfy` | the rules engine (class `Engine`): what the next caller is offered, the trick resolvers |
| `CardPlay.dfy` | the state of the table during play on values, and its relation to `PlayLaws` |
| `Pack.dfy` | the pack on values: what swaps do to it, sorting, and the deal that follows a deal |
| `Dealer.dfy` | shuffling, sorting through aliased slices, copying into the play hands, all in place |
| `SeatRing.dfy` | the ring of four seats and the requests it serves (class `SeatRing`) |
| `Session.dfy` | the table as one machine over many deals, and its invariant |
| `Game.dfy` | class `Game`: the handlers on real arrays and fields, each proved to take the step of `Session` |
| `TableRun.dfy` | one table over a whole run, with clients that send only what is in order by what they were last told |
| `DealRun.dfy` | runs of a deal: a longest one, and two that show what goes wrong outside the discipline of the clients |
| `BidBoard.dfy` | the layout of the auction in rows of four |
| `Counter.dfy` | the users in the lobby and in each room (class `Counter`) |

The code changes its state step by step, and so does the model: `BidHistory`, `Engine`, `Game`, `SeatRing` and
`Counter` are classes whose methods reassign the fields and write the arrays the source writes. Each method is
proved against a function on values (`Session.CallStep`, `Session.PlayStep`, `SeatRings.Answer`, `Counters.Step`,
`BidManager.Outcome`, ...), and the theorems are about those functions and about all runs of them. `Game` keeps
ghost fields for the phase, the opener, the hands as dealt and the log of plays, so that a reachable state can be
compared with what happened before it.

The main chain of results is this. `Auction.AuctionRun` is any sequence of calls made in turn within what was
offered. Its contracts increase, its doubles are lawful, it ends within 179 calls (a bound that is attained), and
the outcome reported is the lawful one. `PlayLaws.LegalRecord` is any sequence of plays Law 44 allows.
`CardPlay.NoticesAdmitLegalRecords` shows that the plays admitted by the server's notices are exactly the legal
records, whatever the deal and the contract. `Session.SessionInv` joins the two; `StepKeepsSession` and
`EveryRunIsSafe` carry it over any number of deals, `CardsAreAccountedFor` reads conservation of the 52 cards off
it, `NeverBlocks` and `EveryDealEnds` give progress, within 231 events a deal, and `DealRuns.LongestDeal` attains
that bound. The handlers of `Game` are specified for any message, and for the messages the table expects they take
exactly these steps. `TableRuns.Serve` closes the chain: it creates a `Game` and serves clients that send a message
only if it is in order by what they were last told. Of whatever they have in mind to send, exactly the messages
expected when their turn comes make the run the table goes through (`TableRuns.RunOf`), with the deals and openers
chance brings, and the table is in its invariant at the end.

### What is assumed of clients

The server trusts its clients (the TODO at `game/bid_manager.go:148`). What it expects of them is a predicate,
`TableRuns.Expected`: the caller is the seat last notified; a call is a pass, a contract above the limit sent, or a
button that was on; a card is held by the seat due, lies in the notified interval, and comes from the player told to
act. `TableRuns.InOrderIffKept` shows that a client can decide this from the last notice and its own cards. The theorems
about runs are about such clients. The contracts of the handlers do not assume it: a call out of turn or below the limit
is recorded, and a card is played whoever holds it and whatever its number, with the state the source leaves (the one
limit is under "Left out").

### Where the code falls short of the Laws or of its own comments

Each of these is stated with the exact condition under which the code does what is promised, and with a concrete
witness beside it.

* Law 19 lets a player double after intervening passes. The server switches both buttons off after a pass. A double
  or redouble is offered iff it is lawful and the last call was not a pass (`OfferedDoubleIffLawful`,
  `LawfulDoubleNotOffered`).
* The backward scan for the contract overwrites REDOUBLE with the earlier DOUBLE, so a redoubled contract is
  reported as doubled. The reported kind is right iff nobody redoubled the contract (`ReportedDouble`,
  `RedoubleReportedAsDouble`).
* `findPlayer` does not look at the connection of the seat the ring happens to stand on. Its answer is independent
  of the position of the ring iff the seat has a live connection (`FindDependsOnDrift`,
  `VacantSeatFoundByPosition`).
* The total of all rooms is meant to be the sum over the rooms. Over runs of any length it is so throughout iff no
  event leaves a room showing 0 while the total is at least 1, and none joins a room below the 32-bit maximum while
  the total is at it (`TotalIsSumIff`; `LeavingAnEmptyRoom` and `TotalWraps` are runs from the start that break it,
  one by each event). It never exceeds the sum iff no join wraps the count of a room while the total, itself below
  the maximum, is no less than the other rooms together (`TotalIsBoundedIff`, `RoomWraps`). A table shows joins less
  leaves throughout iff none of its leaves finds it at 0 and none of its joins at the maximum, and so does the lobby
  (`TableShowsBalanceIff`, `TableMissesALeave`, `LobbyShowsBalanceIff`, `LobbyMissesALeave`).
* When a player leaves, the connections to be told are found by leaving out the seat whose zone the user record holds,
  which need not be the seat left. All who stay are told iff that zone is the seat left or nobody sits there
  (`AllWhoStayAreToldIff`, `PlayerNotTold`).
* A card of dummy that somebody other than declarer sends is refused only after it has left the hand and the turn has
  passed. The table stays in a good state iff it was not the 52nd card; after the 52nd the deal is not settled and no
  message is expected any more, so the table stands still (`RefusedCardIsSafeIff`, `RefusedLastCard`).
* A lead sent again by the leader is taken for play number 1 once more. The table stays in a good state iff it expected
  that very card, it is not the last, and a lead does there what the card should have done: as the first of a trick,
  following suit as the second or third, or as the fourth of a trick its leader wins (`RepeatedLeadIsSafeIff`,
  `RepeatedLead`).

## Model

| member | source | states |
|---|---|---|
| Entities.SeatsGoRound | game/entities.go:68-76 | the four seats form one clockwise cycle; two steps from a seat sits its partner |
| Entities.PackingIsAddition | game/entities.go:385-399 | packing seat and value in a byte loses nothing: the two masks give both back |
| Entities.RangesAreSuits | game/entities.go:463-522 | both interval tables pick out exactly the cards of one suit; the "trump" interval of no-trumps is the whole pack, and that of no denomination the one card numbered ZeroSuit |
| BidManager.SeatBitsDoNotMatter | game/bid_manager.go:91-112 | the byte tests on a packed call see its value only, including the unsigned subtraction |
| BidManager.CallKinds | game/bid_manager.go:32-117 | the byte tests, the denomination table and the level agree: every call is exactly one of pass, contract, double, redouble |
| BidManager.DoublesOnTheSameLine | game/bid_manager.go:278-307 | for every call but a pass, the two values offered are the double and the redouble of the same level |
| BidManager.DeclarerNamedItFirst | game/bid_manager.go:234-256 | declarer is of the side that made the final bid and the first of that side to name its denomination (Definitions, "Declarer") |
| BidManager.AppendKeepsIndex | game/bid_manager.go:146-165 | appending a call and adding its key when missing keeps: a key is present iff that seat named that denomination, with the time of its first such call |
| BidManager.LookupIsFirstTime | game/bid_manager.go:237-241 | the index gives the time of the first call under a key, and the zero time iff there is none |
| BidManager.TimesCompareAsPositions | game/bid_manager.go:237-254 | comparing two entries of the index, a missing one reading as zero, is comparing the positions of the first namings |
| BidManager.EarlierTimeIsDeclarer | game/bid_manager.go:234-256 | for any call of the history, the switch over the two times finds which of its side first named its denomination, the partner and the next seat, and always falls in one of its cases |
| BidManager.OutcomeByTime | game/bid_manager.go:196-257 | what is computed through the time index equals the outcome defined on the plain history |
| BidManager.BasisIsContractOrFirstDouble | game/bid_manager.go:208-228 | the scan rests on the last contract; in an auction without one, on the first double, before which there are only passes |
| BidManager.BidHistory.constructor | game/bid_manager.go:120-125 | an empty history with an index that agrees with it |
| BidManager.BidHistory.LastBid | game/bid_manager.go:128-143 | the backward scan returns the last contract bid, or 1 when there is none |
| BidManager.BidHistory.Bid | game/bid_manager.go:146-165 | appends one stamped call and keeps history and index in agreement and the times increasing |
| BidManager.BidHistory.Clear | game/bid_manager.go:168-173 | empties history and index together; the clock goes on |
| BidManager.BidHistory.IsBidFinishedOrReBid | game/bid_manager.go:179-193 | complete iff at least four calls, the last three passes; to be dealt again iff all of the last four are |
| BidManager.BidHistory.ScanForContract | game/bid_manager.go:208-228 | the backward scan stops at the last contract, or at the first double of an auction without one, and reports the first double after the contract |
| BidManager.BidHistory.GameStartPlayInfo | game/bid_manager.go:196-257 | an error iff the auction is unfinished or passed out; otherwise the outcome the history alone determines, whether or not somebody has bid |
| Engines.Engine.constructor | game/engine.go:40-52 | a new engine has an empty history, no trump interval, vacant roles and no current seat |
| Engines.Engine.StartBid | game/engine.go:94-122 | the order of calls starts with the seat drawn and goes clockwise |
| Engines.Engine.GetNextBid | game/engine.go:124-159 | records the call; the limit sent is the standing contract, and the buttons follow from the last call alone |
| Engines.Engine.GameStartPlayInfo | game/engine.go:72-87 | the engine takes over lead, declarer, dummy and the trump interval of the contract; on the error nothing changes |
| Engines.Engine.PlayOrder | game/engine.go:165-194 | with the fourth player as current seat, the card led comes first and the others in the order played |
| Engines.Engine.PlayResultInTrump | game/engine.go:197-241 | at no-trumps the winner is the seat of the best play by Law 44F |
| Engines.Engine.PlayResultInSuit | game/engine.go:244-321 | in a suit contract the winner is the seat of the best play by Laws 44E and 44F |
| Engines.Engine.GetPlayResult | game/engine.go:325-341 | for any four distinct cards and any leader the lawful winner is returned and becomes the current seat (Law 44G) |
| Engines.TrickOfCards | game/engine.go:165-194 | the four records read as a trick hold one card of each seat |
| Engines.HighestTrumpTakesTrick | game/engine.go:244-296 | when trumps were played, the seat of the highest takes the trick, whoever led |
| PlayLaws.BestPlayWins | game/engine.go:197-341 | among distinct cards one play beats all others, only one does, and it is a trump or of the led suit |
| PlayLaws.BestPlayIsHighest | game/engine.go:197-341 | the winner has the highest trump if a trump was played, and otherwise the highest card of the suit led |
| Auction.OneMoreCall | game/engine.go:124-159 | a run goes on with any offered call; what is offered next, the new limit and when that ends the auction |
| Auction.BidOrderIsLaw18 | game/entities.go:214-272 | the numeric order of bids is Law 18's: level first, then denomination |
| Auction.BidsIncrease | game/engine.go:124-148 | in every run each bid is higher than all earlier ones |
| Auction.FinalContractIsHighest | game/bid_manager.go:196-232 | the contract reported at the end equals LastBid and is the unique highest bid, whatever passes and doubles follow |
| Auction.OfferedDoubleIffLawful | game/engine.go:133-150 | a double or redouble is offered iff Law 19 allows it and the last call was not a pass |
| Auction.LawfulDoubleNotOffered | game/engine.go:133-135 | a reachable auction in which Law 19 allows a double that is not offered |
| Auction.DoublesInRunAreLawful | game/engine.go:133-150 | in every run a double answers an opponent's contract on its level, a redouble answers such a double and is made by the contract's side |
| Auction.OnlyPassesBeforeTheFirstBid | game/engine.go:124-159 | before the first contract nothing but passes can have been called |
| Auction.AuctionEnd | game/bid_manager.go:179-193 | a run that just ended is four passes, exactly when a new deal is ordered, or a call other than pass and exactly three passes, with a contract bid |
| Auction.OutcomeIsLawful | game/bid_manager.go:196-273 | the reported outcome: highest bid, declarer first of the side to name the denomination, dummy the partner, opening lead from declarer's left (Law 41A) |
| Auction.ReportedDouble | game/bid_manager.go:210-228 | in every run "doubled" is reported iff a double follows the contract, with the kind double then and no double otherwise; it is the right kind iff nobody redoubled |
| Auction.UndoubledIsReportedSo | game/bid_manager.go:202-228 | on any history with a contract, the kind reported is that of the first double after the contract, and that of no double if none follows |
| Auction.RedoubleReportedAsDouble | game/bid_manager.go:210-228 | a run whose redoubled contract is reported as doubled |
| Auction.CallsLeftDrops | game/engine.go:124-159 | a measure of the calls still possible drops with every call |
| Auction.AuctionTerminates | game/engine.go:124-159 | no run has more than 179 calls |
| Auction.LongestAuction | game/engine.go:124-159 | some run has exactly 179 calls and is then complete: the bound is exact |
| Packs.NoCardTwice | game/dealer.go:18 | the deck never holds a card at two positions |
| Packs.SortedPackIsDeal | game/dealer.go:73-98 | sorted quarters of a pack are four strictly increasing, disjoint hands that share out the 52 cards |
| Packs.FirstDealIsBySuit | game/dealer.go:73-98 | before any shuffle East holds the clubs, South the diamonds, West the hearts and North the spades |
| Packs.SwapExchanges | game/dealer.go:28-33 | a swap exchanges the cards of its two positions and moves no other |
| Packs.SwapsInOrder | game/dealer.go:28-33 | the swaps of a shuffle are made one after the other, each on what those before it left |
| Packs.SwapsKeepCards | game/dealer.go:28-33 | no swap loses or doubles a card |
| Packs.SortedIsAscending | game/dealer.go:21-25 | a sorted hand has the same cards, in ascending order |
| Packs.OneAscendingOrder | game/dealer.go:21-25 | there is one ascending order only, so the sorted hand is determined by its cards |
| Packs.SortedQuartersAreDeal | game/dealer.go:64-70 | sorting the quarters of any pack deals the 52 cards |
| Packs.DealtFromQuarter | game/dealer.go:64-70 | after a shuffle a seat holds a card iff the swaps left it in the quarter of that seat |
| Packs.EveryDealCanFollow | game/dealer.go:64-70 | after any deal some shuffle makes any other |
| Dealer.ShuffleDeck | game/dealer.go:28-33 | the deck is changed by exactly the swaps chance brings, in their order |
| Dealer.SortHand | game/dealer.go:21-25 | one slice of the deck becomes its own cards in ascending order, and nothing outside it moves |
| Dealer.InPlaySync | game/dealer.go:36-61 | the four play hands become the four quarters of the deck, whatever they held |
| Dealer.Shuffle | game/dealer.go:64-70 | deck and play hands come to hold the deal the swaps make of the deck as the last deal left it, whatever the play hands held |
| Dealer.NewDeck | game/dealer.go:73-98 | a new table starts with the cards in order, dealt out in four separate arrays |
| CardPlay.FirstCardIsFirst | game/game.go:615-626 | the scan finds the first slot still holding a card |
| CardPlay.LowestIsLeast | game/game.go:602-664 | the minimum kept by the scan is a card of the interval and the least of them |
| CardPlay.HighestIsGreatest | game/game.go:602-664 | the maximum kept by the scan is a card of the interval and the greatest of them |
| CardPlay.RangeIsFollowSuit | game/game.go:593-664 | a held card lies in the notified interval iff the round is starting, it is of the led suit, or the hand has none of that suit (Law 44C) |
| CardPlay.RangeIsLeastAndGreatest | game/game.go:602-664 | the timeout card is the least card that may be played; the bounds are the least and the greatest, or the whole pack when the hand is void in the suit led |
| CardPlay.RangeOfEmptyHand | game/game.go:602-664 | a hand without cards yields the whole pack and no timeout card |
| CardPlay.TimeoutIsPlayable | game/game.go:602-664 | with cards left, the card played on timeout is held and lies in the notified interval |
| CardPlay.NoticeIffLegal | game/game.go:756-801 | in every reachable state the plays the notice allows are exactly the legal ones |
| CardPlay.RecordsAreTheTrick | game/game.go:756-794 | when a trick is resolved the four records are its four cards in order and the seat set is the fourth player, whatever was left in the records before |
| CardPlay.TrickPassesTurnToWinner | game/game.go:773-788 | the fourth card passes the turn to the winner by Laws 44E-44G and clears the table |
| CardPlay.StepKeepsInv | game/game.go:726-801 | every legal play keeps hands, records, interval, roles and turn in agreement with the log |
| CardPlay.NoticesAdmitLegalRecords | game/game.go:489-994 | the plays admitted by the successive notices are exactly the legal records of the deal, at most 52, and leave the table as the Laws prescribe |
| CardPlay.TimeoutIsLegal | game/game.go:602-664 | before the 52nd play the timeout card of the seat due is a legal play, and the lowest one |
| CardPlay.TimeoutsFinishTheDeal | game/game.go:602-801 | from any point of any deal, letting every time run out leads to exactly 52 plays, all legal |
| CardPlay.DummyNeverActs | game/game.go:582-589 | the seat notified is the one due, or its partner, declarer, iff dummy is due; so it is never dummy |
| CardPlay.DealIsPlayedOut | game/game.go:1034-1053 | after 52 plays every slot of every hand is empty |
| PlayLaws.CardsPlayedOnce | game/game.go:1034-1053 | no card is played twice, each by the seat it was dealt to |
| PlayLaws.TrickIsOnePerSeat | game/game.go:726-801 | every trick holds one card of each seat, clockwise from the opening leader or the winner of the trick before |
| PlayLaws.PlaysAreEven | game/game.go:726-801 | after n plays each seat has played n/4 cards, and one more if it has played to the current trick |
| PlayLaws.HandsShrinkByPlays | game/game.go:1034-1053 | cards held and cards played by a seat always add up to 13 |
| PlayLaws.CardsAreConserved | game/game.go:1034-1053 | every card is either played, once, or held by exactly one seat |
| PlayLaws.RecordLength | game/game.go:947-994 | no legal record exceeds 52 plays; at 52 all hands are empty, before that the seat due has a card |
| PlayLaws.SomePlayIsLegal | game/game.go:602-664 | before the 52nd play the seat due always has a legal play |
| Session.ContractSetsRoles | game/game.go:191-219 | from contract on, declarer and dummy, leader and defender are partners, the four roles are the four seats, and the engine's trump interval is that of the denomination |
| Session.DecideKeepsInv | game/game.go:292-475 | all three continuations of a call (next caller, new deal, play) lead to a good state |
| Session.CardKeepsInv | game/game.go:726-994 | a card, including the 52nd with its settlement and the new deal, leads to a good state |
| Session.StepKeepsSession | game/game.go:284-994 | every event of a client that keeps to the notices leads from a good state to a good state |
| Session.EveryRunIsSafe | game/game.go:284-1030 | over any number of deals the auction stays a lawful run and the play a legal record of the hands dealt |
| Session.CardsAreAccountedFor | game/game.go:726-801 | in every good state each of the 52 cards is in exactly one hand or on the log, never both, never twice |
| Session.NeverBlocks | game/game.go:284-994 | in every good state some event keeps to the notices |
| Session.EveryDealEnds | game/game.go:284-1030 | every deal is settled or dealt again within 231 events |
| Session.AfterSettlement | game/game.go:1008-1030 | after the 52nd card its record stands and the others are clear, and the next deal is the one chance brings, its opener to call |
| Session.AfterFourPasses | game/game.go:351-363 | four passes bring the next deal, with its opener as current seat, and change nothing else of the table |
| DealRuns.LongestDeal | game/game.go:284-1030 | with any cards, some deal takes 231 events and is settled by the last: the bound is exact |
| Session.RefusedCardIsSafeIff | game/game.go:925-933 | a card refused after it was played leaves a good state iff it was not the 52nd; after the 52nd no event is expected |
| DealRuns.RefusedLastCard | game/game.go:925-933 | a run ending with dummy's last card, which leaves the table standing still if anybody but declarer sends it |
| Session.RepeatedLeadIsSafeIff | game/game.go:489-578 | a card taken for a lead in the middle of the play leaves a good state iff it was expected, is not the last, and play number 1 does there what its real number would |
| DealRuns.RepeatedLead | game/game.go:489-578 | in every deal, sending the opening lead twice breaks the invariant |
| Games.Game.constructor | game/game.go:80-103 | a new table is in the invariant at the start of a deal, with all seats vacant |
| Games.Game.SetRoundAvailableRange | game/game.go:593-597 | only the interval of the round changes, to that of the suit led |
| Games.Game.SavePlayCardRecord | game/game.go:1066-1082 | one seat's record changes |
| Games.Game.ResetPlayCardRecord | game/game.go:1084-1089 | all four records are cleared and nothing else changes |
| Games.Game.PlayOutHandRefresh | game/game.go:1034-1053 | the hand array loses the card and keeps all other slots; the cards left are returned in order, and the index is always 13 |
| Games.LeftIsWhatRemains | game/game.go:1034-1053 | the refreshed hand sent to the player holds exactly the cards not yet played |
| Games.LeftStaysSorted | game/game.go:1034-1053 | the refreshed hand is strictly increasing |
| Games.Game.AvailablePlayerPlayRange | game/game.go:602-664 | one pass over the array yields the lowest and highest playable card and the timeout card, whose index points at it |
| Games.Game.Start | game/game.go:141-146 | the deal the swaps make comes into the play hands, an opener is drawn and the order of calls goes clockwise from there; nothing else of the session changes |
| Games.Game.SendGameStart | game/room_manager.go:817-829 | the same, with the ring turned to the opener |
| Games.Game.SetGamePlayInfo | game/game.go:191-219 | the roles are set from the contract, or cleared when there is none; defender is the leader's partner |
| Games.Game.DealAgain | game/game.go:351-363 | four passes lead to a cleared history, a new deal, and the new opener as current seat |
| Games.Game.BeginPlay | game/game.go:393-430 | with a contract, the outcome of the history sets the roles, the auction is cleared, and the engine is set one seat past the leader |
| Games.Game.GamePrivateNotyBid | game/game.go:284-475 | any call of anybody takes the step of the session, with the deal and the opener chance brings if it starts a deal; the reply describes the state reached, and the ring stands on the caller, the new opener or the leader |
| Games.Game.GamePrivateFirstLead | game/game.go:489-578 | the leader's card is taken as play number 1 and the notice is the one due; a lead by any other seat changes nothing; a lead repeated later is taken as play number 1 again |
| Games.Game.GamePrivateCardPlayClick | game/game.go:726-994 | any card of anybody, under the number sent, takes the step of the session; the reply describes the state reached, with settlement and the deal chance brings iff the number is 52; a card of dummy not sent by declarer, and only that, is refused, but played all the same |
| Games.Game.GameSettle | game/game.go:1008-1030 | the last record is written once more, the next deal starts, and its opener is told |
| Games.TrickIsReady | game/game.go:773-788 | whenever the fourth card the table expects comes, the records form a trick and the trump interval is that of the contract, so the resolvers are never mismatched |
| TableRuns.InOrderIffKept | game/game.go:284-994 | a message is in order by what its sender was last told iff it is what the table expects, from the right player |
| TableRuns.Handle | game/game.go:284-994 | a client that sends only what is in order sends exactly what the table expects; it then takes the step of the machine, and what is told next is right again |
| TableRuns.Serve | game/game.go:80-1030 | a table served any sequence of messages by such clients has gone through the one run made of exactly the expected ones, in order, with the deals and openers chance makes of the new pack, and is in its invariant |
| SeatRings.AnswerKeepsRing | game/room_manager.go:235-314 | every request keeps the clockwise order, the counter equal to the seats taken, and one seat per connection |
| SeatRings.EveryRunKeepsRing | game/room_manager.go:235-460 | over every sequence of requests that touch the ring, nil connections included, the player counter is the number of taken seats, within 0..4 and 4 iff none is vacant, and the action counter stays within 0..4 |
| SeatRings.SitsIffFree | game/room_manager.go:235-298 | sitting down succeeds iff the connection is not seated yet and a seat is free; the seat is the first vacant one from where the ring stands, and only it changes hands |
| SeatRings.SeatedByName | game/room_manager.go:695-709 | the seat taken goes on record with the connection and the name, and every other seat stays on record as it was |
| SeatRings.LeaverIsStruckOff | game/room_manager.go:711-731 | the seat left is the leaver's, becomes vacant and nameless, and every other seat stays as it was |
| SeatRings.NameStays | game/room_manager.go:235-735 | the name and seat told when a player leaves are those the player came with, whatever was requested in between |
| SeatRings.SavedWithItsSeat | game/room_manager.go:365-399 | a card is saved with its own seat only, iff fewer than four were counted and the connection holds the seat |
| SeatRings.OnlyActionsCount | game/room_manager.go:235-460 | only an action moves the count of actions, only seating that of players |
| SeatRings.WhereTheRingStands | game/room_manager.go:235-460 | the position every request leaves the ring in |
| SeatRings.LeaveUndoesEnter | game/room_manager.go:674-735 | entering and then leaving gives every seat and the counter back |
| SeatRings.LeaverTellsTheOthers | game/room_manager.go:300-314 | when the user's zone is the seat left, those told are the players of the next three seats, clockwise |
| SeatRings.AllWhoStayAreToldIff | game/room_manager.go:300-314 | all who stay are told of a departure iff the user's zone is the seat left or nobody sits there |
| SeatRings.PlayerNotTold | game/room_manager.go:300-314 | a table of four at which a player who stays is not told |
| SeatRings.DriftDoesNotMatter | game/room_manager.go:1074-1205 | from every position of the ring a seat has the same occupant and the same successor |
| SeatRings.FindDependsOnDrift | game/room_manager.go:947-970 | findPlayer answers the same from every position iff the seat has a live connection |
| SeatRings.VacantSeatFoundByPosition | game/room_manager.go:947-970 | a vacant seat that is found from one position and not from the next |
| SeatRings.SeatRing.constructor | game/room_manager.go:141-170 | four vacant seats in clockwise order |
| SeatRings.SeatRing.TakeSeat | game/room_manager.go:674-710 | the first vacant seat from the current position is taken and the ring passes it; a full table stays as it is |
| SeatRings.SeatRing.VacateSeat | game/room_manager.go:711-735 | the seat of the connection, and only it, is vacated, and its player's name returned; nil vacates none |
| SeatRings.SeatRing.TablePlayers | game/room_manager.go:1074-1089 | the four items by seat, wherever the ring stands |
| SeatRings.SeatedIffInRing | game/room_manager.go:244-266 | comparing with the four players by seat is comparing with the whole ring |
| SeatRings.SeatRing.EnterGame | game/room_manager.go:235-298 | refused iff the connection equals that of some seat; otherwise as TakeSeat; the game starts with four players |
| SeatRings.SeatRing.LeaveGame | game/room_manager.go:300-314 | as VacateSeat, with the seat left or "not set", whether four players remain, and the connections of the seats other than the user's zone |
| SeatRings.SeatRing.AcquirePlayerConnectionsByExclude | game/room_manager.go:1092-1113 | the connections of the seats but one, in the order of the ring, which does not move |
| SeatRings.SeatRing.OnSeat | game/room_manager.go:321-349 | found iff the user is the player of some seat, and then that seat; the ring stops just past it |
| SeatRings.SeatRing.Action | game/room_manager.go:365-399 | the card is saved with the seat and the action counted iff fewer than four were counted and the seat is found and held by the connection; the ring turns to the seat if it is found |
| SeatRings.SeatRing.SeatShift | game/room_manager.go:1192-1205 | terminates for every seat and returns its clockwise neighbour from every position of the ring |
| SeatRings.SeatRing.FindPlayer | game/room_manager.go:947-970 | found iff the ring stands on the seat or its connection is live; the item returned is of that seat |
| SeatRings.SeatRing.LastLeaveOrder | game/room_manager.go:1132-1162 | a rotation of the four seats that begins with a vacant one if there is one |
| BidBoard.BidHistoryItemsToProto | game/game.go:236-271 | after any number of calls the rows are the consecutive groups of four of the history, and there are no others |
| BidBoard.BoardRoundTrip | game/game.go:236-271 | the rows in order give the auction back, and every row but the last has four columns |
| BidBoard.ColumnShowsBid | game/game.go:221-267 | a contract shows its level and denomination; pass, double and redouble show level 0 and themselves; a contract can be read back from its column |
| Counters.NoWrap | counter.go:82-170 | no counter exceeds the number of events, so before the 2^32nd event no join overflows |
| Counters.TotalIsSumLessDrift | counter.go:82-124 | over every run the total is the sum over the tables less the drift the events have added |
| Counters.TotalIsSumIff | counter.go:82-124 | the total is the sum over the tables throughout a run iff no event leaves a room at 0 while the total is not, and no join finds the total, but not the room, at its maximum |
| Counters.TotalIsBoundedIff | counter.go:82-124 | the total never exceeds the sum iff no join wraps a room, but not the total, while the total is no less than the other rooms together |
| Counters.TableShowsBalanceIff | counter.go:82-124 | a table shows joins less leaves throughout iff no leave finds it at 0 and no join at its maximum |
| Counters.TableMissesALeave | counter.go:103-124 | a leave from a room nobody joined, after which its table does not show joins less leaves |
| Counters.TableCounts | counter.go:82-124 | a join adds one to its table and a leave takes one away, except at the maximum and at 0; nothing else moves it |
| Counters.RoomersCount | counter.go:82-124 | the same of the total; the lobby and unknown rooms do not move it |
| Counters.LobbyCounts | counter.go:125-148 | the same of the lobby; rooms do not move it |
| Counters.LobbyShowsBalanceIff | counter.go:125-148 | the lobby shows joins less leaves throughout iff no leave finds it at 0 and no join at its maximum |
| Counters.LobbyMissesALeave | counter.go:125-137 | a leave from the empty lobby, after which it does not show joins less leaves |
| Counters.BalancedRunsAgree | counter.go:82-124 | when no room is left more often than joined and no join overflows, every table shows joins less leaves and the total is their sum, at every moment |
| Counters.TotalWraps | counter.go:82-100 | a run from empty counters, 2^32 - 1 joins of one room and one of another, that takes the total to 0 |
| Counters.LeavingAnEmptyRoom | counter.go:103-124 | a join of one room and a leave from another: total 0, sum 1 |
| Counters.RoomWraps | counter.go:82-124 | a run from empty counters after which the sum is 0 and the total 2^32 - 1 |
| Counters.Counter.constructor | counter.go:48-80 | all counts start at zero |
| Counters.Counter.OnRoomJoin | counter.go:87-102 | total and table count go up by one, and the message carries them; an unknown room changes nothing |
| Counters.Counter.OnRoomLeave | counter.go:103-124 | total and table count go down by one, each stopping at zero by itself |
| Counters.Counter.OnLobbyJoin | counter.go:139-148 | the lobby count goes up by one |
| Counters.Counter.OnLobbyLeave | counter.go:125-137 | the lobby count goes down by one, stopping at zero |

## Left out

- Sending, broadcasting, protobuf encoding, the connection store, sleeps and logging: what a handler sends is its result, everything else about delivery is not modelled.
- The channels of the room manager and of the counter: one goroutine serves each, so a request is one atomic step.
- Real time: calls are stamped by a logical clock that strictly increases. With equal time stamps the switch at `game/bid_manager.go:241-254` would match no case.
- Randomness: the swaps of a shuffle and the opener are arbitrary parameters, which determine what follows; `sort.Slice` is an insertion sort, since only "sorted, same cards" is used; maps are visited in arbitrary order.
- The deck array of pointers to constant cards is an array of cards, and the aliasing of `Deck` with it is modelled by sorting index ranges of that one array.
- Seats outside the four and calls outside 1..56, among them the zero call, which the suit table does not contain.
- Games.Game.GamePrivateCardPlayClick: requires the number to be at least 1, and the fourth card of a round to complete four different cards under a contract; what the resolvers make of repeated or missing cards is not modelled.
- Games.Game.GamePrivateFirstLead: requires the leader to send play number 1, where the source panics.
- BidManager.BidHistory.ScanForContract: requires the auction finished and not passed out, which its caller has checked just before.
- Engines.Engine.PlayResultInTrump: the slices of losing cards the source collects are never read and are left out.
- BidBoard.BidHistoryItemsToProto: a column holds level and denomination code instead of the display string.
- SeatRings.SeatRing.LastLeaveOrder: returns the items of the ring, not copies of the users on them.
- Room admission and capacity (`ticketSN`) and the audience: they do not touch the game.
- Leaving in the middle of a deal: re-seating starts a new deal without clearing the auction, so runs of the seat ring and runs of a deal are separate.
- `game/seat_manager.go` (an unused copy of the ring) and `waitonce.go` (unused).
- `namespace.go`, `service.lobby.go`, `service.room.go`: routing of requests to tables.
- Scoring: `GetGameResult` is not implemented in the source.
