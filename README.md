# Checkers keeper model

A Dafny model of the keeper of the `checkers` Cosmos SDK module. In this
blockchain application two players stake a wager on a game of checkers.
The model covers:

- **The store of games.** Each game is a `StoredGame` record kept under its
  decimal index.
- **The `NextGame` singleton.** It holds the next id to hand out and the ends
  of the FIFO. The FIFO is a doubly linked list threaded through the games'
  `BeforeId`/`AfterId` fields, with `"-1"` marking a missing link.
- **Wager escrow.** The bank holds the wagers in the module account, in the
  wager's own token or in `stake` when the token is left empty.
- **The keeper's transitions:**
  - `CreateGame`;
  - `PlayMove`, which collects black's ante with the first move and red's
    with the second;
  - `RejectGame`;
  - the end-of-block `ForfeitExpiredGames`.
- **The genesis state** and its validation.

`Keeper.Keeper` is a class whose fields are the store, the counter, the FIFO
as a ghost sequence, the bank balances, the event log and the block time.
Its methods update those fields in place. One invariant, `State.Consistent`,
is established by the constructor and kept by each transition (`BeginBlock`,
`CreateGame`, `PlayMove`, `RejectGame` and `ForfeitExpiredGames`). The bank
and link helpers run while it is broken midway through a transition. It
says:

- the links spell out the FIFO;
- the FIFO holds exactly the games without a winner, oldest deadline first;
- no queued game's deadline is more than one turn after the block time;
- in every denomination the module account holds exactly the escrow of the
  queued games.

The lemmas in `Rules`, `Fifo`, `Escrow` and `State` state what each
transition does, as functions of the state before it. `Scenarios` replays
the keeper's end-block and reject-game integration tests as proved
sequences of calls.

The module's design notes state some rules differently from its tests.
Where they differ, the model follows the tests:

- **Forfeit after one move.** A forfeit with one move or none has no winner
  (`"*"`). Black's ante, if paid, is refunded, and the game is deleted
  (`end_block_server_game_test.go`, lines 50-105). The design notes instead
  give the win to the other colour as soon as one move was made.
- **Forfeit after two or more moves.** The record is kept, with the winner
  set and its links cleared, and the winner receives both wagers (lines
  107-183). The design notes delete every game that gets a winner.
- **Who may reject.** Red may still reject after black's first move
  (`msg_server_reject_game_test.go`, lines 59-123), and black may reject
  before any move (lines 125-134). The design notes allow a reject only
  before any move. No test has black reject after moving, so the rule that
  refuses it comes from the design notes, not from a test. `Rules.RejectAllowedIff`
  states the combined rule.
- **Event order.** A payout's bank transfer is emitted before the
  `GameForfeited`/`GameRejected` message. The tests' merged message
  attributes begin with the bank's `sender`.
- **The default counter.** `NextGame` starts with id 1 and both FIFO ends
  `"-1"`, as the keeper tests show. The genesis test's two-field literal
  (`types/genesis_test.go`, lines 67-74) leaves the FIFO ends out.

An accepted move re-queues the game at the FIFO tail with a fresh
deadline. No test shows the FIFO order after a move, and the design notes
say a move does not reorder the FIFO. This is the model's own choice: it
keeps the FIFO ordered by deadline, so the end-of-block scan that stops at
the first unexpired head finds every expired game.

The rules engine is a parameter: `PlayMove` receives its verdict as a
`Rules.MoveResult`, either an illegal move or the new board and the next
turn. A test that overwrites a stored deadline to one nanosecond before the
block time is modelled by advancing the block time by `BeginBlock`. That
gives the same expired head.

## Model

| member | source | states |
|---|---|---|
| Keeper.Keeper.constructor | x/checkers/types/genesis_test.go:67-74 | a chain starts from the default genesis: no games, id 1 next, both FIFO ends "-1", no events, and the invariant holds |
| Genesis.Validate | x/checkers/types/genesis_test.go:10-65 | validation succeeds exactly when no two stored games share an index, and otherwise fails with the duplicated-game error |
| Genesis.DefaultGenesisIsValid | x/checkers/types/genesis_test.go:16-20 | the default genesis has no stored games, so it is valid, and its counter is {"", 1, "-1", "-1"} |
| Genesis.DuplicatedIndexIsInvalid | x/checkers/types/genesis_test.go:40-53 | two stored games under the same index make the genesis state invalid |
| Ids.ParseDecimalOfDecimal | x/checkers/keeper/msg_server_reject_game_test.go:29-31 | reading a game index back gives the counter value it was rendered from |
| Ids.DecimalInjective | x/checkers/keeper/msg_server_reject_game_test.go:22-31 | distinct counter values give distinct game indices, so a new game never overwrites an old one |
| Ids.NoIdIsNotDecimal | x/checkers/keeper/end_block_server_game_test.go:26-31 | the "-1" link value can never be a game index |
| Keeper.Keeper.CreateGame | x/checkers/keeper/msg_server_reject_game_test.go:8-17 | the new id is the decimal counter value and was unused; the counter's id goes up by one and its creator is unchanged; the record is a fresh game with black to move, no moves, no winner and a deadline one turn away; it is appended at the FIFO tail; no other game and no balance changes; GameCreated is emitted; the invariant is kept |
| Keeper.Keeper.PlayMove | x/checkers/keeper/end_block_server_game_test.go:107-127 | a missing game fails with not-found; otherwise the move succeeds exactly when the game is unfinished, the signer plays the colour due to move, the player due to ante can cover the wager and the engine accepts the move, and a refused move fails with the first such error and changes nothing; an accepted move stores the engine's board and turn with one more move and a fresh deadline, sends the game to the FIFO tail, collects the ante due by move count (black's at move 0, red's at move 1), and emits the transfer and then MovePlayed; the counter's id and creator are unchanged; the invariant is kept |
| Keeper.Keeper.ApplyMove | x/checkers/keeper/end_block_server_game_test.go:195-219 | an accepted move moves the ante of the player due to pay it into the module account, in the game's denomination, and re-queues the game at the tail |
| Keeper.Keeper.CollectWager | x/checkers/keeper/msg_server_reject_game_test.go:29-44 | black pays the wager with the first move and red with the second, into the module account and in the game's denomination; nothing else changes |
| Keeper.Keeper.SendCoins | x/checkers/keeper/end_block_server_game_test.go:93-99 | a transfer moves the amount between the two accounts in one denomination and logs recipient, sender, amount and denomination; a zero amount does nothing |
| Keeper.Keeper.MustRefundWager | x/checkers/keeper/end_block_server_game_test.go:61-67 | with one move made, black's wager goes back to black; with none, nothing is paid |
| Keeper.Keeper.MustPayWinnings | x/checkers/keeper/end_block_server_game_test.go:134-136 | the winner receives its own ante back, plus the loser's once both have paid |
| Keeper.Keeper.RemoveFromFifo | x/checkers/keeper/end_block_server_game_test.go:69-79 | the game's neighbours are linked to each other, its own links are cleared, a removed end moves to its neighbour, and the FIFO loses exactly that game |
| Keeper.Keeper.SendToFifoTail | x/checkers/keeper/end_block_server_game_test.go:111-127 | the FIFO becomes the old one with the game moved to its end, still linked both ways; no other game and no balance changes |
| Keeper.Keeper.RejectGame | x/checkers/keeper/msg_server_reject_game_test.go:59-85 | a missing game fails with not-found; otherwise the reject succeeds exactly when Rules.RejectError finds nothing, and a refused reject changes nothing; an accepted one deletes the game, splices it out of the FIFO, refunds black's ante if paid, and emits the transfer and then GameRejected; the counter's id and creator are unchanged; the invariant is kept |
| Keeper.Keeper.Retire | x/checkers/keeper/msg_server_reject_game_test.go:74-84 | a game leaving play is spliced out of the FIFO and then deleted, or kept as its final record, with every other game unchanged and the invariant restored |
| Keeper.Keeper.Forfeit | x/checkers/keeper/end_block_server_game_test.go:128-162 | the expired head leaves the FIFO; with at most one move it is deleted, otherwise it is kept with its winner set and links cleared; its escrow is paid out and the transfer and then GameForfeited are emitted |
| Keeper.Keeper.PayForfeit | x/checkers/keeper/end_block_server_game_test.go:61-67 | a forfeit refunds when the game had at most one move, otherwise it pays the winnings |
| Keeper.Keeper.ForfeitExpiredGames | x/checkers/keeper/end_block_server_game_test.go:10-48 | exactly the games at the head whose deadline has passed are forfeited, oldest first; every game left has not expired; each balance moves by exactly those games' payouts; the log grows by their events in FIFO order; the counter's id and creator are unchanged; the invariant is kept |
| Keeper.Keeper.BeginBlock | x/checkers/keeper/end_block_server_game_test.go:17-19 | a later block time leaves the store, counter, FIFO, balances and events unchanged and keeps the invariant |
| Rules.SignerColor | x/checkers/keeper/end_block_server_game_test.go:111-127 | a signer has a colour exactly when they are red or black, and that colour's player is the signer |
| Rules.PlayAllowedIff | x/checkers/keeper/msg_server_reject_game_test.go:29-44 | a move is accepted if and only if the game is unfinished, the signer plays the colour due to move, the player due to ante can cover the wager, and the engine accepts the move |
| Rules.RejectAllowedIff | x/checkers/keeper/msg_server_reject_game_test.go:59-134 | a reject is allowed if and only if the game is unfinished and either black rejects before any move or red rejects before red's first move |
| Rules.RejectReleasesEscrow | x/checkers/keeper/msg_server_reject_game_test.go:45-56 | an allowed reject pays back exactly what is held for the game, all of it to black |
| Rules.ForfeitReleasesEscrow | x/checkers/keeper/end_block_server_game_test.go:50-183 | a forfeit pays out exactly what is held, in at most one transfer and only to a player; after two or more moves all of it goes to the winner, who is the player not due to move |
| Rules.ForfeitIgnoresLinks | x/checkers/keeper/end_block_server_game_test.go:138-153 | payouts, winner, kept record, denomination and escrow of a forfeit do not depend on the game's place in the FIFO |
| Rules.AnteReachesModule | x/checkers/keeper/msg_server_reject_game_test.go:41-44 | collecting an ante adds exactly that ante to the module account, in the game's denomination only |
| Rules.PayOne | x/checkers/keeper/end_block_server_game_test.go:176-182 | one transfer of the amount from the module account to a player pays out exactly that payout and logs one transfer, or none for zero |
| Rules.DrainsEscrow | x/checkers/keeper/end_block_server_game_test.go:227-234 | paying out exactly what is held for a game takes exactly that from the module account, in that game's denomination only |
| Escrow.AnteAddsToHeld | x/checkers/keeper/end_block_server_game_test.go:212-219 | each move adds to the escrow the ante due by move count (black's at move 0, red's at move 1), and nothing once both have paid |
| Escrow.EscrowRemove | x/checkers/keeper/msg_server_reject_game_test.go:45-56 | removing one game from the queue takes exactly its holding off the module's escrow |
| Fifo.ToTailLinks | x/checkers/keeper/end_block_server_game_test.go:111-127 | sending a game to the tail keeps the links spelling out the FIFO, now with the game last |
| Fifo.UnlinkSplices | x/checkers/keeper/end_block_server_game_test.go:69-79 | unlinking a queued game leaves the links spelling out the FIFO without it, with the ends moved past it |
| Fifo.WalksFollowQueue | x/checkers/keeper/end_block_server_game_test.go:24-31 | following AfterId from the head visits the FIFO in order, and following BeforeId from the tail visits it in reverse |
| Fifo.ExpiredIsAllExpired | x/checkers/keeper/end_block_server_game_test.go:17-22 | in a deadline-ordered FIFO the expired games are exactly a prefix, the one the head scan counts |
| Fifo.ExpiredExact | x/checkers/keeper/end_block_server_game_test.go:17-22 | the expired count is pinned down by the first game that has not expired |
| State.CreateRestores | x/checkers/keeper/msg_server_reject_game_test.go:22-28 | appending a fresh game under the next id keeps the invariant |
| State.PlayMoved | x/checkers/keeper/end_block_server_game_test.go:195-219 | an accepted move with its ante paid keeps the invariant, with the game at the tail |
| State.RetireKeeps | x/checkers/keeper/msg_server_reject_game_test.go:45-56 | taking a queued game out of play, with its escrow paid out, keeps the invariant and changes no other game |
| State.HeldIsEscrowed | x/checkers/keeper/end_block_server_game_test.go:128-136 | an active game is queued, and the module account holds at least its escrow, so a refund or payout can be paid |
| State.TickStep | x/checkers/keeper/end_block_server_game_test.go:128-136 | one more forfeit moves every balance on by its payouts and the log on by its events |
| State.ForfeitedStep | x/checkers/keeper/end_block_server_game_test.go:138-153 | after each forfeit, every game forfeited so far is deleted, or kept with its winner when it had two or more moves |
| State.SweepStep | x/checkers/keeper/end_block_server_game_test.go:19-22 | forfeiting the expired head moves the sweep on by one game of the starting FIFO |
| State.SweepEnds | x/checkers/keeper/end_block_server_game_test.go:19-22 | when the head has not expired, the sweep has forfeited exactly the expired games and every game left is unexpired |
| Types.MessageAttributes | x/checkers/keeper/end_block_server_game_test.go:35-42 | a forfeit or reject message carries four attributes, first module=checkers, including its game id, and the winner letter ("*" for none) or the rejecting creator |
| Scenarios.ForfeitUnplayed | x/checkers/keeper/end_block_server_game_test.go:10-48 | an unplayed expired game is deleted, the counter is {"", 2, "-1", "-1"}, no balance moves, and only GameForfeited with no winner follows creation, with attributes module checkers, action GameForfeited, IdValue "1", Winner "*" |
| Scenarios.ForfeitPlayedOnce | x/checkers/keeper/end_block_server_game_test.go:50-105 | after black's move only, the expired game is deleted, the counter is {"", 2, "-1", "-1"}, black is refunded, all balances are back to where they started, and the refund transfer and then GameForfeited with Winner "*" are emitted |
| Scenarios.ForfeitPlayedTwice | x/checkers/keeper/end_block_server_game_test.go:107-183 | after both moves, red wins; the record is kept with winner red, two moves and links "-1"; the counter is {"", 2, "-1", "-1"}; red gains a wager, black loses one; the module pays 2 x wager to red in the game's denomination, then GameForfeited with Winner "r" is emitted |
| Scenarios.RejectByRedAfterOneMove | x/checkers/keeper/msg_server_reject_game_test.go:87-123 | red's reject after black's move succeeds, deletes the game, leaves the counter {"", 2, "-1", "-1"}, refunds black, and emits the refund transfer and then GameRejected with attributes module checkers, action GameRejected, Creator bob, IdValue "1" |
| Scenarios.RejectByBlackUnplayed | x/checkers/keeper/msg_server_reject_game_test.go:125-134 | black's reject before any move succeeds, deletes the game, moves no coins, and emits only GameRejected |
| Scenarios.RejectRefundsOtherToken | x/checkers/keeper/msg_server_reject_game_test.go:19-57 | with a stake game and a foreign-token game, rejecting the second after black's move refunds in the foreign token, keeps the first game queued alone, and restores every balance |

## Left out

- The rules engine: board legality, captures, kings and the board format are not modelled. The engine's verdict is an input of PlayMove, and the initial board is a constant.
- Keeper.Keeper.PlayMove: never finishes a game by a decisive win, so that move's payout of the winnings is not modelled; no test exercises it.
- Deadlines are nanosecond integers: the string format of stored deadlines and the block header are not modelled.
- Gas: the reject test's expected gas of 6116 is not modelled; gas metering belongs to the SDK.
- The SDK context, the store encoding and key prefixes, and the grouping of event attributes by type with the test's attribute offsets: events are a typed log, and `Types.MessageAttributes` gives only the checkers attributes of a forfeit or reject message.
- Types.MessageAttributes: its own contract states the length, the first attribute, and which id, winner or creator attributes appear, not their full order; the forfeit and reject scenarios pin the full lists.
- The `uint64` wrap-around of the id counter and move count: both are unbounded.
- Address validation and the bank's own error paths, such as a failed transfer: an ante is checked before it is collected, and the module account always covers a payout.
- The keeper's panics on a missing NextGame or a broken link: the invariant proves these branches unreachable.
- The order of the forfeit payout relative to the FIFO removal inside one forfeit: neither step can observe the other.
- Overwriting a stored deadline directly, as the tests do: the model advances the block time instead, which expires the same game.
- The genesis test's "valid genesis state" case (lines 22-39) is covered by Genesis.Validate's if-and-only-if, not by a lemma of its own.
