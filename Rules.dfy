/** The outcome of each game transition, as values: who may reject, who
    wins a forfeit, which transfers settle it, and which events it emits. */
module Rules {
  import opened Ids
  import opened Types
  import opened Bank
  import opened Escrow

  /** The board the rules engine sets up for a new game: black on rows
      0-2, red on rows 5-7. */
  const InitialBoard: string :=
    "*b*b*b*b|b*b*b*b*|*b*b*b*b|********|********|r*r*r*r*|*r*r*r*r|r*r*r*r*"

  /** The record of a game created at block time now under index id:
      the initial board, black to move, no move yet, no links, no winner,
      and one turn until the deadline. */
  function NewGame(creator: string, id: string, red: string, black: string,
                   wager: nat, token: string, now: Time): StoredGame
  {
    StoredGame(creator, id, InitialBoard, Black, red, black, 0, NoId, NoId,
               now + MaxTurnDuration, NoPlayer, wager, token)
  }

  /** What the rules engine answers for a proposed move: refused, or the
      new serialised board and the colour to move next. */
  datatype MoveResult = IllegalMove | Moved(board: string, turn: Color)

  /** The colour a signer plays in g, if any; a signer holding both
      colours plays whichever is due to move. */
  function SignerColor(g: StoredGame, who: string): (c: Option<Color>)
    ensures c.None? <==> who != g.red && who != g.black
    ensures c.Some? ==> PlayerOf(g, c.value) == who
  {
    if who == g.red && who == g.black then Some(g.turn)
    else if who == g.red then Some(Red)
    else if who == g.black then Some(Black)
    else None
  }

  /** The record after an accepted move made at block time now: the
      engine's board and turn, one more move, and a fresh deadline. */
  function Played(g: StoredGame, board: string, turn: Color, now: Time): StoredGame {
    g.(board := board, turn := turn, moveCount := g.moveCount + 1,
       deadline := now + MaxTurnDuration)
  }

  /** Why the move of signer who in g is refused, if it is: a finished
      game, a signer who is not a player, a player out of turn, an ante
      the mover's balance cannot cover, or a move the engine rejects. */
  function PlayError(g: StoredGame, who: string, bal: Balances, result: MoveResult): Option<Error> {
    if g.winner != NoPlayer then Some(GameFinished)
    else
      var c := SignerColor(g, who);
      if c.None? then Some(CreatorNotPlayer)
      else if c.value != g.turn then Some(NotPlayerTurn)
      else if AntePayer(g).Some? && Balance(bal, User(PlayerOf(g, AntePayer(g).value)), Denom(g)) < g.wager
      then Some(if AntePayer(g).value == Black then BlackCannotPay else RedCannotPay)
      else if result.IllegalMove? then Some(WrongMove)
      else None
  }

  /** Why who may not reject g, if it may not: a finished game cannot be
      rejected, black only before its first move, red only before its
      own first move, and nobody else at all. */
  function RejectError(g: StoredGame, who: string): Option<Error> {
    if g.winner != NoPlayer then Some(GameFinished)
    else if who == g.black then (if g.moveCount > 0 then Some(BlackAlreadyPlayed) else None)
    else if who == g.red then (if g.moveCount > 1 then Some(RedAlreadyPlayed) else None)
    else Some(CreatorNotPlayer)
  }

  /** A move is accepted exactly when the game is unfinished, the signer
      plays the colour due to move, the player due to ante can cover the
      wager, and the rules engine accepts the move. */
  lemma PlayAllowedIff(g: StoredGame, who: string, bal: Balances, result: MoveResult)
    ensures PlayError(g, who, bal, result).None? <==>
      g.winner == NoPlayer && SignerColor(g, who) == Some(g.turn) &&
      (AntePayer(g).Some? ==> g.wager <= Balance(bal, User(PlayerOf(g, AntePayer(g).value)), Denom(g))) &&
      result.Moved?
  {
  }

  /** Rejection is allowed exactly to a player of an unfinished game who
      has not moved yet. */
  lemma RejectAllowedIff(g: StoredGame, who: string)
    ensures RejectError(g, who).None? <==>
      g.winner == NoPlayer &&
      ((who == g.black && g.moveCount == 0) || (who != g.black && who == g.red && g.moveCount <= 1))
  {
  }

  datatype Payout = Payout(recipient: string, amount: nat)

  /** A transfer of amount to a player; a zero amount moves nothing. */
  function Pay(to: string, amount: nat): seq<Payout> {
    if amount == 0 then [] else [Payout(to, amount)]
  }

  function Total(ps: seq<Payout>): nat {
    if ps == [] then 0 else ps[0].amount + Total(ps[1..])
  }

  /** What address addr receives from the payouts ps. */
  function ReceivedBy(ps: seq<Payout>, addr: string): nat {
    if ps == [] then 0
    else (if ps[0].recipient == addr then ps[0].amount else 0) + ReceivedBy(ps[1..], addr)
  }

  /** What refunding the wager of g pays out: black's ante back after
      black's move, nothing before any move. */
  function Refunds(g: StoredGame): seq<Payout>
    requires g.moveCount <= 1
  {
    if g.moveCount == 1 then Pay(g.black, g.wager) else []
  }

  /** Rejection hands back everything held for the game, to black. */
  lemma RejectReleasesEscrow(g: StoredGame, who: string)
    requires RejectError(g, who).None?
    ensures g.moveCount <= 1
    ensures Total(Refunds(g)) == Held(g)
    ensures forall p :: p in Refunds(g) ==> p.recipient == g.black
  {
  }

  /** What paying the winner of g pays out: its own ante back when only
      one player has paid, both antes otherwise. */
  function Winnings(g: StoredGame): seq<Payout>
    requires g.winner.Won? && g.moveCount >= 1
  {
    Pay(PlayerOf(g, g.winner.color), if g.moveCount == 1 then g.wager else 2 * g.wager)
  }

  /** The winner of a game whose deadline passed: nobody before both
      players have moved, otherwise the player not due to move. */
  function ForfeitWinner(g: StoredGame): Winner {
    if g.moveCount <= 1 then NoPlayer else Won(Opponent(g.turn))
  }

  /** Transfers out of escrow when g is forfeited: the refund when it was
      never really played, otherwise the winnings of the player not due
      to move. */
  function ForfeitPayouts(g: StoredGame): seq<Payout> {
    if g.moveCount <= 1 then Refunds(g) else Winnings(Forfeited(g))
  }

  /** A forfeit pays out exactly what is held for the game, in at most
      one transfer, and only to a player of the game; after two or more
      moves it all goes to the winner, who is not the player due to move. */
  lemma ForfeitReleasesEscrow(g: StoredGame)
    ensures Total(ForfeitPayouts(g)) == Held(g)
    ensures |ForfeitPayouts(g)| <= 1
    ensures forall p :: p in ForfeitPayouts(g) ==> p.recipient == g.red || p.recipient == g.black
    ensures g.moveCount >= 2 ==>
      ForfeitWinner(g).Won? && ForfeitWinner(g).color != g.turn &&
      ReceivedBy(ForfeitPayouts(g), PlayerOf(g, ForfeitWinner(g).color)) == Held(g)
  {
  }

  /** The payouts, events and winner of a forfeit depend on the game, not
      on its place in the FIFO. */
  lemma ForfeitIgnoresLinks(g: StoredGame, h: StoredGame)
    requires Unlinked(g) == Unlinked(h)
    ensures ForfeitPayouts(g) == ForfeitPayouts(h) && ForfeitWinner(g) == ForfeitWinner(h)
    ensures Forfeited(g) == Forfeited(h) && Denom(g) == Denom(h) && Held(g) == Held(h)
  {
    assert Unlinked(g).moveCount == Unlinked(h).moveCount && Unlinked(g).turn == Unlinked(h).turn;
    assert Unlinked(g).token == Unlinked(h).token && Unlinked(g).wager == Unlinked(h).wager;
    assert Unlinked(g).red == Unlinked(h).red && Unlinked(g).black == Unlinked(h).black;
    assert Forfeited(g) == Unlinked(g).(winner := ForfeitWinner(g));
    assert Forfeited(h) == Unlinked(h).(winner := ForfeitWinner(h));
  }

  /** The ante the next move of g pays into the module account in
      denomination d. */
  function Ante(g: StoredGame, d: string): nat {
    if AntePayer(g).Some? && Denom(g) == d then g.wager else 0
  }

  /** The bank event of collecting the ante of g, if there is one. */
  function AnteEvents(g: StoredGame): seq<Event> {
    if AntePayer(g).Some? && g.wager != 0
    then [Transfer(Module, User(PlayerOf(g, AntePayer(g).value)), g.wager, Denom(g))]
    else []
  }

  /** bal1 is bal0 after the player due to ante in g paid it into the
      module account. */
  ghost predicate AntePaid(bal0: Balances, bal1: Balances, g: StoredGame) {
    forall a, e :: Balance(bal1, a, e) ==
      Balance(bal0, a, e) + (if a == Module then Ante(g, e) else 0)
      - (if AntePayer(g).Some? && a == User(PlayerOf(g, AntePayer(g).value)) then Ante(g, e) else 0)
  }

  /** Collecting the ante of g adds it to the module account. */
  lemma AnteReachesModule(bal0: Balances, bal1: Balances, g: StoredGame)
    requires AntePaid(bal0, bal1, g)
    ensures forall d :: Balance(bal1, Module, d) == Balance(bal0, Module, d) + Ante(g, d)
  {
  }

  /** bal1 is bal0 after the module account paid out ps in denomination d. */
  ghost predicate PaidOut(bal0: Balances, bal1: Balances, ps: seq<Payout>, d: string) {
    forall a, e :: Balance(bal1, a, e) ==
      Balance(bal0, a, e) + Credit(ps, d, a, e) - (if a == Module && e == d then Total(ps) else 0)
  }

  /** One transfer of amount from the module account to `to` (none when
      amount is zero) pays out exactly Pay(to, amount). */
  lemma PayOne(bal0: Balances, bal1: Balances, to: string, amount: nat, d: string)
    requires amount <= Balance(bal0, Module, d)
    requires bal1 == if amount == 0 then bal0 else Send(bal0, Module, User(to), d, amount)
    ensures PaidOut(bal0, bal1, Pay(to, amount), d)
    ensures TransferEvents(Pay(to, amount), d) == if amount == 0 then [] else [Transfer(User(to), Module, amount, d)]
  {
    if amount != 0 {
      var ps := Pay(to, amount);
      assert ps == [Payout(to, amount)] && ps[1..] == [];
      assert Total(ps) == amount;
      forall a, e
        ensures Balance(bal1, a, e) ==
          Balance(bal0, a, e) + Credit(ps, d, a, e) - (if a == Module && e == d then Total(ps) else 0)
      {
        if a.User? && e == d {
          assert ReceivedBy(ps[1..], a.address) == 0;
        }
      }
    }
  }

  /** The record kept for a game forfeited after two or more moves: the
      winner set, the links cleared, everything else as it was. */
  function Forfeited(g: StoredGame): StoredGame {
    g.(winner := ForfeitWinner(g), beforeId := NoId, afterId := NoId)
  }

  /** What account a receives in denomination e from payouts ps made in
      denomination d. */
  function Credit(ps: seq<Payout>, d: string, a: Account, e: string): nat {
    if a.User? && e == d then ReceivedBy(ps, a.address) else 0
  }

  /** Paying out exactly what is held for g takes that from the module
      account, in g's denomination only. */
  lemma DrainsEscrow(bal0: Balances, bal1: Balances, ps: seq<Payout>, g: StoredGame)
    requires Total(ps) == Held(g)
    requires PaidOut(bal0, bal1, ps, Denom(g))
    ensures forall d :: Balance(bal1, Module, d) + HeldIn(g, d) == Balance(bal0, Module, d)
  {
    forall d
      ensures Balance(bal1, Module, d) + HeldIn(g, d) == Balance(bal0, Module, d)
    {
      assert Credit(ps, Denom(g), Module, d) == 0;
    }
  }

  /** The bank events of a list of payouts in denomination d. */
  function TransferEvents(ps: seq<Payout>, d: string): (es: seq<Event>)
    ensures |es| == |ps|
  {
    if ps == [] then []
    else [Transfer(User(ps[0].recipient), Module, ps[0].amount, d)] + TransferEvents(ps[1..], d)
  }

  /** The events of one forfeit: the payout's transfer, then the
      GameForfeited message. */
  function ForfeitEvents(g: StoredGame, id: string): seq<Event> {
    TransferEvents(ForfeitPayouts(g), Denom(g)) + [GameForfeited(id, ForfeitWinner(g))]
  }

  /** The events of forfeiting the games ids, in that order. */
  function TickEvents(games: Store, ids: seq<string>): seq<Event>
    requires forall k :: k in ids ==> k in games
  {
    if ids == [] then []
    else TickEvents(games, ids[..|ids| - 1]) + ForfeitEvents(games[ids[|ids| - 1]], ids[|ids| - 1])
  }

  /** What account a receives in denomination d from forfeiting ids. */
  function TickCredit(games: Store, ids: seq<string>, a: Account, d: string): nat
    requires forall k :: k in ids ==> k in games
  {
    if ids == [] then 0
    else
      var g := games[ids[|ids| - 1]];
      TickCredit(games, ids[..|ids| - 1], a, d) + Credit(ForfeitPayouts(g), Denom(g), a, d)
  }
}
