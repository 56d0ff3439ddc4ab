/** The checkers keeper: the store of games, the NextGame singleton with
    the FIFO of active games, the bank balances it moves wagers through,
    the events it emits, and the block time it reads. */
module Keeper {
  import opened Ids
  import opened Types
  import opened Bank
  import opened Escrow
  import opened Rules
  import opened Fifo
  import opened Genesis
  import opened State

  class Keeper {
    var games: Store
    var nextGame: NextGame
    var balances: Balances
    var events: seq<Event>
    var blockTime: Time
    /** The active games, oldest first, as the links spell them out. */
    ghost var fifo: seq<string>

    /** The state is consistent (see State.Consistent). */
    ghost predicate Valid()
      reads this
    {
      Consistent(games, nextGame, balances, blockTime, fifo)
    }

    /** A chain started from the default genesis state at time `genesis`,
        with the bank balances `bank`, in which the module account holds
        nothing yet. */
    constructor (bank: Balances, genesis: Time)
      requires forall d :: Balance(bank, Module, d) == 0
      ensures Valid()
      ensures games == map[] && fifo == []
      ensures Some(nextGame) == DefaultGenesis().nextGame
      ensures balances == bank && events == [] && blockTime == genesis
    {
      games := map[];
      nextGame := DefaultNextGame;
      balances := bank;
      events := [];
      blockTime := genesis;
      fifo := [];
    }

    /** A new block: time never goes backwards from one block to the next. */
    method BeginBlock(t: Time)
      requires Valid()
      requires blockTime <= t
      modifies this
      ensures Valid()
      ensures blockTime == t
      ensures games == old(games) && nextGame == old(nextGame) && fifo == old(fifo)
      ensures balances == old(balances) && events == old(events)
    {
      blockTime := t;
    }

    /** A bank transfer of `amount`; a zero amount is not sent. */
    method SendCoins(from: Account, to: Account, d: string, amount: nat)
      requires amount <= Balance(balances, from, d)
      modifies this
      ensures balances == if amount == 0 then old(balances) else Send(old(balances), from, to, d, amount)
      ensures events == old(events) + if amount == 0 then [] else [Transfer(to, from, amount, d)]
      ensures games == old(games) && nextGame == old(nextGame) && fifo == old(fifo)
      ensures blockTime == old(blockTime)
    {
      if amount != 0 {
        balances := Send(balances, from, to, d, amount);
        events := events + [Transfer(to, from, amount, d)];
      }
    }

    /** Black antes with the first move, red with the second. */
    method CollectWager(g: StoredGame)
      requires AntePayer(g).Some? ==> g.wager <= Balance(balances, User(PlayerOf(g, AntePayer(g).value)), Denom(g))
      modifies this
      ensures AntePaid(old(balances), balances, g)
      ensures events == old(events) + AnteEvents(g)
      ensures games == old(games) && nextGame == old(nextGame) && fifo == old(fifo)
      ensures blockTime == old(blockTime)
    {
      if g.moveCount == 0 {
        SendCoins(User(g.black), Module, Denom(g), g.wager);
      } else if g.moveCount == 1 {
        SendCoins(User(g.red), Module, Denom(g), g.wager);
      }
    }

    /** Hands black's ante back when only black has moved; nothing is
        refunded before any move. */
    method MustRefundWager(g: StoredGame)
      requires g.moveCount <= 1
      requires Total(Refunds(g)) <= Balance(balances, Module, Denom(g))
      modifies this
      ensures PaidOut(old(balances), balances, Refunds(g), Denom(g))
      ensures events == old(events) + TransferEvents(Refunds(g), Denom(g))
      ensures games == old(games) && nextGame == old(nextGame) && fifo == old(fifo)
      ensures blockTime == old(blockTime)
    {
      ghost var bal0 := balances;
      if g.moveCount == 1 {
        SendCoins(Module, User(g.black), Denom(g), g.wager);
        PayOne(bal0, balances, g.black, g.wager, Denom(g));
      }
    }

    /** Pays the winner its own ante back, and the loser's too once both
        have paid. */
    method MustPayWinnings(g: StoredGame)
      requires g.winner.Won? && g.moveCount >= 1
      requires Total(Winnings(g)) <= Balance(balances, Module, Denom(g))
      modifies this
      ensures PaidOut(old(balances), balances, Winnings(g), Denom(g))
      ensures events == old(events) + TransferEvents(Winnings(g), Denom(g))
      ensures games == old(games) && nextGame == old(nextGame) && fifo == old(fifo)
      ensures blockTime == old(blockTime)
    {
      var winnings := g.wager;
      if 1 < g.moveCount {
        winnings := winnings + winnings;
      }
      ghost var bal0 := balances;
      SendCoins(Module, User(PlayerOf(g, g.winner.color)), Denom(g), winnings);
      PayOne(bal0, balances, PlayerOf(g, g.winner.color), winnings, Denom(g));
    }

    /** Splices game id out of the FIFO: its neighbours are linked to
        each other (or become the head or tail), and its own links are
        cleared. A game that is not queued keeps its record. */
    method RemoveFromFifo(id: string)
      requires id in games
      requires games[id].beforeId != NoId ==> games[id].beforeId in games
      requires games[id].afterId != NoId ==> games[id].afterId in games
      modifies this
      ensures games == Unlink(old(games), id)
      ensures nextGame == old(nextGame).(fifoHead := SplicedHead(old(games), old(nextGame.fifoHead), id),
                                         fifoTail := SplicedTail(old(games), old(nextGame.fifoTail), id))
      ensures fifo == if id in old(fifo) then Without(old(fifo), IndexOf(old(fifo), id)) else old(fifo)
      ensures balances == old(balances) && events == old(events) && blockTime == old(blockTime)
    {
      ghost var i := if id in fifo then IndexOf(fifo, id) else 0;
      var g := games[id];
      var head, tail := nextGame.fifoHead, nextGame.fifoTail;
      if g.beforeId != NoId {
        var before := games[g.beforeId];
        games := games[g.beforeId := before.(afterId := g.afterId)];
        if g.afterId == NoId {
          tail := g.beforeId;
        }
      } else if head == id {
        head := g.afterId;
      }
      if g.afterId != NoId {
        var after := games[g.afterId];
        games := games[g.afterId := after.(beforeId := g.beforeId)];
        if g.beforeId == NoId {
          head := g.afterId;
        }
      } else if tail == id {
        tail := g.beforeId;
      }
      games := games[id := g.(beforeId := NoId, afterId := NoId)];
      nextGame := nextGame.(fifoHead := head, fifoTail := tail);
      if id in fifo {
        fifo := Without(fifo, i);
      }
    }

    /** Sends game id to the tail of the FIFO: links it alone into an
        empty FIFO, leaves it where it is when it already is the tail, and
        otherwise splices it out (which leaves a game not queued yet as it
        is) and links it after the current tail. Only links change: the
        links spell out the old FIFO with id moved to its end. */
    method SendToFifoTail(id: string)
      requires Linked(games, nextGame.fifoHead, nextGame.fifoTail, fifo)
      requires id in games && id != NoId
      requires id !in fifo ==> games[id].beforeId == NoId && games[id].afterId == NoId
      modifies this
      ensures fifo == ToTail(old(fifo), id)
      ensures Linked(games, nextGame.fifoHead, nextGame.fifoTail, fifo)
      ensures nextGame == old(nextGame).(fifoHead := ToTailHead(old(games), old(nextGame.fifoHead),
                                                                old(nextGame.fifoTail), id),
                                         fifoTail := id)
      ensures SameBut(old(games), old(fifo), games, fifo, id)
      ensures id in games && Unlinked(games[id]) == Unlinked(old(games)[id])
      ensures balances == old(balances) && events == old(events) && blockTime == old(blockTime)
    {
      ToTailLinks(games, nextGame.fifoHead, nextGame.fifoTail, fifo, id);
      ToTailSame(games, nextGame.fifoHead, nextGame.fifoTail, fifo, id);
      LinkAtTail(id);
    }

    /** The link updates of SendToFifoTail. */
    method LinkAtTail(id: string)
      requires Linked(games, nextGame.fifoHead, nextGame.fifoTail, fifo)
      requires id in games && id != NoId
      requires id !in fifo ==> games[id].beforeId == NoId && games[id].afterId == NoId
      modifies this
      ensures games == ToTailStore(old(games), old(nextGame.fifoHead), old(nextGame.fifoTail), id)
      ensures nextGame == old(nextGame).(fifoHead := ToTailHead(old(games), old(nextGame.fifoHead),
                                                                old(nextGame.fifoTail), id),
                                         fifoTail := id)
      ensures fifo == ToTail(old(fifo), id)
      ensures balances == old(balances) && events == old(events) && blockTime == old(blockTime)
    {
      ghost var q := fifo;
      if nextGame.fifoHead == NoId && nextGame.fifoTail == NoId {
        games := games[id := games[id].(beforeId := NoId, afterId := NoId)];
        nextGame := nextGame.(fifoHead := id, fifoTail := id);
      } else if nextGame.fifoTail == id {
      } else {
        TailStays(games, nextGame.fifoHead, nextGame.fifoTail, fifo, id);
        RelinkAfterTail(id);
      }
      fifo := ToTail(q, id);
    }

    /** Splices game id out of a non-empty FIFO whose tail it is not, and
        links it after that tail. */
    method RelinkAfterTail(id: string)
      requires Linked(games, nextGame.fifoHead, nextGame.fifoTail, fifo)
      requires id in games && nextGame.fifoTail in games && nextGame.fifoTail != id
      requires SplicedTail(games, nextGame.fifoTail, id) == nextGame.fifoTail
      requires id !in fifo ==> games[id].beforeId == NoId && games[id].afterId == NoId
      modifies this
      ensures games == LinkAfterTail(Unlink(old(games), id), old(nextGame.fifoTail), id)
      ensures nextGame == old(nextGame).(fifoHead := SplicedHead(old(games), old(nextGame.fifoHead), id),
                                         fifoTail := id)
      ensures balances == old(balances) && events == old(events) && blockTime == old(blockTime)
    {
      UnlinkKeeps(games, id, nextGame.fifoTail);
      NeighboursStored(games, nextGame.fifoHead, nextGame.fifoTail, fifo, id);
      RemoveFromFifo(id);
      var tail := nextGame.fifoTail;
      var currentTail := games[tail];
      games := games[tail := currentTail.(afterId := id)];
      games := games[id := games[id].(beforeId := tail)];
      nextGame := nextGame.(fifoTail := id);
    }

    /** Creates a game under the next id: the initial board, black to
        move, a deadline one turn away, no winner; the game joins the tail
        of the FIFO and the counter moves on. */
    method CreateGame(creator: string, red: string, black: string, wager: nat, token: string)
      returns (id: string)
      requires Valid()
      modifies this
      ensures Valid()
      ensures id == Decimal(old(nextGame.idValue)) && id !in old(games)
      ensures nextGame.idValue == old(nextGame.idValue) + 1 && nextGame.fifoTail == id
      ensures nextGame.creator == old(nextGame.creator)
      ensures id in games && Unlinked(games[id]) == NewGame(creator, id, red, black, wager, token, blockTime)
      ensures SameBut(old(games), old(fifo), games, fifo, id)
      ensures fifo == old(fifo) + [id]
      ensures balances == old(balances) && blockTime == old(blockTime)
      ensures events == old(events) + [GameCreated(creator, id)]
    {
      id := Decimal(nextGame.idValue);
      var storedGame := NewGame(creator, id, red, black, wager, token, blockTime);
      CreateFresh(games, nextGame, balances, blockTime, fifo, storedGame);
      ghost var games0, ng0, fifo0 := games, nextGame, fifo;
      games := games[id := storedGame];
      SendToFifoTail(id);
      nextGame := nextGame.(idValue := nextGame.idValue + 1);
      SameButStored(games0, fifo0, games, fifo, id, storedGame);
      assert Unlinked(storedGame) == storedGame;
      CreateRestores(games0, ng0, balances, blockTime, fifo0, id, storedGame, games, nextGame);
      events := events + [GameCreated(creator, id)];
    }

    /** Plays a move of game id signed by creator. The engine's verdict on
        the move is `result`. Refused moves change nothing; an accepted
        one collects the mover's ante, stores the new board with one more
        move and a fresh deadline, and sends the game to the FIFO tail. */
    method PlayMove(creator: string, id: string, result: MoveResult) returns (status: Status)
      requires Valid()
      modifies this
      ensures Valid()
      ensures id !in old(games) ==> status == Fail(GameNotFound)
      ensures id in old(games) ==>
        (status == Ok <==> PlayError(old(games)[id], creator, old(balances), result).None?)
      ensures id in old(games) ==>
        (status == Ok <==>
           old(games)[id].winner == NoPlayer &&
           SignerColor(old(games)[id], creator) == Some(old(games)[id].turn) &&
           (AntePayer(old(games)[id]).Some? ==>
              old(games)[id].wager <= Balance(old(balances), User(PlayerOf(old(games)[id], AntePayer(old(games)[id]).value)),
                                              Denom(old(games)[id]))) &&
           result.Moved?)
      ensures id in old(games) && status.Fail? ==>
        Some(status.error) == PlayError(old(games)[id], creator, old(balances), result)
      ensures status.Fail? ==>
        games == old(games) && nextGame == old(nextGame) && fifo == old(fifo) &&
        balances == old(balances) && events == old(events)
      ensures status == Ok ==>
        result.Moved? &&
        Requeued(old(games), old(fifo), games, fifo, id, Played(old(games)[id], result.board, result.turn, blockTime)) &&
        nextGame.fifoTail == id &&
        AntePaid(old(balances), balances, old(games)[id]) &&
        events == old(events) + AnteEvents(old(games)[id]) + [MovePlayed(creator, id)]
      ensures blockTime == old(blockTime) && nextGame.idValue == old(nextGame.idValue) &&
        nextGame.creator == old(nextGame.creator)
    {
      if id !in games {
        return Fail(GameNotFound);
      }
      var storedGame := games[id];
      var err := PlayError(storedGame, creator, balances, result);
      if err.Some? {
        return Fail(err.value);
      }
      ApplyMove(creator, id, result.board, result.turn);
      status := Ok;
    }

    /** The accepted part of PlayMove: the mover's ante is collected, the
        new board is stored with one more move and a fresh deadline, and
        the game goes to the FIFO tail. */
    method ApplyMove(creator: string, id: string, board: string, turn: Color)
      requires Valid()
      requires id in games && PlayError(games[id], creator, balances, Moved(board, turn)).None?
      modifies this
      ensures Valid()
      ensures Requeued(old(games), old(fifo), games, fifo, id, Played(old(games)[id], board, turn, blockTime))
      ensures nextGame.fifoTail == id
      ensures AntePaid(old(balances), balances, old(games)[id])
      ensures events == old(events) + AnteEvents(old(games)[id]) + [MovePlayed(creator, id)]
      ensures blockTime == old(blockTime) && nextGame.idValue == old(nextGame.idValue) &&
        nextGame.creator == old(nextGame.creator)
    {
      var storedGame := games[id];
      ghost var bal0 := balances;
      PlayAllowedIff(storedGame, creator, balances, Moved(board, turn));
      CollectWager(storedGame);
      StorePlayed(id, Played(storedGame, board, turn, blockTime), bal0, board, turn);
      events := events + [MovePlayed(creator, id)];
    }

    /** Stores the played record g1 of game id and sends the game to the
        FIFO tail, once the mover's ante has reached the module account. */
    method StorePlayed(id: string, g1: StoredGame, ghost bal0: Balances, ghost board: string, ghost turn: Color)
      requires Consistent(games, nextGame, bal0, blockTime, fifo)
      requires id in games && games[id].winner == NoPlayer && g1 == Played(games[id], board, turn, blockTime)
      requires AntePaid(bal0, balances, games[id])
      modifies this
      ensures Valid()
      ensures Requeued(old(games), old(fifo), games, fifo, id, g1)
      ensures nextGame.fifoTail == id
      ensures balances == old(balances) && events == old(events)
      ensures blockTime == old(blockTime) && nextGame.idValue == old(nextGame.idValue) &&
        nextGame.creator == old(nextGame.creator)
    {
      AnteReachesModule(bal0, balances, games[id]);
      PlayQueued(games, nextGame, bal0, blockTime, fifo, id, g1);
      ghost var games0, ng0, fifo0 := games, nextGame, fifo;
      games := games[id := g1];
      SendToFifoTail(id);
      SameButStored(games0, fifo0, games, fifo, id, g1);
      PlayMoved(games0, ng0, bal0, balances, blockTime, fifo0, id, board, turn, games, nextGame);
    }

    /** Rejects game id on behalf of creator: only a player who has not
        moved yet may. Black's ante is refunded if it was paid, the game
        leaves the FIFO and is deleted. */
    method RejectGame(creator: string, id: string) returns (status: Status)
      requires Valid()
      modifies this
      ensures Valid()
      ensures id !in old(games) ==> status == Fail(GameNotFound)
      ensures id in old(games) ==> (status == Ok <==> RejectError(old(games)[id], creator).None?)
      ensures id in old(games) && status.Fail? ==> Some(status.error) == RejectError(old(games)[id], creator)
      ensures status.Fail? ==>
        games == old(games) && nextGame == old(nextGame) && fifo == old(fifo) &&
        balances == old(balances) && events == old(events)
      ensures status == Ok ==>
        old(games)[id].moveCount <= 1 && id !in games &&
        SameBut(old(games), old(fifo), games, fifo, id) &&
        fifo == Without(old(fifo), IndexOf(old(fifo), id)) &&
        PaidOut(old(balances), balances, Refunds(old(games)[id]), Denom(old(games)[id])) &&
        events == old(events) + TransferEvents(Refunds(old(games)[id]), Denom(old(games)[id])) +
                  [GameRejected(creator, id)]
      ensures blockTime == old(blockTime) && nextGame.idValue == old(nextGame.idValue) &&
        nextGame.creator == old(nextGame.creator)
    {
      if id !in games {
        return Fail(GameNotFound);
      }
      var storedGame := games[id];
      var err := RejectError(storedGame, creator);
      if err.Some? {
        return Fail(err.value);
      }
      RejectReleasesEscrow(storedGame, creator);
      HeldIsEscrowed(games, nextGame, balances, blockTime, fifo, id);
      ghost var bal0 := balances;
      MustRefundWager(storedGame);
      DrainsEscrow(bal0, balances, Refunds(storedGame), storedGame);
      Retire(id, None, bal0);
      events := events + [GameRejected(creator, id)];
      status := Ok;
    }

    /** Takes game id out of the FIFO once the module account has paid out
        its escrow, then deletes its record, or keeps it as `kept`. */
    method Retire(id: string, kept: Option<StoredGame>, ghost bal0: Balances)
      requires Consistent(games, nextGame, bal0, blockTime, fifo)
      requires id in fifo
      requires kept.Some? ==>
        kept.value.winner != NoPlayer && kept.value.index == id &&
        kept.value.beforeId == NoId && kept.value.afterId == NoId
      requires forall d :: Balance(balances, Module, d) + HeldIn(games[id], d) == Balance(bal0, Module, d)
      modifies this
      ensures Valid()
      ensures kept.None? ==> id !in games
      ensures kept.Some? ==> id in games && games[id] == kept.value
      ensures SameBut(old(games), old(fifo), games, fifo, id)
      ensures fifo == Without(old(fifo), IndexOf(old(fifo), id))
      ensures balances == old(balances) && events == old(events)
      ensures blockTime == old(blockTime) && nextGame.idValue == old(nextGame.idValue) &&
        nextGame.creator == old(nextGame.creator)
    {
      RetireKeeps(games, nextGame, bal0, balances, blockTime, fifo, id, kept);
      NeighboursStored(games, nextGame.fifoHead, nextGame.fifoTail, fifo, id);
      RemoveFromFifo(id);
      if kept.Some? {
        games := games[id := kept.value];
      } else {
        games := games - {id};
      }
    }

    /** Forfeits game id, the head of the FIFO: its escrow goes back to
        black when it had at most one move, and to the player not due to
        move otherwise; the game leaves the FIFO, is deleted in the first
        case and kept with its winner in the second, and GameForfeited is
        emitted after the bank transfer. */
    method Forfeit(id: string)
      requires Valid()
      requires fifo != [] && id == fifo[0]
      modifies this
      ensures Valid()
      ensures fifo == old(fifo)[1..]
      ensures SameBut(old(games), old(fifo), games, fifo, id)
      ensures old(games)[id].moveCount <= 1 ==> id !in games
      ensures old(games)[id].moveCount > 1 ==> id in games && games[id] == Forfeited(old(games)[id])
      ensures PaidOut(old(balances), balances, ForfeitPayouts(old(games)[id]), Denom(old(games)[id]))
      ensures events == old(events) + ForfeitEvents(old(games)[id], id)
      ensures blockTime == old(blockTime) && nextGame.idValue == old(nextGame.idValue) &&
        nextGame.creator == old(nextGame.creator)
    {
      var g := games[id];
      HeldIsEscrowed(games, nextGame, balances, blockTime, fifo, id);
      ForfeitReleasesEscrow(g);
      ghost var bal0, ev0 := balances, events;
      assert IndexOf(fifo, id) == 0 && Without(fifo, 0) == fifo[1..];
      PayForfeit(g);
      DrainsEscrow(bal0, balances, ForfeitPayouts(g), g);
      Retire(id, if g.moveCount <= 1 then None else Some(Forfeited(g)), bal0);
      ConcatAssoc(ev0, TransferEvents(ForfeitPayouts(g), Denom(g)), [GameForfeited(id, ForfeitWinner(g))]);
      events := events + [GameForfeited(id, ForfeitWinner(g))];
    }

    /** The bank side of a forfeit: a refund when g had at most one move,
        the winnings of the player not due to move otherwise. */
    method PayForfeit(g: StoredGame)
      requires Total(ForfeitPayouts(g)) <= Balance(balances, Module, Denom(g))
      modifies this
      ensures PaidOut(old(balances), balances, ForfeitPayouts(g), Denom(g))
      ensures events == old(events) + TransferEvents(ForfeitPayouts(g), Denom(g))
      ensures games == old(games) && nextGame == old(nextGame) && fifo == old(fifo)
      ensures blockTime == old(blockTime)
    {
      if g.moveCount <= 1 {
        MustRefundWager(g);
      } else {
        MustPayWinnings(Forfeited(g));
      }
    }

    /** The end-of-block sweep: forfeits, oldest first, the games at the
        head of the FIFO whose deadline is before the block time, and stops
        at the first one that has not expired. Since the FIFO is ordered by
        deadline, exactly the expired games go, and every forfeit moves the
        balances and the events on as ForfeitPayouts and ForfeitEvents say. */
    method ForfeitExpiredGames()
      requires Valid()
      modifies this
      ensures Valid()
      ensures fifo == old(fifo)[Expired(old(games), old(fifo), blockTime)..]
      ensures forall k :: k in fifo ==> blockTime <= games[k].deadline
      ensures ForfeitedSoFar(old(games), old(fifo)[..Expired(old(games), old(fifo), blockTime)], games)
      ensures SettledAll(balances, old(balances), old(games), old(fifo)[..Expired(old(games), old(fifo), blockTime)])
      ensures events == old(events) + TickEvents(old(games), old(fifo)[..Expired(old(games), old(fifo), blockTime)])
      ensures blockTime == old(blockTime) && nextGame.idValue == old(nextGame.idValue) &&
        nextGame.creator == old(nextGame.creator)
    {
      ghost var games0, fifo0, bal0, ev0 := games, fifo, balances, events;
      ghost var done := 0;
      SweepStarts(games0, nextGame, bal0, blockTime, fifo0);
      while nextGame.fifoHead != NoId && games[nextGame.fifoHead].deadline < blockTime
        invariant Swept(games0, fifo0, bal0, ev0, done)
        invariant blockTime == old(blockTime) && nextGame.idValue == old(nextGame.idValue) &&
        nextGame.creator == old(nextGame.creator)
        decreases |fifo|
      {
        ForfeitNext(games0, fifo0, bal0, ev0, done);
        done := done + 1;
      }
      SweepEnds(games0, nextGame.fifoHead, blockTime, fifo0, done, games, fifo);
    }

    /** The sweep has forfeited the first `done` games of fifo0, the FIFO
        it started from with the store games0, the balances bal0 and the
        events ev0. */
    ghost predicate Swept(games0: Store, fifo0: seq<string>, bal0: Balances, ev0: seq<Event>, done: nat)
      reads this
    {
      Valid() && Sweeping(games0, fifo0, blockTime, done, games, fifo) &&
      SettledAll(balances, bal0, games0, fifo0[..done]) &&
      events == ev0 + TickEvents(games0, fifo0[..done])
    }

    /** One round of the sweep: forfeits the head of the FIFO, which is
        the next game of fifo0 after the first `done`. */
    method ForfeitNext(ghost games0: Store, ghost fifo0: seq<string>, ghost bal0: Balances,
                       ghost ev0: seq<Event>, ghost done: nat)
      requires Swept(games0, fifo0, bal0, ev0, done)
      requires nextGame.fifoHead != NoId && nextGame.fifoHead in games
      requires games[nextGame.fifoHead].deadline < blockTime
      modifies this
      ensures Swept(games0, fifo0, bal0, ev0, done + 1)
      ensures |fifo| < |old(fifo)|
      ensures blockTime == old(blockTime) && nextGame.idValue == old(nextGame.idValue) &&
        nextGame.creator == old(nextGame.creator)
    {
      var id := nextGame.fifoHead;
      ghost var ids, games1, fifo1, bal1 := fifo0[..done], games, fifo, balances;
      ghost var g := games[id];
      SweepHead(games0, fifo0, blockTime, done, games, nextGame.fifoHead, fifo);
      Forfeit(id);
      TickStep(bal0, games0, ids, id, g, bal1, balances);
      ConcatAssoc(ev0, TickEvents(games0, ids), ForfeitEvents(g, id));
      SweepStep(games0, fifo0, blockTime, done, games1, fifo1, games, fifo);
    }
  }
}
