/** The keeper's integration scenarios: on a chain where alice creates
    game "1" with red bob and black carol, the players move, blocks pass,
    and the game is forfeited or rejected. Each scenario states the
    record, the counter, the balances and the events it ends with. Board
    strings stand for what the rules engine answers. */
module Scenarios {
  import opened Ids
  import opened Types
  import opened Bank
  import opened Escrow
  import opened Rules
  import opened Fifo
  import opened State
  import opened Keeper

  /** The only game of a FIFO holding one game has no links. */
  lemma OnlyGameUnlinked(k: Keeper, id: string)
    requires k.Valid() && k.fifo == [id]
    ensures id in k.games && k.games[id] == Unlinked(k.games[id])
    ensures k.nextGame.fifoHead == id && k.nextGame.fifoTail == id
  {
  }

  /** Forfeiting the one game [id] settles exactly its payouts, emits
      exactly its forfeit events, and counts as one expired game. */
  lemma SweptOne(games0: Store, id: string, now: Time, bal0: Balances, a: Account, d: string)
    requires id in games0 && games0[id].deadline < now
    ensures Expired(games0, [id], now) == 1 && [id][..1] == [id] && [id][1..] == []
    ensures TickEvents(games0, [id]) == ForfeitEvents(games0[id], id)
    ensures Settled(bal0, games0, [id], a, d) == Balance(bal0, a, d) +
      Credit(ForfeitPayouts(games0[id]), Denom(games0[id]), a, d) -
      (if a == Module && d == Denom(games0[id]) then Total(ForfeitPayouts(games0[id])) else 0)
  {
    ExpiredExact(games0, [id], now, 1);
    assert [id][..0] == [] && [id][1..] == [];
    ForfeitReleasesEscrow(games0[id]);
    assert Escrowed(games0, [id], d) == HeldIn(games0[id], d);
    assert TickCredit(games0, [id], a, d) == Credit(ForfeitPayouts(games0[id]), Denom(games0[id]), a, d);
  }

  /** A chain started at t0 on which alice created the first game. */
  method StartWithGame(alice: string, bob: string, carol: string, wager: nat, token: string,
                       bank: Balances, t0: Time) returns (k: Keeper, id: string)
    requires forall d :: Balance(bank, Module, d) == 0
    ensures fresh(k)
    ensures k.Valid() && id == "1" && k.fifo == [id] && id in k.games
    ensures k.games[id] == NewGame(alice, id, bob, carol, wager, token, t0)
    ensures k.balances == bank && k.blockTime == t0 && k.nextGame.idValue == 2 && k.nextGame.creator == ""
    ensures k.events == [GameCreated(alice, "1")]
  {
    k := new Keeper(bank, t0);
    id := k.CreateGame(alice, bob, carol, wager, token);
    assert id == "1";
    OnlyGameUnlinked(k, id);
  }

  /** An accepted move of the only queued game. */
  method MoveOnly(k: Keeper, id: string, who: string, board: string, turn: Color)
    requires k.Valid() && k.fifo == [id] && id in k.games
    requires PlayError(k.games[id], who, k.balances, Moved(board, turn)).None?
    modifies k
    ensures k.Valid() && k.fifo == [id] && id in k.games
    ensures k.games[id] == Played(old(k.games[id]), board, turn, k.blockTime)
    ensures AntePaid(old(k.balances), k.balances, old(k.games[id]))
    ensures k.blockTime == old(k.blockTime) && k.nextGame.idValue == old(k.nextGame.idValue) && k.nextGame.creator == old(k.nextGame.creator)
    ensures k.events == old(k.events) + AnteEvents(old(k.games[id])) + [MovePlayed(who, id)]
  {
    OnlyGameUnlinked(k, id);
    var status := k.PlayMove(who, id, Moved(board, turn));
    assert ToTail([id], id) == [id];
    OnlyGameUnlinked(k, id);
  }

  /** The end-of-block sweep once the only queued game has expired: it
      pays out exactly that game's forfeit payouts. */
  method ForfeitOnly(k: Keeper, id: string)
    requires k.Valid() && k.fifo == [id] && id in k.games && k.games[id].deadline < k.blockTime
    modifies k
    ensures k.Valid() && k.fifo == []
    ensures k.nextGame.fifoHead == NoId && k.nextGame.fifoTail == NoId
    ensures k.nextGame.idValue == old(k.nextGame.idValue) && k.nextGame.creator == old(k.nextGame.creator) && k.blockTime == old(k.blockTime)
    ensures old(k.games[id]).moveCount <= 1 ==> id !in k.games
    ensures old(k.games[id]).moveCount > 1 ==> id in k.games && k.games[id] == Forfeited(old(k.games[id]))
    ensures PaidOut(old(k.balances), k.balances, ForfeitPayouts(old(k.games[id])), Denom(old(k.games[id])))
    ensures k.events == old(k.events) + ForfeitEvents(old(k.games[id]), id)
  {
    ghost var games0, bal0 := k.games, k.balances;
    SweptOne(k.games, id, k.blockTime, k.balances, Module, "");
    k.ForfeitExpiredGames();
    forall a, e
      ensures Balance(k.balances, a, e) == Balance(bal0, a, e) +
        Credit(ForfeitPayouts(games0[id]), Denom(games0[id]), a, e) -
        (if a == Module && e == Denom(games0[id]) then Total(ForfeitPayouts(games0[id])) else 0)
    {
      SweptOne(games0, id, k.blockTime, bal0, a, e);
    }
  }

  /** bal is bank but for denomination denom, in which the module account
      holds m more, red r more and black b more. */
  ghost predicate Shifted(bal: Balances, bank: Balances, denom: string, red: string, black: string,
                          m: int, r: int, b: int) {
    forall a, d :: Balance(bal, a, d) == Balance(bank, a, d) +
      (if d != denom then 0 else if a == Module then m else if a == User(red) then r
       else if a == User(black) then b else 0)
  }

  /** Collecting the ante of g moves its wager from the player due to pay
      it to the module account. */
  lemma AnteShifts(bank: Balances, bal0: Balances, bal1: Balances, g: StoredGame, m: int, r: int, b: int)
    requires g.moveCount <= 1 && g.red != g.black
    requires Shifted(bal0, bank, Denom(g), g.red, g.black, m, r, b)
    requires AntePaid(bal0, bal1, g)
    ensures Shifted(bal1, bank, Denom(g), g.red, g.black, m + g.wager,
                    r - (if g.moveCount == 1 then g.wager else 0), b - (if g.moveCount == 0 then g.wager else 0))
  {
    forall a, d
      ensures Balance(bal1, a, d) == Balance(bank, a, d) +
        (if d != Denom(g) then 0 else if a == Module then m + g.wager
         else if a == User(g.red) then r - (if g.moveCount == 1 then g.wager else 0)
         else if a == User(g.black) then b - (if g.moveCount == 0 then g.wager else 0) else 0)
    {
      assert Balance(bal0, a, d) == Balance(bank, a, d) +
        (if d != Denom(g) then 0 else if a == Module then m else if a == User(g.red) then r
         else if a == User(g.black) then b else 0);
    }
  }

  /** Paying amount from the module account to player `to` moves it
      from the one to the other. */
  lemma PayShifts(bank: Balances, bal0: Balances, bal1: Balances, denom: string, red: string, black: string,
                  to: string, amount: nat, m: int, r: int, b: int)
    requires red != black && (to == red || to == black)
    requires Shifted(bal0, bank, denom, red, black, m, r, b)
    requires PaidOut(bal0, bal1, Pay(to, amount), denom)
    ensures Shifted(bal1, bank, denom, red, black, m - amount,
                    r + (if to == red then amount else 0), b + (if to == black then amount else 0))
  {
    var ps := Pay(to, amount);
    if amount != 0 {
      assert ps == [Payout(to, amount)] && ps[1..] == [];
    }
    assert Total(ps) == amount;
    forall a, d
      ensures Balance(bal1, a, d) == Balance(bank, a, d) +
        (if d != denom then 0 else if a == Module then m - amount
         else if a == User(red) then r + (if to == red then amount else 0)
         else if a == User(black) then b + (if to == black then amount else 0) else 0)
    {
      assert Balance(bal0, a, d) == Balance(bank, a, d) +
        (if d != denom then 0 else if a == Module then m else if a == User(red) then r
         else if a == User(black) then b else 0);
      if amount != 0 && a.User? {
        assert ReceivedBy(ps, a.address) == if a.address == to then amount else 0;
      }
    }
  }

  /** The game alice creates at t0 with red bob, black carol, and the
      given wager and token. */
  function FirstGame(alice: string, bob: string, carol: string, wager: nat, token: string, t0: Time): StoredGame {
    NewGame(alice, "1", bob, carol, wager, token, t0)
  }

  /** Carol (black) makes the first move of the game alice created, and
      pays the wager into escrow. */
  method PlayOnce(alice: string, bob: string, carol: string, wager: nat, token: string,
                  bank: Balances, t0: Time, board1: string) returns (k: Keeper)
    requires bob != carol && 0 < wager
    requires forall d :: Balance(bank, Module, d) == 0
    requires wager <= Balance(bank, User(carol), Denom(FirstGame(alice, bob, carol, wager, token, t0)))
    ensures fresh(k) && k.Valid() && k.fifo == ["1"] && "1" in k.games
    ensures k.games["1"] == Played(FirstGame(alice, bob, carol, wager, token, t0), board1, Red, t0)
    ensures k.blockTime == t0 && k.nextGame.idValue == 2 && k.nextGame.creator == ""
    ensures Shifted(k.balances, bank, Denom(FirstGame(alice, bob, carol, wager, token, t0)), bob, carol,
                    wager, 0, -(wager as int))
    ensures k.events == [GameCreated(alice, "1"),
                         Transfer(Module, User(carol), wager, Denom(FirstGame(alice, bob, carol, wager, token, t0))),
                         MovePlayed(carol, "1")]
  {
    var id;
    k, id := StartWithGame(alice, bob, carol, wager, token, bank, t0);
    ghost var g0, bal0 := k.games[id], k.balances;
    assert Shifted(bal0, bank, Denom(g0), bob, carol, 0, 0, 0);
    MoveOnly(k, id, carol, board1, Red);
    AnteShifts(bank, bal0, k.balances, g0, 0, 0, 0);
  }

  /** ... and then bob (red) moves and pays the wager too. */
  method PlayTwice(alice: string, bob: string, carol: string, wager: nat, token: string,
                   bank: Balances, t0: Time, board1: string, board2: string) returns (k: Keeper)
    requires bob != carol && 0 < wager
    requires forall d :: Balance(bank, Module, d) == 0
    requires wager <= Balance(bank, User(carol), Denom(FirstGame(alice, bob, carol, wager, token, t0)))
    requires wager <= Balance(bank, User(bob), Denom(FirstGame(alice, bob, carol, wager, token, t0)))
    ensures fresh(k) && k.Valid() && k.fifo == ["1"] && "1" in k.games
    ensures k.games["1"] == Played(Played(FirstGame(alice, bob, carol, wager, token, t0), board1, Red, t0), board2, Black, t0)
    ensures k.blockTime == t0 && k.nextGame.idValue == 2 && k.nextGame.creator == ""
    ensures Shifted(k.balances, bank, Denom(FirstGame(alice, bob, carol, wager, token, t0)), bob, carol,
                    2 * wager, -(wager as int), -(wager as int))
    ensures k.events == [GameCreated(alice, "1"),
                         Transfer(Module, User(carol), wager, Denom(FirstGame(alice, bob, carol, wager, token, t0))),
                         MovePlayed(carol, "1"),
                         Transfer(Module, User(bob), wager, Denom(FirstGame(alice, bob, carol, wager, token, t0))),
                         MovePlayed(bob, "1")]
  {
    k := PlayOnce(alice, bob, carol, wager, token, bank, t0, board1);
    ghost var g1, bal1 := k.games["1"], k.balances;
    assert Balance(bal1, User(bob), Denom(g1)) == Balance(bank, User(bob), Denom(g1));
    assert AnteEvents(g1) == [Transfer(Module, User(bob), wager, Denom(g1))];
    MoveOnly(k, "1", bob, board2, Black);
    AnteShifts(bank, bal1, k.balances, g1, wager, 0, -(wager as int));
  }

  /** With no game queued, both ends of the FIFO are the sentinel. */
  lemma EmptyFifo(k: Keeper)
    requires k.Valid() && k.fifo == []
    ensures k.nextGame.fifoHead == NoId && k.nextGame.fifoTail == NoId
  {
  }

  /** Nobody moves before the deadline: the sweep deletes the game, moves
      no coin, and emits GameForfeited without a winner. */
  method ForfeitUnplayed(alice: string, bob: string, carol: string, wager: nat, token: string,
                         bank: Balances, t0: Time) returns (k: Keeper)
    requires forall d :: Balance(bank, Module, d) == 0
    ensures "1" !in k.games
    ensures k.nextGame == NextGame("", 2, NoId, NoId)
    ensures forall a, d :: Balance(k.balances, a, d) == Balance(bank, a, d)
    ensures k.events == [GameCreated(alice, "1"), GameForfeited("1", NoPlayer)]
    ensures MessageAttributes(k.events[1]) ==
      [Attribute("module", "checkers"), Attribute("action", "GameForfeited"),
       Attribute("IdValue", "1"), Attribute("Winner", "*")]
  {
    var id;
    k, id := StartWithGame(alice, bob, carol, wager, token, bank, t0);
    k.BeginBlock(t0 + MaxTurnDuration + 1);
    ForfeitOnly(k, id);
  }

  /** Only carol (black) moves before the deadline: the sweep deletes the
      game, refunds carol's wager, and emits GameForfeited without a
      winner after the refund. */
  method ForfeitPlayedOnce(alice: string, bob: string, carol: string, wager: nat, token: string,
                           bank: Balances, t0: Time, board1: string) returns (k: Keeper)
    requires bob != carol && 0 < wager
    requires forall d :: Balance(bank, Module, d) == 0
    requires wager <= Balance(bank, User(carol), Denom(FirstGame(alice, bob, carol, wager, token, t0)))
    ensures "1" !in k.games
    ensures k.nextGame == NextGame("", 2, NoId, NoId)
    ensures forall a, d :: Balance(k.balances, a, d) == Balance(bank, a, d)
    ensures var denom := Denom(FirstGame(alice, bob, carol, wager, token, t0));
      k.events == [GameCreated(alice, "1"), Transfer(Module, User(carol), wager, denom), MovePlayed(carol, "1"),
                   Transfer(User(carol), Module, wager, denom), GameForfeited("1", NoPlayer)]
    ensures MessageAttributes(k.events[4]) ==
      [Attribute("module", "checkers"), Attribute("action", "GameForfeited"),
       Attribute("IdValue", "1"), Attribute("Winner", "*")]
  {
    k := PlayOnce(alice, bob, carol, wager, token, bank, t0, board1);
    ghost var g1, bal1 := k.games["1"], k.balances;
    k.BeginBlock(t0 + MaxTurnDuration + 1);
    ForfeitOnly(k, "1");
    assert ForfeitPayouts(g1) == Pay(carol, wager);
    PayShifts(bank, bal1, k.balances, Denom(g1), bob, carol, carol, wager, wager, 0, -(wager as int));
  }

  /** Carol (black) and bob (red) both move, then the deadline passes: the
      sweep keeps the game, unlinked, with red as its winner, pays bob both
      wagers, and emits GameForfeited with winner red after the transfer. */
  method ForfeitPlayedTwice(alice: string, bob: string, carol: string, wager: nat, token: string,
                            bank: Balances, t0: Time, board1: string, board2: string) returns (k: Keeper)
    requires bob != carol && 0 < wager
    requires forall d :: Balance(bank, Module, d) == 0
    requires wager <= Balance(bank, User(carol), Denom(FirstGame(alice, bob, carol, wager, token, t0)))
    requires wager <= Balance(bank, User(bob), Denom(FirstGame(alice, bob, carol, wager, token, t0)))
    ensures "1" in k.games
    ensures k.games["1"] == StoredGame(alice, "1", board2, Black, bob, carol, 2, NoId, NoId,
                                       t0 + MaxTurnDuration, Won(Red), wager, token)
    ensures k.nextGame == NextGame("", 2, NoId, NoId)
    ensures Shifted(k.balances, bank, Denom(FirstGame(alice, bob, carol, wager, token, t0)), bob, carol,
                    0, wager, -(wager as int))
    ensures var denom := Denom(FirstGame(alice, bob, carol, wager, token, t0));
      k.events == [GameCreated(alice, "1"), Transfer(Module, User(carol), wager, denom), MovePlayed(carol, "1"),
                   Transfer(Module, User(bob), wager, denom), MovePlayed(bob, "1"),
                   Transfer(User(bob), Module, 2 * wager, denom), GameForfeited("1", Won(Red))]
    ensures MessageAttributes(k.events[6]) ==
      [Attribute("module", "checkers"), Attribute("action", "GameForfeited"),
       Attribute("IdValue", "1"), Attribute("Winner", "r")]
  {
    k := PlayTwice(alice, bob, carol, wager, token, bank, t0, board1, board2);
    ghost var g2, bal2 := k.games["1"], k.balances;
    k.BeginBlock(t0 + MaxTurnDuration + 1);
    ForfeitOnly(k, "1");
    assert ForfeitPayouts(g2) == Pay(bob, 2 * wager);
    PayShifts(bank, bal2, k.balances, Denom(g2), bob, carol, bob, 2 * wager,
              2 * wager, -(wager as int), -(wager as int));
  }

  /** Carol (black) moves, then bob (red) rejects the game before red's own
      first move: carol's wager comes back, the game is deleted, and
      GameRejected follows the refund. */
  method RejectByRedAfterOneMove(alice: string, bob: string, carol: string, wager: nat, token: string,
                                 bank: Balances, t0: Time, board1: string) returns (k: Keeper, status: Status)
    requires bob != carol && 0 < wager
    requires forall d :: Balance(bank, Module, d) == 0
    requires wager <= Balance(bank, User(carol), Denom(FirstGame(alice, bob, carol, wager, token, t0)))
    ensures status == Ok && "1" !in k.games
    ensures k.nextGame == NextGame("", 2, NoId, NoId)
    ensures forall a, d :: Balance(k.balances, a, d) == Balance(bank, a, d)
    ensures var denom := Denom(FirstGame(alice, bob, carol, wager, token, t0));
      k.events == [GameCreated(alice, "1"), Transfer(Module, User(carol), wager, denom), MovePlayed(carol, "1"),
                   Transfer(User(carol), Module, wager, denom), GameRejected(bob, "1")]
    ensures MessageAttributes(k.events[4]) ==
      [Attribute("module", "checkers"), Attribute("action", "GameRejected"),
       Attribute("Creator", bob), Attribute("IdValue", "1")]
  {
    k := PlayOnce(alice, bob, carol, wager, token, bank, t0, board1);
    ghost var g1, bal1 := k.games["1"], k.balances;
    status := k.RejectGame(bob, "1");
    assert Without(["1"], 0) == [];
    EmptyFifo(k);
    PayShifts(bank, bal1, k.balances, Denom(g1), bob, carol, carol, wager, wager, 0, -(wager as int));
  }

  /** Carol (black) rejects the game before any move: nothing was paid,
      nothing is refunded, and the game is deleted. */
  method RejectByBlackUnplayed(alice: string, bob: string, carol: string, wager: nat, token: string,
                               bank: Balances, t0: Time) returns (k: Keeper, status: Status)
    requires forall d :: Balance(bank, Module, d) == 0
    ensures status == Ok && "1" !in k.games
    ensures k.nextGame == NextGame("", 2, NoId, NoId)
    ensures forall a, d :: Balance(k.balances, a, d) == Balance(bank, a, d)
    ensures k.events == [GameCreated(alice, "1"), GameRejected(carol, "1")]
  {
    var id;
    k, id := StartWithGame(alice, bob, carol, wager, token, bank, t0);
    status := k.RejectGame(carol, id);
    assert Without([id], 0) == [];
    EmptyFifo(k);
  }

  /** A second game, "2", created after the first one, queued behind it. */
  method StartWithTwoGames(alice: string, bob: string, carol: string, wager1: nat, token1: string,
                           wager2: nat, token2: string, bank: Balances, t0: Time) returns (k: Keeper)
    requires forall d :: Balance(bank, Module, d) == 0
    ensures fresh(k) && k.Valid() && k.fifo == ["1", "2"] && "1" in k.games && "2" in k.games
    ensures Unlinked(k.games["2"]) == NewGame(alice, "2", bob, carol, wager2, token2, t0)
    ensures k.balances == bank && k.blockTime == t0
  {
    var id;
    k, id := StartWithGame(alice, bob, carol, wager1, token1, bank, t0);
    var id2 := k.CreateGame(alice, bob, carol, wager2, token2);
    assert id2 == "2";
  }

  /** A record and its unlinked form agree on everything but the links. */
  lemma UnlinkedFields(g: StoredGame, u: StoredGame)
    requires Unlinked(g) == u
    ensures g.winner == u.winner && g.moveCount == u.moveCount && g.turn == u.turn
    ensures g.red == u.red && g.black == u.black && g.wager == u.wager && g.token == u.token
  {
    assert Unlinked(g).winner == u.winner && Unlinked(g).moveCount == u.moveCount && Unlinked(g).turn == u.turn;
    assert Unlinked(g).red == u.red && Unlinked(g).black == u.black;
    assert Unlinked(g).wager == u.wager && Unlinked(g).token == u.token;
  }

  /** What a move makes of a game, whether it is accepted, and what its
      ante moves do not depend on the game's links. */
  lemma MoveIgnoresLinks(x: StoredGame, g: StoredGame, who: string, board: string, turn: Color, now: Time,
                         b0: Balances, b1: Balances)
    requires Unlinked(x) == g
    ensures Unlinked(Played(x, board, turn, now)) == Played(g, board, turn, now)
    ensures PlayError(x, who, b0, Moved(board, turn)) == PlayError(g, who, b0, Moved(board, turn))
    ensures AntePaid(b0, b1, x) ==> AntePaid(b0, b1, g)
  {
    UnlinkedFields(x, g);
  }

  /** The tail of a FIFO of two games stays where it is when sent to the
      tail. */
  lemma SecondStaysLast()
    ensures ToTail(["1", "2"], "2") == ["1", "2"]
  {
    assert IndexOf(["1", "2"], "2") == 1;
    assert Without(["1", "2"], 1) == ["1"];
  }

  /** An accepted move of the second of two queued games, which is
      already the tail: the FIFO stays as it is. */
  method MoveSecond(k: Keeper, who: string, board: string, turn: Color, ghost g: StoredGame)
    requires k.Valid() && k.fifo == ["1", "2"] && "2" in k.games && Unlinked(k.games["2"]) == g
    requires PlayError(g, who, k.balances, Moved(board, turn)).None?
    modifies k
    ensures k.Valid() && k.fifo == ["1", "2"] && "1" in k.games && "2" in k.games
    ensures Unlinked(k.games["2"]) == Played(g, board, turn, k.blockTime)
    ensures AntePaid(old(k.balances), k.balances, g)
    ensures k.blockTime == old(k.blockTime)
  {
    ghost var x, b0 := k.games["2"], k.balances;
    SecondStaysLast();
    var status := k.PlayMove(who, "2", Moved(board, turn));
    MoveIgnoresLinks(x, g, who, board, turn, k.blockTime, b0, k.balances);
  }

  /** Two games are open, and carol (black) plays the second once. */
  method PlaySecondOnce(alice: string, bob: string, carol: string, wager1: nat, token1: string,
                        wager2: nat, token2: string, bank: Balances, t0: Time, board1: string)
    returns (k: Keeper)
    requires bob != carol
    requires forall d :: Balance(bank, Module, d) == 0
    requires wager2 <= Balance(bank, User(carol), Denom(NewGame(alice, "2", bob, carol, wager2, token2, t0)))
    ensures fresh(k) && k.Valid() && k.fifo == ["1", "2"] && "1" in k.games && "2" in k.games
    ensures Unlinked(k.games["2"]) == Played(NewGame(alice, "2", bob, carol, wager2, token2, t0), board1, Red, t0)
    ensures Shifted(k.balances, bank, Denom(NewGame(alice, "2", bob, carol, wager2, token2, t0)), bob, carol,
                    wager2, 0, -(wager2 as int))
  {
    k := StartWithTwoGames(alice, bob, carol, wager1, token1, wager2, token2, bank, t0);
    var g0 := NewGame(alice, "2", bob, carol, wager2, token2, t0);
    assert Shifted(bank, bank, Denom(g0), bob, carol, 0, 0, 0);
    MoveSecond(k, carol, board1, Red, g0);
    AnteShifts(bank, bank, k.balances, g0, 0, 0, 0);
  }

  /** Two games are open, and the second, in its own token, is played once
      by carol (black) and then rejected by bob (red): carol's wager in
      that token comes back, the second game is deleted, the first stays
      queued, and every balance is back where it started. */
  method RejectRefundsOtherToken(alice: string, bob: string, carol: string, wager1: nat, token1: string,
                                 wager2: nat, token2: string, bank: Balances, t0: Time, board1: string)
    returns (k: Keeper, status: Status)
    requires bob != carol
    requires forall d :: Balance(bank, Module, d) == 0
    requires wager2 <= Balance(bank, User(carol), Denom(NewGame(alice, "2", bob, carol, wager2, token2, t0)))
    ensures status == Ok && "2" !in k.games && "1" in k.games && k.fifo == ["1"]
    ensures forall a, d :: Balance(k.balances, a, d) == Balance(bank, a, d)
  {
    k := PlaySecondOnce(alice, bob, carol, wager1, token1, wager2, token2, bank, t0, board1);
    var g1 := Played(NewGame(alice, "2", bob, carol, wager2, token2, t0), board1, Red, t0);
    ghost var bal1 := k.balances;
    UnlinkedFields(k.games["2"], g1);
    assert Refunds(k.games["2"]) == Pay(carol, wager2);
    status := k.RejectGame(bob, "2");
    assert Without(["1", "2"], 1) == ["1"];
    PayShifts(bank, bal1, k.balances, Denom(g1), bob, carol, carol, wager2, wager2, 0, -(wager2 as int));
  }
}
