/** The consistency of the keeper's state, stated over values, and its
    preservation by each transition of the module. */
module State {
  import opened Ids
  import opened Types
  import opened Bank
  import opened Escrow
  import opened Rules
  import opened Fifo

  /** Every id listed in q is stored. */
  predicate Stored(games: Store, q: seq<string>) {
    forall k :: k in q ==> k in games
  }

  /** A game is queued exactly while it has no winner, and a game outside
      the FIFO has no links. */
  ghost predicate QueuedIffActive(games: Store, fifo: seq<string>) {
    forall k :: k in games ==>
      (k in fifo <==> games[k].winner == NoPlayer) &&
      (k !in fifo ==> games[k].beforeId == NoId && games[k].afterId == NoId)
  }

  /** Every game is stored under its own index, a decimal number below the
      id the counter hands out next. */
  predicate IdsIssued(games: Store, idValue: nat) {
    forall k :: k in games ==> games[k].index == k && IsDecimal(k) && ParseDecimal(k) < idValue
  }

  /** No queued deadline lies more than one turn after now. */
  predicate DeadlinesWithin(games: Store, q: seq<string>, now: Time)
    requires Stored(games, q)
  {
    forall k :: k in q ==> games[k].deadline <= now + MaxTurnDuration
  }

  /** In every denomination the module account holds exactly the escrow
      of the queued games. */
  ghost predicate EscrowBacked(games: Store, q: seq<string>, bal: Balances)
    requires Stored(games, q)
  {
    forall d :: Balance(bal, Module, d) == Escrowed(games, q, d)
  }

  /** The keeper's whole invariant: the links spell out fifo, fifo holds
      exactly the games without a winner, ids were handed out by the
      counter, deadlines grow from head to tail and lie within one turn of
      now, and the module account holds exactly the escrow. */
  ghost predicate Consistent(games: Store, ng: NextGame, bal: Balances, now: Time, fifo: seq<string>) {
    Linked(games, ng.fifoHead, ng.fifoTail, fifo) &&
    Stored(games, fifo) &&
    QueuedIffActive(games, fifo) &&
    IdsIssued(games, ng.idValue) &&
    DeadlineOrdered(games, fifo) &&
    DeadlinesWithin(games, fifo, now) &&
    EscrowBacked(games, fifo, bal)
  }

  /** Every game but id is the same game before and after a transition,
      stored, queued or not as before, and untouched when not queued. */
  ghost predicate SameBut(games0: Store, fifo0: seq<string>, games1: Store, fifo1: seq<string>, id: string) {
    (forall k :: k != id ==> (k in games1 <==> k in games0)) &&
    (forall k :: k in games1 && k != id ==>
       Unlinked(games1[k]) == Unlinked(games0[k]) &&
       (k in fifo1 <==> k in fifo0) && (k !in fifo1 ==> games1[k] == games0[k]))
  }

  /** Game id went to the tail of the FIFO holding the record g (up to
      its links), and no other game changed. */
  ghost predicate Requeued(games0: Store, fifo0: seq<string>, games1: Store, fifo1: seq<string>,
                           id: string, g: StoredGame) {
    SameBut(games0, fifo0, games1, fifo1, id) && fifo1 == ToTail(fifo0, id) &&
    id in games1 && Unlinked(games1[id]) == Unlinked(g)
  }

  /** A transition that changes no game but id keeps the queue membership
      and id conditions, provided game id itself meets them. */
  lemma OthersKeep(games0: Store, fifo0: seq<string>, games1: Store, fifo1: seq<string>,
                   id: string, v0: nat, v1: nat)
    requires QueuedIffActive(games0, fifo0) && IdsIssued(games0, v0) && v0 <= v1
    requires SameBut(games0, fifo0, games1, fifo1, id)
    requires id in games1 ==>
      (id in fifo1 <==> games1[id].winner == NoPlayer) &&
      (id !in fifo1 ==> games1[id].beforeId == NoId && games1[id].afterId == NoId) &&
      games1[id].index == id && IsDecimal(id) && ParseDecimal(id) < v1
    ensures QueuedIffActive(games1, fifo1) && IdsIssued(games1, v1)
  {
    forall k | k in games1 && k != id
      ensures games1[k].winner == games0[k].winner && games1[k].index == games0[k].index
    {
      assert Unlinked(games1[k]).winner == Unlinked(games0[k]).winner;
      assert Unlinked(games1[k]).index == Unlinked(games0[k]).index;
    }
  }

  /** ... and keeps the deadlines of a list of other games. */
  lemma SameButDeadlines(games0: Store, fifo0: seq<string>, games1: Store, fifo1: seq<string>,
                         id: string, q: seq<string>, now: Time)
    requires SameBut(games0, fifo0, games1, fifo1, id)
    requires Stored(games0, q) && id !in q
    requires DeadlineOrdered(games0, q) && DeadlinesWithin(games0, q, now)
    ensures Stored(games1, q) && DeadlineOrdered(games1, q) && DeadlinesWithin(games1, q, now)
  {
    forall k | k in q
      ensures k in games1 && games1[k].deadline == games0[k].deadline
    {
      assert Unlinked(games1[k]).deadline == Unlinked(games0[k]).deadline;
    }
    DeadlineFrame(games0, games1, q, now);
  }

  /** ... and the escrow of a list of other games. */
  lemma SameButEscrow(games0: Store, fifo0: seq<string>, games1: Store, fifo1: seq<string>,
                      id: string, q: seq<string>)
    requires SameBut(games0, fifo0, games1, fifo1, id)
    requires Stored(games0, q) && id !in q
    ensures Stored(games1, q)
    ensures forall d :: Escrowed(games1, q, d) == Escrowed(games0, q, d)
  {
    forall d
      ensures Escrowed(games1, q, d) == Escrowed(games0, q, d)
    {
      EscrowFrame(games1, games0, q, d);
    }
  }

  /** The deadline conditions depend only on the deadlines of the queued
      games. */
  lemma DeadlineFrame(games0: Store, games1: Store, q: seq<string>, now: Time)
    requires Stored(games0, q) && Stored(games1, q)
    requires forall k :: k in q ==> games1[k].deadline == games0[k].deadline
    requires DeadlineOrdered(games0, q) && DeadlinesWithin(games0, q, now)
    ensures DeadlineOrdered(games1, q) && DeadlinesWithin(games1, q, now)
  {
    forall i, j | 0 <= i < j < |q|
      ensures games1[q[i]].deadline <= games1[q[j]].deadline
    {
      assert q[i] in q && q[j] in q;
    }
  }

  /** Splicing a game out of a deadline-ordered queue keeps it ordered. */
  lemma DeadlineWithout(games: Store, q: seq<string>, i: nat, now: Time)
    requires i < |q| && Stored(games, q)
    requires forall a, b :: 0 <= a < b < |q| ==> q[a] != q[b]
    requires DeadlineOrdered(games, q) && DeadlinesWithin(games, q, now)
    ensures Stored(games, Without(q, i)) && q[i] !in Without(q, i)
    ensures DeadlineOrdered(games, Without(q, i)) && DeadlinesWithin(games, Without(q, i), now)
  {
    var r := Without(q, i);
    WithoutAt(q, i);
    WithoutMembers(q, i);
    forall a, b | 0 <= a < b < |r|
      ensures games[r[a]].deadline <= games[r[b]].deadline
    {
      var a', b' := if a < i then a else a + 1, if b < i then b else b + 1;
      assert r[a] == q[a'] && r[b] == q[b'];
    }
  }

  /** A game whose deadline is a full turn after now may join the tail of
      a queue whose deadlines lie within one turn of now. */
  lemma DeadlineAppend(games: Store, q: seq<string>, id: string, now: Time)
    requires Stored(games, q) && id in games
    requires DeadlineOrdered(games, q) && DeadlinesWithin(games, q, now)
    requires games[id].deadline == now + MaxTurnDuration
    ensures Stored(games, q + [id])
    ensures DeadlineOrdered(games, q + [id]) && DeadlinesWithin(games, q + [id], now)
  {
    var r := q + [id];
    forall a, b | 0 <= a < b < |r|
      ensures games[r[a]].deadline <= games[r[b]].deadline
    {
      assert r[a] in q;
      if b < |q| {
        assert r[b] == q[b];
      }
    }
  }

  /** Sending game id to the tail changes no other game, and only the
      links of id itself. */
  lemma ToTailSame(games: Store, head: string, tail: string, q: seq<string>, id: string)
    requires Linked(games, head, tail, q)
    requires id in games && id != NoId
    requires id !in q ==> games[id].beforeId == NoId && games[id].afterId == NoId
    ensures SameBut(games, q, ToTailStore(games, head, tail, id), ToTail(q, id), id)
    ensures id in ToTailStore(games, head, tail, id) && id in ToTail(q, id)
    ensures Unlinked(ToTailStore(games, head, tail, id)[id]) == Unlinked(games[id])
  {
    if id in q {
      WithoutMembers(q, IndexOf(q, id));
    }
    forall k
      ensures k != id ==> (k in ToTailStore(games, head, tail, id) <==> k in games)
      ensures k in games && k != id ==>
        Unlinked(ToTailStore(games, head, tail, id)[k]) == Unlinked(games[k]) &&
        (k !in q ==> ToTailStore(games, head, tail, id)[k] == games[k])
    {
      ToTailKeeps(games, head, tail, q, id, k);
    }
    ToTailKeeps(games, head, tail, q, id, id);
  }

  /** Storing a record under id, then changing nothing else, is a change
      of that id alone. */
  lemma SameButStored(games: Store, q: seq<string>, games1: Store, q1: seq<string>, id: string, g: StoredGame)
    requires SameBut(games[id := g], q, games1, q1, id)
    ensures SameBut(games, q, games1, q1, id)
  {
  }

  /** Splicing the queued game at position i out of the FIFO changes no
      other game but its neighbours' links. */
  lemma UnlinkSame(games: Store, head: string, tail: string, q: seq<string>, i: nat)
    requires Linked(games, head, tail, q) && i < |q|
    requires forall k :: k in games ==> k != NoId
    requires forall k :: k in games && k !in q ==> games[k].beforeId == NoId && games[k].afterId == NoId
    ensures SameBut(games, q, Unlink(games, q[i]), Without(q, i), q[i])
  {
    var id := q[i];
    var u := Unlink(games, id);
    var w := Without(q, i);
    LinkedAt(games, head, tail, q, i);
    WithoutMembers(q, i);
    forall k | k != id
      ensures k in u <==> k in games
      ensures k in u ==>
        Unlinked(u[k]) == Unlinked(games[k]) && (k in w <==> k in q) && (k !in w ==> u[k] == games[k])
    {
      UnlinkKeeps(games, id, k);
      if k in u && k !in w {
        if i > 0 {
          assert q[i - 1] in q;
        }
        if i < |q| - 1 {
          assert q[i + 1] in q;
        }
      }
    }
  }

  /** Deleting game id, or replacing its record, after a change of id
      alone is still a change of id alone. */
  lemma SameButRetired(games: Store, q: seq<string>, u: Store, w: seq<string>, id: string, kept: Option<StoredGame>)
    requires SameBut(games, q, u, w, id)
    ensures SameBut(games, q, if kept.Some? then u[id := kept.value] else u - {id}, w, id)
  {
  }

  /** After a creation: game id is new and queued at the tail, and no
      other game changed, so the state is consistent again. */
  lemma CreateRestores(games: Store, ng: NextGame, bal: Balances, now: Time, fifo: seq<string>,
                       id: string, g: StoredGame, games1: Store, ng1: NextGame)
    requires Consistent(games, ng, bal, now, fifo)
    requires id !in games && ng1.idValue == ng.idValue + 1 && ParseDecimal(Decimal(ng.idValue)) == ng.idValue
    requires id == Decimal(ng.idValue)
    requires Linked(games1, ng1.fifoHead, ng1.fifoTail, fifo + [id])
    requires SameBut(games, fifo, games1, fifo + [id], id)
    requires id in games1 && Unlinked(games1[id]) == g
    requires g.index == id && g.winner == NoPlayer && g.moveCount == 0 && g.deadline == now + MaxTurnDuration
    ensures Consistent(games1, ng1, bal, now, fifo + [id])
  {
    var f1 := fifo + [id];
    var u := Unlinked(games1[id]);
    assert u.index == games1[id].index && u.winner == games1[id].winner;
    assert u.moveCount == games1[id].moveCount && u.deadline == games1[id].deadline;
    OthersKeep(games, fifo, games1, f1, id, ng.idValue, ng1.idValue);
    SameButDeadlines(games, fifo, games1, f1, id, fifo, now);
    DeadlineAppend(games1, fifo, id, now);
    SameButEscrow(games, fifo, games1, f1, id, fifo);
    forall d
      ensures Balance(bal, Module, d) == Escrowed(games1, f1, d)
    {
      EscrowConcat(games1, fifo, [id], d);
    }
  }

  /** The id a creation uses is new, and storing the game under it keeps
      the FIFO linked, so the game can be sent to its tail. */
  lemma CreateFresh(games: Store, ng: NextGame, bal: Balances, now: Time, fifo: seq<string>, g: StoredGame)
    requires Consistent(games, ng, bal, now, fifo)
    requires g.index == Decimal(ng.idValue)
    ensures g.index !in games && g.index !in fifo && g.index != NoId
    ensures ParseDecimal(g.index) == ng.idValue && ToTail(fifo, g.index) == fifo + [g.index]
    ensures Linked(games[g.index := g], ng.fifoHead, ng.fifoTail, fifo)
  {
    ParseDecimalOfDecimal(ng.idValue);
    NoIdIsNotDecimal();
    assert g.index !in games;
    LinkedFrame(games, games[g.index := g], ng.fifoHead, ng.fifoTail, fifo);
  }

  /** After a move game id is at the tail with a fresh deadline, and the
      deadlines of the other queued games did not change. */
  lemma PlayDeadlines(games: Store, fifo: seq<string>, i: nat, games1: Store, now: Time)
    requires i < |fifo| && Stored(games, fifo)
    requires forall a, b :: 0 <= a < b < |fifo| ==> fifo[a] != fifo[b]
    requires DeadlineOrdered(games, fifo) && DeadlinesWithin(games, fifo, now)
    requires SameBut(games, fifo, games1, Without(fifo, i) + [fifo[i]], fifo[i])
    requires fifo[i] in games1 && games1[fifo[i]].deadline == now + MaxTurnDuration
    ensures Stored(games1, Without(fifo, i) + [fifo[i]])
    ensures DeadlineOrdered(games1, Without(fifo, i) + [fifo[i]])
    ensures DeadlinesWithin(games1, Without(fifo, i) + [fifo[i]], now)
  {
    var w := Without(fifo, i);
    DeadlineWithout(games, fifo, i, now);
    SameButDeadlines(games, fifo, games1, w + [fifo[i]], fifo[i], w, now);
    DeadlineAppend(games1, w, fifo[i], now);
  }

  /** After a move the module account holds what it held before plus the
      ante, which is exactly what the game holds now on top of before. */
  lemma PlayEscrow(games: Store, fifo: seq<string>, i: nat, games1: Store, bal0: Balances, bal1: Balances)
    requires i < |fifo| && Stored(games, fifo)
    requires forall a, b :: 0 <= a < b < |fifo| ==> fifo[a] != fifo[b]
    requires EscrowBacked(games, fifo, bal0)
    requires SameBut(games, fifo, games1, Without(fifo, i) + [fifo[i]], fifo[i])
    requires fifo[i] in games1 && Denom(games1[fifo[i]]) == Denom(games[fifo[i]])
    requires Held(games1[fifo[i]]) == Held(games[fifo[i]]) +
      (if AntePayer(games[fifo[i]]).Some? then games[fifo[i]].wager else 0)
    requires forall d :: Balance(bal1, Module, d) == Balance(bal0, Module, d) + Ante(games[fifo[i]], d)
    ensures Stored(games1, Without(fifo, i) + [fifo[i]])
    ensures EscrowBacked(games1, Without(fifo, i) + [fifo[i]], bal1)
  {
    var id := fifo[i];
    var w := Without(fifo, i);
    WithoutMembers(fifo, i);
    SameButEscrow(games, fifo, games1, w + [id], id, w);
    forall d
      ensures Balance(bal1, Module, d) == Escrowed(games1, w + [id], d)
    {
      EscrowRemove(games, fifo, i, d);
      EscrowConcat(games1, w, [id], d);
    }
  }

  /** After an accepted move: game id holds the played record and went to
      the tail, no other game changed, and the ante is in the module
      account, so the state is consistent again. */
  lemma PlayRestores(games: Store, ng: NextGame, bal0: Balances, bal1: Balances, now: Time, fifo: seq<string>,
                     i: nat, games1: Store, ng1: NextGame)
    requires Consistent(games, ng, bal0, now, fifo)
    requires i < |fifo| && ng1.idValue == ng.idValue
    requires Linked(games1, ng1.fifoHead, ng1.fifoTail, Without(fifo, i) + [fifo[i]])
    requires SameBut(games, fifo, games1, Without(fifo, i) + [fifo[i]], fifo[i])
    requires fifo[i] in games1 && games1[fifo[i]].winner == NoPlayer && games1[fifo[i]].index == fifo[i]
    requires games1[fifo[i]].deadline == now + MaxTurnDuration && Denom(games1[fifo[i]]) == Denom(games[fifo[i]])
    requires Held(games1[fifo[i]]) == Held(games[fifo[i]]) +
      (if AntePayer(games[fifo[i]]).Some? then games[fifo[i]].wager else 0)
    requires forall d :: Balance(bal1, Module, d) == Balance(bal0, Module, d) + Ante(games[fifo[i]], d)
    ensures Consistent(games1, ng1, bal1, now, Without(fifo, i) + [fifo[i]])
  {
    OthersKeep(games, fifo, games1, Without(fifo, i) + [fifo[i]], fifo[i], ng.idValue, ng.idValue);
    PlayDeadlines(games, fifo, i, games1, now);
    PlayEscrow(games, fifo, i, games1, bal0, bal1);
  }

  /** The game a move is accepted for is queued, and replacing its record
      by one with the same links keeps the FIFO linked. */
  lemma PlayQueued(games: Store, ng: NextGame, bal: Balances, now: Time, fifo: seq<string>, id: string, g1: StoredGame)
    requires Consistent(games, ng, bal, now, fifo)
    requires id in games && games[id].winner == NoPlayer
    requires g1.beforeId == games[id].beforeId && g1.afterId == games[id].afterId
    ensures id in fifo && id != NoId
    ensures Linked(games[id := g1], ng.fifoHead, ng.fifoTail, fifo)
  {
    LinkedFrame(games, games[id := g1], ng.fifoHead, ng.fifoTail, fifo);
  }

  /** After an accepted move: game id holds the played record and went to
      the tail, nothing else changed, and the ante is in the module
      account, so the state is consistent again. */
  lemma PlayMoved(games: Store, ng: NextGame, bal0: Balances, bal1: Balances, now: Time, fifo: seq<string>,
                  id: string, board: string, turn: Color, games1: Store, ng1: NextGame)
    requires Consistent(games, ng, bal0, now, fifo)
    requires id in games && id in fifo && ng1.idValue == ng.idValue
    requires forall d :: Balance(bal1, Module, d) == Balance(bal0, Module, d) + Ante(games[id], d)
    requires Linked(games1, ng1.fifoHead, ng1.fifoTail, ToTail(fifo, id))
    requires SameBut(games, fifo, games1, ToTail(fifo, id), id)
    requires id in games1 && Unlinked(games1[id]) == Unlinked(Played(games[id], board, turn, now))
    ensures Consistent(games1, ng1, bal1, now, ToTail(fifo, id))
  {
    var i := IndexOf(fifo, id);
    assert ToTail(fifo, id) == Without(fifo, i) + [id];
    var u := Unlinked(games1[id]);
    assert u.winner == games1[id].winner && u.index == games1[id].index && u.deadline == games1[id].deadline;
    assert u.wager == games1[id].wager && u.moveCount == games1[id].moveCount && u.token == games1[id].token;
    AnteAddsToHeld(games[id]);
    PlayRestores(games, ng, bal0, bal1, now, fifo, i, games1, ng1);
  }

  /** Splicing a game out leaves the deadlines of the others as they were. */
  lemma RetireDeadlines(games: Store, fifo: seq<string>, i: nat, games1: Store, now: Time)
    requires i < |fifo| && Stored(games, fifo)
    requires forall a, b :: 0 <= a < b < |fifo| ==> fifo[a] != fifo[b]
    requires DeadlineOrdered(games, fifo) && DeadlinesWithin(games, fifo, now)
    requires SameBut(games, fifo, games1, Without(fifo, i), fifo[i])
    ensures Stored(games1, Without(fifo, i))
    ensures DeadlineOrdered(games1, Without(fifo, i)) && DeadlinesWithin(games1, Without(fifo, i), now)
  {
    DeadlineWithout(games, fifo, i, now);
    SameButDeadlines(games, fifo, games1, Without(fifo, i), fifo[i], Without(fifo, i), now);
  }

  /** What was held for a game that left play is what left the module
      account. */
  lemma RetireEscrow(games: Store, fifo: seq<string>, i: nat, games1: Store, bal0: Balances, bal1: Balances)
    requires i < |fifo| && Stored(games, fifo)
    requires forall a, b :: 0 <= a < b < |fifo| ==> fifo[a] != fifo[b]
    requires EscrowBacked(games, fifo, bal0)
    requires SameBut(games, fifo, games1, Without(fifo, i), fifo[i])
    requires forall d :: Balance(bal1, Module, d) + HeldIn(games[fifo[i]], d) == Balance(bal0, Module, d)
    ensures Stored(games1, Without(fifo, i))
    ensures EscrowBacked(games1, Without(fifo, i), bal1)
  {
    WithoutMembers(fifo, i);
    SameButEscrow(games, fifo, games1, Without(fifo, i), fifo[i], Without(fifo, i));
    forall d
      ensures Balance(bal1, Module, d) == Escrowed(games1, Without(fifo, i), d)
    {
      EscrowRemove(games, fifo, i, d);
    }
  }

  /** After a game left play: it was spliced out of the FIFO, no other
      game changed, and what was held for it left the module account, so
      the state is consistent again. */
  lemma RetireRestores(games: Store, ng: NextGame, bal0: Balances, bal1: Balances, now: Time, fifo: seq<string>,
                       i: nat, games1: Store, ng1: NextGame)
    requires Consistent(games, ng, bal0, now, fifo)
    requires i < |fifo| && ng1.idValue == ng.idValue
    requires Linked(games1, ng1.fifoHead, ng1.fifoTail, Without(fifo, i))
    requires SameBut(games, fifo, games1, Without(fifo, i), fifo[i])
    requires fifo[i] in games1 ==>
      games1[fifo[i]].winner != NoPlayer && games1[fifo[i]].index == fifo[i] &&
      games1[fifo[i]].beforeId == NoId && games1[fifo[i]].afterId == NoId
    requires forall d :: Balance(bal1, Module, d) + HeldIn(games[fifo[i]], d) == Balance(bal0, Module, d)
    ensures Consistent(games1, ng1, bal1, now, Without(fifo, i))
  {
    WithoutMembers(fifo, i);
    OthersKeep(games, fifo, games1, Without(fifo, i), fifo[i], ng.idValue, ng.idValue);
    RetireDeadlines(games, fifo, i, games1, now);
    RetireEscrow(games, fifo, i, games1, bal0, bal1);
  }

  /** Taking the queued game id out of play keeps the state consistent:
      it is spliced out of the FIFO and then deleted, or kept unqueued with
      a winner, and what was held for it has left the module account. */
  lemma RetireKeeps(games: Store, ng: NextGame, bal0: Balances, bal1: Balances, now: Time, fifo: seq<string>,
                    id: string, kept: Option<StoredGame>)
    requires Consistent(games, ng, bal0, now, fifo)
    requires id in fifo
    requires kept.Some? ==>
      kept.value.winner != NoPlayer && kept.value.index == id &&
      kept.value.beforeId == NoId && kept.value.afterId == NoId
    requires forall d :: Balance(bal1, Module, d) + HeldIn(games[id], d) == Balance(bal0, Module, d)
    ensures Consistent(RetiredStore(games, id, kept),
                 ng.(fifoHead := SplicedHead(games, ng.fifoHead, id),
                     fifoTail := SplicedTail(games, ng.fifoTail, id)),
                 bal1, now, Without(fifo, IndexOf(fifo, id)))
    ensures SameBut(games, fifo, RetiredStore(games, id, kept), Without(fifo, IndexOf(fifo, id)), id)
  {
    var h, t := ng.fifoHead, ng.fifoTail;
    var i := IndexOf(fifo, id);
    UnlinkSplices(games, h, t, fifo, i);
    var u := Unlink(games, id);
    var s1 := if kept.Some? then u[id := kept.value] else u - {id};
    var w := Without(fifo, i);
    NoIdIsNotDecimal();
    UnlinkSame(games, h, t, fifo, i);
    SameButRetired(games, fifo, u, w, id, kept);
    WithoutMembers(fifo, i);
    forall k | k in w
      ensures k in s1 && s1[k].beforeId == u[k].beforeId && s1[k].afterId == u[k].afterId
    {
    }
    LinkedFrame(u, s1, SplicedHead(games, h, id), SplicedTail(games, t, id), w);
    RetireRestores(games, ng, bal0, bal1, now, fifo, i, s1,
                   ng.(fifoHead := SplicedHead(games, h, id), fifoTail := SplicedTail(games, t, id)));
  }

  /** The store after game id left play: spliced out of the FIFO, then
      deleted, or kept as the record given. */
  function RetiredStore(games: Store, id: string, kept: Option<StoredGame>): Store
    requires id in games
  {
    var u := Unlink(games, id);
    if kept.Some? then u[id := kept.value] else u - {id}
  }

  /** An active game is queued, and the module account holds at least its
      escrow. */
  lemma HeldIsEscrowed(games: Store, ng: NextGame, bal: Balances, now: Time, fifo: seq<string>, id: string)
    requires Consistent(games, ng, bal, now, fifo)
    requires id in games && games[id].winner == NoPlayer
    ensures id in fifo && Held(games[id]) <= Balance(bal, Module, Denom(games[id]))
  {
    EscrowRemove(games, fifo, IndexOf(fifo, id), Denom(games[id]));
  }

  /** Where each account stands, in denomination d, once the games ids
      of games0 were forfeited starting from the balances bal0: every
      player credited its payouts, the module debited their escrow. */
  function Settled(bal0: Balances, games0: Store, ids: seq<string>, a: Account, d: string): int
    requires Stored(games0, ids)
  {
    Balance(bal0, a, d) + TickCredit(games0, ids, a, d) - (if a == Module then Escrowed(games0, ids, d) else 0)
  }

  /** Every balance in bal is bal0 after forfeiting the games ids. */
  ghost predicate SettledAll(bal: Balances, bal0: Balances, games0: Store, ids: seq<string>)
    requires Stored(games0, ids)
  {
    forall a, d :: Balance(bal, a, d) == Settled(bal0, games0, ids, a, d)
  }

  /** Forfeiting one more game moves the balances on by its payouts and
      the events on by its forfeit events. */
  lemma TickStep(bal0: Balances, games0: Store, ids: seq<string>, id: string, g: StoredGame,
                 bal: Balances, bal1: Balances)
    requires Stored(games0, ids + [id]) && Unlinked(g) == Unlinked(games0[id])
    requires SettledAll(bal, bal0, games0, ids)
    requires PaidOut(bal, bal1, ForfeitPayouts(g), Denom(g))
    ensures SettledAll(bal1, bal0, games0, ids + [id])
    ensures TickEvents(games0, ids + [id]) == TickEvents(games0, ids) + ForfeitEvents(g, id)
  {
    ForfeitIgnoresLinks(g, games0[id]);
    ForfeitReleasesEscrow(g);
    assert (ids + [id])[..|ids|] == ids;
    forall a, d
      ensures Balance(bal1, a, d) == Settled(bal0, games0, ids + [id], a, d)
    {
      EscrowConcat(games0, ids, [id], d);
    }
  }

  /** The games of games0 forfeited so far, ids, are gone when they were
      never really played and kept with their winner otherwise; every
      other game is still there as the same game, and no game was added. */
  ghost predicate ForfeitedSoFar(games0: Store, ids: seq<string>, games: Store) {
    (forall k :: k in games ==> k in games0) &&
    (forall k :: k in games0 && k !in ids ==> k in games && Unlinked(games[k]) == Unlinked(games0[k])) &&
    (forall k :: k in ids && k in games0 ==>
       if games0[k].moveCount <= 1 then k !in games else k in games && games[k] == Forfeited(games0[k]))
  }

  /** Forfeiting one more game keeps ForfeitedSoFar: a transition that
      changes no game but id, none of the games forfeited so far being
      queued, and that deletes id or keeps it as forfeited according to
      its move count. */
  lemma ForfeitedStep(games0: Store, ids: seq<string>, games: Store, fifo: seq<string>,
                      games1: Store, fifo1: seq<string>, id: string)
    requires ForfeitedSoFar(games0, ids, games)
    requires SameBut(games, fifo, games1, fifo1, id)
    requires forall k :: k in ids ==> k !in fifo
    requires id in games && id in games0 && id !in ids
    requires games[id].moveCount <= 1 ==> id !in games1
    requires games[id].moveCount > 1 ==> id in games1 && games1[id] == Forfeited(games[id])
    ensures ForfeitedSoFar(games0, ids + [id], games1)
  {
    ForfeitIgnoresLinks(games[id], games0[id]);
  }

  /** Where the end-of-block sweep stands after forfeiting the first
      `done` games of fifo0, the FIFO it started from: those had expired,
      the rest of fifo0 is the FIFO, and the forfeited games are deleted or
      kept as ForfeitedSoFar says. */
  ghost predicate Sweeping(games0: Store, fifo0: seq<string>, now: Time, done: nat, games: Store, fifo: seq<string>) {
    Stored(games0, fifo0) && DeadlineOrdered(games0, fifo0) &&
    (forall i, j :: 0 <= i < j < |fifo0| ==> fifo0[i] != fifo0[j]) &&
    done <= Expired(games0, fifo0, now) && fifo == fifo0[done..] &&
    ForfeitedSoFar(games0, fifo0[..done], games)
  }

  /** The sweep starts from a consistent state, having forfeited nothing. */
  lemma SweepStarts(games: Store, ng: NextGame, bal: Balances, now: Time, fifo: seq<string>)
    requires Consistent(games, ng, bal, now, fifo)
    ensures Sweeping(games, fifo, now, 0, games, fifo)
    ensures fifo[..0] == [] && SettledAll(bal, bal, games, fifo[..0]) && TickEvents(games, fifo[..0]) == []
  {
    assert fifo[..0] == [] && fifo[0..] == fifo;
  }

  /** While the head of the FIFO has expired, it is the next game of fifo0,
      not forfeited yet, and one more game of fifo0 has expired. */
  lemma SweepHead(games0: Store, fifo0: seq<string>, now: Time, done: nat,
                  games: Store, head: string, fifo: seq<string>)
    requires Sweeping(games0, fifo0, now, done, games, fifo)
    requires head == First(fifo) && head != NoId && head in games && games[head].deadline < now
    ensures done < |fifo0| && fifo != [] && head == fifo[0] == fifo0[done]
    ensures done < Expired(games0, fifo0, now) && fifo0[done] !in fifo0[..done]
    ensures fifo0[..done + 1] == fifo0[..done] + [fifo0[done]] && Stored(games0, fifo0[..done + 1])
    ensures Unlinked(games[fifo0[done]]) == Unlinked(games0[fifo0[done]])
  {
    var id := fifo0[done];
    assert fifo0[done] == fifo[0];
    assert fifo0[..done + 1] == fifo0[..done] + [id];
    assert Unlinked(games[id]).deadline == Unlinked(games0[id]).deadline;
    ExpiredIsAllExpired(games0, fifo0, now);
  }

  /** Forfeiting the head moves the sweep on by one game. */
  lemma SweepStep(games0: Store, fifo0: seq<string>, now: Time, done: nat,
                  games1: Store, fifo1: seq<string>, games: Store, fifo: seq<string>)
    requires Sweeping(games0, fifo0, now, done, games1, fifo1)
    requires done < Expired(games0, fifo0, now) && fifo1 != []
    requires fifo == fifo1[1..] && SameBut(games1, fifo1, games, fifo, fifo1[0])
    requires games1[fifo1[0]].moveCount <= 1 ==> fifo1[0] !in games
    requires games1[fifo1[0]].moveCount > 1 ==> fifo1[0] in games && games[fifo1[0]] == Forfeited(games1[fifo1[0]])
    ensures Sweeping(games0, fifo0, now, done + 1, games, fifo)
  {
    var id := fifo1[0];
    var ids := fifo0[..done];
    assert id == fifo0[done] && fifo == fifo0[done + 1..];
    assert fifo0[..done + 1] == ids + [id];
    ForfeitedStep(games0, ids, games1, fifo1, games, fifo, id);
  }

  /** Once the head has not expired, or the FIFO is empty, the sweep has
      forfeited exactly the expired games, and no queued game has expired. */
  lemma SweepEnds(games0: Store, head: string, now: Time, fifo0: seq<string>, done: nat,
                  games: Store, fifo: seq<string>)
    requires Sweeping(games0, fifo0, now, done, games, fifo) && head == First(fifo)
    requires forall i :: 0 <= i < |fifo| ==> fifo[i] in games && fifo[i] != NoId
    requires head != NoId && head in games ==> now <= games[head].deadline
    ensures done == Expired(games0, fifo0, now)
    ensures forall k :: k in fifo ==> now <= games[k].deadline
  {
    if fifo != [] {
      SweepRest(games0, fifo0, now, done, games, fifo, 0);
      assert Unlinked(games[fifo[0]]).deadline == Unlinked(games0[fifo[0]]).deadline;
    }
    forall k | k in fifo
      ensures now <= games[k].deadline
    {
      var j :| 0 <= j < |fifo| && fifo[j] == k;
      SweepRest(games0, fifo0, now, done, games, fifo, j);
      assert Unlinked(games[k]).deadline == Unlinked(games0[k]).deadline;
    }
  }

  /** The j-th game still queued during the sweep is the game of fifo0 it
      was, untouched but for its links, and it has expired exactly when it
      is among the first Expired games of fifo0. */
  lemma SweepRest(games0: Store, fifo0: seq<string>, now: Time, done: nat,
                  games: Store, fifo: seq<string>, j: nat)
    requires Sweeping(games0, fifo0, now, done, games, fifo) && j < |fifo|
    ensures fifo[j] == fifo0[done + j] && fifo[j] in games0 && fifo[j] in games
    ensures Unlinked(games[fifo[j]]) == Unlinked(games0[fifo[j]])
    ensures games0[fifo[j]].deadline < now <==> done + j < Expired(games0, fifo0, now)
  {
    ExpiredIsAllExpired(games0, fifo0, now);
    var k := fifo[j];
    assert fifo0[done + j] == k;
    assert k !in fifo0[..done];
  }
}
