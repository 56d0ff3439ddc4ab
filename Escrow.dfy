/** What the checkers module account holds for each game, and the sum of
    those holdings over a list of games. */
module Escrow {
  import opened Types

  /** The store of games, keyed by index. */
  type Store = map<string, StoredGame>

  /** The colour whose player antes with the next move of g: black pays
      its wager with the first move, red with the second, nobody after. */
  function AntePayer(g: StoredGame): Option<Color> {
    if g.moveCount == 0 then Some(Black)
    else if g.moveCount == 1 then Some(Red)
    else None
  }

  /** What the module account holds for game g: one wager per player
      who has moved at least once. */
  function Held(g: StoredGame): nat {
    g.wager * (if g.moveCount < 2 then g.moveCount else 2)
  }

  /** Held(g), counted only in the denomination the game is paid in. */
  function HeldIn(g: StoredGame, d: string): nat {
    if Denom(g) == d then Held(g) else 0
  }

  /** One more move adds to the escrow exactly the ante of the player who
      makes it, and nothing once both have paid. */
  lemma AnteAddsToHeld(g: StoredGame)
    ensures Held(g.(moveCount := g.moveCount + 1)) ==
      Held(g) + (if AntePayer(g).Some? then g.wager else 0)
  {
    if g.moveCount >= 2 {
      assert Held(g.(moveCount := g.moveCount + 1)) == g.wager * 2;
    }
  }

  /** The escrow of denomination d held for the games listed in q. */
  function Escrowed(games: Store, q: seq<string>, d: string): nat
    requires forall k :: k in q ==> k in games
  {
    if q == [] then 0 else HeldIn(games[q[0]], d) + Escrowed(games, q[1..], d)
  }

  lemma {:induction false} EscrowConcat(games: Store, p: seq<string>, q: seq<string>, d: string)
    requires forall k :: k in p + q ==> k in games
    ensures Escrowed(games, p + q, d) == Escrowed(games, p, d) + Escrowed(games, q, d)
  {
    if p != [] {
      assert (p + q)[1..] == p[1..] + q;
      EscrowConcat(games, p[1..], q, d);
    } else {
      assert p + q == q;
    }
  }

  /** Removing the game at position i takes exactly its holding off the sum. */
  lemma EscrowRemove(games: Store, q: seq<string>, i: nat, d: string)
    requires forall k :: k in q ==> k in games
    requires i < |q|
    ensures Escrowed(games, q, d) == Escrowed(games, q[..i] + q[i + 1..], d) + HeldIn(games[q[i]], d)
  {
    assert q == q[..i] + ([q[i]] + q[i + 1..]);
    EscrowConcat(games, q[..i], [q[i]] + q[i + 1..], d);
    EscrowConcat(games, [q[i]], q[i + 1..], d);
    EscrowConcat(games, q[..i], q[i + 1..], d);
  }

  /** The escrow depends on the listed games only, and not on their links. */
  lemma {:induction false} EscrowFrame(g1: Store, g2: Store, q: seq<string>, d: string)
    requires forall k :: k in q ==> k in g1 && k in g2 && Unlinked(g1[k]) == Unlinked(g2[k])
    ensures Escrowed(g1, q, d) == Escrowed(g2, q, d)
  {
    if q != [] {
      assert Unlinked(g1[q[0]]) == Unlinked(g2[q[0]]);
      EscrowFrame(g1, g2, q[1..], d);
    }
  }
}
