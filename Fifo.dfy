/** The FIFO of active games, threaded through the store: each record's
    BeforeId/AfterId name its neighbours and NextGame's FifoHead/FifoTail
    name the ends, with "-1" for a missing link. */
module Fifo {
  import opened Ids
  import opened Types
  import opened Escrow

  /** The links in games and the two ends spell out exactly the list q,
      oldest first, without repetition: the ends name the first and last
      ids (the sentinel when q is empty), the first id has no predecessor,
      the last no successor, and neighbours point at each other. */
  ghost predicate Linked(games: Store, head: string, tail: string, q: seq<string>) {
    (forall i :: 0 <= i < |q| ==> q[i] in games && q[i] != NoId) &&
    (forall i, j :: 0 <= i < j < |q| ==> q[i] != q[j]) &&
    head == First(q) &&
    tail == Last(q) &&
    (q != [] ==> games[q[0]].beforeId == NoId && games[q[|q| - 1]].afterId == NoId) &&
    (forall i, j :: 0 <= i < j < |q| && j == i + 1 ==>
       games[q[i]].afterId == q[j] && games[q[j]].beforeId == q[i])
  }

  /** The oldest id of q, or the sentinel. */
  function First(q: seq<string>): string {
    if q == [] then NoId else q[0]
  }

  /** The newest id of q, or the sentinel. */
  function Last(q: seq<string>): string {
    if q == [] then NoId else q[|q| - 1]
  }

  /** q with its i-th element spliced out. */
  function Without(q: seq<string>, i: nat): (r: seq<string>)
    requires i < |q|
    ensures |r| == |q| - 1
  {
    q[..i] + q[i + 1..]
  }

  /** Concatenation is associative (stated once, for the event logs and
      the queues). */
  lemma ConcatAssoc<T>(a: seq<T>, b: seq<T>, c: seq<T>)
    ensures (a + b) + c == a + (b + c)
  {
  }

  /** The elements before position i keep their place; the ones after it
      move one place forward. */
  lemma WithoutAt(q: seq<string>, i: nat)
    requires i < |q|
    ensures forall j :: 0 <= j < i ==> Without(q, i)[j] == q[j]
    ensures forall j :: i <= j < |q| - 1 ==> Without(q, i)[j] == q[j + 1]
  {
  }

  /** Splicing out the i-th element of a list without repetition removes
      exactly that element. */
  lemma WithoutMembers(q: seq<string>, i: nat)
    requires i < |q|
    requires forall a, b :: 0 <= a < b < |q| ==> q[a] != q[b]
    ensures forall k :: k in Without(q, i) <==> k in q && k != q[i]
  {
    var r := Without(q, i);
    WithoutAt(q, i);
    forall k | k in q && k != q[i]
      ensures k in r
    {
      var j :| 0 <= j < |q| && q[j] == k;
      if j < i {
        assert r[j] == k;
      } else {
        assert r[j - 1] == k;
      }
    }
  }

  /** The position of x in q (its first one). */
  function IndexOf(q: seq<string>, x: string): (i: nat)
    requires x in q
    ensures i < |q| && q[i] == x
  {
    if q[0] == x then 0 else 1 + IndexOf(q[1..], x)
  }

  /** The links of q depend only on the records of its members and on
      their links, not on the rest of the store. */
  lemma LinkedFrame(games: Store, games': Store, head: string, tail: string, q: seq<string>)
    requires Linked(games, head, tail, q)
    requires forall k :: k in q ==>
      k in games' && games'[k].beforeId == games[k].beforeId && games'[k].afterId == games[k].afterId
    ensures Linked(games', head, tail, q)
  {
    forall i, j | 0 <= i < j < |q| && j == i + 1
      ensures games'[q[i]].afterId == q[j] && games'[q[j]].beforeId == q[i]
    {
      assert q[i] in q && q[j] in q;
    }
  }

  /** The links of the j-th queued game. */
  lemma LinkedAt(games: Store, head: string, tail: string, q: seq<string>, j: nat)
    requires Linked(games, head, tail, q) && j < |q|
    ensures q[j] in games && q[j] != NoId
    ensures games[q[j]].beforeId == if j == 0 then NoId else q[j - 1]
    ensures games[q[j]].afterId == if j == |q| - 1 then NoId else q[j + 1]
  {
    if j > 0 {
      assert games[q[j - 1]].afterId == q[j] && games[q[j]].beforeId == q[j - 1];
    }
    if j < |q| - 1 {
      assert games[q[j]].afterId == q[j + 1] && games[q[j + 1]].beforeId == q[j];
    }
  }

  /** Splicing out an element keeps the others distinct, and keeps the
      ends unless it was one of them. */
  lemma WithoutKeeps(q: seq<string>, i: nat)
    requires i < |q|
    requires forall a, b :: 0 <= a < b < |q| ==> q[a] != q[b]
    ensures forall a, b :: 0 <= a < b < |Without(q, i)| ==> Without(q, i)[a] != Without(q, i)[b]
    ensures Without(q, i) != [] ==> Without(q, i)[0] == (if i == 0 then q[1] else q[0])
    ensures Without(q, i) != [] ==>
      Without(q, i)[|q| - 2] == (if i == |q| - 1 then q[|q| - 2] else q[|q| - 1])
  {
    var r := Without(q, i);
    WithoutAt(q, i);
    forall a, b | 0 <= a < b < |r|
      ensures r[a] != r[b]
    {
      var a', b' := if a < i then a else a + 1, if b < i then b else b + 1;
      assert r[a] == q[a'] && r[b] == q[b'];
    }
  }

  /** The store after game id is taken out of the FIFO: its predecessor
      (if any) points forward to its successor, its successor (if any)
      points back to its predecessor, and its own links are cleared. In a
      linked store every named neighbour is stored. */
  function Unlink(games: Store, id: string): Store
    requires id in games
  {
    var g := games[id];
    LinkPastAfter(LinkPastBefore(games, g), g)[id := g.(beforeId := NoId, afterId := NoId)]
  }

  /** The predecessor of g, if stored, points forward to g's successor. */
  function LinkPastBefore(games: Store, g: StoredGame): Store {
    if g.beforeId != NoId && g.beforeId in games
    then games[g.beforeId := games[g.beforeId].(afterId := g.afterId)] else games
  }

  /** The successor of g, if stored, points back to g's predecessor. */
  function LinkPastAfter(games: Store, g: StoredGame): Store {
    if g.afterId != NoId && g.afterId in games
    then games[g.afterId := games[g.afterId].(beforeId := g.beforeId)] else games
  }

  /** Unlinking changes links only, and only those of the game and its
      two neighbours: the record stored under k. */
  lemma UnlinkKeeps(games: Store, id: string, k: string)
    requires id in games
    ensures Unlink(games, id).Keys == games.Keys
    ensures k in games ==> Unlinked(Unlink(games, id)[k]) == Unlinked(games[k])
    ensures k in games && k != id && k != games[id].beforeId && k != games[id].afterId ==>
      Unlink(games, id)[k] == games[k]
    ensures k == id ==> Unlink(games, id)[k] == Unlinked(games[id])
    ensures k in games && k != id && k != games[id].beforeId ==>
      Unlink(games, id)[k].afterId == games[k].afterId
    ensures k in games && k != id && k != games[id].afterId ==>
      Unlink(games, id)[k].beforeId == games[k].beforeId
    ensures k in games && k != id && k != NoId && k == games[id].beforeId ==>
      Unlink(games, id)[k].afterId == games[id].afterId
    ensures k in games && k != id && k != NoId && k == games[id].afterId ==>
      Unlink(games, id)[k].beforeId == games[id].beforeId
  {
  }

  /** The head after game id is unlinked: its successor when id had no
      predecessor and was the head or had a successor. */
  function SplicedHead(games: Store, head: string, id: string): string
    requires id in games
  {
    var g := games[id];
    if g.beforeId == NoId && (head == id || g.afterId != NoId) then g.afterId else head
  }

  /** The tail after game id is unlinked: its predecessor when id had no
      successor and was the tail or had a predecessor. */
  function SplicedTail(games: Store, tail: string, id: string): string
    requires id in games
  {
    var g := games[id];
    if g.afterId == NoId && (tail == id || g.beforeId != NoId) then g.beforeId else tail
  }

  /** After unlinking the i-th queued game, the a-th and (a+1)-th games
      left point at each other. */
  lemma SpliceLinksAt(games: Store, head: string, tail: string, q: seq<string>, i: nat, a: nat)
    requires Linked(games, head, tail, q) && i < |q|
    requires a + 2 < |q|
    ensures Without(q, i)[a] in Unlink(games, q[i]) && Without(q, i)[a + 1] in Unlink(games, q[i])
    ensures Unlink(games, q[i])[Without(q, i)[a]].afterId == Without(q, i)[a + 1]
    ensures Unlink(games, q[i])[Without(q, i)[a + 1]].beforeId == Without(q, i)[a]
  {
    var r := Without(q, i);
    WithoutAt(q, i);
    LinkedAt(games, head, tail, q, i);
    var x, y := if a < i then a else a + 1, if a + 1 < i then a + 1 else a + 2;
    assert r[a] == q[x] && r[a + 1] == q[y];
    LinkedAt(games, head, tail, q, x);
    LinkedAt(games, head, tail, q, y);
    assert q[x] != q[i] && q[y] != q[i];
    if x == i - 1 {
      assert y == i + 1;
    } else if i > 0 {
      assert q[x] != q[i - 1];
    }
    if y == i + 1 {
      assert x == i - 1;
    } else if i + 1 < |q| {
      assert q[y] != q[i + 1];
    }
    UnlinkKeeps(games, q[i], q[x]);
    UnlinkKeeps(games, q[i], q[y]);
  }

  /** After unlinking the i-th queued game, the games left are stored,
      distinct, and their ends are the spliced head and tail, without a
      link beyond them. */
  lemma SpliceEnds(games: Store, head: string, tail: string, q: seq<string>, i: nat)
    requires Linked(games, head, tail, q) && i < |q|
    ensures forall a :: 0 <= a < |q| - 1 ==> Without(q, i)[a] in Unlink(games, q[i]) && Without(q, i)[a] != NoId
    ensures forall a, b :: 0 <= a < b < |q| - 1 ==> Without(q, i)[a] != Without(q, i)[b]
    ensures SplicedHead(games, head, q[i]) == First(Without(q, i))
    ensures SplicedTail(games, tail, q[i]) == Last(Without(q, i))
    ensures |q| > 1 ==> Unlink(games, q[i])[Without(q, i)[0]].beforeId == NoId
    ensures |q| > 1 ==> Unlink(games, q[i])[Without(q, i)[|q| - 2]].afterId == NoId
  {
    var r := Without(q, i);
    WithoutAt(q, i);
    WithoutKeeps(q, i);
    LinkedAt(games, head, tail, q, i);
    UnlinkKeeps(games, q[i], q[i]);
    forall a | 0 <= a < |r|
      ensures r[a] in Unlink(games, q[i]) && r[a] != NoId
    {
      LinkedAt(games, head, tail, q, if a < i then a else a + 1);
    }
    if r != [] {
      var f, l := if i == 0 then 1 else 0, if i == |q| - 1 then |q| - 2 else |q| - 1;
      LinkedAt(games, head, tail, q, f);
      LinkedAt(games, head, tail, q, l);
      assert q[f] != q[i] && q[l] != q[i];
      if i > 0 {
        assert f != i - 1 ==> q[f] != q[i - 1];
      }
      if i + 1 < |q| {
        assert l != i + 1 ==> q[l] != q[i + 1];
      }
      UnlinkKeeps(games, q[i], q[f]);
      UnlinkKeeps(games, q[i], q[l]);
    }
  }

  /** Unlinking the i-th queued game leaves the links spelling out the
      queue without it, and moves the head or tail past it when it was
      one. */
  lemma UnlinkSplices(games: Store, head: string, tail: string, q: seq<string>, i: nat)
    requires Linked(games, head, tail, q) && i < |q|
    ensures Linked(Unlink(games, q[i]), SplicedHead(games, head, q[i]), SplicedTail(games, tail, q[i]),
                   Without(q, i))
  {
    var r, m := Without(q, i), Unlink(games, q[i]);
    SpliceEnds(games, head, tail, q, i);
    forall a, b | 0 <= a < b < |r| && b == a + 1
      ensures m[r[a]].afterId == r[b] && m[r[b]].beforeId == r[a]
    {
      SpliceLinksAt(games, head, tail, q, i, a);
    }
  }

  /** Unlinking a game that is neither queued nor linked changes nothing
      but rewrites its record as it was. */
  lemma UnlinkUnqueued(games: Store, head: string, tail: string, q: seq<string>, id: string)
    requires Linked(games, head, tail, q)
    requires id in games && id !in q && games[id].beforeId == NoId && games[id].afterId == NoId
    ensures Unlink(games, id) == games
    ensures SplicedHead(games, head, id) == head && SplicedTail(games, tail, id) == tail
  {
    if q != [] {
      assert q[0] != id && q[|q| - 1] != id;
    }
  }

  /** q with id moved to (or added at) its end. */
  function ToTail(q: seq<string>, id: string): seq<string> {
    (if id in q then Without(q, IndexOf(q, id)) else q) + [id]
  }

  /** The store after game id is linked after the game tail: the tail
      points forward to id, and id points back to the tail. */
  function LinkAfterTail(games: Store, tail: string, id: string): Store
    requires tail in games && id in games
  {
    var m := games[tail := games[tail].(afterId := id)];
    m[id := m[id].(beforeId := tail)]
  }

  /** In a linked store the neighbours a game names are stored. */
  lemma NeighboursStored(games: Store, head: string, tail: string, q: seq<string>, id: string)
    requires Linked(games, head, tail, q)
    requires id in games
    requires id !in q ==> games[id].beforeId == NoId && games[id].afterId == NoId
    ensures games[id].beforeId != NoId ==> games[id].beforeId in games
    ensures games[id].afterId != NoId ==> games[id].afterId in games
  {
    if id in q {
      LinkedAt(games, head, tail, q, IndexOf(q, id));
    }
  }

  /** Splicing out a game that is not the tail of a non-empty FIFO leaves
      the tail, a stored game, in place. */
  lemma TailStays(games: Store, head: string, tail: string, q: seq<string>, id: string)
    requires Linked(games, head, tail, q) && q != []
    requires id in games && tail != id
    requires id !in q ==> games[id].beforeId == NoId && games[id].afterId == NoId
    ensures SplicedTail(games, tail, id) == tail && tail in games
  {
    LinkedAt(games, head, tail, q, |q| - 1);
    if id in q {
      LinkedAt(games, head, tail, q, IndexOf(q, id));
    }
  }

  /** Moving a game that is not the tail of a non-empty FIFO to its end:
      splicing it out (a no-op for a game not queued) leaves the tail in
      place, and linking it after the tail spells out ToTail. */
  lemma MoveToTail(games: Store, head: string, tail: string, q: seq<string>, id: string)
    requires Linked(games, head, tail, q) && q != []
    requires id in games && id != NoId && tail != id
    requires id !in q ==> games[id].beforeId == NoId && games[id].afterId == NoId
    ensures SplicedTail(games, tail, id) == tail && tail in games
    ensures Linked(LinkAfterTail(Unlink(games, id), tail, id), SplicedHead(games, head, id), id,
                   ToTail(q, id))
  {
    LinkedAt(games, head, tail, q, |q| - 1);
    if id in q {
      MoveQueuedToTail(games, head, tail, q, IndexOf(q, id));
    } else {
      UnlinkUnqueued(games, head, tail, q, id);
      AppendLinks(games, head, tail, q, id);
    }
  }

  /** The queued case of MoveToTail: the i-th game, not the tail. */
  lemma MoveQueuedToTail(games: Store, head: string, tail: string, q: seq<string>, i: nat)
    requires Linked(games, head, tail, q) && i < |q| - 1
    ensures SplicedTail(games, tail, q[i]) == tail
    ensures Linked(LinkAfterTail(Unlink(games, q[i]), tail, q[i]), SplicedHead(games, head, q[i]), q[i],
                   Without(q, i) + [q[i]])
  {
    var id, r, m := q[i], Without(q, i), Unlink(games, q[i]);
    UnlinkSplices(games, head, tail, q, i);
    LinkedAt(games, head, tail, q, i);
    LinkedAt(games, head, tail, q, |q| - 1);
    WithoutAt(q, i);
    assert r[|r| - 1] == q[|q| - 1];
    assert id !in r by {
      forall j | 0 <= j < |r|
        ensures r[j] != id
      {
        assert r[j] == (if j < i then q[j] else q[j + 1]);
      }
    }
    UnlinkKeeps(games, id, id);
    AppendLinks(m, SplicedHead(games, head, id), tail, r, id);
  }

  /** The store after game id is sent to the tail of the FIFO whose ends
      are head and tail: linked alone into an empty FIFO, left alone when
      it is the tail already, otherwise spliced out and linked after the
      tail left by the splice (a tail not stored is left unlinked). */
  function ToTailStore(games: Store, head: string, tail: string, id: string): Store
    requires id in games
  {
    if head == NoId && tail == NoId then games[id := games[id].(beforeId := NoId, afterId := NoId)]
    else if tail == id then games
    else
      var t := SplicedTail(games, tail, id);
      if t in games then LinkAfterTail(Unlink(games, id), t, id) else Unlink(games, id)
  }

  /** The head after game id is sent to the tail of the FIFO. */
  function ToTailHead(games: Store, head: string, tail: string, id: string): string
    requires id in games
  {
    if head == NoId && tail == NoId then id
    else if tail == id then head
    else SplicedHead(games, head, id)
  }

  /** Sending a game to the tail keeps the links spelling out the FIFO,
      now with the game at its end. */
  lemma ToTailLinks(games: Store, head: string, tail: string, q: seq<string>, id: string)
    requires Linked(games, head, tail, q)
    requires id in games && id != NoId
    requires id !in q ==> games[id].beforeId == NoId && games[id].afterId == NoId
    ensures Linked(ToTailStore(games, head, tail, id), ToTailHead(games, head, tail, id), id, ToTail(q, id))
  {
    if head == NoId && tail == NoId {
      assert q == [] && ToTail(q, id) == [id];
    } else if tail == id {
      LinkedAt(games, head, tail, q, |q| - 1);
      assert IndexOf(q, id) == |q| - 1;
      assert ToTail(q, id) == q;
    } else {
      MoveToTail(games, head, tail, q, id);
    }
  }

  /** Linking after the tail changes links only, and only those of the
      tail and the game: the record stored under k. */
  lemma LinkAfterTailKeeps(games: Store, tail: string, id: string, k: string)
    requires tail in games && id in games
    ensures LinkAfterTail(games, tail, id).Keys == games.Keys
    ensures k in games ==> Unlinked(LinkAfterTail(games, tail, id)[k]) == Unlinked(games[k])
    ensures k in games && k != id && k != tail ==> LinkAfterTail(games, tail, id)[k] == games[k]
    ensures k in games && k != id ==> LinkAfterTail(games, tail, id)[k].beforeId == games[k].beforeId
    ensures k in games && k != tail ==> LinkAfterTail(games, tail, id)[k].afterId == games[k].afterId
    ensures tail != id ==> LinkAfterTail(games, tail, id)[tail].afterId == id
    ensures LinkAfterTail(games, tail, id)[id].beforeId == tail
  {
  }

  /** Linking a game that is not queued after the tail of a non-empty
      FIFO makes it the new tail, with the head unchanged. */
  lemma AppendLinks(games: Store, head: string, tail: string, q: seq<string>, id: string)
    requires Linked(games, head, tail, q) && q != []
    requires id in games && id !in q && id != NoId
    requires games[id].afterId == NoId
    ensures tail in games
    ensures Linked(LinkAfterTail(games, tail, id), head, id, q + [id])
  {
    var r, m := q + [id], LinkAfterTail(games, tail, id);
    LinkedAt(games, head, tail, q, |q| - 1);
    LinkedAt(games, head, tail, q, 0);
    LinkAfterTailKeeps(games, tail, id, id);
    LinkAfterTailKeeps(games, tail, id, q[0]);
    LinkAfterTailKeeps(games, tail, id, tail);
    forall a, b | 0 <= a < b < |r| && b == a + 1
      ensures m[r[a]].afterId == r[b] && m[r[b]].beforeId == r[a]
    {
      assert r[a] == q[a];
      LinkedAt(games, head, tail, q, a);
      LinkAfterTailKeeps(games, tail, id, q[a]);
      if b < |q| {
        assert r[b] == q[b];
        LinkedAt(games, head, tail, q, b);
        assert q[a] != tail;
        LinkAfterTailKeeps(games, tail, id, q[b]);
      }
    }
    forall a | 0 <= a < |r|
      ensures r[a] in m && r[a] != NoId
    {
      if a < |q| {
        assert r[a] == q[a];
      }
    }
  }

  /** Sending a game to the tail changes links only, and no record that
      is neither queued nor the game itself: the record stored under k. */
  lemma ToTailKeeps(games: Store, head: string, tail: string, q: seq<string>, id: string, k: string)
    requires Linked(games, head, tail, q)
    requires id in games && id != NoId
    requires id !in q ==> games[id].beforeId == NoId && games[id].afterId == NoId
    ensures ToTailStore(games, head, tail, id).Keys == games.Keys
    ensures k in games ==> Unlinked(ToTailStore(games, head, tail, id)[k]) == Unlinked(games[k])
    ensures k in games && k !in q && k != id ==> ToTailStore(games, head, tail, id)[k] == games[k]
  {
    var g := games[id];
    if q != [] {
      LinkedAt(games, head, tail, q, |q| - 1);
    }
    if id in q {
      LinkedAt(games, head, tail, q, IndexOf(q, id));
    }
    UnlinkKeeps(games, id, k);
    var t := SplicedTail(games, tail, id);
    if !(head == NoId && tail == NoId) && tail != id && t in games {
      LinkAfterTailKeeps(Unlink(games, id), t, id, k);
      assert t == tail || t == g.beforeId;
    }
  }

  /** The ids met by following AfterId from `from`, at most n of them,
      stopping at the sentinel. */
  function Forward(games: Store, from: string, n: nat): seq<string>
    decreases n
  {
    if n == 0 || from == NoId || from !in games then []
    else [from] + Forward(games, games[from].afterId, n - 1)
  }

  /** The ids met by following BeforeId from `from`, at most n of them,
      stopping at the sentinel. */
  function Backward(games: Store, from: string, n: nat): seq<string>
    decreases n
  {
    if n == 0 || from == NoId || from !in games then []
    else [from] + Backward(games, games[from].beforeId, n - 1)
  }

  function Reverse(q: seq<string>): (r: seq<string>)
    ensures |r| == |q|
    ensures forall i :: 0 <= i < |q| ==> r[i] == q[|q| - 1 - i]
  {
    if q == [] then [] else Reverse(q[1..]) + [q[0]]
  }

  lemma {:induction false} ForwardFrom(games: Store, head: string, tail: string, q: seq<string>, i: nat, n: nat)
    requires Linked(games, head, tail, q)
    requires i <= |q| && n >= |q| - i
    ensures Forward(games, if i == |q| then NoId else q[i], n) == q[i..]
    decreases |q| - i
  {
    if i < |q| {
      ForwardFrom(games, head, tail, q, i + 1, n - 1);
    }
  }

  lemma {:induction false} BackwardFrom(games: Store, head: string, tail: string, q: seq<string>, i: nat, n: nat)
    requires Linked(games, head, tail, q)
    requires i <= |q| && n >= i
    ensures Backward(games, if i == 0 then NoId else q[i - 1], n) == Reverse(q[..i])
    decreases i
  {
    if i > 0 {
      BackwardFrom(games, head, tail, q, i - 1, n - 1);
      assert q[..i][1..] == q[1..i];
    }
  }

  /** Walking AfterId from the head visits the queue in order and stops at
      the sentinel after the tail; walking BeforeId from the tail visits it
      in reverse. */
  lemma WalksFollowQueue(games: Store, head: string, tail: string, q: seq<string>, n: nat)
    requires Linked(games, head, tail, q)
    requires n >= |q|
    ensures Forward(games, head, n) == q
    ensures Backward(games, tail, n) == Reverse(q)
  {
    ForwardFrom(games, head, tail, q, 0, n);
    BackwardFrom(games, head, tail, q, |q|, n);
    assert q[..|q|] == q;
  }

  /** Deadlines never decrease from the head of q to its tail. */
  predicate DeadlineOrdered(games: Store, q: seq<string>)
    requires forall k :: k in q ==> k in games
  {
    forall i, j :: 0 <= i < j < |q| ==> games[q[i]].deadline <= games[q[j]].deadline
  }

  /** How many games at the head of q have a deadline strictly before now. */
  function Expired(games: Store, q: seq<string>, now: Time): (n: nat)
    requires forall k :: k in q ==> k in games
    ensures n <= |q|
    ensures forall i :: 0 <= i < n ==> games[q[i]].deadline < now
    ensures n < |q| ==> now <= games[q[n]].deadline
  {
    if q == [] || now <= games[q[0]].deadline then 0
    else 1 + Expired(games, q[1..], now)
  }

  /** In a deadline-ordered queue, the expired games are exactly the ones
      Expired counts at the head. */
  lemma ExpiredIsAllExpired(games: Store, q: seq<string>, now: Time)
    requires forall k :: k in q ==> k in games
    requires DeadlineOrdered(games, q)
    ensures forall i :: 0 <= i < |q| ==> (games[q[i]].deadline < now <==> i < Expired(games, q, now))
  {
  }

  /** Expired is pinned down by the first game that has not expired. */
  lemma {:induction false} ExpiredExact(games: Store, q: seq<string>, now: Time, n: nat)
    requires forall k :: k in q ==> k in games
    requires n <= |q|
    requires forall i :: 0 <= i < n ==> games[q[i]].deadline < now
    requires n < |q| ==> now <= games[q[n]].deadline
    ensures Expired(games, q, now) == n
  {
    if n > 0 {
      ExpiredExact(games, q[1..], now, n - 1);
    }
  }
}
