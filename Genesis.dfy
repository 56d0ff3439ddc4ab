/** The checkers module's genesis state: its default value and the check
    that no two stored games share an index. */
module Genesis {
  import opened Ids
  import opened Types

  datatype GenesisState = GenesisState(storedGameList: seq<StoredGame>, nextGame: Option<NextGame>)

  /** The counter a fresh chain starts from: id 1 comes next and the
      FIFO is empty. */
  const DefaultNextGame: NextGame := NextGame("", 1, NoId, NoId)

  function DefaultGenesis(): GenesisState {
    GenesisState([], Some(DefaultNextGame))
  }

  /** No two stored games of the list share an index. */
  predicate DistinctIndices(list: seq<StoredGame>) {
    forall i, j :: 0 <= i < j < |list| ==> list[i].index != list[j].index
  }

  /** Walks the stored games once, remembering the indices seen, and fails
      on the first index met twice. */
  method Validate(gs: GenesisState) returns (r: Status)
    ensures r == Ok <==> DistinctIndices(gs.storedGameList)
    ensures r != Ok ==> r == Fail(DuplicatedStoredGame)
  {
    var list := gs.storedGameList;
    var seen: set<string> := {};
    var i := 0;
    while i < |list|
      invariant 0 <= i <= |list|
      invariant seen == set j | 0 <= j < i :: list[j].index
      invariant DistinctIndices(list[..i])
    {
      if list[i].index in seen {
        ghost var j :| 0 <= j < i && list[j].index == list[i].index;
        DuplicatedIndexIsInvalid(list, j, i);
        return Fail(DuplicatedStoredGame);
      }
      seen := seen + {list[i].index};
      i := i + 1;
    }
    assert list[..i] == list;
    return Ok;
  }

  /** The default genesis state passes validation. */
  lemma DefaultGenesisIsValid()
    ensures DefaultGenesis().storedGameList == []
    ensures DistinctIndices(DefaultGenesis().storedGameList)
    ensures DefaultGenesis().nextGame == Some(NextGame("", 1, NoId, NoId))
  {
  }

  /** Two stored games under the same index make a genesis state invalid. */
  lemma DuplicatedIndexIsInvalid(list: seq<StoredGame>, i: nat, j: nat)
    requires i < j < |list| && list[i].index == list[j].index
    ensures !DistinctIndices(list)
  {
  }
}
