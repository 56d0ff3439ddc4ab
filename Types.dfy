/** The records of the checkers module: stored games, the NextGame
    singleton, accounts, events and errors. */
module Types {
  import opened Ids

  datatype Option<T> = None | Some(value: T)

  /** The colours of the two players; black moves first. */
  datatype Color = Black | Red

  function Opponent(c: Color): (o: Color)
    ensures o != c
  {
    match c
    case Black => Red
    case Red => Black
  }

  /** The one-letter form of a colour, as stored in Turn and Winner. */
  function ColorLetter(c: Color): string {
    match c
    case Black => "b"
    case Red => "r"
  }

  /** The Winner field: "*" while nobody has won (and for a forfeit
      that has no winner), otherwise the winning colour. */
  datatype Winner = NoPlayer | Won(color: Color)

  function WinnerLetter(w: Winner): string {
    match w
    case NoPlayer => "*"
    case Won(c) => ColorLetter(c)
  }

  /** Timestamps and durations in nanoseconds. */
  type Time = int

  /** How long a player has to make the next move. */
  const MaxTurnDuration: Time := 24 * 60 * 60 * 1_000_000_000

  /** The denomination of a wager whose Token was left empty. */
  const DefaultDenom: string := "stake"

  /** One game, as kept in the store under its index. The board is an
      opaque serialisation produced by the rules engine. */
  datatype StoredGame = StoredGame(
    creator: string,
    index: string,
    board: string,
    turn: Color,
    red: string,
    black: string,
    moveCount: nat,
    beforeId: string,
    afterId: string,
    deadline: Time,
    winner: Winner,
    wager: nat,
    token: string)

  /** The denomination the game's wager is paid in. */
  function Denom(g: StoredGame): string {
    if g.token == "" then DefaultDenom else g.token
  }

  /** The address of the player who plays colour c. */
  function PlayerOf(g: StoredGame, c: Color): string {
    match c
    case Black => g.black
    case Red => g.red
  }

  /** The same game with its FIFO links cleared: two records are the same
      game, whatever their position in the FIFO, when these agree. */
  function Unlinked(g: StoredGame): (u: StoredGame)
    ensures u.beforeId == NoId && u.afterId == NoId
  {
    g.(beforeId := NoId, afterId := NoId)
  }

  /** The singleton holding the next id to assign and the FIFO's ends. */
  datatype NextGame = NextGame(
    creator: string,
    idValue: nat,
    fifoHead: string,
    fifoTail: string)

  /** A bank account: the checkers module's escrow account or a user. */
  datatype Account = Module | User(address: string)

  datatype Event =
    | GameCreated(creator: string, id: string)
    | MovePlayed(creator: string, id: string)
    | GameForfeited(id: string, winner: Winner)
    | GameRejected(creator: string, id: string)
    | Transfer(recipient: Account, sender: Account, amount: nat, denom: string)

  datatype Attribute = Attribute(key: string, value: string)

  /** The attributes the checkers module attaches to its forfeit and
      reject events, in their emitted order. */
  function MessageAttributes(e: Event): (attrs: seq<Attribute>)
    requires e.GameForfeited? || e.GameRejected?
    ensures |attrs| == 4
    ensures attrs[0] == Attribute("module", "checkers")
    ensures Attribute("IdValue", e.id) in attrs
    ensures e.GameForfeited? ==> Attribute("Winner", WinnerLetter(e.winner)) in attrs
    ensures e.GameRejected? ==> Attribute("Creator", e.creator) in attrs
  {
    match e
    case GameForfeited(id, w) =>
      [Attribute("module", "checkers"), Attribute("action", "GameForfeited"),
       Attribute("IdValue", id), Attribute("Winner", WinnerLetter(w))]
    case GameRejected(creator, id) =>
      [Attribute("module", "checkers"), Attribute("action", "GameRejected"),
       Attribute("Creator", creator), Attribute("IdValue", id)]
  }

  datatype Error =
    | GameNotFound
    | GameFinished
    | CreatorNotPlayer
    | NotPlayerTurn
    | BlackCannotPay
    | RedCannotPay
    | WrongMove
    | BlackAlreadyPlayed
    | RedAlreadyPlayed
    | DuplicatedStoredGame

  datatype Status = Ok | Fail(error: Error)
}
