/** Cards, actions and their integer encodings as the mini-poker game uses them,
    plus the small Option/Result wrappers the players need. */
module GameTypes {

  /** The card dealt to A: black (encoded 0) or red (encoded 1). */
  datatype Card = Black | Red

  /** A player's move, encoded 0 or 1. For A, `Play` means "hold";
      for B, `Play` means "see". `Resign` is 0 for both. */
  datatype Action = Resign | Play

  datatype Option<+T> = None | Some(value: T)

  datatype Result<+T, +E> = Ok(value: T) | Err(error: E)

  /** The integer a card is encoded as. */
  function CardCode(c: Card): (n: int)
    ensures 0 <= n <= 1
    ensures n == 0 <==> c == Black
  {
    match c
    case Black => 0
    case Red => 1
  }

  /** The integer an action is encoded as. */
  function ActionCode(a: Action): (n: int)
    ensures 0 <= n <= 1
    ensures n == 0 <==> a == Resign
  {
    match a
    case Resign => 0
    case Play => 1
  }

  /** How the game reads an integer card by truthiness: 0 is black,
      any other value counts as red. */
  function CardOfInt(n: int): (c: Card)
    ensures c == Black <==> n == 0
  {
    if n == 0 then Black else Red
  }

  /** How the game reads an integer action by truthiness: 0 is a
      resignation, any other value counts as hold/see. */
  function ActionOfInt(n: int): (a: Action)
    ensures a == Resign <==> n == 0
  {
    if n == 0 then Resign else Play
  }

  /** Encoding then reading back gives the same card; reading an
      in-range code back gives the same code. */
  lemma CardCodeRoundTrip(c: Card, n: int)
    ensures CardOfInt(CardCode(c)) == c
    ensures 0 <= n <= 1 ==> CardCode(CardOfInt(n)) == n
  {
  }

  /** Encoding then reading back gives the same action; reading an
      in-range code back gives the same code. */
  lemma ActionCodeRoundTrip(a: Action, n: int)
    ensures ActionOfInt(ActionCode(a)) == a
    ensures 0 <= n <= 1 ==> ActionCode(ActionOfInt(n)) == n
  {
  }

  /** The other of the two actions. */
  function Other(a: Action): (b: Action)
    ensures b != a
  {
    match a
    case Resign => Play
    case Play => Resign
  }
}
