/** Vocabulary shared by every part of the game-server model. */
module Common {

  datatype Option<+T> = None | Some(value: T)

  /** The transport's connection id (a socket id); it changes on every reconnect. */
  type SocketId = string
  /** The opaque secret a player presents to reconnect. */
  type Token = string
  /** The short code that names a room. */
  type RoomCode = string
  /** The key of a card pack in the card configuration. */
  type PackId = string

  /** A response card. The empty string stands for JavaScript's `undefined`,
      which popping an empty deck yields; both are falsy, so a hand slot holds
      a card exactly when its text is non-empty. */
  type Card = string

  predicate Present(c: Card) { |c| > 0 }

  function Max(a: int, b: int): int { if a >= b then a else b }

  /** JavaScript's `a % b` for a positive divisor: the remainder takes the
      sign of the dividend (Dafny's `%` never returns a negative value). */
  function JsRem(a: int, b: int): (r: int)
    requires b > 0
    ensures a >= 0 ==> r == a % b
    ensures a < 0 ==> -b < r <= 0
  {
    if a >= 0 then a % b else -((-a) % b)
  }
}
