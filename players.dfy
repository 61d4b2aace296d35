/** A game player: a `player` (an immutable name) composed with a `token`
    holder (a marker that can be overwritten). Players are compared by
    identity, so two players with the same name are still two players. */
module Players {
  import opened Board

  class GamePlayer {
    /** The display name, fixed at creation. */
    const name: string
    /** The marker this player places; only X and O are ever assigned. */
    var token: Token

    constructor (name: string, token: Token)
      ensures this.name == name && this.token == token
    {
      this.name := name;
      this.token := token;
    }

    /** Overwrites the token; nothing checks that the other player holds the
        other glyph, which is the engine's job. */
    method SetToken(newToken: Token)
      modifies this
      ensures token == newToken
    {
      token := newToken;
    }
  }
}
