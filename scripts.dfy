/** Handles for the objects the server's registries point to.  Only what the
    registries and the accept loop touch is modelled: a player's id and
    socket, and the zone a player currently stands in. */
module Entities {

  /** A zone, as a reference the zone registry stores (`Zone *`).  The
      registry keys it by the id `addZone` is given, so none of the zone's
      own state is modelled. */
  class Zone {
  }

  /** A connected player, as a reference the player registry stores (`Player *`). */
  class Player {
    const id: int
    const fd: int
    var zone: Zone?

    constructor (id: int, fd: int)
      ensures this.id == id && this.fd == fd && zone == null
    {
      this.id := id;
      this.fd := fd;
      zone := null;
    }
  }
}

/** Scripts and the executions the server asks the scripting engine for. */
module Scripts {
  import opened Entities

  /** A stored script; `NoValue` is the sentinel `Script::noValue`, distinct
      from every script built from source text. */
  datatype Script = NoValue | Code(text: string)

  /** One request to the scripting engine, recorded instead of being run. */
  datatype Event =
    | Run(script: Script, player: Player, arg: string)  // an action bound to a trigger
    | Fire(script: Script)                              // an expiring or forced timer
    | Spawn(player: Player)                             // the spawn script of a new connection
}
