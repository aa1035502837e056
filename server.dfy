/** The server's in-memory state: the zone, player, action and timer
    registries, the listening socket's descriptor and port, and one pass of
    each of its two loops.  Everything runs on one thread; the scripting
    engine is not run, its executions are appended to `fired`, and the
    `delete`s the server performs are appended to `destroyedZones` and
    `destroyedPlayers`. */
module Servers {
  import opened Registry
  import opened Entities
  import opened Scripts
  import opened Timers

  /** `unsigned short`, 16 bits wide. */
  newtype UInt16 = x: int | 0 <= x < 0x1_0000

  /** The accepted-connection value `accept()` returns on failure. */
  const ACCEPT_FAILED: int := -1

  class Server {
    var connexionFd: int
    var port: UInt16
    var zones: map<string, Zone?>
    var players: map<int, Player?>
    var actions: map<string, Script>
    var timers: map<Uuid, Timer>
    var fired: seq<Event>
    var destroyedZones: seq<Zone>
    var destroyedPlayers: seq<Player>

    /** Every zone or player reachable from a registry is live; a zone is
        registered under one id only; a player is registered under its own id. */
    ghost predicate Valid()
      reads this
    {
      && (forall id :: id in zones && zones[id] != null ==> zones[id] !in destroyedZones)
      && (forall a, b :: a in zones && b in zones && zones[a] != null && zones[a] == zones[b] ==> a == b)
      && (forall id :: id in players && players[id] != null ==>
            players[id].id == id && players[id] !in destroyedPlayers)
    }

    /** The zone a lookup of `id` sees. */
    function ZoneAt(id: string): Zone?
      reads this
    {
      Lookup(zones, id, null)
    }

    /** The player a lookup of `id` sees. */
    function PlayerAt(id: int): Player?
      reads this
    {
      Lookup(players, id, null)
    }

    /** `isOpen()`: a listening descriptor is held. */
    predicate IsOpen()
      reads this
    {
      connexionFd != 0
    }

    constructor ()
      ensures Valid() && !IsOpen() && port == 0
      ensures zones == map[] && players == map[] && actions == map[] && timers == map[]
      ensures fired == [] && destroyedZones == [] && destroyedPlayers == []
    {
      connexionFd, port := 0, 0;
      zones, players, actions, timers := map[], map[], map[], map[];
      fired, destroyedZones, destroyedPlayers := [], [], [];
    }

    /* Life cycle */

    /** `_open(port)`: closes a socket already held, records the port, and
        holds the new listening socket when creating, configuring, binding
        and listening all succeeded (`listening` is `None` when one failed). */
    method Open(p: UInt16, listening: Option<int>)
      modifies this`connexionFd, this`port
      ensures port == p
      ensures connexionFd == if listening.Some? then listening.value else 0
      ensures IsOpen() <==> listening.Some? && listening.value != 0
    {
      if connexionFd != 0 {
        Close();
      }
      port := p;
      match listening {
        case None =>
          return;
        case Some(fd) =>
          connexionFd := fd;
      }
    }

    /** `_close()`: releases the socket and forgets the port. */
    method Close()
      modifies this`connexionFd, this`port
      ensures !IsOpen() && port == 0
    {
      connexionFd := 0;
      port := 0;
    }

    /** `getPort()`: the port while open, 0 while closed. */
    method GetPort() returns (p: UInt16)
      ensures IsOpen() ==> p == port
      ensures !IsOpen() ==> p == 0
    {
      if IsOpen() {
        p := port;
      } else {
        p := 0;
      }
    }

    /* Zones */

    /** `getZone(id)`: the zone under `id`, or null; the lookup leaves a null
        entry behind for a missing id, which no later lookup can tell apart. */
    method GetZone(id: string) returns (z: Zone?)
      modifies this`zones
      ensures z == old(ZoneAt(id))
      ensures zones == Touched(old(zones), id, null)
      ensures SameView(zones, old(zones), null)
      ensures old(Valid()) ==> Valid()
    {
      zones := Touched(zones, id, null);
      z := zones[id];
      TouchedSameView(old(zones), id, null);
    }

    /** `delZone(id)`: destroys and deregisters the zone under `id`; an id
        with no zone changes no binding and destroys nothing. */
    method DelZone(id: string)
      modifies this`zones, this`destroyedZones
      ensures old(ZoneAt(id)) != null ==>
                zones == old(zones) - {id} && destroyedZones == old(destroyedZones) + [old(ZoneAt(id))]
      ensures old(ZoneAt(id)) == null ==>
                zones == Touched(old(zones), id, null) && destroyedZones == old(destroyedZones)
      ensures ZoneAt(id) == null
      ensures forall other :: other != id ==> ZoneAt(other) == old(ZoneAt(other))
      ensures old(Valid()) ==> Valid()
    {
      zones := Touched(zones, id, null);
      if zones[id] != null {
        destroyedZones := destroyedZones + [zones[id]];
        zones := zones - {id};
      }
    }

    /** `addZone(id, zone)`: registers `zone` under `id`, destroying the zone
        it replaces; every other id keeps its zone. */
    method AddZone(id: string, zone: Zone?)
      modifies this`zones, this`destroyedZones
      ensures zones == old(zones)[id := zone]
      ensures ZoneAt(id) == zone
      ensures forall other :: other != id ==> ZoneAt(other) == old(ZoneAt(other))
      ensures destroyedZones == old(destroyedZones) + (if old(ZoneAt(id)) != null then [old(ZoneAt(id))] else [])
      ensures old(Valid()) && (zone == null || (zone !in old(destroyedZones) && zone !in old(zones).Values)) ==> Valid()
    {
      var existing := GetZone(id);
      if existing != null {
        DelZone(id);
      }
      zones := zones[id := zone];
    }

    /* Players */

    /** `getPlayer(id)`: the player under `id`, or null for an unregistered
        id (the lookup leaves a null entry behind, as `getZone` does). */
    method GetPlayer(id: int) returns (p: Player?)
      modifies this`players
      ensures p == old(PlayerAt(id))
      ensures players == Touched(old(players), id, null)
      ensures SameView(players, old(players), null)
      ensures old(Valid()) ==> Valid()
    {
      players := Touched(players, id, null);
      var found := players[id];
      if found == null {
        p := null;
      } else {
        p := found;
      }
      TouchedSameView(old(players), id, null);
    }

    /** `addPlayer(player)`: registers `player` under its own id, destroying
        the player it replaces; every other id keeps its player. */
    method AddPlayer(player: Player)
      modifies this`players, this`destroyedPlayers
      ensures players == old(players)[player.id := player]
      ensures forall other :: other != player.id ==> PlayerAt(other) == old(PlayerAt(other))
      ensures destroyedPlayers
           == old(destroyedPlayers) + (if old(PlayerAt(player.id)) != null then [old(PlayerAt(player.id))] else [])
      ensures old(Valid()) && player !in old(destroyedPlayers) && old(PlayerAt(player.id)) != player ==> Valid()
    {
      var id := player.id;
      players := Touched(players, id, null);
      if players[id] != null {
        destroyedPlayers := destroyedPlayers + [players[id]];
      }
      players := players[id := player];
    }

    /** `remPlayer(id)`: deregisters the player under `id` without destroying it. */
    method RemPlayer(id: int)
      modifies this`players
      ensures players == old(players) - {id}
      ensures PlayerAt(id) == null
      ensures forall other :: other != id ==> PlayerAt(other) == old(PlayerAt(other))
      ensures old(Valid()) ==> Valid()
    {
      players := players - {id};
    }

    /** `delPlayer(id)`: destroys and deregisters the player under `id`; an
        id with no player changes no binding and destroys nothing. */
    method DelPlayer(id: int)
      modifies this`players, this`destroyedPlayers
      ensures old(PlayerAt(id)) != null ==>
                players == old(players) - {id} && destroyedPlayers == old(destroyedPlayers) + [old(PlayerAt(id))]
      ensures old(PlayerAt(id)) == null ==>
                players == Touched(old(players), id, null) && destroyedPlayers == old(destroyedPlayers)
      ensures PlayerAt(id) == null
      ensures forall other :: other != id ==> PlayerAt(other) == old(PlayerAt(other))
      ensures old(Valid()) ==> Valid()
    {
      players := Touched(players, id, null);
      var player := players[id];
      if player != null {
        destroyedPlayers := destroyedPlayers + [player];
        RemPlayer(id);
      }
    }

    /* Actions */

    /** `addAction(script, trigger)`: binds `trigger` to `script`, replacing
        any earlier binding; every other trigger keeps its script. */
    method AddAction(script: Script, trigger: string)
      modifies this`actions
      ensures actions == old(actions)[trigger := script]
    {
      actions := actions[trigger := script];
    }

    /** `getAction(trigger)`: the bound script, or the sentinel `NoValue`. */
    method GetAction(trigger: string) returns (s: Script)
      ensures trigger in actions ==> s == actions[trigger]
      ensures trigger !in actions ==> s == NoValue
    {
      if trigger in actions {
        s := actions[trigger];
      } else {
        s := NoValue;
      }
    }

    /** `delAction(trigger)`: removes the binding; an unbound trigger is left alone. */
    method DelAction(trigger: string)
      modifies this`actions
      ensures actions == old(actions) - {trigger}
      ensures trigger !in old(actions) ==> actions == old(actions)
    {
      if trigger in actions {
        actions := actions - {trigger};
      }
    }

    /** `doAction(trigger, player, arg)`: runs exactly the script bound to
        `trigger`, with `player` and `arg`; an unbound trigger runs nothing. */
    method DoAction(trigger: string, player: Player, arg: string := "")
      modifies this`fired
      ensures trigger in actions ==> fired == old(fired) + [Run(actions[trigger], player, arg)]
      ensures trigger !in actions ==> fired == old(fired)
    {
      if trigger in actions {
        fired := fired + [Run(actions[trigger], player, arg)];
      }
    }

    /* Timers */

    /** `addTimer(duration, script)`: schedules a timer under the freshly
        generated id `generated` and returns that id.  `emplace` keeps an
        entry already under that id. */
    method AddTimer(duration: UInt32, script: Script, generated: Uuid) returns (id: Uuid)
      modifies this`timers
      ensures id == generated
      ensures generated !in old(timers) ==> timers == old(timers)[generated := Timer(duration, script)]
      ensures generated in old(timers) ==> timers == old(timers)
    {
      id := generated;
      if id !in timers {
        timers := timers[id := Timer(duration, script)];
      }
    }

    /** `delTimer(id)`: unschedules `id` without running it; an unknown id is left alone. */
    method DelTimer(id: Uuid)
      modifies this`timers
      ensures timers == old(timers) - {id}
      ensures id !in old(timers) ==> timers == old(timers)
    {
      timers := timers - {id};
    }

    /** `triggerTimer(id)`: runs the timer's script once and unschedules it;
        an unknown id runs nothing. */
    method TriggerTimer(id: Uuid)
      modifies this`timers, this`fired
      ensures id in old(timers) ==>
                timers == old(timers) - {id} && fired == old(fired) + [Fire(old(timers)[id].script)]
      ensures id !in old(timers) ==> timers == old(timers) && fired == old(fired)
    {
      if id !in timers {
        return;
      }
      fired := fired + [Fire(timers[id].script)];
      timers := timers - {id};
    }

    /** `getTimerRemaining(id)`: the timer's counter, or 0 for an unknown id,
        so that 0 cannot tell an unknown id from a counter at 0. */
    method GetTimerRemaining(id: Uuid) returns (r: UInt32)
      ensures id in timers ==> r == timers[id].remaining
      ensures r == 0 <==> id !in timers || timers[id].remaining == 0
    {
      if id !in timers {
        return 0;
      }
      r := timers[id].remaining;
    }

    /** `setTimerRemaining(id, remaining)`: 0 acts exactly as `triggerTimer(id)`;
        any other value rewrites that timer's counter alone and runs nothing. */
    method SetTimerRemaining(id: Uuid, remaining: UInt32)
      modifies this`timers, this`fired
      ensures remaining == 0 && id in old(timers) ==>
                timers == old(timers) - {id} && fired == old(fired) + [Fire(old(timers)[id].script)]
      ensures remaining == 0 && id !in old(timers) ==> timers == old(timers) && fired == old(fired)
      ensures remaining != 0 ==> fired == old(fired)
      ensures remaining != 0 && id in old(timers) ==>
                timers == old(timers)[id := Timer(remaining, old(timers)[id].script)]
      ensures remaining != 0 && id !in old(timers) ==> timers == old(timers)
    {
      if remaining == 0 {
        TriggerTimer(id);
        return;
      }
      if id !in timers {
        return;
      }
      timers := timers[id := timers[id].(remaining := remaining)];
    }

    /** One pass of `timersLoop`: visits the timers in id order, decrements
        each counter, and runs and erases, in the same pass, each timer whose
        counter reaches 0. */
    method Tick()
      modifies this`timers, this`fired
      ensures timers == Ticked(old(timers))
      ensures fired == old(fired) + TickEvents(old(timers))
    {
      ghost var t0 := timers;
      ghost var goal := fired + TickEvents(timers);
      var pending := timers.Keys;
      PartlyTickedBounds(t0);
      while pending != {}
        invariant pending <= t0.Keys
        invariant timers == PartlyTicked(t0, pending)
        invariant fired + EventsAmong(t0, pending) == goal
        decreases pending
      {
        LeastExists(pending);
        var id :| IsLeast(id, pending);
        PartlyTickedVisit(t0, pending, id);
        EventsVisitAppend(t0, pending, id, fired);
        var t := timers[id];
        var r := Decrement(t.remaining);
        if r == 0 {
          fired := fired + [Fire(t.script)];
          timers := timers - {id};
        } else {
          timers := timers[id := t.(remaining := r)];
        }
        pending := pending - {id};
      }
      assert fired + [] == fired;
    }

    /* One pass of `acceptLoop` */

    /** While open, handles one return value `accepted` of `accept()`: on
        success creates the player `newId` for that connection, registers
        it and runs the spawn script; `spawnZone` is the zone the script
        placed the player in (null if it did not), and a player left without
        a zone is destroyed and deregistered.  Returns the created player. */
    method AcceptOne(accepted: int, newId: int, spawnZone: Zone?) returns (player: Player?)
      modifies this`players, this`destroyedPlayers, this`fired
      ensures !old(IsOpen()) || accepted == ACCEPT_FAILED ==>
                player == null && players == old(players) && fired == old(fired)
                && destroyedPlayers == old(destroyedPlayers)
      ensures old(IsOpen()) && accepted != ACCEPT_FAILED ==>
                && player != null && fresh(player)
                && player.id == newId && player.fd == accepted && player.zone == spawnZone
                && fired == old(fired) + [Spawn(player)]
                && (PlayerAt(newId) == player <==> spawnZone != null)
                && (spawnZone != null ==> players == old(players)[newId := player])
                && (spawnZone == null ==> players == old(players) - {newId})
                && destroyedPlayers == old(destroyedPlayers)
                     + (if old(PlayerAt(newId)) != null then [old(PlayerAt(newId))] else [])
                     + (if spawnZone == null then [player] else [])
      ensures old(Valid()) ==> Valid()
    {
      player := null;
      if !IsOpen() || accepted == ACCEPT_FAILED {
        return;
      }
      var p := new Player(newId, accepted);
      AddPlayer(p);
      fired := fired + [Spawn(p)];
      p.zone := spawnZone;
      if p.zone == null {
        DelPlayer(p.id);
      }
      player := p;
    }
  }
}
