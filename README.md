# hackraft server registries and timer scheduler, in Dafny

This project models the in-memory core of the hackraft game server's
`Server` class (`server.cpp`, with its state declared in `server.h`):

- the **zone registry** (`addZone`, `getZone`, `delZone`) and the **player
  registry** (`addPlayer`, `getPlayer`, `delPlayer`, `remPlayer`). Both are
  id-keyed maps of object pointers. A new entry replaces and destroys the old
  one (last writer wins). `delPlayer` destroys the player; `remPlayer` only
  deregisters it;
- the **action bindings** (`addAction`, `getAction`, `delAction`,
  `doAction`): a map from trigger to script, with the sentinel
  `Script::noValue` for an unbound trigger;
- the **timer table** (`addTimer`, `delTimer`, `triggerTimer`,
  `getTimerRemaining`, `setTimerRemaining`) and one pass of the timer loop
  (`timersLoop`). The pass decrements every unsigned counter and runs and
  erases, in the same pass, every timer whose counter reaches 0;
- the **open/closed state** (`_open`, `_close`, `isOpen`, `getPort`);
- **one iteration of the accept loop** (`acceptLoop`): create a player for the
  new connection, register it, run the spawn script, and destroy it again if
  the script gave it no zone.

Everything is sequential: one thread, no locks. The scripting engine is not
run. Each execution the server asks for (an action, a timer, the spawn script)
is appended to the event log `fired`. Each `delete` the server performs is
appended to `destroyedZones` or `destroyedPlayers`.

Files:

- `registry.dfy` (module `Registry`): `Option`; `Lookup`, what `m[k]` reads with
  a default for a missing key; `Touched`, the map after `operator[]` has left
  that default entry behind; `SameView`, "no lookup can tell the two maps
  apart".
- `scripts.dfy` (modules `Entities`, `Scripts`): the `Zone` and `Player`
  handles the registries point to, the `Script` value with its `NoValue`
  sentinel, and the logged `Event`s.
- `timers.dfy` (module `Timers`): `UInt32` (the C++ `unsigned int`), `Timer`,
  and one timer pass as functions of the table: `Ticked` gives the new table,
  `FiredIds` and `TickEvents` give what the pass fires, in map order. The
  lemmas about these functions come after them.
- `server.dfy` (module `Servers`): the class `Server`, with the four maps, the
  descriptor and the port as fields. Its methods are proved against the
  functions above. `Valid()` is the registry invariant: registered objects are
  live, a zone is registered under one id, and a player is registered under
  its own id.
- `scenarios.dfy` (module `Scenarios`): short runs of a fresh server, proved
  from the method contracts alone.

Modelling decisions:

- A registry lookup with `operator[]` inserts a null entry for a missing id.
  The model does the same (`Touched`). `SameView` and `TouchedSameView` prove
  that an absent id and an id mapped to null look the same to every later
  lookup.
- `Uuid` is modelled as `nat`. Its natural order stands for the order in which
  `std::map<Uuid, Timer>` visits its keys. The pass therefore always visits the
  smallest pending id next. The fresh `Uuid` that `addTimer` generates is the
  `generated` parameter. `emplace` keeps an entry that already has that id.
- `remaining` is a 32-bit unsigned counter, and decrementing 0 wraps it to
  `0xFFFF_FFFF` (`Decrement`). `addTimer(0, …)` stores a counter of 0
  (server.cpp:267-271). The model follows the code: such a timer is not fired by the next pass, but
  only 2^32 passes later (`ZeroDurationWraps`, `ZeroDurationFiresAfterWrap`).
- The socket calls of `_open` become the parameter `listening`. It is `None` when
  `socket`, `setsockopt`, `bind` or `listen` failed, and `Some(fd)` with the
  listening descriptor otherwise. `accept`'s result is the `accepted` parameter
  of `AcceptOne` (`-1` on failure). The id of the new player is `newId`, because
  the player's constructor is not part of this model. What the spawn script
  does to the player is reduced to the zone it leaves it in (`spawnZone`).
- Each id, trigger and timer id maps to at most one entry by construction:
  every registry is a Dafny `map`.
- `doAction`'s argument defaults to the empty string, as in `server.h`
  (`arg: string := ""`).
- `AddZone` preserves `Valid()` on condition that the added zone is not already
  registered and not destroyed, and `AddPlayer` on condition that the added
  player is not the one already registered under its id. This is how the code
  behaves: re-adding the registered object under its own id first destroys it
  and then stores the destroyed pointer. The comment at `server.h:29` says the
  `Player` constructor itself calls `addPlayer`. If it does, the second
  `addPlayer` in the accept loop (`server.cpp:44`) would be such a re-add.
  `player.cpp` is not part of this model, so this is recorded here and not
  claimed as a finding.

## Model

| member | source | states |
|---|---|---|
| `Timers.Decrement` | server.cpp:62 | `remaining--` on an unsigned counter gives the predecessor modulo 2^32, so 0 wraps to the largest value |
| `Timers.TickedDecrements` | server.cpp:61-69 | after one pass a timer is still scheduled exactly when its counter was not 1; its counter dropped by exactly 1 (mod 2^32) and its script is unchanged |
| `Timers.FiredOnce` | server.cpp:61-69 | one pass fires exactly the timers whose counter was 1, each exactly once |
| `Timers.FiredAmongAscending` | server.cpp:61 | the pass visits, and so fires, timers in ascending id order, the iteration order of the map |
| `Timers.TickEventsAt` | server.cpp:63-64 | the k-th execution a pass requests runs the script of the k-th timer it fires |
| `Timers.CountsDown` | server.cpp:57-72 | a timer with counter d is still scheduled after n < d passes, with counter d - n and its own script |
| `Timers.FiresOnPass` | server.cpp:57-72 | a timer added with duration d >= 1 fires in pass d and in no earlier pass, and is gone from the table afterwards |
| `Timers.ZeroDurationWraps` | server.cpp:62-63 | a timer with counter 0 is not fired by the next pass; its counter wraps to 0xFFFFFFFF |
| `Timers.ZeroDurationFiresAfterWrap` | server.h:59 | because `remaining` is unsigned, a timer created with duration 0 first fires in pass 2^32 |
| `Registry.TouchedSameView` | server.cpp:192-194 | the null entry that a lookup with `operator[]` leaves behind changes no observable binding |
| `Servers.Server.constructor` | server.cpp:76-86 | a new server is closed, with port 0, empty registries, and nothing fired or destroyed |
| `Servers.Server.Open` | server.cpp:101-151 | `_open` records the port. It holds the new listening descriptor only when the whole socket set-up succeeded, and is open exactly then (given a non-zero descriptor); a socket already held is closed first |
| `Servers.Server.IsOpen` | server.cpp:171-173 | open exactly when a non-zero listening descriptor is held |
| `Servers.Server.Close` | server.cpp:153-169 | after `_close` the server is not open and the port is 0 |
| `Servers.Server.GetPort` | server.cpp:175-181 | the port while open, 0 whenever not open |
| `Servers.Server.GetZone` | server.cpp:192-194 | returns the zone under the id, or null for an unknown id; the null entry left behind changes no binding and keeps `Valid()` |
| `Servers.Server.DelZone` | server.cpp:196-201 | destroys and erases the zone under the id; an unknown id destroys nothing and changes no binding; every other id keeps its zone; keeps `Valid()` |
| `Servers.Server.AddZone` | server.cpp:184-190 | afterwards the lookup of the id returns the new zone; the zone it replaced, if any, is destroyed; every other id keeps its zone |
| `Servers.Server.GetPlayer` | server.cpp:212-219 | returns the player under the id, or null for an unregistered id, and changes no binding |
| `Servers.Server.AddPlayer` | server.cpp:203-210 | stores the player under its own id; the player it replaced, if any, is destroyed; every other id keeps its player |
| `Servers.Server.RemPlayer` | server.cpp:232-234 | deregisters the id without destroying anything; every other id keeps its player |
| `Servers.Server.DelPlayer` | server.cpp:221-230 | destroys and deregisters the player under the id; an unknown id destroys nothing and changes no binding; afterwards the lookup is null |
| `Servers.Server.AddAction` | server.cpp:236-241 | binds the trigger to the script, replacing an earlier binding; every other trigger is untouched |
| `Servers.Server.GetAction` | server.cpp:243-249 | the script bound to the trigger, or the sentinel `NoValue` for an unbound trigger |
| `Servers.Server.DelAction` | server.cpp:251-257 | removes the binding; an unbound trigger leaves the bindings unchanged |
| `Servers.Server.DoAction` | server.cpp:259-265 | runs exactly the script bound to the trigger, with the given player and argument; an unbound trigger runs nothing |
| `Servers.Server.AddTimer` | server.cpp:267-271 | schedules the duration and script under the generated id and returns that id; an entry already under that id is kept (`emplace`) |
| `Servers.Server.DelTimer` | server.cpp:273-275 | unschedules the id without running it; an unknown id changes nothing |
| `Servers.Server.TriggerTimer` | server.cpp:277-285 | runs the timer's script once and removes it; an unknown id runs nothing and changes nothing |
| `Servers.Server.GetTimerRemaining` | server.cpp:287-293 | the timer's counter; 0 for an unknown id, so 0 cannot tell an unknown id from a counter at 0 |
| `Servers.Server.SetTimerRemaining` | server.cpp:295-306 | 0 behaves exactly as `triggerTimer`; any other value rewrites only that timer's counter and runs nothing; an unknown id changes nothing |
| `Servers.Server.Tick` | server.cpp:61-69 | one pass of the timer loop produces the table `Ticked` of the old table and appends `TickEvents` of the old table to the log |
| `Servers.Server.AcceptOne` | server.cpp:30-50 | while open, a successful accept creates exactly one fresh player, registers it, and runs the spawn script with it; the player stays registered exactly when the script gave it a zone, and is otherwise destroyed; keeps `Valid()` |
| `Scenarios.ThreePassTimer` | server.cpp:57-72 | a timer added with duration 3 fires nothing in two passes, fires once in the third, and then reads as counter 0 |
| `Scenarios.ForcedTimer` | server.cpp:295-299 | setting a fresh timer's counter to 0 fires it at once, and a later pass fires nothing more |
| `Scenarios.ZoneReplacement` | server.cpp:184-201 | adding zone B under an id holding zone A leaves B registered and A destroyed; deleting an unknown id changes nothing |
| `Scenarios.ActionBindings` | server.cpp:236-265 | a replaced binding runs the new script with the default empty argument; an unbound trigger runs nothing; after deletion the lookup reads `NoValue` |
| `Scenarios.SpawnOutcome` | server.cpp:43-49 | on a server open on port P, an accepted connection runs the spawn script once with a new player; without a zone that player is destroyed and unregistered, with one it stays registered |
| `Scenarios.ClosedPort` | server.cpp:171-181 | after a failed socket set-up, or after a close, the port reads as 0 |

## Left out

- Sockets and addressing (`socket`, `setsockopt`, `bind`, `listen`, `accept`,
  `close`, `inet_ntoa`, `htons`): I/O. They are replaced by the parameters
  `listening` and `accepted`. A descriptor left open by a failed set-up is not
  modelled.
- Threads and blocking (`timersThread`, `acceptThread` with its creation in
  `_open`, its detach in `_close` and its reset when the loop ends,
  `terminaisonLock`, `waitForTerminaison`, `usleep`, the endless loops): these
  are concurrency and timing. One pass of each loop is modelled instead.
- Script execution and re-entrancy: a script that calls back into the server
  (for example into the timer table during a pass) is not modelled. Each
  execution is only recorded as an event.
- Logging (`info`, `warning`): it has no effect on the state.
- `~Server`, `getLua`, and the construction of the `Luawrapper`: manual
  lifetime management and a foreign object. They are not part of this model.
- `luawrapper.cpp`: glue between the server and the Lua C API. It is not part of
  this model, and neither is the `rand()` it uses.
- `zone.h`, `player.h`, `gauge.h`: declarations only. The zone grid, the
  rosters, movement, the gauges and the player's own connection loop have no
  bodies to model.
- `AcceptOne`: the spawn script is reduced to the zone it leaves the new player
  in. Any other change it makes to the registries is not modelled.
- `AcceptOne`: the new player's id is a parameter, because the `Player`
  constructor that chooses it is not part of this model.
- `AddTimer`: the generation of the fresh `Uuid` is a parameter, and the order
  of ids is modelled as that of natural numbers.
