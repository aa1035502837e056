/** Short runs of a fresh server, proved from the method contracts alone:
    what a caller of the registries, the timer table and the accept loop can
    rely on. */
module Scenarios {
  import opened Registry
  import opened Entities
  import opened Scripts
  import opened Timers
  import opened Servers

  /** A pass over a table holding the single timer `id` requests its
      execution exactly when it expires. */
  lemma SingleTimerEvents(ts: map<Uuid, Timer>, id: Uuid)
    requires ts.Keys == {id}
    ensures TickEvents(ts) == if Expires(ts[id]) then [Fire(ts[id].script)] else []
  {
    assert IsLeast(id, {id});
    EventsAmongVisit(ts, {id}, id);
    assert {id} - {id} == {};
  }

  /** A timer added with duration 3 fires nothing in the first two passes,
      fires its script once in the third, and is then unknown (counter 0). */
  method ThreePassTimer(script: Script, generated: Uuid) returns (early: seq<Event>, all: seq<Event>, left: UInt32)
    ensures early == [] && all == [Fire(script)] && left == 0
  {
    var s := new Server();
    var id := s.AddTimer(3, script, generated);
    SingleTimerEvents(s.timers, id);
    s.Tick();
    SingleTimerEvents(s.timers, id);
    s.Tick();
    early := s.fired;
    SingleTimerEvents(s.timers, id);
    s.Tick();
    all := s.fired;
    left := s.GetTimerRemaining(id);
  }

  /** Setting a fresh timer's counter to 0 before any pass fires it at once
      and removes it, so a following pass fires nothing more. */
  method ForcedTimer(script: Script, generated: Uuid) returns (forced: seq<Event>, all: seq<Event>, left: UInt32)
    ensures forced == [Fire(script)] && all == forced && left == 0
  {
    var s := new Server();
    var id := s.AddTimer(3, script, generated);
    s.SetTimerRemaining(id, 0);
    forced := s.fired;
    s.Tick();
    all := s.fired;
    left := s.GetTimerRemaining(id);
  }

  /** Adding a second zone under an id replaces and destroys the first;
      deleting an unknown id changes nothing. */
  method ZoneReplacement(a: Zone, b: Zone) returns (found: Zone?, destroyed: seq<Zone>)
    requires a != b
    ensures found == b && destroyed == [a]
  {
    var s := new Server();
    s.AddZone("z1", a);
    s.AddZone("z1", b);
    s.DelZone("unknown");
    found := s.GetZone("z1");
    destroyed := s.destroyedZones;
  }

  /** A binding can be replaced and removed; an unbound trigger reads as the
      sentinel and runs nothing. */
  method ActionBindings(first: Script, second: Script, player: Player)
    returns (bound: Script, unbound: Script, runs: seq<Event>)
    ensures bound == second && unbound == NoValue
    ensures runs == [Run(second, player, "")]
  {
    var s := new Server();
    s.AddAction(first, "look");
    s.AddAction(second, "look");
    bound := s.GetAction("look");
    s.DoAction("look", player);
    s.DoAction("jump", player, "high");
    s.DelAction("look");
    unbound := s.GetAction("look");
    runs := s.fired;
  }

  /** A connection accepted while the server listens on port `p` creates one
      player and runs the spawn script with it; if the script gives it no
      zone it is destroyed and no longer registered, otherwise it stays. */
  method SpawnOutcome(p: UInt16, fd: int, conn: int, newId: int, zone: Zone?)
    returns (port: UInt16, registered: Player?, runs: seq<Event>, destroyed: seq<Player>)
    requires fd != 0 && conn != ACCEPT_FAILED
    ensures port == p && |runs| == 1 && runs[0].Spawn?
    ensures zone == null ==> registered == null && destroyed == [runs[0].player]
    ensures zone != null ==> registered == runs[0].player && destroyed == []
  {
    var s := new Server();
    s.Open(p, Some(fd));
    port := s.GetPort();
    var player := s.AcceptOne(conn, newId, zone);
    registered := s.GetPlayer(newId);
    runs := s.fired;
    destroyed := s.destroyedPlayers;
  }

  /** A failed socket set-up or a close leaves the server closed, reporting port 0. */
  method ClosedPort(p: UInt16, fd: int) returns (failed: UInt16, closed: UInt16)
    requires fd != 0
    ensures failed == 0 && closed == 0
  {
    var s := new Server();
    s.Open(p, None);
    failed := s.GetPort();
    s.Open(p, Some(fd));
    s.Close();
    closed := s.GetPort();
  }
}
