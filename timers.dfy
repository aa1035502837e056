/** The timer table of the server and one pass of its timer loop, as functions
    of the table: the specification the `Server` methods are proved against. */
module Timers {
  import opened Scripts

  /** `unsigned int`, 32 bits wide. */
  newtype UInt32 = x: int | 0 <= x < 0x1_0000_0000

  const UINT32_MAX: UInt32 := 0xFFFF_FFFF

  /** Stands for `Uuid`: an opaque id whose order is the map's iteration order. */
  type Uuid = nat

  /** `struct Timer { unsigned int remaining; Script script; }` */
  datatype Timer = Timer(remaining: UInt32, script: Script)

  /** `remaining--` on an unsigned counter: the predecessor modulo 2^32. */
  function Decrement(r: UInt32): (d: UInt32)
    ensures (d as int + 1) % 0x1_0000_0000 == r as int
  {
    if r == 0 then UINT32_MAX else r - 1
  }

  /** A timer whose decremented counter is 0 fires in this pass. */
  predicate Expires(t: Timer)
  {
    Decrement(t.remaining) == 0
  }

  /** The table after one pass: every counter decremented, expiring entries erased. */
  function Ticked(ts: map<Uuid, Timer>): map<Uuid, Timer>
  {
    map id | id in ts && !Expires(ts[id]) :: ts[id].(remaining := Decrement(ts[id].remaining))
  }

  /** One pass lowers every counter by exactly 1 modulo 2^32; a timer stays
      scheduled exactly when its counter was not 1, and keeps its script. */
  lemma TickedDecrements(ts: map<Uuid, Timer>, id: Uuid)
    ensures id in Ticked(ts) <==> id in ts && ts[id].remaining != 1
    ensures id in Ticked(ts) ==>
              && (Ticked(ts)[id].remaining as int + 1) % 0x1_0000_0000 == ts[id].remaining as int
              && Ticked(ts)[id].script == ts[id].script
  {
  }

  /** `m` is the smallest id of `s`. */
  predicate IsLeast(m: Uuid, s: set<Uuid>)
  {
    m in s && forall x :: x in s ==> m <= x
  }

  lemma {:induction false} LeastExists(s: set<Uuid>)
    requires s != {}
    ensures exists m :: IsLeast(m, s)
  {
    var x :| x in s;
    if s != {x} {
      LeastExists(s - {x});
      var m :| IsLeast(m, s - {x});
      var least := if x < m then x else m;
      forall y | y in s ensures least <= y {
        if y != x {
          assert y in s - {x};
        }
      }
      assert IsLeast(least, s);
    } else {
      assert IsLeast(x, s);
    }
  }

  /** The smallest id of a non-empty set: the first key a `std::map` visits. */
  ghost function Least(s: set<Uuid>): (m: Uuid)
    requires s != {}
    ensures IsLeast(m, s)
  {
    LeastExists(s);
    var m :| IsLeast(m, s);
    m
  }

  /** The timers of `ts` a pass over the ids `pending` fires, in the order it
      visits them: smallest id first. */
  ghost function FiredAmong(ts: map<Uuid, Timer>, pending: set<Uuid>): seq<Uuid>
    decreases pending
  {
    if pending == {} then []
    else
      var m := Least(pending);
      (if m in ts && Expires(ts[m]) then [m] else []) + FiredAmong(ts, pending - {m})
  }

  /** The executions that firing the timers `ids` of `ts` one after the other requests. */
  ghost function Fires(ts: map<Uuid, Timer>, ids: seq<Uuid>): seq<Event>
    requires forall id :: id in ids ==> id in ts
  {
    seq(|ids|, k requires 0 <= k < |ids| => Fire(ts[ids[k]].script))
  }

  /** The executions a pass over the ids `pending` of `ts` requests, in order. */
  ghost function EventsAmong(ts: map<Uuid, Timer>, pending: set<Uuid>): seq<Event>
  {
    FiredAmongIn(ts, pending);
    Fires(ts, FiredAmong(ts, pending))
  }

  /** The timers one pass fires, in the order the pass visits them. */
  ghost function FiredIds(ts: map<Uuid, Timer>): seq<Uuid>
  {
    FiredAmong(ts, ts.Keys)
  }

  /** The executions one pass requests, in order. */
  ghost function TickEvents(ts: map<Uuid, Timer>): seq<Event>
  {
    EventsAmong(ts, ts.Keys)
  }

  /** The table part-way through a pass: the ids in `pending` are not yet visited. */
  function PartlyTicked(ts: map<Uuid, Timer>, pending: set<Uuid>): map<Uuid, Timer>
  {
    map id | id in ts && (id in pending || !Expires(ts[id])) ::
      if id in pending then ts[id] else ts[id].(remaining := Decrement(ts[id].remaining))
  }

  lemma PartlyTickedBounds(ts: map<Uuid, Timer>)
    ensures PartlyTicked(ts, ts.Keys) == ts
    ensures PartlyTicked(ts, {}) == Ticked(ts)
  {
  }

  /** Visiting `id` decrements it, erasing it when it expires. */
  lemma PartlyTickedVisit(ts: map<Uuid, Timer>, pending: set<Uuid>, id: Uuid)
    requires id in pending && pending <= ts.Keys
    ensures id in PartlyTicked(ts, pending) && PartlyTicked(ts, pending)[id] == ts[id]
    ensures Expires(ts[id]) ==> PartlyTicked(ts, pending - {id}) == PartlyTicked(ts, pending) - {id}
    ensures !Expires(ts[id]) ==>
              PartlyTicked(ts, pending - {id})
              == PartlyTicked(ts, pending)[id := ts[id].(remaining := Decrement(ts[id].remaining))]
  {
  }

  lemma FiresAppend(ts: map<Uuid, Timer>, a: seq<Uuid>, b: seq<Uuid>)
    requires forall id :: id in a ==> id in ts
    requires forall id :: id in b ==> id in ts
    ensures forall id :: id in a + b ==> id in ts
    ensures Fires(ts, a + b) == Fires(ts, a) + Fires(ts, b)
  {
  }

  /** Visiting the smallest pending id `id` requests its execution first, when it expires. */
  lemma EventsAmongVisit(ts: map<Uuid, Timer>, pending: set<Uuid>, id: Uuid)
    requires IsLeast(id, pending) && id in ts
    ensures EventsAmong(ts, pending)
         == (if Expires(ts[id]) then [Fire(ts[id].script)] else []) + EventsAmong(ts, pending - {id})
  {
    assert Least(pending) == id;
    var head := if Expires(ts[id]) then [id] else [];
    FiredAmongIn(ts, pending - {id});
    FiresAppend(ts, head, FiredAmong(ts, pending - {id}));
    assert FiredAmong(ts, pending) == head + FiredAmong(ts, pending - {id});
  }

  /** A log that has requested `log` so far and still has to request the
      executions of `pending` ends up as `log` followed by those. */
  lemma EventsVisitAppend(ts: map<Uuid, Timer>, pending: set<Uuid>, id: Uuid, log: seq<Event>)
    requires IsLeast(id, pending) && id in ts
    ensures Expires(ts[id]) ==>
              (log + [Fire(ts[id].script)]) + EventsAmong(ts, pending - {id}) == log + EventsAmong(ts, pending)
    ensures !Expires(ts[id]) ==> log + EventsAmong(ts, pending - {id}) == log + EventsAmong(ts, pending)
  {
    EventsAmongVisit(ts, pending, id);
    if !Expires(ts[id]) {
      assert [] + EventsAmong(ts, pending - {id}) == EventsAmong(ts, pending - {id});
    }
  }

  lemma {:induction false} FiredAmongCount(ts: map<Uuid, Timer>, pending: set<Uuid>, id: Uuid)
    ensures multiset(FiredAmong(ts, pending))[id]
         == if id in pending && id in ts && Expires(ts[id]) then 1 else 0
    decreases pending
  {
    if pending != {} {
      var m := Least(pending);
      FiredAmongCount(ts, pending - {m}, id);
    }
  }

  /** One pass fires exactly the timers whose counter is 1, each exactly once. */
  lemma FiredOnce(ts: map<Uuid, Timer>, id: Uuid)
    ensures multiset(FiredIds(ts))[id] == if id in ts && ts[id].remaining == 1 then 1 else 0
  {
    FiredAmongCount(ts, ts.Keys, id);
  }

  lemma {:induction false} FiredAmongIn(ts: map<Uuid, Timer>, pending: set<Uuid>)
    ensures forall id :: id in FiredAmong(ts, pending) ==> id in pending && id in ts
    decreases pending
  {
    if pending != {} {
      FiredAmongIn(ts, pending - {Least(pending)});
    }
  }

  /** A pass visits the timers in ascending id order, the order of the map. */
  lemma {:induction false} FiredAmongAscending(ts: map<Uuid, Timer>, pending: set<Uuid>)
    ensures forall i, j :: 0 <= i < j < |FiredAmong(ts, pending)| ==>
              FiredAmong(ts, pending)[i] < FiredAmong(ts, pending)[j]
    decreases pending
  {
    if pending != {} {
      var m := Least(pending);
      var rest := FiredAmong(ts, pending - {m});
      FiredAmongAscending(ts, pending - {m});
      FiredAmongIn(ts, pending - {m});
      var r := FiredAmong(ts, pending);
      if m in ts && Expires(ts[m]) {
        forall i, j | 0 <= i < j < |r| ensures r[i] < r[j] {
          if i == 0 {
            assert r[j] == rest[j - 1] && r[j] in rest;
          } else {
            assert r[i] == rest[i - 1] && r[j] == rest[j - 1];
          }
        }
      } else {
        assert r == rest;
      }
    }
  }

  /** The k-th execution of a pass runs the script of the k-th fired timer. */
  lemma TickEventsAt(ts: map<Uuid, Timer>, k: nat)
    requires k < |FiredIds(ts)|
    ensures FiredIds(ts)[k] in ts
    ensures |TickEvents(ts)| == |FiredIds(ts)|
    ensures TickEvents(ts)[k] == Fire(ts[FiredIds(ts)[k]].script)
  {
    FiredAmongIn(ts, ts.Keys);
  }

  /** The table after `n` passes, with no other operation in between. */
  function TickedN(ts: map<Uuid, Timer>, n: nat): map<Uuid, Timer>
  {
    if n == 0 then ts else Ticked(TickedN(ts, n - 1))
  }

  /** Before its d-th pass a timer created with duration d >= 1 is still
      scheduled, its counter lowered by one per pass, its script unchanged. */
  lemma {:induction false} CountsDown(ts: map<Uuid, Timer>, id: Uuid, n: nat)
    requires id in ts && n < ts[id].remaining as int
    ensures id in TickedN(ts, n)
    ensures TickedN(ts, n)[id] == Timer(ts[id].remaining - n as UInt32, ts[id].script)
  {
    if n > 0 {
      CountsDown(ts, id, n - 1);
    }
  }

  /** A timer with duration d >= 1 fires in pass d and in no earlier pass,
      and is gone from the table after it. */
  lemma FiresOnPass(ts: map<Uuid, Timer>, id: Uuid, n: nat)
    requires id in ts && 1 <= ts[id].remaining
    requires n < ts[id].remaining as int
    ensures multiset(FiredIds(TickedN(ts, n)))[id] == if n + 1 == ts[id].remaining as int then 1 else 0
    ensures n + 1 == ts[id].remaining as int ==> id !in TickedN(ts, n + 1)
  {
    CountsDown(ts, id, n);
    FiredOnce(TickedN(ts, n), id);
  }

  /** `remaining` is unsigned: a timer created with duration 0 is not fired by
      the first pass but wraps to the largest counter value. */
  lemma ZeroDurationWraps(ts: map<Uuid, Timer>, id: Uuid)
    requires id in ts && ts[id].remaining == 0
    ensures multiset(FiredIds(ts))[id] == 0
    ensures id in Ticked(ts) && Ticked(ts)[id] == Timer(UINT32_MAX, ts[id].script)
  {
    FiredOnce(ts, id);
  }

  lemma {:induction false} TickedNFirst(ts: map<Uuid, Timer>, n: nat)
    requires n >= 1
    ensures TickedN(ts, n) == TickedN(Ticked(ts), n - 1)
  {
    if n > 1 {
      TickedNFirst(ts, n - 1);
      calc {
        TickedN(ts, n);
        Ticked(TickedN(ts, n - 1));
        Ticked(TickedN(Ticked(ts), n - 2));
        TickedN(Ticked(ts), n - 1);
      }
    }
  }

  /** A timer created with duration 0 first fires in pass 2^32, after its
      counter has wrapped around, and in no earlier pass. */
  lemma ZeroDurationFiresAfterWrap(ts: map<Uuid, Timer>, id: Uuid, n: nat)
    requires id in ts && ts[id].remaining == 0
    requires n < 0x1_0000_0000
    ensures multiset(FiredIds(TickedN(ts, n)))[id] == if n == 0xFFFF_FFFF then 1 else 0
  {
    if n == 0 {
      ZeroDurationWraps(ts, id);
    } else {
      ZeroDurationWraps(ts, id);
      TickedNFirst(ts, n);
      FiresOnPass(Ticked(ts), id, n - 1);
    }
  }
}
