/** socketProtection: the sliding-window SocketRateLimiter and the per-IP ConnectionTracker.
    Date.now() is the `now` parameter of each operation. */
module SocketProtection {
  import opened Wrappers
  import opened MapSum

  const MAX_EVENTS_PER_SECOND: nat := 10
  const MAX_EVENTS_PER_MINUTE: nat := 100
  const MAX_CONNECTIONS_PER_IP_PER_MINUTE: nat := 20
  const ONE_SECOND: int := 1000
  const ONE_MINUTE: int := 60000

  /** `timestamps.filter(t => t > cutoff)`. */
  function Prune(ts: seq<int>, cutoff: int): (r: seq<int>)
    ensures |r| <= |ts|
    ensures forall t :: t in r <==> t in ts && t > cutoff
  {
    if ts == [] then [] else (if ts[0] > cutoff then [ts[0]] else []) + Prune(ts[1..], cutoff)
  }

  lemma {:induction false} PruneConcat(a: seq<int>, b: seq<int>, cutoff: int)
    ensures Prune(a + b, cutoff) == Prune(a, cutoff) + Prune(b, cutoff)
  {
    if a != [] {
      var head := if a[0] > cutoff then [a[0]] else [];
      assert (a + b)[0] == a[0] && (a + b)[1..] == a[1..] + b;
      PruneConcat(a[1..], b, cutoff);
      assert Prune(a + b, cutoff) == head + (Prune(a[1..], cutoff) + Prune(b, cutoff));
    } else {
      assert a + b == b;
    }
  }

  /** Pruning with a later cutoff after an earlier one is pruning with the later one. */
  lemma {:induction false} PruneTwice(ts: seq<int>, early: int, late: int)
    requires early <= late
    ensures Prune(Prune(ts, early), late) == Prune(ts, late)
  {
    if ts != [] {
      PruneTwice(ts[1..], early, late);
      PruneConcat(if ts[0] > early then [ts[0]] else [], Prune(ts[1..], early), late);
    }
  }

  lemma PruneEmptyIff(ts: seq<int>, cutoff: int)
    ensures Prune(ts, cutoff) == [] <==> forall t :: t in ts ==> t <= cutoff
  {
    var r := Prune(ts, cutoff);
    if r != [] {
      assert r[0] in r;
    }
  }

  /** The event check on one (socket, event) list at time now: None refuses; Some(list) accepts
      and is the list stored afterwards. */
  function EventWindow(events: seq<int>, now: int): (r: Option<seq<int>>)
    ensures r.None? <==> |Prune(events, now - ONE_SECOND)| >= MAX_EVENTS_PER_SECOND
                         || |Prune(events, now - ONE_MINUTE)| >= MAX_EVENTS_PER_MINUTE
    ensures r.Some? ==> && 0 < |r.value| <= MAX_EVENTS_PER_MINUTE
                        && |Prune(r.value, now - ONE_SECOND)| <= MAX_EVENTS_PER_SECOND
                        && (forall t :: t in r.value ==> t > now - ONE_MINUTE)
                        && r.value[|r.value| - 1] == now
                        && (forall t :: t in events && t > now - ONE_MINUTE ==> t in r.value)
  {
    var recent := Prune(events, now - ONE_MINUTE);
    PruneTwice(events, now - ONE_MINUTE, now - ONE_SECOND);
    if |Prune(recent, now - ONE_SECOND)| >= MAX_EVENTS_PER_SECOND then None
    else if |recent| >= MAX_EVENTS_PER_MINUTE then None
    else
      PruneConcat(recent, [now], now - ONE_SECOND);
      Some(recent + [now])
  }

  /** The connection check on one IP's list: the same window with only the per-minute limit. */
  function ConnectionWindow(connections: seq<int>, now: int): (r: Option<seq<int>>)
    ensures r.None? <==> |Prune(connections, now - ONE_MINUTE)| >= MAX_CONNECTIONS_PER_IP_PER_MINUTE
    ensures r.Some? ==> && 0 < |r.value| <= MAX_CONNECTIONS_PER_IP_PER_MINUTE
                        && (forall t :: t in r.value ==> t > now - ONE_MINUTE)
                        && r.value[|r.value| - 1] == now
                        && (forall t :: t in connections && t > now - ONE_MINUTE ==> t in r.value)
  {
    var recent := Prune(connections, now - ONE_MINUTE);
    if |recent| >= MAX_CONNECTIONS_PER_IP_PER_MINUTE then None else Some(recent + [now])
  }

  /** What a cleanup pass leaves of a key -> timestamps map: the pruned lists that are not empty. */
  function PruneLists(m: map<string, seq<int>>, cutoff: int): map<string, seq<int>> {
    map k | k in m && Prune(m[k], cutoff) != [] :: Prune(m[k], cutoff)
  }

  /** A key survives iff it has a timestamp after the cutoff; what survives is non-empty, no
      longer than before and entirely after the cutoff. */
  lemma PruneListsKeeps(m: map<string, seq<int>>, cutoff: int)
    ensures forall k :: k in PruneLists(m, cutoff) <==> k in m && exists t :: t in m[k] && t > cutoff
    ensures forall k :: k in PruneLists(m, cutoff) ==>
      var l := PruneLists(m, cutoff)[k];
      l != [] && |l| <= |m[k]| && forall t :: t in l ==> t > cutoff
  {
    forall k | k in m {
      PruneEmptyIff(m[k], cutoff);
    }
  }

  /** What a cleanup pass leaves of the socket -> event -> timestamps map. */
  function PruneSockets(m: map<string, map<string, seq<int>>>, cutoff: int): map<string, map<string, seq<int>>> {
    map s | s in m && PruneLists(m[s], cutoff) != map[] :: PruneLists(m[s], cutoff)
  }

  function Lookup(m: map<string, seq<int>>, k: string): seq<int> {
    if k in m then m[k] else []
  }

  /** The loop cleanup() runs over one socket's events, and again over the IPs' connections:
      prune each list, delete its key once the list is empty. */
  method PruneTimestamps(events: map<string, seq<int>>, cutoff: int) returns (r: map<string, seq<int>>)
    ensures r == PruneLists(events, cutoff)
  {
    r := events;
    var pending := events.Keys;
    while pending != {}
      invariant pending <= events.Keys
      invariant forall e :: e in pending ==> e in r && r[e] == events[e]
      invariant forall e :: e in r ==> e in events
      invariant forall e :: e in events && e !in pending ==>
        (e in r <==> Prune(events[e], cutoff) != []) && (e in r ==> r[e] == Prune(events[e], cutoff))
      decreases pending
    {
      var e :| e in pending;
      var recent := Prune(r[e], cutoff);
      if recent == [] {
        r := r - {e};
      } else {
        r := r[e := recent];
      }
      pending := pending - {e};
    }
  }

  /** The outer loop of cleanup() over the sockets: prune each socket's events, delete the
      socket once it has none left. */
  method PruneAllSockets(sockets: map<string, map<string, seq<int>>>, cutoff: int)
    returns (r: map<string, map<string, seq<int>>>)
    ensures r == PruneSockets(sockets, cutoff)
  {
    r := sockets;
    var pending := sockets.Keys;
    while pending != {}
      invariant pending <= sockets.Keys
      invariant forall s :: s in pending ==> s in r && r[s] == sockets[s]
      invariant forall s :: s in r ==> s in sockets
      invariant forall s :: s in sockets && s !in pending ==>
        (s in r <==> PruneLists(sockets[s], cutoff) != map[])
        && (s in r ==> r[s] == PruneLists(sockets[s], cutoff))
      decreases pending
    {
      var socketId :| socketId in pending;
      var events := PruneTimestamps(r[socketId], cutoff);
      if events == map[] {
        r := r - {socketId};
      } else {
        r := r[socketId := events];
      }
      pending := pending - {socketId};
    }
  }

  class SocketRateLimiter {
    var eventCounts: map<string, map<string, seq<int>>>
    var connectionCounts: map<string, seq<int>>

    /** Every stored list is non-empty and within its per-minute limit, and no socket is kept
        without events. */
    ghost predicate Valid()
      reads this
    {
      && (forall s :: s in eventCounts ==> eventCounts[s] != map[])
      && (forall s, e :: s in eventCounts && e in eventCounts[s] ==>
            0 < |eventCounts[s][e]| <= MAX_EVENTS_PER_MINUTE)
      && (forall ip :: ip in connectionCounts ==>
            0 < |connectionCounts[ip]| <= MAX_CONNECTIONS_PER_IP_PER_MINUTE)
    }

    constructor()
      ensures Valid() && eventCounts == map[] && connectionCounts == map[]
    {
      eventCounts := map[];
      connectionCounts := map[];
    }

    function EventsOf(socketId: string): map<string, seq<int>>
      reads this
    {
      if socketId in eventCounts then eventCounts[socketId] else map[]
    }

    /** checkEventRateLimit: a refusal changes nothing; an acceptance stores the pruned list
        plus now for this (socket, event) pair and touches no other pair. */
    method CheckEventRateLimit(socketId: string, eventName: string, now: int) returns (allowed: bool)
      requires Valid()
      modifies this
      ensures Valid()
      ensures allowed <==> EventWindow(Lookup(old(EventsOf(socketId)), eventName), now).Some?
      ensures !allowed ==> eventCounts == old(eventCounts)
      ensures allowed ==> eventCounts == old(eventCounts)[socketId :=
        old(EventsOf(socketId))[eventName := EventWindow(Lookup(old(EventsOf(socketId)), eventName), now).value]]
      ensures forall s, e :: s in old(eventCounts) && e in old(eventCounts)[s] && (s, e) != (socketId, eventName) ==>
        s in eventCounts && e in eventCounts[s] && eventCounts[s][e] == old(eventCounts)[s][e]
      ensures connectionCounts == old(connectionCounts)
    {
      // The source first stores an empty map and an empty list for a new socket or event; an
      // empty list is never refused, so those entries are always overwritten below.
      var socketEvents := EventsOf(socketId);
      var events := Lookup(socketEvents, eventName);
      var oneSecondAgo := now - ONE_SECOND;
      var oneMinuteAgo := now - ONE_MINUTE;
      var recentEvents := Prune(events, oneMinuteAgo);
      PruneTwice(events, oneMinuteAgo, oneSecondAgo);
      var eventsLastSecond := |Prune(recentEvents, oneSecondAgo)|;
      if eventsLastSecond >= MAX_EVENTS_PER_SECOND {
        return false;
      }
      if |recentEvents| >= MAX_EVENTS_PER_MINUTE {
        return false;
      }
      recentEvents := recentEvents + [now];
      eventCounts := eventCounts[socketId := socketEvents[eventName := recentEvents]];
      return true;
    }

    /** checkConnectionRateLimit: the per-IP window with at most 20 connections a minute. */
    method CheckConnectionRateLimit(ip: string, now: int) returns (allowed: bool)
      requires Valid()
      modifies this
      ensures Valid()
      ensures allowed <==> ConnectionWindow(Lookup(old(connectionCounts), ip), now).Some?
      ensures !allowed ==> connectionCounts == old(connectionCounts)
      ensures allowed ==>
        connectionCounts == old(connectionCounts)[ip := ConnectionWindow(Lookup(old(connectionCounts), ip), now).value]
      ensures eventCounts == old(eventCounts)
    {
      var oneMinuteAgo := now - ONE_MINUTE;
      var connections := Lookup(connectionCounts, ip);
      var recentConnections := Prune(connections, oneMinuteAgo);
      if |recentConnections| >= MAX_CONNECTIONS_PER_IP_PER_MINUTE {
        return false;
      }
      recentConnections := recentConnections + [now];
      connectionCounts := connectionCounts[ip := recentConnections];
      return true;
    }

    /** cleanupSocket: forgets every counter of one socket and nothing else. */
    method CleanupSocket(socketId: string)
      requires Valid()
      modifies this
      ensures Valid()
      ensures eventCounts == old(eventCounts) - {socketId}
      ensures |eventCounts| == |old(eventCounts)| - (if socketId in old(eventCounts) then 1 else 0)
      ensures connectionCounts == old(connectionCounts)
    {
      eventCounts := eventCounts - {socketId};
    }

    /** cleanup: drops timestamps older than a minute, then every list and socket left empty. */
    method Cleanup(now: int)
      requires Valid()
      modifies this
      ensures Valid()
      ensures eventCounts == PruneSockets(old(eventCounts), now - ONE_MINUTE)
      ensures connectionCounts == PruneLists(old(connectionCounts), now - ONE_MINUTE)
    {
      var oneMinuteAgo := now - ONE_MINUTE;
      eventCounts := PruneAllSockets(eventCounts, oneMinuteAgo);
      forall s | s in eventCounts ensures forall e :: e in eventCounts[s] ==> 0 < |eventCounts[s][e]| <= MAX_EVENTS_PER_MINUTE {
        PruneListsKeeps(old(eventCounts)[s], oneMinuteAgo);
      }
      connectionCounts := PruneTimestamps(connectionCounts, oneMinuteAgo);
      PruneListsKeeps(old(connectionCounts), oneMinuteAgo);
    }

    /** getStats: the number of sockets and of IPs being tracked. Under the invariant no socket
        is tracked without events, so no socket is counted iff no socket has any. */
    function GetStats(): (r: (nat, nat))
      reads this
      ensures r.0 == |eventCounts| && r.1 == |connectionCounts|
      ensures Valid() ==> (r.0 == 0 <==> forall s :: EventsOf(s) == map[])
      ensures Valid() ==> (r.1 == 0 <==> forall ip :: Lookup(connectionCounts, ip) == [])
    {
      NothingTrackedIff();
      (|eventCounts|, |connectionCounts|)
    }

    lemma NothingTrackedIff()
      ensures Valid() ==> (|eventCounts| == 0 <==> forall s :: EventsOf(s) == map[])
      ensures Valid() ==> (|connectionCounts| == 0 <==> forall ip :: Lookup(connectionCounts, ip) == [])
    {
      if Valid() && |eventCounts| != 0 {
        var s :| s in eventCounts;
        assert EventsOf(s) != map[];
      }
      if Valid() && |connectionCounts| != 0 {
        var ip :| ip in connectionCounts;
        assert Lookup(connectionCounts, ip) != [];
      }
    }
  }

  /** The sizes of the per-IP socket sets. */
  function Sizes(m: map<string, set<string>>): (r: map<string, int>)
    ensures r.Keys == m.Keys
  {
    map ip | ip in m :: |m[ip]|
  }

  /** With every set within the cap, the total is at most the cap times the number of IPs. */
  lemma TotalWithinCap(m: map<string, set<string>>, cap: nat)
    requires forall ip :: ip in m ==> |m[ip]| <= cap
    ensures 0 <= Sum(Sizes(m)) <= cap * |m|
  {
    var sizes := Sizes(m);
    assert |sizes| == |sizes.Keys| == |m.Keys| == |m|;
    SumBounded(sizes, cap);
  }

  class ConnectionTracker {
    var connections: map<string, set<string>>
    const maxConnectionsPerIP: nat

    /** No IP holds more sockets than the cap. */
    ghost predicate Valid()
      reads this
    {
      forall ip :: ip in connections ==> |connections[ip]| <= maxConnectionsPerIP
    }

    constructor(maxConnectionsPerIP: nat)
      ensures Valid() && connections == map[] && this.maxConnectionsPerIP == maxConnectionsPerIP
    {
      this.maxConnectionsPerIP := maxConnectionsPerIP;
      connections := map[];
    }

    function SocketsOf(ip: string): set<string>
      reads this
    {
      if ip in connections then connections[ip] else {}
    }

    /** addConnection: refuses once the IP holds the cap; the IP's (possibly empty) set is
        created either way. */
    method AddConnection(ip: string, socketId: string) returns (added: bool)
      requires Valid()
      modifies this
      ensures Valid()
      ensures added <==> |old(SocketsOf(ip))| < maxConnectionsPerIP
      ensures connections == old(connections)[ip := if added then old(SocketsOf(ip)) + {socketId} else old(SocketsOf(ip))]
    {
      if ip !in connections {
        connections := connections[ip := {}];
      }
      var sockets := connections[ip];
      if |sockets| >= maxConnectionsPerIP {
        return false;
      }
      connections := connections[ip := sockets + {socketId}];
      return true;
    }

    /** removeConnection: drops the socket, and the IP once its set is empty. */
    method RemoveConnection(ip: string, socketId: string)
      requires Valid()
      modifies this
      ensures Valid()
      ensures ip !in old(connections) ==> connections == old(connections)
      ensures ip in old(connections) ==>
        var rest := old(connections)[ip] - {socketId};
        connections == if rest == {} then old(connections) - {ip} else old(connections)[ip := rest]
      ensures ip in connections ==> |connections[ip]| > 0
    {
      if ip in connections {
        var sockets := connections[ip] - {socketId};
        if |sockets| == 0 {
          connections := connections - {ip};
        } else {
          connections := connections[ip := sockets];
        }
      }
    }

    /** getConnectionCount: 0 for an unknown IP, and never above the cap. */
    function GetConnectionCount(ip: string): (n: nat)
      reads this
      ensures Valid() ==> n <= maxConnectionsPerIP
      ensures ip !in connections ==> n == 0
    {
      if ip in connections then |connections[ip]| else 0
    }

    /** getStats: the number of IPs and the total of their set sizes, summed by a loop. */
    method GetStats() returns (totalUniqueIPs: nat, totalConnections: int)
      ensures totalUniqueIPs == |connections|
      ensures totalConnections == Sum(Sizes(connections))
      ensures Valid() ==> 0 <= totalConnections <= maxConnectionsPerIP * totalUniqueIPs
    {
      totalConnections := 0;
      ghost var rest := Sizes(connections);
      var pending := connections.Keys;
      while pending != {}
        invariant rest.Keys == pending <= connections.Keys
        invariant forall ip :: ip in rest ==> rest[ip] == |connections[ip]|
        invariant totalConnections + Sum(rest) == Sum(Sizes(connections))
        decreases pending
      {
        var ip :| ip in pending;
        SumRemove(rest, ip);
        totalConnections := totalConnections + |connections[ip]|;
        rest := rest - {ip};
        pending := pending - {ip};
      }
      totalUniqueIPs := |connections|;
      if Valid() {
        TotalWithinCap(connections, maxConnectionsPerIP);
      }
    }
  }
}
