/** blacklist: the IP blacklist with automatic blocking after repeated violations, the client-IP
    extraction and the blocking middleware. Date.now() is the `now` parameter. */
module Blacklist {
  import opened Wrappers
  import opened JsText

  const ONE_HOUR: int := 3600000
  /** autoBlockThreshold when AUTO_BLOCK_THRESHOLD is unset. */
  const DEFAULT_AUTO_BLOCK_THRESHOLD: int := 10

  /** One violationCounts entry. */
  datatype Violation = Violation(count: int, timestamp: int)

  /** What one recorded violation does to an IP's entry: keeps tracking it, or blocks the IP
      (which also deletes the entry). */
  datatype ViolationOutcome = Tracked(v: Violation) | Blocked

  function RecordStep(entry: Option<Violation>, now: int, threshold: int): (r: ViolationOutcome)
    ensures entry.None? ==> r == Tracked(Violation(1, now))
    ensures entry.Some? && now - entry.value.timestamp > ONE_HOUR ==> r == Tracked(Violation(1, now))
    ensures r.Blocked? <==> entry.Some? && now - entry.value.timestamp <= ONE_HOUR
                            && entry.value.count + 1 >= threshold
    ensures r.Tracked? ==> r.v.timestamp == now
  {
    if entry.None? then Tracked(Violation(1, now))
    else if now - entry.value.timestamp > ONE_HOUR then Tracked(Violation(1, now))
    else if entry.value.count + 1 >= threshold then Blocked
    else Tracked(Violation(entry.value.count + 1, now))
  }

  /** The outcome of violations at the given times, from an IP with no entry; once blocked the
      entry is gone, so the next violation starts afresh. */
  function Replay(times: seq<int>, threshold: int): ViolationOutcome
    requires times != []
    decreases |times|
  {
    var now := times[|times| - 1];
    if |times| == 1 then RecordStep(None, now, threshold)
    else
      match Replay(times[..|times| - 1], threshold)
      case Blocked => RecordStep(None, now, threshold)
      case Tracked(v) => RecordStep(Some(v), now, threshold)
  }

  /** Consecutive violations never more than an hour apart. */
  predicate WithinAnHourEach(times: seq<int>) {
    forall i :: 0 < i < |times| ==> times[i] - times[i - 1] <= ONE_HOUR
  }

  /** Fewer than `threshold` violations, each within an hour of the previous one, leave the IP
      tracked with their number as count. */
  lemma {:induction false} ReplayCounts(times: seq<int>, threshold: int)
    requires times != [] && WithinAnHourEach(times) && |times| < threshold
    ensures Replay(times, threshold) == Tracked(Violation(|times|, times[|times| - 1]))
    decreases |times|
  {
    if |times| > 1 {
      var prefix := times[..|times| - 1];
      assert WithinAnHourEach(prefix) by {
        forall i | 0 < i < |prefix| ensures prefix[i] - prefix[i - 1] <= ONE_HOUR {
          assert prefix[i] == times[i] && prefix[i - 1] == times[i - 1];
        }
      }
      ReplayCounts(prefix, threshold);
      assert times[|times| - 1] - times[|times| - 2] <= ONE_HOUR;
    }
  }

  /** With a threshold of at least 2, the threshold-th violation in such a run blocks the IP. */
  lemma BlockedAtThreshold(times: seq<int>, threshold: int)
    requires 2 <= threshold && |times| == threshold && WithinAnHourEach(times)
    ensures Replay(times, threshold).Blocked?
  {
    var prefix := times[..|times| - 1];
    assert WithinAnHourEach(prefix) by {
      forall i | 0 < i < |prefix| ensures prefix[i] - prefix[i - 1] <= ONE_HOUR {
        assert prefix[i] == times[i] && prefix[i - 1] == times[i - 1];
      }
    }
    ReplayCounts(prefix, threshold);
    assert times[|times| - 1] - times[|times| - 2] <= ONE_HOUR;
  }

  class IPBlacklist {
    var blacklistedIPs: set<string>
    var violationCounts: map<string, Violation>
    const autoBlockThreshold: int

    /** Every tracked IP has a count of at least 1, and below the threshold unless it is a first
        (or reset) violation, which never blocks. */
    ghost predicate Valid()
      reads this
    {
      forall ip :: ip in violationCounts ==>
        1 <= violationCounts[ip].count && (violationCounts[ip].count < autoBlockThreshold || violationCounts[ip].count == 1)
    }

    /** The list loaded from disk is the `initial` parameter. */
    constructor(initial: set<string>, autoBlockThreshold: int)
      ensures Valid()
      ensures blacklistedIPs == initial && violationCounts == map[] && this.autoBlockThreshold == autoBlockThreshold
    {
      blacklistedIPs := initial;
      violationCounts := map[];
      this.autoBlockThreshold := autoBlockThreshold;
    }

    /** addIP: adds one IP; the violation counters are untouched. */
    method AddIP(ip: string)
      modifies this
      ensures blacklistedIPs == old(blacklistedIPs) + {ip}
      ensures violationCounts == old(violationCounts)
    {
      blacklistedIPs := blacklistedIPs + {ip};
    }

    /** removeIP: removes one IP; the violation counters are untouched. */
    method RemoveIP(ip: string)
      modifies this
      ensures blacklistedIPs == old(blacklistedIPs) - {ip}
      ensures violationCounts == old(violationCounts)
    {
      blacklistedIPs := blacklistedIPs - {ip};
    }

    /** isBlacklisted: membership of the set. */
    function IsBlacklisted(ip: string): (b: bool)
      reads this
      ensures b <==> ip in blacklistedIPs
    {
      ip in blacklistedIPs
    }

    function EntryOf(ip: string): Option<Violation>
      reads this
    {
      if ip in violationCounts then Some(violationCounts[ip]) else None
    }

    /** recordViolation: applies RecordStep to the IP's entry; blocking adds the IP to the list
        and deletes its entry. Other IPs' entries are untouched. */
    method RecordViolation(ip: string, now: int)
      requires Valid()
      modifies this
      ensures Valid()
      ensures match RecordStep(old(EntryOf(ip)), now, autoBlockThreshold)
        case Blocked =>
          blacklistedIPs == old(blacklistedIPs) + {ip} && violationCounts == old(violationCounts) - {ip}
        case Tracked(v) =>
          blacklistedIPs == old(blacklistedIPs) && violationCounts == old(violationCounts)[ip := v]
    {
      if ip in violationCounts {
        var existing := violationCounts[ip];
        if now - existing.timestamp > ONE_HOUR {
          violationCounts := violationCounts[ip := Violation(1, now)];
        } else {
          existing := existing.(count := existing.count + 1, timestamp := now);
          violationCounts := violationCounts[ip := existing];
          if existing.count >= autoBlockThreshold {
            AddIP(ip);
            violationCounts := violationCounts - {ip};
          }
        }
      } else {
        violationCounts := violationCounts[ip := Violation(1, now)];
      }
    }

    /** cleanupViolations: removes exactly the entries last updated more than an hour ago. */
    method CleanupViolations(now: int)
      requires Valid()
      modifies this
      ensures Valid()
      ensures forall ip :: ip in violationCounts <==>
        ip in old(violationCounts) && old(violationCounts)[ip].timestamp >= now - ONE_HOUR
      ensures forall ip :: ip in violationCounts ==> violationCounts[ip] == old(violationCounts)[ip]
      ensures blacklistedIPs == old(blacklistedIPs)
    {
      var hourAgo := now - ONE_HOUR;
      var pending := violationCounts.Keys;
      while pending != {}
        invariant pending <= old(violationCounts).Keys
        invariant forall ip :: ip in pending ==> ip in violationCounts
        invariant forall ip :: ip in violationCounts ==> ip in old(violationCounts) && violationCounts[ip] == old(violationCounts)[ip]
        invariant forall ip :: ip in old(violationCounts) && ip !in pending ==>
          (ip in violationCounts <==> old(violationCounts)[ip].timestamp >= hourAgo)
        invariant blacklistedIPs == old(blacklistedIPs)
        decreases pending
      {
        var ip :| ip in pending;
        if violationCounts[ip].timestamp < hourAgo {
          violationCounts := violationCounts - {ip};
        }
        pending := pending - {ip};
      }
    }
  }

  /** The request fields getClientIP reads; a header sent several times is its comma-joined text. */
  datatype Request = Request(forwardedFor: Option<string>, ip: Option<string>, remoteAddress: Option<string>)

  predicate Truthy(s: Option<string>) {
    s.Some? && s.value != ""
  }

  /** getClientIP: the trimmed first x-forwarded-for entry, else req.ip, else the socket's
      remote address, else "unknown". */
  function GetClientIP(req: Request): (r: string)
    ensures Truthy(req.forwardedFor) ==>
      && ',' !in r
      && (r != [] ==> !IsWhitespace(r[0]) && !IsWhitespace(r[|r| - 1]))
      && r == Trim(req.forwardedFor.value[..|BeforeFirst(req.forwardedFor.value, ',')|])
    ensures !Truthy(req.forwardedFor) && Truthy(req.ip) ==> r == req.ip.value
    ensures !Truthy(req.forwardedFor) && !Truthy(req.ip) && Truthy(req.remoteAddress) ==> r == req.remoteAddress.value
    ensures !Truthy(req.forwardedFor) && !Truthy(req.ip) && !Truthy(req.remoteAddress) ==> r == "unknown"
  {
    if Truthy(req.forwardedFor) then
      var first := BeforeFirst(req.forwardedFor.value, ',');
      TrimIsInfix(first);
      Trim(first)
    else if Truthy(req.ip) then req.ip.value
    else if Truthy(req.remoteAddress) then req.remoteAddress.value
    else "unknown"
  }

  /** Trim removes characters only from the ends, so it keeps no character the input lacks. */
  lemma TrimIsInfix(s: string)
    ensures forall c :: c in Trim(s) ==> c in s
  {
    var t := TrimStart(s);
    assert forall c :: c in TrimEnd(t) ==> c in t;
    assert forall c :: c in t ==> c in s;
  }

  datatype Decision = Forbidden | Next

  /** blacklistMiddleware: a 403 IP_BLACKLISTED response iff the client IP is on the list. */
  function BlacklistMiddleware(list: IPBlacklist, req: Request): (d: Decision)
    reads list
    ensures d == Forbidden <==> GetClientIP(req) in list.blacklistedIPs
  {
    if list.IsBlacklisted(GetClientIP(req)) then Forbidden else Next
  }
}
