/**
 * The game socket server's `SessionPool`: the last activity time of each
 * live session, and the sweep of its cleanup thread that drops the
 * sessions idle for longer than the timeout. A session is named by a
 * number standing for its address; times are `steady_clock` ticks given by
 * the caller.
 */
module SessionExpiry {
  import Clock

  /** Idle for more than `timeout` whole seconds at `now`. */
  predicate Expired(last: int, now: int, timeout: nat)
  {
    Clock.WholeSeconds(now - last) > timeout
  }

  /** The entries a sweep at `now` keeps. */
  function Kept(sessions: map<nat, int>, now: int, timeout: nat): (kept: map<nat, int>)
    ensures forall s :: s in kept <==> s in sessions && !Expired(sessions[s], now, timeout)
    ensures forall s :: s in kept ==> kept[s] == sessions[s]
  {
    map s | s in sessions && !Expired(sessions[s], now, timeout) :: sessions[s]
  }

  /** The sessions a sweep at `now` drops. */
  function Dropped(sessions: map<nat, int>, now: int, timeout: nat): (dropped: set<nat>)
    ensures forall s :: s in dropped <==> s in sessions && Expired(sessions[s], now, timeout)
  {
    set s | s in sessions && Expired(sessions[s], now, timeout)
  }

  /** A sweep splits the sessions: every one is either kept or dropped, never both. */
  lemma SweepPartitions(sessions: map<nat, int>, now: int, timeout: nat)
    ensures Kept(sessions, now, timeout).Keys + Dropped(sessions, now, timeout) == sessions.Keys
    ensures Kept(sessions, now, timeout).Keys * Dropped(sessions, now, timeout) == {}
    ensures |Kept(sessions, now, timeout)| + |Dropped(sessions, now, timeout)| == |sessions|
  {
    var k := Kept(sessions, now, timeout).Keys;
    var d := Dropped(sessions, now, timeout);
    assert k + d == sessions.Keys;
    assert k * d == {};
    assert |k + d| == |k| + |d| - |k * d|;
    assert |sessions.Keys| == |sessions|;
  }

  /** A second sweep at the same time drops nothing more. */
  lemma SweepIdempotent(sessions: map<nat, int>, now: int, timeout: nat)
    ensures Kept(Kept(sessions, now, timeout), now, timeout) == Kept(sessions, now, timeout)
    ensures Dropped(Kept(sessions, now, timeout), now, timeout) == {}
  {
  }

  /**
   * A session seen at `t` outlives every sweep until `timeout + 1` whole
   * seconds have passed, and no longer.
   */
  lemma ExpiresAfter(last: int, now: int, timeout: nat)
    ensures Expired(last, now, timeout) <==> now - last >= (timeout + 1) * Clock.TicksPerSecond
  {
    Clock.LongerThan(now - last, timeout);
  }

  class SessionPool {
    const timeout: nat
    var sessions: map<nat, int>

    constructor(timeout: nat)
      ensures this.timeout == timeout && sessions == map[]
    {
      this.timeout := timeout;
      sessions := map[];
    }

    /** `register_session`: the session's time becomes `now`, whether or not it was there. */
    method RegisterSession(session: nat, now: int)
      modifies this
      ensures sessions == old(sessions)[session := now]
    {
      sessions := sessions[session := now];
    }

    /** `update_activity`: only a session already in the pool is refreshed. */
    method UpdateActivity(session: nat, now: int)
      modifies this
      ensures session in old(sessions) ==> sessions == old(sessions)[session := now]
      ensures session !in old(sessions) ==> sessions == old(sessions)
    {
      if session in sessions {
        sessions := sessions[session := now];
      }
    }

    /** `remove_session`: the session is dropped if present. */
    method RemoveSession(session: nat)
      modifies this
      ensures sessions == old(sessions) - {session}
    {
      if session in sessions {
        sessions := sessions - {session};
      }
    }

    /** `active_sessions_count`. */
    method ActiveSessionsCount() returns (n: nat)
      ensures n == |sessions|
    {
      n := |sessions|;
    }

    /**
     * One sweep of `cleanup_expired_sessions` at `now`: the sessions idle
     * for more than the timeout leave the pool, each listed once in
     * `expired`; the others stay with their times.
     */
    method Sweep(now: int) returns (expired: seq<nat>)
      modifies this
      ensures sessions == Kept(old(sessions), now, timeout)
      ensures forall s :: s in expired <==> s in Dropped(old(sessions), now, timeout)
      ensures forall i, j :: 0 <= i < j < |expired| ==> expired[i] != expired[j]
    {
      var unseen := sessions.Keys;
      expired := [];
      while unseen != {}
        invariant unseen <= old(sessions).Keys
        invariant forall s :: s in sessions <==> s in old(sessions) && (s in unseen || !Expired(old(sessions)[s], now, timeout))
        invariant forall s :: s in sessions ==> sessions[s] == old(sessions)[s]
        invariant forall s :: s in expired <==> s in old(sessions) && s !in unseen && Expired(old(sessions)[s], now, timeout)
        invariant forall i, j :: 0 <= i < j < |expired| ==> expired[i] != expired[j]
        decreases unseen
      {
        var s :| s in unseen;
        if Expired(sessions[s], now, timeout) {
          expired := expired + [s];
          sessions := sessions - {s};
        }
        unseen := unseen - {s};
      }
    }
  }

  /** Registering then sweeping at once keeps the new session: a fresh one never expires. */
  lemma FreshSurvives(sessions: map<nat, int>, session: nat, now: int, timeout: nat)
    ensures session in Kept(sessions[session := now], now, timeout)
  {
  }
}
