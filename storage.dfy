/**
 * The preferences store: three slots (the session list, the pattern list
 * and the last device), each holding what serialising the value produced;
 * reading a slot back gives the same value. Every session save or delete
 * reads the list through the history (latest first), edits it and writes
 * the whole list back.
 */
module Storage {
  import opened Wrappers
  import opened Models
  import opened Seqs
  import opened SessionHistory

  /** The session list after saving `s`: any session with its id replaced, `s` appended, then capped. */
  function SavedSessions(stored: seq<Session>, s: Session): seq<Session>
  {
    CapLatest(RemoveFirstWithId(History(stored, 0), SessionId, s.id) + [s])
  }

  /**
   * A save never leaves more than 100 sessions, adds nothing but `s`, and
   * drops `s` only when every kept session starts no earlier than it; when
   * no cap applies, `s` is the last entry and the rest is the history
   * without the first session that had its id.
   */
  lemma SaveSessionUpserts(stored: seq<Session>, s: Session)
    ensures var r := SavedSessions(stored, s);
            && |r| <= MaxSessions
            && multiset(r) <= multiset(stored) + multiset{s}
            && (s in r || forall x :: x in r ==> s.startTime <= x.startTime)
    ensures var rest := RemoveFirstWithId(History(stored, 0), SessionId, s.id);
            |rest| < MaxSessions ==> SavedSessions(stored, s) == rest + [s]
  {
    var h := History(stored, 0);
    HistoryIsLatestFirst(stored, 0);
    assert multiset(h) == multiset(stored);
    RemoveFirstWithIdMultiset(h, SessionId, s.id);
    var rest := RemoveFirstWithId(h, SessionId, s.id);
    var l := rest + [s];
    assert multiset(l) == multiset(rest) + multiset{s};
    assert multiset(rest) <= multiset(stored);
    CapLatestKeepsNewest(l);
    var r := CapLatest(l);
    if s !in r {
      assert s in multiset(l) - multiset(r);
    }
  }

  class PreferencesStorageService {
    var sessionsSlot: seq<Session>             // "therapy_sessions"
    var patternsSlot: seq<PatternRecord>       // "vibration_patterns"
    var lastDeviceSlot: Option<DeviceRecord>   // "last_device"

    constructor ()
      ensures sessionsSlot == [] && patternsSlot == [] && lastDeviceSlot == None
    {
      sessionsSlot := [];
      patternsSlot := [];
      lastDeviceSlot := None;
    }

    /**
     * Upsert by id and keep at most the 100 latest: the list read latest
     * first, without its first session of that id, with `session` appended,
     * cut to the 100 latest when longer.
     */
    method SaveSession(session: Session)
      modifies this`sessionsSlot
      ensures sessionsSlot == SavedSessions(old(sessionsSlot), session)
      ensures |sessionsSlot| <= MaxSessions
      ensures multiset(sessionsSlot) <= multiset(old(sessionsSlot)) + multiset{session}
      ensures session in sessionsSlot || forall x :: x in sessionsSlot ==> session.startTime <= x.startTime
    {
      SaveSessionUpserts(sessionsSlot, session);
      var sessions := History(sessionsSlot, 0);
      sessions := RemoveFirstWithId(sessions, SessionId, session.id);
      sessions := sessions + [session];
      if |sessions| > MaxSessions {
        sessions := SortByStartDesc(sessions)[..MaxSessions];
      }
      sessionsSlot := sessions;
    }

    /**
     * The stored sessions latest first (a stable order), the first `limit`
     * of them when limit > 0; nothing when nothing is stored.
     */
    method GetSessionHistory(limit: int) returns (sessions: seq<Session>)
      ensures sessions == History(sessionsSlot, limit)
      ensures SortedByStartDesc(sessions)
      ensures |sessions| == (if 0 < limit < |sessionsSlot| then limit else |sessionsSlot|)
      ensures multiset(sessions) <= multiset(sessionsSlot)
      ensures forall x, y :: x in sessions && y in multiset(sessionsSlot) - multiset(sessions) ==> y.startTime <= x.startTime
      ensures limit <= 0 ==> multiset(sessions) == multiset(sessionsSlot)
    {
      HistoryIsLatestFirst(sessionsSlot, limit);
      sessions := History(sessionsSlot, limit);
    }

    /** The first session of that id in history order; nothing when no stored session has it. */
    method GetSessionById(sessionId: string) returns (session: Option<Session>)
      ensures session == FirstWithId(History(sessionsSlot, 0), SessionId, sessionId)
      ensures session.None? <==> forall x :: x in sessionsSlot ==> x.id != sessionId
      ensures session.Some? ==> session.value in sessionsSlot && session.value.id == sessionId
    {
      var sessions := GetSessionHistory(0);
      FirstWithIdSpec(sessions, SessionId, sessionId);
      forall x | x in sessionsSlot ensures x in sessions {
        assert x in multiset(sessionsSlot);
      }
      forall x | x in sessions ensures x in sessionsSlot {
        assert x in multiset(sessions);
      }
      session := FirstWithId(sessions, SessionId, sessionId);
    }

    /**
     * Delete: when some session has the id, the list read latest first
     * without its first such session is written back; otherwise the slot is
     * left as it is.
     */
    method DeleteSession(sessionId: string)
      modifies this`sessionsSlot
      ensures var h := History(old(sessionsSlot), 0);
              match FirstIndexWithId(h, SessionId, sessionId)
              case None => sessionsSlot == old(sessionsSlot)
              case Some(i) =>
                && sessionsSlot == h[..i] + h[i + 1..]
                && multiset(sessionsSlot) == multiset(old(sessionsSlot)) - multiset{h[i]}
                && h[i] in old(sessionsSlot) && h[i].id == sessionId
    {
      var sessions := GetSessionHistory(0);
      RemoveFirstWithIdMultiset(sessions, SessionId, sessionId);
      var toRemove := FirstIndexWithId(sessions, SessionId, sessionId);
      if toRemove.Some? {
        assert sessions[toRemove.value] in multiset(sessionsSlot);
        sessionsSlot := RemoveFirstWithId(sessions, SessionId, sessionId);
      }
    }

    /** Upsert by id with no cap: the stored list without its first pattern of that id, then the pattern. */
    method SavePattern(pattern: VibrationPattern)
      modifies this`patternsSlot
      ensures patternsSlot == RemoveFirstWithId(old(patternsSlot), PatternId, pattern.id) + [pattern.Record()]
      ensures |patternsSlot| == |old(patternsSlot)| + (if FirstIndexWithId(old(patternsSlot), PatternId, pattern.id).None? then 1 else 0)
      ensures UniqueKeys(old(patternsSlot), PatternId) ==>
                && UniqueKeys(patternsSlot, PatternId)
                && FirstWithId(patternsSlot, PatternId, pattern.id) == Some(pattern.Record())
    {
      var patterns := GetPatterns();
      if UniqueKeys(patterns, PatternId) {
        UpsertKeepsUnique(patterns, PatternId, pattern.Record());
      }
      patterns := RemoveFirstWithId(patterns, PatternId, pattern.id);
      patterns := patterns + [pattern.Record()];
      patternsSlot := patterns;
    }

    /** The stored patterns, in stored order. */
    method GetPatterns() returns (patterns: seq<PatternRecord>)
      ensures patterns == patternsSlot
    {
      patterns := patternsSlot;
    }

    /**
     * Delete: when some pattern has the id, the list without its first such
     * pattern is written back, the others in their order; otherwise the slot
     * is left as it is.
     */
    method DeletePattern(patternId: string)
      modifies this`patternsSlot
      ensures match FirstIndexWithId(old(patternsSlot), PatternId, patternId)
              case None => patternsSlot == old(patternsSlot)
              case Some(i) => patternsSlot == old(patternsSlot)[..i] + old(patternsSlot)[i + 1..]
      ensures UniqueKeys(old(patternsSlot), PatternId) ==>
                && UniqueKeys(patternsSlot, PatternId)
                && FirstWithId(patternsSlot, PatternId, patternId) == None
    {
      var patterns := GetPatterns();
      var toRemove := FirstIndexWithId(patterns, PatternId, patternId);
      if UniqueKeys(patterns, PatternId) {
        RemoveKeepsUnique(patterns, PatternId, patternId);
        FirstWithIdSpec(RemoveFirstWithId(patterns, PatternId, patternId), PatternId, patternId);
      }
      if toRemove.Some? {
        patternsSlot := RemoveFirstWithId(patterns, PatternId, patternId);
      }
    }

    /** Stores what serialising the device gives. */
    method SaveLastDevice(device: GloveDevice)
      modifies this`lastDeviceSlot
      ensures lastDeviceSlot == Some(device.Record())
    {
      lastDeviceSlot := Some(device.Record());
    }

    /** The stored device, or nothing when none was saved since the store was last cleared. */
    method GetLastDevice() returns (device: Option<DeviceRecord>)
      ensures device == lastDeviceSlot
    {
      device := lastDeviceSlot;
    }

    /** Empties all three slots: no history of any length, no patterns, no last device. */
    method ClearAllData()
      modifies this
      ensures sessionsSlot == [] && patternsSlot == [] && lastDeviceSlot == None
      ensures forall limit :: History(sessionsSlot, limit) == []
    {
      sessionsSlot := [];
      patternsSlot := [];
      lastDeviceSlot := None;
    }
  }
}
