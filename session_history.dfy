/**
 * The ordering rules of the session history: a stable sort by start time,
 * latest first (LINQ OrderByDescending), the optional limit (Take), and the
 * cap that keeps only the 100 latest sessions.
 */
module SessionHistory {
  import opened Models

  /** The number of sessions kept after a save. */
  const MaxSessions := 100

  predicate SortedByStartDesc(s: seq<Session>)
  {
    forall i, j :: 0 <= i < j < |s| ==> s[i].startTime >= s[j].startTime
  }

  /** Puts `x` before the first entry that does not start later than it. */
  function InsertByStart(x: Session, s: seq<Session>): (r: seq<Session>)
    ensures |r| == |s| + 1
    decreases |s|
  {
    if s == [] || s[0].startTime <= x.startTime then [x] + s
    else [s[0]] + InsertByStart(x, s[1..])
  }

  /** OrderByDescending(s => s.StartTime), an insertion sort. */
  function SortByStartDesc(s: seq<Session>): (r: seq<Session>)
    ensures |r| == |s|
    decreases |s|
  {
    if s == [] then [] else InsertByStart(s[0], SortByStartDesc(s[1..]))
  }

  /** The entries of `s` that start at `t`, in order: what a stable sort must not reorder. */
  function StartingAt(s: seq<Session>, t: int): seq<Session>
    decreases |s|
  {
    if s == [] then []
    else (if s[0].startTime == t then [s[0]] else []) + StartingAt(s[1..], t)
  }

  lemma {:induction false} InsertByStartPermutes(x: Session, s: seq<Session>)
    ensures multiset(InsertByStart(x, s)) == multiset{x} + multiset(s)
    ensures |InsertByStart(x, s)| == |s| + 1
    decreases |s|
  {
    if s != [] && s[0].startTime > x.startTime {
      InsertByStartPermutes(x, s[1..]);
      assert s == [s[0]] + s[1..];
    }
  }

  lemma {:induction false} InsertByStartSorted(x: Session, s: seq<Session>)
    requires SortedByStartDesc(s)
    ensures SortedByStartDesc(InsertByStart(x, s))
    ensures InsertByStart(x, s)[0] == x || (s != [] && InsertByStart(x, s)[0] == s[0])
    decreases |s|
  {
    InsertByStartPermutes(x, s);
    if s != [] && s[0].startTime > x.startTime {
      InsertByStartSorted(x, s[1..]);
      var r := InsertByStart(x, s[1..]);
      assert InsertByStart(x, s) == [s[0]] + r;
      forall j | 0 < j < |r| + 1 ensures s[0].startTime >= ([s[0]] + r)[j].startTime {
        if j == 1 {
          assert r[0] == x || r[0] == s[1..][0];
        } else {
          assert r[0] == x || r[0] == s[1..][0];
          assert r[0].startTime >= r[j - 1].startTime;
        }
      }
    }
  }

  lemma StartingAtCons(x: Session, s: seq<Session>, t: int)
    ensures StartingAt([x] + s, t) == (if x.startTime == t then [x] else []) + StartingAt(s, t)
  {
    assert ([x] + s)[1..] == s;
  }

  lemma {:induction false} InsertByStartStable(x: Session, s: seq<Session>, t: int)
    ensures StartingAt(InsertByStart(x, s), t)
         == (if x.startTime == t then [x] else []) + StartingAt(s, t)
    decreases |s|
  {
    if s == [] || s[0].startTime <= x.startTime {
      StartingAtCons(x, s, t);
    } else {
      InsertByStartStable(x, s[1..], t);
      StartingAtCons(s[0], InsertByStart(x, s[1..]), t);
      StartingAtCons(s[0], s[1..], t);
      assert s == [s[0]] + s[1..];
    }
  }

  /** The sort reorders nothing but the order: same entries, same multiplicities. */
  lemma {:induction false} SortPermutes(s: seq<Session>)
    ensures multiset(SortByStartDesc(s)) == multiset(s)
    ensures |SortByStartDesc(s)| == |s|
    decreases |s|
  {
    if s != [] {
      SortPermutes(s[1..]);
      InsertByStartPermutes(s[0], SortByStartDesc(s[1..]));
      assert s == [s[0]] + s[1..];
    }
  }

  /** The sort puts later starts first. */
  lemma {:induction false} SortSorted(s: seq<Session>)
    ensures SortedByStartDesc(SortByStartDesc(s))
    decreases |s|
  {
    if s != [] {
      SortSorted(s[1..]);
      InsertByStartSorted(s[0], SortByStartDesc(s[1..]));
    }
  }

  /** The sort is stable: entries with equal start times keep their relative order. */
  lemma {:induction false} SortStable(s: seq<Session>, t: int)
    ensures StartingAt(SortByStartDesc(s), t) == StartingAt(s, t)
    decreases |s|
  {
    if s != [] {
      SortStable(s[1..], t);
      InsertByStartStable(s[0], SortByStartDesc(s[1..]), t);
    }
  }

  /**
   * GetSessionHistory(limit) on the stored list: nothing when nothing is
   * stored, else latest first, cut to `limit` entries when limit > 0.
   */
  function History(stored: seq<Session>, limit: int): seq<Session>
  {
    if stored == [] then []
    else
      var ordered := SortByStartDesc(stored);
      if limit > 0 && limit < |ordered| then ordered[..limit] else ordered
  }

  /** The first `n` entries of the sorted list are `n` latest sessions. */
  lemma SortedPrefixIsLatest(s: seq<Session>, n: nat)
    requires n <= |s|
    ensures var o := SortByStartDesc(s);
            multiset(o[..n]) <= multiset(s) && SortedByStartDesc(o[..n])
    ensures var o := SortByStartDesc(s);
            forall x, y :: x in o[..n] && y in multiset(s) - multiset(o[..n]) ==> y.startTime <= x.startTime
  {
    var o := SortByStartDesc(s);
    SortPermutes(s);
    SortSorted(s);
    var front, back := o[..n], o[n..];
    SplitMultiset(o, n);
    assert multiset(front) <= multiset(s);
    assert multiset(s) - multiset(front) == multiset(back);
    assert SortedByStartDesc(front) by {
      forall i, j | 0 <= i < j < |front| ensures front[i].startTime >= front[j].startTime {
        assert front[i] == o[i] && front[j] == o[j];
      }
    }
    forall x, y | x in front && y in multiset(s) - multiset(front) ensures y.startTime <= x.startTime {
      assert y in multiset(back);
      SortedSplit(o, n, x, y);
    }
  }

  lemma SplitMultiset(o: seq<Session>, n: nat)
    requires n <= |o|
    ensures multiset(o) == multiset(o[..n]) + multiset(o[n..])
  {
    assert o == o[..n] + o[n..];
  }

  lemma SortedSplit(o: seq<Session>, n: nat, x: Session, y: Session)
    requires n <= |o| && SortedByStartDesc(o)
    requires x in o[..n] && y in o[n..]
    ensures y.startTime <= x.startTime
  {
    var i :| 0 <= i < n && o[..n][i] == x;
    var j :| 0 <= j < |o[n..]| && o[n..][j] == y;
    assert o[i] == x && o[n + j] == y;
  }

  /**
   * The history is the stored sessions latest first, stably ordered, of
   * length min(limit, count) when limit > 0 and count otherwise, and it holds
   * the latest sessions.
   */
  lemma HistoryIsLatestFirst(stored: seq<Session>, limit: int)
    ensures var h := History(stored, limit);
            && SortedByStartDesc(h)
            && |h| == (if 0 < limit < |stored| then limit else |stored|)
            && multiset(h) <= multiset(stored)
            && (forall x, y :: x in h && y in multiset(stored) - multiset(h) ==> y.startTime <= x.startTime)
    ensures limit <= 0 ==> multiset(History(stored, limit)) == multiset(stored)
    ensures limit <= 0 ==> forall t :: StartingAt(History(stored, limit), t) == StartingAt(stored, t)
  {
    var h := History(stored, limit);
    if stored != [] {
      var n := if 0 < limit < |stored| then limit else |stored|;
      SortPermutes(stored);
      SortedPrefixIsLatest(stored, n);
      assert SortByStartDesc(stored)[..|stored|] == SortByStartDesc(stored);
      forall t ensures StartingAt(SortByStartDesc(stored), t) == StartingAt(stored, t) {
        SortStable(stored, t);
      }
    }
  }

  /** After a save: more than 100 sessions are cut to the 100 latest, latest first. */
  function CapLatest(sessions: seq<Session>): seq<Session>
  {
    if |sessions| > MaxSessions then SortByStartDesc(sessions)[..MaxSessions] else sessions
  }

  /** The cap never leaves more than 100 sessions, and what it drops starts no later than what it keeps. */
  lemma CapLatestKeepsNewest(sessions: seq<Session>)
    ensures var r := CapLatest(sessions);
            && |r| <= MaxSessions
            && multiset(r) <= multiset(sessions)
            && (|sessions| <= MaxSessions ==> r == sessions)
            && (|sessions| > MaxSessions ==> |r| == MaxSessions && SortedByStartDesc(r))
            && (forall x, y :: x in r && y in multiset(sessions) - multiset(r) ==> y.startTime <= x.startTime)
  {
    if |sessions| > MaxSessions {
      SortedPrefixIsLatest(sessions, MaxSessions);
    }
  }
}
