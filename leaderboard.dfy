/** The local leaderboard the client keeps when a score cannot be saved to
    the server: `[...prev, entry].sort((a, b) => b.score - a.score).slice(0, 10)`
    in client/src/App.tsx. */
module Leaderboard {
  import CharacterPool

  /** How many entries the local leaderboard keeps. */
  const Capacity: nat := 10

  /** A finished game as shown on the leaderboard. */
  datatype HighScore = HighScore(
    id: int,
    playerName: string,
    score: nat,
    lettersTyped: nat,
    lettersMissed: nat,
    gameDuration: real,
    characterSet: CharacterPool.CharacterSet)

  /** Scores never increase along the list. */
  predicate SortedByScore(s: seq<HighScore>) {
    forall i, j :: 0 <= i < j < |s| ==> s[i].score >= s[j].score
  }

  /** How many entries score at least `t`. */
  function CountAtLeast(s: seq<HighScore>, t: int): (n: nat)
    ensures n <= |s|
  {
    if s == [] then 0
    else (if s[0].score >= t then 1 else 0) + CountAtLeast(s[1..], t)
  }

  /** Places `e` after every entry that scores at least as much as it, so
      that among equal scores the earlier entry stays first. */
  function Insert(s: seq<HighScore>, e: HighScore): (r: seq<HighScore>)
    ensures |r| == |s| + 1
    ensures multiset(r) == multiset(s) + multiset{e}
  {
    if s == [] then [e]
    else if s[0].score >= e.score then
      var t := Insert(s[1..], e);
      assert s == [s[0]] + s[1..];
      [s[0]] + t
    else
      [e] + s
  }

  /** The comparator sort `(a, b) => b.score - a.score`: a stable insertion
      sort that orders entries by score, highest first. */
  function SortByScore(s: seq<HighScore>): (r: seq<HighScore>)
    ensures |r| == |s|
    ensures multiset(r) == multiset(s)
    ensures SortedByScore(r)
  {
    if s == [] then []
    else
      assert s == s[..|s| - 1] + [s[|s| - 1]];
      InsertKeepsSorted(SortByScore(s[..|s| - 1]), s[|s| - 1]);
      Insert(SortByScore(s[..|s| - 1]), s[|s| - 1])
  }

  /** Inserting into a sorted list keeps it sorted; the head of the result
      is the old head or the new entry. */
  lemma {:induction false} InsertKeepsSorted(s: seq<HighScore>, e: HighScore)
    requires SortedByScore(s)
    ensures SortedByScore(Insert(s, e))
    ensures s != [] ==> Insert(s, e)[0] == s[0] || Insert(s, e)[0] == e
    decreases |s|
  {
    if s != [] && s[0].score >= e.score {
      var t := Insert(s[1..], e);
      InsertKeepsSorted(s[1..], e);
      assert t[0].score <= s[0].score by {
        if s[1..] != [] {
          assert s[1..][0] == s[1];
        }
      }
      var r := Insert(s, e);
      assert r == [s[0]] + t;
      forall i, j | 0 <= i < j < |r| ensures r[i].score >= r[j].score {
        assert r[j] == t[j - 1];
        if i > 0 {
          assert r[i] == t[i - 1];
        } else if j > 1 {
          assert t[0].score >= t[j - 1].score;
        }
      }
    }
  }

  /** The fallback update: append the new entry, sort by score, keep the
      first `Capacity`. */
  function RecordLocally(prev: seq<HighScore>, e: HighScore): (r: seq<HighScore>)
    ensures SortedByScore(r)
    ensures |r| == if |prev| + 1 < Capacity then |prev| + 1 else Capacity
    ensures multiset(r) <= multiset(prev) + multiset{e}
  {
    var sorted := SortByScore(prev + [e]);
    var n := if |sorted| < Capacity then |sorted| else Capacity;
    assert sorted == sorted[..n] + sorted[n..];
    sorted[..n]
  }

  // ---------------------------------------------------------------------
  // Counting entries at or above a score
  // ---------------------------------------------------------------------

  lemma {:induction false} CountAppend(a: seq<HighScore>, b: seq<HighScore>, t: int)
    ensures CountAtLeast(a + b, t) == CountAtLeast(a, t) + CountAtLeast(b, t)
    decreases |a|
  {
    if a == [] {
      assert a + b == b;
    } else {
      assert (a + b)[1..] == a[1..] + b;
      CountAppend(a[1..], b, t);
    }
  }

  lemma {:induction false} CountInsert(s: seq<HighScore>, e: HighScore, t: int)
    ensures CountAtLeast(Insert(s, e), t) == CountAtLeast(s, t) + (if e.score >= t then 1 else 0)
    decreases |s|
  {
    if s != [] && s[0].score >= e.score {
      CountInsert(s[1..], e, t);
      assert Insert(s, e)[1..] == Insert(s[1..], e);
    } else if s != [] {
      assert Insert(s, e)[1..] == s;
    }
  }

  /** Sorting moves entries around but does not change how many reach a score. */
  lemma {:induction false} CountSort(s: seq<HighScore>, t: int)
    ensures CountAtLeast(SortByScore(s), t) == CountAtLeast(s, t)
    decreases |s|
  {
    if s != [] {
      var init, last := s[..|s| - 1], s[|s| - 1];
      assert s == init + [last];
      assert SortByScore(s) == Insert(SortByScore(init), last);
      CountSort(init, t);
      CountInsert(SortByScore(init), last, t);
      CountAppend(init, [last], t);
      assert CountAtLeast([last], t) == if last.score >= t then 1 else 0;
    }
  }

  /** In a sorted list the entries reaching `t` form a prefix. */
  lemma {:induction false} CountSortedPrefix(s: seq<HighScore>, t: int)
    requires SortedByScore(s)
    ensures forall i :: 0 <= i < CountAtLeast(s, t) ==> s[i].score >= t
    ensures forall i :: CountAtLeast(s, t) <= i < |s| ==> s[i].score < t
    decreases |s|
  {
    if s != [] {
      CountSortedPrefix(s[1..], t);
      forall i | 1 <= i < |s| ensures s[i] == s[1..][i - 1] { }
    }
  }

  /** Inserting into a sorted list puts the entry right after the entries
      that score at least as much as it. */
  lemma {:induction false} InsertPosition(s: seq<HighScore>, e: HighScore)
    requires SortedByScore(s)
    ensures CountAtLeast(s, e.score) < |Insert(s, e)|
    ensures Insert(s, e)[CountAtLeast(s, e.score)] == e
    decreases |s|
  {
    if s != [] {
      if s[0].score >= e.score {
        InsertPosition(s[1..], e);
      } else {
        CountSortedPrefix(s, e.score);
      }
    }
  }

  /** Sorting a list that is already sorted changes nothing. */
  lemma {:induction false} SortSortedIsIdentity(s: seq<HighScore>)
    requires SortedByScore(s)
    ensures SortByScore(s) == s
    decreases |s|
  {
    if s != [] {
      var init, last := s[..|s| - 1], s[|s| - 1];
      SortSortedIsIdentity(init);
      InsertLast(init, last);
      assert s == init + [last];
    }
  }

  /** An entry scoring no more than any entry of the list goes at its end. */
  lemma {:induction false} InsertLast(s: seq<HighScore>, e: HighScore)
    requires forall i :: 0 <= i < |s| ==> s[i].score >= e.score
    ensures Insert(s, e) == s + [e]
    decreases |s|
  {
    if s != [] {
      InsertLast(s[1..], e);
      assert s + [e] == [s[0]] + (s[1..] + [e]);
    }
  }

  // ---------------------------------------------------------------------
  // What the fallback keeps
  // ---------------------------------------------------------------------

  /** The new entry survives the cut whenever fewer than `Capacity` earlier
      entries score at least as much as it. */
  lemma RecordLocallyKeepsQualifying(prev: seq<HighScore>, e: HighScore)
    requires CountAtLeast(prev, e.score) < Capacity
    ensures e in RecordLocally(prev, e)
  {
    var init := prev + [e];
    assert init[..|init| - 1] == prev;
    var sortedPrev := SortByScore(prev);
    assert SortByScore(init) == Insert(sortedPrev, e);
    CountSort(prev, e.score);
    InsertPosition(sortedPrev, e);
    var k := CountAtLeast(sortedPrev, e.score);
    assert RecordLocally(prev, e)[k] == e;
  }

  /** An entry that is cut scores no more than any entry that is kept. */
  lemma RecordLocallyKeepsBest(prev: seq<HighScore>, e: HighScore, dropped: HighScore)
    requires dropped in multiset(prev + [e]) - multiset(RecordLocally(prev, e))
    ensures forall i :: 0 <= i < |RecordLocally(prev, e)| ==> RecordLocally(prev, e)[i].score >= dropped.score
  {
    var sorted := SortByScore(prev + [e]);
    var r := RecordLocally(prev, e);
    assert r == sorted[..|r|];
    PrefixBeatsRest(sorted, |r|, dropped);
  }

  /** In a sorted list, whatever lies past a prefix scores no more than
      anything in the prefix. */
  lemma PrefixBeatsRest(s: seq<HighScore>, n: nat, d: HighScore)
    requires SortedByScore(s) && n <= |s|
    requires d in multiset(s) - multiset(s[..n])
    ensures forall i :: 0 <= i < n ==> s[i].score >= d.score
  {
    var rest := s[n..];
    assert s == s[..n] + rest;
    assert multiset(s) == multiset(s[..n]) + multiset(rest);
    assert d in multiset(rest);
    var j :| 0 <= j < |rest| && rest[j] == d;
    assert s[n + j] == d;
  }

  /** In a sorted list, inserting `e` leaves in front of it exactly the
      entries that were already there. */
  lemma {:induction false} InsertPrefix(s: seq<HighScore>, e: HighScore)
    requires SortedByScore(s)
    ensures CountAtLeast(s, e.score) <= |s|
    ensures Insert(s, e)[..CountAtLeast(s, e.score)] == s[..CountAtLeast(s, e.score)]
    decreases |s|
  {
    if s != [] {
      if s[0].score >= e.score {
        InsertPrefix(s[1..], e);
      } else {
        CountSortedPrefix(s, e.score);
      }
    }
  }

  /** Against a sorted leaderboard: an entry that beats the last kept score
      (or joins a list that is not full) always enters it. */
  lemma BeatingTheLastEnters(prev: seq<HighScore>, e: HighScore)
    requires SortedByScore(prev)
    requires |prev| < Capacity || e.score > prev[Capacity - 1].score
    ensures e in RecordLocally(prev, e)
  {
    CountSortedPrefix(prev, e.score);
    RecordLocallyKeepsQualifying(prev, e);
  }

  /** On a full sorted list the fallback update is: insert, keep the first
      `Capacity`. */
  lemma RecordLocallyOnSorted(prev: seq<HighScore>, e: HighScore)
    requires SortedByScore(prev) && Capacity <= |prev|
    ensures RecordLocally(prev, e) == Insert(prev, e)[..Capacity]
  {
    var init := prev + [e];
    assert init[..|init| - 1] == prev;
    SortSortedIsIdentity(prev);
  }

  /** When at least `n` entries score at least as much as `e`, inserting
      `e` leaves the first `n` entries as they were. */
  lemma InsertKeepsCrowdedPrefix(prev: seq<HighScore>, e: HighScore, n: nat)
    requires SortedByScore(prev) && n <= CountAtLeast(prev, e.score)
    ensures n <= |prev| && Insert(prev, e)[..n] == prev[..n]
  {
    var k := CountAtLeast(prev, e.score);
    var ins := Insert(prev, e);
    InsertPrefix(prev, e);
    forall i | 0 <= i < n ensures ins[i] == prev[i] {
      assert ins[..k][i] == prev[..k][i];
    }
  }

  /** When at least `Capacity` earlier entries score at least as much as
      `e`, the cut keeps exactly the first `Capacity` of them. */
  lemma CrowdedOut(prev: seq<HighScore>, e: HighScore)
    requires SortedByScore(prev) && Capacity <= CountAtLeast(prev, e.score)
    ensures RecordLocally(prev, e) == prev[..Capacity]
  {
    InsertKeepsCrowdedPrefix(prev, e, Capacity);
    RecordLocallyOnSorted(prev, e);
  }

  /** Against a full sorted leaderboard: an entry that only ties the last
      kept score (or scores less) never enters it, because the sort keeps
      earlier entries ahead of later ones with the same score. */
  lemma TyingTheLastIsDropped(prev: seq<HighScore>, e: HighScore)
    requires SortedByScore(prev) && e !in prev
    requires |prev| >= Capacity && e.score <= prev[Capacity - 1].score
    ensures RecordLocally(prev, e) == prev[..Capacity]
    ensures e !in RecordLocally(prev, e)
  {
    CountSortedPrefix(prev, e.score);
    CrowdedOut(prev, e);
  }
}
