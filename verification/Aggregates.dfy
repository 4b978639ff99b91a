/** The summary `getAnalyticsSummary` derives from a loaded store: counts,
    trailing-window counts, the mean closed-session duration, section
    popularity and per-variant statistics. The functions below define each
    figure; the two methods are the source's accumulation loops, proved to
    compute those figures. */
module Aggregates {
  import opened Wrappers
  import opened Sessions

  /** Milliseconds in a day: `24 * 60 * 60 * 1000`. */
  const DayMs: int := 24 * 60 * 60 * 1000

  /** The per-variant accumulator built by the first pass. */
  datatype Tally = Tally(sessions: nat, totalDuration: int, totalSections: nat)

  /** A per-variant entry of the summary once the averages are added. */
  datatype VariantStats = VariantStats(
    sessions: nat,
    totalDuration: int,
    totalSections: nat,
    avgDuration: real,
    avgSections: real)

  datatype Summary = Summary(
    totalVisits: int,
    totalSessions: nat,
    last7DaysSessions: nat,
    last30DaysSessions: nat,
    averageSessionDuration: int,
    sectionPopularity: map<string, nat>,
    variantStats: map<string, VariantStats>,
    lastVisit: Option<int>)

  /** `if (s.endTime)`: an end time counts unless it is absent or zero. */
  predicate Closed(s: Session)
  {
    s.endTime.Some? && s.endTime.value != 0
  }

  /** Number of sessions that started at or after `since`. */
  function CountSince(ss: seq<Session>, since: int): (n: nat)
    ensures n <= |ss|
  {
    if |ss| == 0 then 0
    else CountSince(ss[..|ss| - 1], since) + (if ss[|ss| - 1].startTime >= since then 1 else 0)
  }

  /** Number of closed sessions. */
  function ClosedCount(ss: seq<Session>): nat
  {
    if |ss| == 0 then 0
    else ClosedCount(ss[..|ss| - 1]) + (if Closed(ss[|ss| - 1]) then 1 else 0)
  }

  /** Sum of `endTime - startTime` over the closed sessions, in milliseconds. */
  function ClosedDurationTotal(ss: seq<Session>): int
  {
    if |ss| == 0 then 0
    else
      var s := ss[|ss| - 1];
      ClosedDurationTotal(ss[..|ss| - 1]) + (if Closed(s) then s.endTime.value - s.startTime else 0)
  }

  /** The closed sessions, in order. */
  function ClosedOnly(ss: seq<Session>): (r: seq<Session>)
    ensures forall k :: 0 <= k < |r| ==> Closed(r[k])
  {
    if |ss| == 0 then []
    else ClosedOnly(ss[..|ss| - 1]) + (if Closed(ss[|ss| - 1]) then [ss[|ss| - 1]] else [])
  }

  /** `Math.round`: the nearest integer, halves rounded up. */
  function Round(x: real): (r: int)
    ensures r as real - 0.5 <= x < r as real + 0.5
  {
    (x + 0.5).Floor
  }

  /** `averageSessionDuration`: the rounded mean closed duration in seconds;
      `0 / 0` is NaN, which `|| 0` turns into 0. */
  function AverageDuration(ss: seq<Session>): int
  {
    MeanSeconds(ClosedDurationTotal(ss), ClosedCount(ss))
  }

  /** Rounded mean in seconds of `count` durations totalling `total` ms. */
  function MeanSeconds(total: int, count: nat): int
  {
    if count == 0 then 0 else Round(total as real / 1000.0 / count as real)
  }

  /** Occurrences of `sec` in the `sectionsVisited` lists of all sessions. */
  function Occurrences(ss: seq<Session>, sec: string): nat
  {
    if |ss| == 0 then 0
    else Occurrences(ss[..|ss| - 1], sec) + multiset(ss[|ss| - 1].sectionsVisited)[sec]
  }

  /** Number of sessions whose `sectionsVisited` contains `sec`. */
  function SessionsVisiting(ss: seq<Session>, sec: string): nat
  {
    if |ss| == 0 then 0
    else SessionsVisiting(ss[..|ss| - 1], sec) + (if sec in ss[|ss| - 1].sectionsVisited then 1 else 0)
  }

  /** The sections any session visited: exactly those with a positive count. */
  function VisitedSections(ss: seq<Session>): (r: set<string>)
    ensures forall sec :: sec in r <==> Occurrences(ss, sec) > 0
  {
    if |ss| == 0 then {}
    else
      var last := ss[|ss| - 1].sectionsVisited;
      VisitedSections(ss[..|ss| - 1]) + set sec | sec in last
  }

  /** `sectionPopularity`: one entry per visited section with its count. */
  function Popularity(ss: seq<Session>): map<string, nat>
  {
    map sec | sec in VisitedSections(ss) :: Occurrences(ss, sec)
  }

  /** A session counts for variant `v` when its variant is truthy and is `v`. */
  predicate TaggedWith(s: Session, v: string)
  {
    Truthy(s.variant) && s.variant.value == v
  }

  function VariantSessions(ss: seq<Session>, v: string): nat
  {
    if |ss| == 0 then 0
    else VariantSessions(ss[..|ss| - 1], v) + (if TaggedWith(ss[|ss| - 1], v) then 1 else 0)
  }

  /** Closed-session duration total (ms) of the sessions of variant `v`. */
  function VariantDurationTotal(ss: seq<Session>, v: string): int
  {
    if |ss| == 0 then 0
    else
      var s := ss[|ss| - 1];
      VariantDurationTotal(ss[..|ss| - 1], v)
        + (if TaggedWith(s, v) && Closed(s) then s.endTime.value - s.startTime else 0)
  }

  /** Total length of `sectionsVisited` over the sessions of variant `v`. */
  function VariantSectionsTotal(ss: seq<Session>, v: string): nat
  {
    if |ss| == 0 then 0
    else
      var s := ss[|ss| - 1];
      VariantSectionsTotal(ss[..|ss| - 1], v) + (if TaggedWith(s, v) then |s.sectionsVisited| else 0)
  }

  /** The variants that get an entry: exactly those with at least one session. */
  function Variants(ss: seq<Session>): (r: set<string>)
    ensures forall v :: v in r <==> VariantSessions(ss, v) > 0
  {
    if |ss| == 0 then {}
    else
      var s := ss[|ss| - 1];
      Variants(ss[..|ss| - 1]) + (if Truthy(s.variant) then {s.variant.value} else {})
  }

  function TallyOf(ss: seq<Session>, v: string): Tally
  {
    Tally(VariantSessions(ss, v), VariantDurationTotal(ss, v), VariantSectionsTotal(ss, v))
  }

  /** What the first pass over the sessions accumulates. */
  function TallyTable(ss: seq<Session>): map<string, Tally>
  {
    map v | v in Variants(ss) :: TallyOf(ss, v)
  }

  /** An entry with its averages: the duration total is divided by ALL the
      variant's sessions, closed or not, and converted to seconds. */
  function Averaged(t: Tally): VariantStats
    requires t.sessions > 0
  {
    VariantStats(t.sessions, t.totalDuration, t.totalSections,
                 t.totalDuration as real / t.sessions as real / 1000.0,
                 t.totalSections as real / t.sessions as real)
  }

  /** `variantStats`. */
  function VariantTable(ss: seq<Session>): map<string, VariantStats>
  {
    map v | v in Variants(ss) :: Averaged(TallyOf(ss, v))
  }

  /** The summary of store `d` at clock reading `now`. */
  function Summarize(d: Store, now: int): Summary
  {
    Summary(
      d.totalVisits,
      |d.sessions|,
      CountSince(d.sessions, now - 7 * DayMs),
      CountSince(d.sessions, now - 30 * DayMs),
      AverageDuration(d.sessions),
      Popularity(d.sessions),
      VariantTable(d.sessions),
      d.lastVisit)
  }

  // ---------------------------------------------------------------------
  // The accumulation loops
  // ---------------------------------------------------------------------

  /** The nested `forEach` that builds `sectionCounts`. */
  method SectionPopularity(ss: seq<Session>) returns (counts: map<string, nat>)
    ensures counts == Popularity(ss)
  {
    counts := map[];
    var i := 0;
    while i < |ss|
      invariant 0 <= i <= |ss|
      invariant forall sec :: sec in counts ==> counts[sec] > 0
      invariant forall sec :: CountIn(counts, sec) == Occurrences(ss[..i], sec)
    {
      counts := CountVisits(counts, ss[i].sectionsVisited);
      OccurrencesStep(ss, i);
      i := i + 1;
    }
    assert ss[..i] == ss;
    PopularityCharacterized(ss, counts);
  }

  /** The count a map holds for `sec`, with 0 for a missing key. */
  function CountIn(counts: map<string, nat>, sec: string): nat
  {
    if sec in counts then counts[sec] else 0
  }

  /** The inner `forEach` over one session's sections: each occurrence adds
      one to its section's count, starting from 1 for a new section. */
  method CountVisits(counts: map<string, nat>, visited: seq<string>) returns (r: map<string, nat>)
    requires forall sec :: sec in counts ==> counts[sec] > 0
    ensures forall sec :: sec in r ==> r[sec] > 0
    ensures forall sec :: CountIn(r, sec) == CountIn(counts, sec) + multiset(visited)[sec]
  {
    r := counts;
    var j := 0;
    while j < |visited|
      invariant 0 <= j <= |visited|
      invariant forall sec :: sec in r ==> r[sec] > 0
      invariant forall sec :: CountIn(r, sec) == CountIn(counts, sec) + multiset(visited[..j])[sec]
    {
      var sec := visited[j];
      assert visited[..j + 1] == visited[..j] + [sec];
      r := r[sec := CountIn(r, sec) + 1];
      j := j + 1;
    }
    assert visited[..j] == visited;
  }

  lemma OccurrencesStep(ss: seq<Session>, i: nat)
    requires i < |ss|
    ensures forall sec :: Occurrences(ss[..i + 1], sec) == Occurrences(ss[..i], sec) + multiset(ss[i].sectionsVisited)[sec]
  {
    assert ss[..i + 1][..i] == ss[..i];
  }

  /** A map holding exactly the positive counts is the popularity map. */
  lemma PopularityCharacterized(ss: seq<Session>, counts: map<string, nat>)
    requires forall sec :: sec in counts ==> counts[sec] > 0
    requires forall sec :: CountIn(counts, sec) == Occurrences(ss, sec)
    ensures counts == Popularity(ss)
  {
    assert counts.Keys == Popularity(ss).Keys;
  }

  /** `variantStats`: a pass over the sessions that tallies each variant,
      then a pass over its keys that adds the averages. */
  method VariantStatistics(ss: seq<Session>) returns (stats: map<string, VariantStats>)
    ensures stats == VariantTable(ss)
  {
    var tallies := TallyVariants(ss);
    stats := AddAverages(tallies);
    assert stats.Keys == VariantTable(ss).Keys;
  }

  /** The `forEach` over the sessions: one tally per truthy variant. */
  method TallyVariants(ss: seq<Session>) returns (tallies: map<string, Tally>)
    ensures tallies == TallyTable(ss)
  {
    tallies := map[];
    var i := 0;
    while i < |ss|
      invariant 0 <= i <= |ss|
      invariant TalliedUpTo(ss, i, tallies)
    {
      var s := ss[i];
      if Truthy(s.variant) {
        var v := s.variant.value;
        ghost var before := tallies;
        if v !in tallies {
          tallies := tallies[v := Tally(0, 0, 0)];
        }
        var t := tallies[v];
        t := t.(sessions := t.sessions + 1);
        if Closed(s) {
          t := t.(totalDuration := t.totalDuration + (s.endTime.value - s.startTime));
        }
        t := t.(totalSections := t.totalSections + |s.sectionsVisited|);
        TallyAdvance(ss, i, before, t);
        assert tallies[v := t] == before[v := t];
        tallies := tallies[v := t];
      } else {
        TallySkip(ss, i, tallies);
      }
      i := i + 1;
    }
    assert ss[..i] == ss;
    assert tallies.Keys == TallyTable(ss).Keys;
  }

  /** The `forEach` over the keys: each tally gets its averages. */
  method AddAverages(tallies: map<string, Tally>) returns (stats: map<string, VariantStats>)
    requires forall v :: v in tallies ==> tallies[v].sessions > 0
    ensures stats == map v | v in tallies :: Averaged(tallies[v])
  {
    stats := map[];
    var todo := tallies.Keys;
    while todo != {}
      invariant todo <= tallies.Keys
      invariant stats.Keys == tallies.Keys - todo
      invariant forall v :: v in stats ==> stats[v] == Averaged(tallies[v])
      decreases todo
    {
      var v :| v in todo;
      stats := stats[v := Averaged(tallies[v])];
      todo := todo - {v};
    }
  }

  /** A tally with one more session of its variant counted. */
  function Added(t: Tally, s: Session): Tally
  {
    Tally(t.sessions + 1,
          t.totalDuration + (if Closed(s) then s.endTime.value - s.startTime else 0),
          t.totalSections + |s.sectionsVisited|)
  }

  /** The tally a map holds for `v`, with an empty tally for a missing key. */
  function TallyIn(tallies: map<string, Tally>, v: string): Tally
  {
    if v in tallies then tallies[v] else Tally(0, 0, 0)
  }

  /** The loop invariant of the tally pass: after the first `i` sessions the
      map holds exactly the variants seen so far, each with its tally. */
  ghost predicate TalliedUpTo(ss: seq<Session>, i: nat, tallies: map<string, Tally>)
    requires i <= |ss|
  {
    && (forall w :: w in tallies <==> VariantSessions(ss[..i], w) > 0)
    && (forall w :: w in tallies ==> tallies[w] == TallyOf(ss[..i], w))
  }

  /** What one more session adds to each variant's tally. */
  lemma TallyStep(ss: seq<Session>, i: nat)
    requires i < |ss|
    ensures forall w :: TallyOf(ss[..i + 1], w) ==
              if TaggedWith(ss[i], w) then Added(TallyOf(ss[..i], w), ss[i]) else TallyOf(ss[..i], w)
    ensures forall w :: VariantSessions(ss[..i + 1], w) > 0 <==>
              VariantSessions(ss[..i], w) > 0 || TaggedWith(ss[i], w)
  {
    assert ss[..i + 1][..i] == ss[..i];
  }

  /** A session with a truthy variant updates that variant's entry only. */
  lemma TallyAdvance(ss: seq<Session>, i: nat, tallies: map<string, Tally>, t: Tally)
    requires i < |ss| && TalliedUpTo(ss, i, tallies) && Truthy(ss[i].variant)
    requires t == Added(TallyIn(tallies, ss[i].variant.value), ss[i])
    ensures TalliedUpTo(ss, i + 1, tallies[ss[i].variant.value := t])
  {
    var v := ss[i].variant.value;
    TallyStep(ss, i);
    if v !in tallies {
      NoSessionsNoTotals(ss[..i], v);
    }
  }

  /** A session without a truthy variant changes no entry. */
  lemma TallySkip(ss: seq<Session>, i: nat, tallies: map<string, Tally>)
    requires i < |ss| && TalliedUpTo(ss, i, tallies) && !Truthy(ss[i].variant)
    ensures TalliedUpTo(ss, i + 1, tallies)
  {
    TallyStep(ss, i);
  }

  // ---------------------------------------------------------------------
  // Lemmas
  // ---------------------------------------------------------------------

  /** A variant with no sessions has no duration or section totals. */
  lemma {:induction false} NoSessionsNoTotals(ss: seq<Session>, v: string)
    requires VariantSessions(ss, v) == 0
    ensures VariantDurationTotal(ss, v) == 0 && VariantSectionsTotal(ss, v) == 0
  {
    if |ss| > 0 {
      NoSessionsNoTotals(ss[..|ss| - 1], v);
    }
  }

  /** A later window start never admits more sessions. */
  lemma {:induction false} CountSinceAntitone(ss: seq<Session>, early: int, late: int)
    requires early <= late
    ensures CountSince(ss, late) <= CountSince(ss, early)
  {
    if |ss| > 0 {
      CountSinceAntitone(ss[..|ss| - 1], early, late);
    }
  }

  /** The summary copies the counters, counts all retained sessions, and its
      7-day count is at most its 30-day count, which is at most the total. */
  lemma SummaryCounts(d: Store, now: int)
    ensures
      var r := Summarize(d, now);
      && r.totalVisits == d.totalVisits
      && r.lastVisit == d.lastVisit
      && r.totalSessions == |d.sessions|
      && r.last7DaysSessions <= r.last30DaysSessions <= r.totalSessions
  {
    CountSinceAntitone(d.sessions, now - 30 * DayMs, now - 7 * DayMs);
  }

  lemma {:induction false} ClosedOnlyTotals(ss: seq<Session>)
    ensures ClosedCount(ss) == |ClosedOnly(ss)| == ClosedCount(ClosedOnly(ss))
    ensures ClosedDurationTotal(ClosedOnly(ss)) == ClosedDurationTotal(ss)
  {
    if |ss| > 0 {
      var p := ss[..|ss| - 1];
      var s := ss[|ss| - 1];
      ClosedOnlyTotals(p);
      if Closed(s) {
        var c := ClosedOnly(p) + [s];
        assert ClosedOnly(ss) == c;
        assert c[..|c| - 1] == ClosedOnly(p);
        assert ClosedCount(c) == ClosedCount(ClosedOnly(p)) + 1;
        assert ClosedDurationTotal(c) == ClosedDurationTotal(ClosedOnly(p)) + (s.endTime.value - s.startTime);
      } else {
        assert ClosedOnly(ss) == ClosedOnly(p);
      }
    }
  }

  /** The mean duration is that of the closed sessions alone: open sessions
      enter neither the total nor the count. */
  lemma AverageUsesClosedOnly(ss: seq<Session>)
    ensures ClosedCount(ss) == |ClosedOnly(ss)|
    ensures AverageDuration(ClosedOnly(ss)) == AverageDuration(ss)
  {
    ClosedOnlyTotals(ss);
  }

  /** With no closed session the mean is NaN, which `|| 0` turns into 0. */
  lemma {:induction false} NoClosedSessionsNoAverage(ss: seq<Session>)
    requires forall k :: 0 <= k < |ss| ==> !Closed(ss[k])
    ensures ClosedCount(ss) == 0 && AverageDuration(ss) == 0
  {
    if |ss| > 0 {
      NoClosedSessionsNoAverage(ss[..|ss| - 1]);
    }
  }

  /** A session with no end time that started before the 7-day window adds
      one to the session total and to its variant's session count and
      section total, yet changes neither the 7-day count, nor the mean
      duration, nor its variant's duration total: it dilutes that variant's
      `avgDuration` but not `averageSessionDuration`. */
  lemma StaleOpenSession(ss: seq<Session>, s: Session, v: string, now: int)
    requires !Closed(s) && TaggedWith(s, v) && s.startTime < now - 7 * DayMs
    ensures
      var ss' := ss + [s];
      && |ss'| == |ss| + 1
      && CountSince(ss', now - 7 * DayMs) == CountSince(ss, now - 7 * DayMs)
      && AverageDuration(ss') == AverageDuration(ss)
      && VariantSessions(ss', v) == VariantSessions(ss, v) + 1
      && VariantDurationTotal(ss', v) == VariantDurationTotal(ss, v)
      && VariantSectionsTotal(ss', v) == VariantSectionsTotal(ss, v) + |s.sectionsVisited|
  {
    assert (ss + [s])[..|ss|] == ss;
  }

  /** Every section count in the summary is positive. */
  lemma PopularityPositive(ss: seq<Session>, sec: string)
    ensures sec in Popularity(ss) <==> Occurrences(ss, sec) > 0
    ensures sec in Popularity(ss) ==> Popularity(ss)[sec] > 0
  {
  }

  /** When no session records a section twice, a section's popularity is
      the number of sessions that visited it. */
  lemma {:induction false} PopularityCountsSessions(ss: seq<Session>, sec: string)
    requires SectionsDistinct(ss)
    ensures Occurrences(ss, sec) == SessionsVisiting(ss, sec)
    ensures sec in Popularity(ss) ==> Popularity(ss)[sec] == SessionsVisiting(ss, sec) <= |ss|
  {
    if |ss| > 0 {
      var p := ss[..|ss| - 1];
      var last := ss[|ss| - 1].sectionsVisited;
      assert SectionsDistinct(p) by {
        forall k | 0 <= k < |p| ensures Distinct(p[k].sectionsVisited) {
          assert p[k] == ss[k];
        }
      }
      PopularityCountsSessions(p, sec);
      assert Distinct(last);
      if sec in last {
        DistinctOccursOnce(last, sec);
      } else {
        assert multiset(last)[sec] == 0;
      }
    }
    SessionsVisitingBounded(ss, sec);
  }

  lemma {:induction false} SessionsVisitingBounded(ss: seq<Session>, sec: string)
    ensures SessionsVisiting(ss, sec) <= |ss|
  {
    if |ss| > 0 {
      SessionsVisitingBounded(ss[..|ss| - 1], sec);
    }
  }

  /** Every variant entry has at least one session, so its averages are
      defined, and its figures are those of the variant's sessions. */
  lemma VariantEntries(ss: seq<Session>, v: string)
    ensures v in VariantTable(ss) <==> VariantSessions(ss, v) > 0
    ensures v in VariantTable(ss) ==>
      var e := VariantTable(ss)[v];
      && e.sessions == VariantSessions(ss, v) >= 1
      && e.totalDuration == VariantDurationTotal(ss, v)
      && e.totalSections == VariantSectionsTotal(ss, v)
      && e.avgDuration == e.totalDuration as real / e.sessions as real / 1000.0
      && e.avgSections == e.totalSections as real / e.sessions as real
  {
  }

  /** Sum of the session counts of the variants listed in `vs`. */
  function SumVariantSessions(ss: seq<Session>, vs: seq<string>): nat
  {
    if |vs| == 0 then 0 else VariantSessions(ss, vs[0]) + SumVariantSessions(ss, vs[1..])
  }

  /** Number of the variants listed in `vs` that session `s` counts for. */
  function Hits(s: Session, vs: seq<string>): nat
  {
    if |vs| == 0 then 0 else (if TaggedWith(s, vs[0]) then 1 else 0) + Hits(s, vs[1..])
  }

  /** Sum of the `sessions` fields of the entries of `table` listed in `vs`. */
  function SessionsAcross(table: map<string, VariantStats>, vs: seq<string>): nat
  {
    if |vs| == 0 then 0
    else (if vs[0] in table then table[vs[0]].sessions else 0) + SessionsAcross(table, vs[1..])
  }

  lemma {:induction false} SumWithoutSessions(vs: seq<string>)
    ensures SumVariantSessions([], vs) == 0
  {
    if |vs| > 0 {
      SumWithoutSessions(vs[1..]);
    }
  }

  lemma {:induction false} SumSplit(ss: seq<Session>, vs: seq<string>)
    requires |ss| > 0
    ensures SumVariantSessions(ss, vs) == SumVariantSessions(ss[..|ss| - 1], vs) + Hits(ss[|ss| - 1], vs)
  {
    if |vs| > 0 {
      SumSplit(ss, vs[1..]);
    }
  }

  lemma {:induction false} HitsNone(s: Session, vs: seq<string>)
    requires !Truthy(s.variant) || s.variant.value !in vs
    ensures Hits(s, vs) == 0
  {
    if |vs| > 0 {
      assert vs[0] in vs;
      if Truthy(s.variant) {
        assert forall x :: x in vs[1..] ==> x in vs;
      }
      HitsNone(s, vs[1..]);
    }
  }

  lemma {:induction false} HitsAtMostOne(s: Session, vs: seq<string>)
    requires Distinct(vs)
    ensures Hits(s, vs) <= 1
  {
    if |vs| > 0 {
      assert Distinct(vs[1..]);
      if TaggedWith(s, vs[0]) {
        assert s.variant.value !in vs[1..] by {
          forall k | 0 <= k < |vs[1..]| ensures vs[1..][k] != vs[0] {
            assert vs[1..][k] == vs[k + 1];
          }
        }
        HitsNone(s, vs[1..]);
      } else {
        HitsAtMostOne(s, vs[1..]);
      }
    }
  }

  /** Counting each session for at most one variant: the session counts of
      distinct variants add up to at most the number of sessions. */
  lemma {:induction false} VariantSessionsBounded(ss: seq<Session>, vs: seq<string>)
    requires Distinct(vs)
    ensures SumVariantSessions(ss, vs) <= |ss|
  {
    if |ss| == 0 {
      SumWithoutSessions(vs);
    } else {
      VariantSessionsBounded(ss[..|ss| - 1], vs);
      SumSplit(ss, vs);
      HitsAtMostOne(ss[|ss| - 1], vs);
    }
  }

  lemma {:induction false} AcrossTable(ss: seq<Session>, vs: seq<string>)
    ensures SessionsAcross(VariantTable(ss), vs) == SumVariantSessions(ss, vs)
  {
    if |vs| > 0 {
      AcrossTable(ss, vs[1..]);
    }
  }

  /** In a summary, the `sessions` counts of distinct variants add up to at
      most `totalSessions`. */
  lemma SummaryVariantSessionsBounded(d: Store, now: int, vs: seq<string>)
    requires Distinct(vs)
    ensures SessionsAcross(Summarize(d, now).variantStats, vs) <= Summarize(d, now).totalSessions
  {
    AcrossTable(d.sessions, vs);
    VariantSessionsBounded(d.sessions, vs);
  }

  /** The summary of an empty store. */
  lemma EmptySummary(now: int)
    ensures Summarize(EmptyStore(), now) == Summary(0, 0, 0, 0, 0, map[], map[], None)
  {
    assert Popularity([]) == map[];
    assert VariantTable([]) == map[];
  }

  /** Two closed "blue" sessions of 100 s and 200 s with 2 and 4 sections
      give `blue` 2 sessions, an average of 150 s and of 3 sections. */
  lemma TwoBlueSessions(a: Session, b: Session)
    requires a.variant == Some("blue") && b.variant == Some("blue")
    requires a.startTime == 1000 && a.endTime == Some(101000) && |a.sectionsVisited| == 2
    requires b.startTime == 5000 && b.endTime == Some(205000) && |b.sectionsVisited| == 4
    ensures "blue" in VariantTable([a, b])
    ensures VariantTable([a, b])["blue"] == VariantStats(2, 300000, 6, 150.0, 3.0)
    ensures AverageDuration([a, b]) == 150
  {
    var ss := [a, b];
    assert ss[..|ss| - 1] == [a];
    assert [a][..0] == [];
    assert ClosedCount([]) == 0 && ClosedDurationTotal([]) == 0;
    assert TaggedWith(a, "blue") && TaggedWith(b, "blue") && Closed(a) && Closed(b);
    assert ClosedCount([a]) == ClosedCount([a][..0]) + 1;
    assert VariantSessions([a], "blue") == 1 && ClosedCount([a]) == 1 && ClosedDurationTotal([a]) == 100000;
    assert VariantSessions(ss, "blue") == 2;
    assert ClosedCount(ss) == 2;
    assert ClosedDurationTotal(ss) == 300000;
    assert VariantSectionsTotal([], "blue") == 0;
    assert VariantSectionsTotal([a], "blue") == VariantSectionsTotal([a][..0], "blue") + 2;
    assert VariantDurationTotal([a], "blue") == 100000 && VariantSectionsTotal([a], "blue") == 2;
    assert TallyOf(ss, "blue") == Tally(2, 300000, 6);
    assert 300000 as real / 1000.0 / 2 as real == 150.0;
    assert 300000 as real / 2 as real / 1000.0 == 150.0;
    assert 6 as real / 2 as real == 3.0;
  }
}
