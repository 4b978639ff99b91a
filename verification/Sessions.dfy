/** The analytics event store: the persisted record of sessions, the
    retention rule applied by every save, the lookup of the current session,
    and the effect each tracker call has on the persisted record. The
    imperative tracker methods that produce these effects are in Analytics. */
module Sessions {
  import opened Wrappers

  /** A save keeps only this many of the newest sessions. */
  const MaxSessions: nat := 100

  /** One custom event of a session; `data` is the event's payload object. */
  datatype Event = Event(name: string, data: map<string, string>, timestamp: int)

  /** One visit of one browsing context. Times are milliseconds since the epoch. */
  datatype Session = Session(
    sessionId: string,
    visitorId: string,
    startTime: int,
    endTime: Option<int>,
    pageViews: int,
    sectionsVisited: seq<string>,
    events: seq<Event>,
    variant: Option<string>,
    userAgent: string,
    referrer: string,
    screenResolution: string)

  /** The whole analytics record kept under one storage key. */
  datatype Store = Store(sessions: seq<Session>, totalVisits: int, lastVisit: Option<int>)

  /** What the browser supplies to one call: the clock reading, the ids that
      would be generated if none is stored yet, and the context strings
      (user agent, referrer, "<width>x<height>") recorded with a new session. */
  datatype Env = Env(
    now: int,
    freshSessionId: string,
    freshVisitorId: string,
    userAgent: string,
    referrer: string,
    screenResolution: string)

  /** JavaScript truthiness of a nullable string: null and "" are falsy. */
  predicate Truthy(s: Option<string>)
  {
    s.Some? && s.value != ""
  }

  /** The record `getAnalyticsData` yields when nothing is stored. */
  function EmptyStore(): Store
  {
    Store([], 0, None)
  }

  /** The store a load yields from what is persisted under the analytics key. */
  function Loaded(stored: Option<Store>): Store
  {
    match stored
    case None => EmptyStore()
    case Some(d) => d
  }

  /** The id returned by `getSessionId` / `getVisitorId`: the stored one when
      it is truthy, otherwise the newly generated one (which is then stored). */
  function CurrentId(kept: Option<string>, generated: string): string
  {
    if Truthy(kept) then kept.value else generated
  }

  /** The store as `saveAnalyticsData` writes it: only the newest
      `MaxSessions` sessions, in their original order; counters untouched. */
  function Truncated(d: Store): (r: Store)
    ensures |r.sessions| == if |d.sessions| <= MaxSessions then |d.sessions| else MaxSessions
    ensures r.sessions == d.sessions[|d.sessions| - |r.sessions|..]
    ensures r.totalVisits == d.totalVisits && r.lastVisit == d.lastVisit
  {
    if |d.sessions| > MaxSessions then d.(sessions := d.sessions[|d.sessions| - MaxSessions..]) else d
  }

  /** `sessions.find(s => s.sessionId === id)`, as the index of the match:
      the first session carrying `id`, or none when no session does. */
  function Find(ss: seq<Session>, id: string): (r: Option<nat>)
    ensures r.Some? ==> r.value < |ss| && ss[r.value].sessionId == id
    ensures r.Some? ==> forall j :: 0 <= j < r.value ==> ss[j].sessionId != id
    ensures r.None? <==> forall j :: 0 <= j < |ss| ==> ss[j].sessionId != id
  {
    FindFrom(ss, id, 0)
  }

  /** The scan of `find` from index `k` on. */
  function FindFrom(ss: seq<Session>, id: string, k: nat): (r: Option<nat>)
    requires k <= |ss|
    ensures r.Some? ==> k <= r.value < |ss| && ss[r.value].sessionId == id
    ensures r.Some? ==> forall j :: k <= j < r.value ==> ss[j].sessionId != id
    ensures r.None? <==> forall j :: k <= j < |ss| ==> ss[j].sessionId != id
    decreases |ss| - k
  {
    if k == |ss| then None
    else if ss[k].sessionId == id then Some(k)
    else FindFrom(ss, id, k + 1)
  }

  predicate Distinct<T(==)>(s: seq<T>)
  {
    forall i, j :: 0 <= i < j < |s| ==> s[i] != s[j]
  }

  ghost predicate UniqueIds(ss: seq<Session>)
  {
    forall i, j :: 0 <= i < j < |ss| ==> ss[i].sessionId != ss[j].sessionId
  }

  ghost predicate SectionsDistinct(ss: seq<Session>)
  {
    forall i :: 0 <= i < |ss| ==> Distinct(ss[i].sectionsVisited)
  }

  /** What every save by the tracker keeps true of the persisted record:
      at most `MaxSessions` sessions, one session per id, and no section
      recorded twice in one session. */
  ghost predicate WellFormed(stored: Option<Store>)
  {
    var d := Loaded(stored);
    |d.sessions| <= MaxSessions && UniqueIds(d.sessions) && SectionsDistinct(d.sessions)
  }

  /** The session record `initSession` creates. */
  function NewSession(sid: string, vid: string, variant: Option<string>, env: Env): Session
  {
    Session(sid, vid, env.now, None, 1, [], [], variant,
            env.userAgent, env.referrer, env.screenResolution)
  }

  /** The persisted record after `initSession(variant)` with current session
      id `sid` and visitor id `vid`: nothing is saved when the session
      exists; otherwise the new session is appended, counted, and saved. */
  function Initialized(stored: Option<Store>, sid: string, vid: string, variant: Option<string>, env: Env): Option<Store>
  {
    var d := Loaded(stored);
    if Find(d.sessions, sid).Some? then stored
    else Some(Truncated(Store(d.sessions + [NewSession(sid, vid, variant, env)], d.totalVisits + 1, Some(env.now))))
  }

  /** The persisted record after `updateSessionEnd()`. */
  function EndUpdated(stored: Option<Store>, sid: string, now: int): Option<Store>
  {
    var d := Loaded(stored);
    match Find(d.sessions, sid)
    case None => stored
    case Some(i) => Some(Truncated(d.(sessions := d.sessions[i := d.sessions[i].(endTime := Some(now))])))
  }

  /** The persisted record after `trackPageView()`: the caller's copy, saved
      last, carries the incremented counter but not the nested end time. */
  function PageViewed(stored: Option<Store>, sid: string): Option<Store>
  {
    var d := Loaded(stored);
    match Find(d.sessions, sid)
    case None => stored
    case Some(i) =>
      Some(Truncated(d.(sessions := d.sessions[i := d.sessions[i].(pageViews := d.sessions[i].pageViews + 1)])))
  }

  /** The persisted record after `trackSectionVisit(sec)`. */
  function SectionVisited(stored: Option<Store>, sid: string, sec: string): Option<Store>
  {
    var d := Loaded(stored);
    match Find(d.sessions, sid)
    case None => stored
    case Some(i) =>
      if sec in d.sessions[i].sectionsVisited then stored
      else Some(Truncated(d.(sessions := d.sessions[i := d.sessions[i].(
             sectionsVisited := d.sessions[i].sectionsVisited + [sec])])))
  }

  /** The persisted record after `trackEvent(name, data)`. */
  function EventTracked(stored: Option<Store>, sid: string, name: string, data: map<string, string>, now: int): Option<Store>
  {
    var d := Loaded(stored);
    match Find(d.sessions, sid)
    case None => stored
    case Some(i) =>
      Some(Truncated(d.(sessions := d.sessions[i := d.sessions[i].(
        events := d.sessions[i].events + [Event(name, data, now)])])))
  }

  // ---------------------------------------------------------------------
  // Lemmas
  // ---------------------------------------------------------------------

  /** `initSession` on an existing session persists nothing. */
  lemma InitSessionExisting(stored: Option<Store>, sid: string, vid: string, variant: Option<string>, env: Env)
    requires Find(Loaded(stored).sessions, sid).Some?
    ensures Initialized(stored, sid, vid, variant, env) == stored
  {
  }

  /** `initSession` on a missing session appends exactly one fresh session
      (one page view, no end time, no sections, no events, the given variant)
      after the retained older sessions in their order, counts one more
      visit, and stamps `lastVisit`. */
  lemma InitSessionCreates(stored: Option<Store>, sid: string, vid: string, variant: Option<string>, env: Env)
    requires Find(Loaded(stored).sessions, sid).None?
    ensures Initialized(stored, sid, vid, variant, env).Some?
    ensures
      var d := Loaded(stored);
      var r := Initialized(stored, sid, vid, variant, env).value;
      var n := |r.sessions|;
      && n == (if |d.sessions| < MaxSessions then |d.sessions| + 1 else MaxSessions)
      && 1 <= n <= MaxSessions
      && r.totalVisits == d.totalVisits + 1
      && r.lastVisit == Some(env.now)
      && r.sessions == d.sessions[|d.sessions| - (n - 1)..] + [NewSession(sid, vid, variant, env)]
  {
    var d := Loaded(stored);
    var s := NewSession(sid, vid, variant, env);
    var r := Truncated(Store(d.sessions + [s], d.totalVisits + 1, Some(env.now)));
    InitializedMissing(stored, sid, vid, variant, env);
    KeptAfterAppend(d.sessions, s, |r.sessions|);
  }

  /** After `initSession` on a missing session, the new session is the only
      one with the current id: it is the first match and the last session. */
  lemma InitSessionFindsNew(stored: Option<Store>, sid: string, vid: string, variant: Option<string>, env: Env)
    requires Find(Loaded(stored).sessions, sid).None?
    ensures Initialized(stored, sid, vid, variant, env).Some?
    ensures var ss := Initialized(stored, sid, vid, variant, env).value.sessions;
            |ss| >= 1 && Find(ss, sid) == Some(|ss| - 1)
  {
    InitializedMissing(stored, sid, vid, variant, env);
    AppendedFoundLast(Loaded(stored), NewSession(sid, vid, variant, env), env.now);
  }

  /** A saved append of a session with a new id leaves it the first match. */
  lemma AppendedFoundLast(d: Store, s: Session, now: int)
    requires Find(d.sessions, s.sessionId).None?
    ensures var ss := Truncated(Store(d.sessions + [s], d.totalVisits + 1, Some(now))).sessions;
            |ss| >= 1 && Find(ss, s.sessionId) == Some(|ss| - 1)
  {
    var r := Truncated(Store(d.sessions + [s], d.totalVisits + 1, Some(now)));
    var k := |d.sessions| + 1 - |r.sessions|;
    KeptAfterAppend(d.sessions, s, |r.sessions|);
    assert r.sessions == d.sessions[k..] + [s];
    FoundAfterKept(d.sessions, k, s);
  }

  /** A session appended after any suffix of sessions lacking its id is the
      one found. */
  lemma FoundAfterKept(ss: seq<Session>, k: nat, s: Session)
    requires k <= |ss| && Find(ss, s.sessionId).None?
    ensures Find(ss[k..] + [s], s.sessionId) == Some(|ss| - k)
  {
    AbsentFromSuffix(ss, k, s.sessionId);
    FoundAtEnd(ss[k..], s);
  }

  /** The record `initSession` saves for a missing session, before truncation. */
  lemma InitializedMissing(stored: Option<Store>, sid: string, vid: string, variant: Option<string>, env: Env)
    requires Find(Loaded(stored).sessions, sid).None?
    ensures var d := Loaded(stored);
            Initialized(stored, sid, vid, variant, env)
              == Some(Truncated(Store(d.sessions + [NewSession(sid, vid, variant, env)], d.totalVisits + 1, Some(env.now))))
  {
  }

  /** The newest `n` sessions of a list with `s` appended are the newest
      `n - 1` older ones followed by `s`. */
  lemma KeptAfterAppend(ss: seq<Session>, s: Session, n: nat)
    requires 1 <= n <= |ss| + 1
    ensures (ss + [s])[|ss| + 1 - n..] == ss[|ss| - (n - 1)..] + [s]
  {
  }

  /** A session appended after sessions that lack its id is the one found. */
  lemma FoundAtEnd(ss: seq<Session>, s: Session)
    requires Find(ss, s.sessionId).None?
    ensures Find(ss + [s], s.sessionId) == Some(|ss|)
  {
    var all := ss + [s];
    assert all[|ss|].sessionId == s.sessionId;
    assert forall j :: 0 <= j < |ss| ==> all[j] == ss[j];
  }

  /** An id absent from a list is absent from each of its suffixes. */
  lemma AbsentFromSuffix(ss: seq<Session>, k: nat, id: string)
    requires k <= |ss| && Find(ss, id).None?
    ensures Find(ss[k..], id).None?
  {
    forall j | 0 <= j < |ss[k..]| ensures ss[k..][j].sessionId != id {
      assert ss[k..][j] == ss[k + j];
    }
  }

  /** Calling `initSession` again with the same session id persists nothing
      new, whatever variant, visitor id or clock the second call sees. */
  lemma InitSessionIdempotent(stored: Option<Store>, sid: string, vid: string, variant: Option<string>, env: Env,
                              vid': string, variant': Option<string>, env': Env)
    ensures var once := Initialized(stored, sid, vid, variant, env);
            Initialized(once, sid, vid', variant', env') == once
  {
    var once := Initialized(stored, sid, vid, variant, env);
    if Find(Loaded(stored).sessions, sid).None? {
      InitSessionFindsNew(stored, sid, vid, variant, env);
    }
    InitSessionExisting(once, sid, vid', variant', env');
  }

  lemma DistinctAppend<T>(s: seq<T>, x: T)
    requires Distinct(s) && x !in s
    ensures Distinct(s + [x])
  {
    forall i, j | 0 <= i < j < |s + [x]| ensures (s + [x])[i] != (s + [x])[j] {
      if j == |s| {
        assert (s + [x])[i] == s[i];
        assert s[i] in s;
      }
    }
  }

  lemma {:induction false} DistinctOccursOnce<T>(s: seq<T>, x: T)
    requires Distinct(s) && x in s
    ensures multiset(s)[x] == 1
  {
    var n := |s| - 1;
    assert s == s[..n] + [s[n]];
    assert Distinct(s[..n]);
    if s[n] == x {
      assert x !in s[..n] by {
        forall k | 0 <= k < n ensures s[..n][k] != x {
          assert s[..n][k] == s[k];
        }
      }
      assert multiset(s[..n])[x] == 0;
    } else {
      assert x in s[..n];
      DistinctOccursOnce(s[..n], x);
    }
  }

  /** `trackSectionVisit` on a present session of a well-formed store adds the
      section once at the end, keeps the earlier entries, changes nothing
      else (not even the end time: the nested end-time save is overwritten),
      and leaves the section recorded exactly once. */
  lemma SectionVisitEffect(stored: Option<Store>, sid: string, sec: string, i: nat)
    requires WellFormed(stored)
    requires Find(Loaded(stored).sessions, sid) == Some(i)
    ensures
      var d := Loaded(stored);
      var r := Loaded(SectionVisited(stored, sid, sec));
      var old_ := d.sessions[i].sectionsVisited;
      && |r.sessions| == |d.sessions|
      && r.totalVisits == d.totalVisits && r.lastVisit == d.lastVisit
      && (forall j :: 0 <= j < |d.sessions| && j != i ==> r.sessions[j] == d.sessions[j])
      && r.sessions[i] == d.sessions[i].(sectionsVisited := r.sessions[i].sectionsVisited)
      && r.sessions[i].endTime == d.sessions[i].endTime
      && r.sessions[i].sectionsVisited == (if sec in old_ then old_ else old_ + [sec])
      && multiset(r.sessions[i].sectionsVisited)[sec] == 1
  {
    var d := Loaded(stored);
    var old_ := d.sessions[i].sectionsVisited;
    assert Distinct(old_);
    if sec in old_ {
      DistinctOccursOnce(old_, sec);
    } else {
      DistinctAppend(old_, sec);
      assert sec in old_ + [sec];
      DistinctOccursOnce(old_ + [sec], sec);
    }
  }

  /** Repeating `trackSectionVisit` with the same section persists nothing
      new: the section is never recorded twice. */
  lemma SectionVisitIdempotent(stored: Option<Store>, sid: string, sec: string)
    requires WellFormed(stored)
    ensures var once := SectionVisited(stored, sid, sec);
            SectionVisited(once, sid, sec) == once
  {
    var d := Loaded(stored);
    match Find(d.sessions, sid)
    case None =>
    case Some(i) =>
      var once := SectionVisited(stored, sid, sec);
      SectionVisitEffect(stored, sid, sec, i);
      var r := Loaded(once);
      SameIdsSameFind(d.sessions, r.sessions, sid);
      assert sec in r.sessions[i].sectionsVisited;
  }

  /** Lists with the same ids at the same positions have the same match. */
  lemma SameIdsSameFind(a: seq<Session>, b: seq<Session>, id: string)
    requires |a| == |b| && forall j :: 0 <= j < |a| ==> a[j].sessionId == b[j].sessionId
    ensures Find(a, id) == Find(b, id)
  {
    if Find(a, id).Some? {
      assert b[Find(a, id).value].sessionId == id;
    }
    if Find(b, id).Some? {
      assert a[Find(b, id).value].sessionId == id;
    }
  }

  /** `trackEvent` on a present session appends exactly one event, stamped
      with the call's clock, after the unchanged earlier events; nothing else
      changes. In particular the end time stays what it was, whereas the
      nested `updateSessionEnd` alone would have persisted `Some(now)`. */
  lemma TrackEventEffect(stored: Option<Store>, sid: string, name: string, data: map<string, string>, now: int, i: nat)
    requires |Loaded(stored).sessions| <= MaxSessions
    requires Find(Loaded(stored).sessions, sid) == Some(i)
    ensures
      var d := Loaded(stored);
      var r := Loaded(EventTracked(stored, sid, name, data, now));
      var k := |d.sessions[i].events|;
      && |r.sessions| == |d.sessions|
      && r.totalVisits == d.totalVisits && r.lastVisit == d.lastVisit
      && (forall j :: 0 <= j < |d.sessions| && j != i ==> r.sessions[j] == d.sessions[j])
      && r.sessions[i] == d.sessions[i].(events := r.sessions[i].events)
      && |r.sessions[i].events| == k + 1
      && r.sessions[i].events[..k] == d.sessions[i].events
      && r.sessions[i].events[k] == Event(name, data, now)
      && r.sessions[i].endTime == d.sessions[i].endTime
      && Loaded(EndUpdated(stored, sid, now)).sessions[i].endTime == Some(now)
  {
    var d := Loaded(stored);
    var s := d.sessions[i];
    var evs := s.events + [Event(name, data, now)];
    var after := d.(sessions := d.sessions[i := s.(events := evs)]);
    assert EventTracked(stored, sid, name, data, now) == Some(Truncated(after));
    assert Truncated(after) == after;
    var ended := d.(sessions := d.sessions[i := s.(endTime := Some(now))]);
    assert EndUpdated(stored, sid, now) == Some(Truncated(ended));
    assert Truncated(ended) == ended;
    assert evs[..|s.events|] == s.events;
  }

  /** `updateSessionEnd` on a present session of a store within the cap
      stamps that session's end time with the clock and changes nothing else. */
  lemma EndUpdatedEffect(stored: Option<Store>, sid: string, now: int, i: nat)
    requires |Loaded(stored).sessions| <= MaxSessions
    requires Find(Loaded(stored).sessions, sid) == Some(i)
    ensures
      var d := Loaded(stored);
      var r := Loaded(EndUpdated(stored, sid, now));
      && |r.sessions| == |d.sessions|
      && r.totalVisits == d.totalVisits && r.lastVisit == d.lastVisit
      && (forall j :: 0 <= j < |d.sessions| && j != i ==> r.sessions[j] == d.sessions[j])
      && r.sessions[i] == d.sessions[i].(endTime := Some(now))
  {
    var d := Loaded(stored);
    var ended := d.(sessions := d.sessions[i := d.sessions[i].(endTime := Some(now))]);
    assert EndUpdated(stored, sid, now) == Some(Truncated(ended));
    assert Truncated(ended) == ended;
  }

  /** `trackPageView` on a present session adds exactly one page view and
      changes nothing else; the nested end-time write is lost. */
  lemma TrackPageViewEffect(stored: Option<Store>, sid: string, now: int, i: nat)
    requires |Loaded(stored).sessions| <= MaxSessions
    requires Find(Loaded(stored).sessions, sid) == Some(i)
    ensures
      var d := Loaded(stored);
      var r := Loaded(PageViewed(stored, sid));
      && |r.sessions| == |d.sessions|
      && r.totalVisits == d.totalVisits && r.lastVisit == d.lastVisit
      && (forall j :: 0 <= j < |d.sessions| && j != i ==> r.sessions[j] == d.sessions[j])
      && r.sessions[i] == d.sessions[i].(pageViews := r.sessions[i].pageViews)
      && r.sessions[i].pageViews == d.sessions[i].pageViews + 1
      && r.sessions[i].endTime == d.sessions[i].endTime
      && Loaded(EndUpdated(stored, sid, now)).sessions[i].endTime == Some(now)
  {
    var d := Loaded(stored);
    var s := d.sessions[i];
    var after := d.(sessions := d.sessions[i := s.(pageViews := s.pageViews + 1)]);
    PageViewedAt(stored, sid, i, d, after);
    assert Truncated(after) == after;
    var ended := d.(sessions := d.sessions[i := s.(endTime := Some(now))]);
    assert EndUpdated(stored, sid, now) == Some(Truncated(ended));
    assert Truncated(ended) == ended;
  }

  /** The record `trackPageView` saves when the session is found at `i`:
      the loaded copy `d` with that session's counter incremented. */
  lemma PageViewedAt(stored: Option<Store>, sid: string, i: nat, d: Store, viewed: Store)
    requires d == Loaded(stored) && Find(d.sessions, sid) == Some(i)
    requires viewed == d.(sessions := d.sessions[i := d.sessions[i].(pageViews := d.sessions[i].pageViews + 1)])
    ensures PageViewed(stored, sid) == Some(Truncated(viewed))
  {
  }

  /** The four calls that update a session are no-ops on the persisted record
      when no session carries the current id (for instance after it was
      evicted). */
  lemma MissingSessionNoOp(stored: Option<Store>, sid: string, sec: string, name: string, data: map<string, string>, now: int)
    requires Find(Loaded(stored).sessions, sid).None?
    ensures EndUpdated(stored, sid, now) == stored
    ensures PageViewed(stored, sid) == stored
    ensures SectionVisited(stored, sid, sec) == stored
    ensures EventTracked(stored, sid, name, data, now) == stored
  {
  }

  /** Replacing one session by one with the same id and duplicate-free
      sections keeps a store well formed. */
  lemma ReplaceKeepsWellFormed(d: Store, i: nat, s: Session)
    requires WellFormed(Some(d))
    requires i < |d.sessions| && s.sessionId == d.sessions[i].sessionId && Distinct(s.sectionsVisited)
    ensures WellFormed(Some(Truncated(d.(sessions := d.sessions[i := s]))))
  {
    var ss := d.sessions[i := s];
    assert forall j :: 0 <= j < |ss| ==> ss[j].sessionId == d.sessions[j].sessionId;
  }

  /** Appending a session with a new id and distinct sections keeps both
      per-session conditions. */
  lemma AppendKeepsUnique(ss: seq<Session>, s: Session)
    requires UniqueIds(ss) && SectionsDistinct(ss) && Find(ss, s.sessionId).None?
    requires Distinct(s.sectionsVisited)
    ensures UniqueIds(ss + [s]) && SectionsDistinct(ss + [s])
  {
    var all := ss + [s];
    forall a, b | 0 <= a < b < |all| ensures all[a].sessionId != all[b].sessionId {
      if b == |ss| {
        assert all[a] == ss[a];
      }
    }
  }

  /** Both per-session conditions hold of every suffix. */
  lemma SuffixKeepsUnique(ss: seq<Session>, k: nat)
    requires k <= |ss| && UniqueIds(ss) && SectionsDistinct(ss)
    ensures UniqueIds(ss[k..]) && SectionsDistinct(ss[k..])
  {
    forall a, b | 0 <= a < b < |ss| - k ensures ss[k..][a].sessionId != ss[k..][b].sessionId {
      assert ss[k..][a] == ss[k + a] && ss[k..][b] == ss[k + b];
    }
    forall a | 0 <= a < |ss| - k ensures Distinct(ss[k..][a].sectionsVisited) {
      assert ss[k..][a] == ss[k + a];
    }
  }

  /** The four transitions that rewrite one session keep a store well formed. */
  lemma UpdatesKeepWellFormed(stored: Option<Store>, sid: string, sec: string, name: string,
                              data: map<string, string>, now: int)
    requires WellFormed(stored)
    ensures WellFormed(EndUpdated(stored, sid, now))
    ensures WellFormed(PageViewed(stored, sid))
    ensures WellFormed(SectionVisited(stored, sid, sec))
    ensures WellFormed(EventTracked(stored, sid, name, data, now))
  {
    var d := Loaded(stored);
    match Find(d.sessions, sid)
    case None =>
    case Some(i) =>
      var s := d.sessions[i];
      assert Distinct(s.sectionsVisited);
      var ended := s.(endTime := Some(now));
      ReplaceKeepsWellFormed(d, i, ended);
      assert EndUpdated(stored, sid, now) == Some(Truncated(d.(sessions := d.sessions[i := ended])));
      var viewed := s.(pageViews := s.pageViews + 1);
      ReplaceKeepsWellFormed(d, i, viewed);
      assert PageViewed(stored, sid) == Some(Truncated(d.(sessions := d.sessions[i := viewed])));
      var tracked := s.(events := s.events + [Event(name, data, now)]);
      ReplaceKeepsWellFormed(d, i, tracked);
      assert EventTracked(stored, sid, name, data, now) == Some(Truncated(d.(sessions := d.sessions[i := tracked])));
      if sec !in s.sectionsVisited {
        var visited := s.(sectionsVisited := s.sectionsVisited + [sec]);
        DistinctAppend(s.sectionsVisited, sec);
        ReplaceKeepsWellFormed(d, i, visited);
        assert SectionVisited(stored, sid, sec) == Some(Truncated(d.(sessions := d.sessions[i := visited])));
      }
  }

  /** Every tracker transition keeps the persisted record well formed. */
  lemma TrackersKeepWellFormed(stored: Option<Store>, sid: string, vid: string, variant: Option<string>, env: Env,
                               sec: string, name: string, data: map<string, string>)
    requires WellFormed(stored)
    ensures WellFormed(Initialized(stored, sid, vid, variant, env))
    ensures WellFormed(EndUpdated(stored, sid, env.now))
    ensures WellFormed(PageViewed(stored, sid))
    ensures WellFormed(SectionVisited(stored, sid, sec))
    ensures WellFormed(EventTracked(stored, sid, name, data, env.now))
  {
    InitKeepsWellFormed(stored, sid, vid, variant, env);
    UpdatesKeepWellFormed(stored, sid, sec, name, data, env.now);
  }

  /** `initSession` keeps the persisted record well formed. */
  lemma InitKeepsWellFormed(stored: Option<Store>, sid: string, vid: string, variant: Option<string>, env: Env)
    requires WellFormed(stored)
    ensures WellFormed(Initialized(stored, sid, vid, variant, env))
  {
    if Find(Loaded(stored).sessions, sid).None? {
      CreatedWellFormed(stored, sid, vid, variant, env);
    } else {
      InitSessionExisting(stored, sid, vid, variant, env);
    }
  }

  /** Creating a session for a new id keeps the persisted record well formed:
      the new session's id is unique, it has no sections yet, and truncation
      only drops sessions. */
  lemma CreatedWellFormed(stored: Option<Store>, sid: string, vid: string, variant: Option<string>, env: Env)
    requires WellFormed(stored) && Find(Loaded(stored).sessions, sid).None?
    ensures WellFormed(Initialized(stored, sid, vid, variant, env))
  {
    var d := Loaded(stored);
    var s := NewSession(sid, vid, variant, env);
    InitializedMissing(stored, sid, vid, variant, env);
    AppendKeepsUnique(d.sessions, s);
    var all := d.sessions + [s];
    var ss := Initialized(stored, sid, vid, variant, env).value.sessions;
    assert ss == all[|all| - |ss|..];
    SuffixKeepsUnique(all, |all| - |ss|);
  }
}
