/** The tracker of `portfolio/src/utils/analytics.js` over explicit browser
    storage. Every operation loads its own copy of the persisted store,
    changes that copy, and saves the whole copy back; the persisted record
    and each loaded copy are kept apart, so a nested call's save can be
    overwritten by its caller's. */
module Analytics {
  import opened Wrappers
  import opened Sessions
  import opened Aggregates

  /** `sessions.find(s => s.sessionId === id)`: the index of the first
      session carrying `id`. */
  method FindSession(ss: seq<Session>, id: string) returns (r: Option<nat>)
    ensures r == Find(ss, id)
  {
    var k := 0;
    while k < |ss|
      invariant 0 <= k <= |ss|
      invariant forall j :: 0 <= j < k ==> ss[j].sessionId != id
    {
      if ss[k].sessionId == id {
        return Some(k);
      }
      k := k + 1;
    }
    return None;
  }

  /** The storage records of one browser profile and one tab. */
  class Browser {
    /** localStorage 'portfolio_analytics': the analytics store. */
    var stored: Option<Store>
    /** localStorage 'visitor_id'. */
    var visitorId: Option<string>
    /** sessionStorage 'portfolio_session': lives as long as the tab. */
    var sessionId: Option<string>
    /** localStorage 'ab_test_variant': the assigned experiment variant. */
    var abVariant: Option<string>

    /** A browser whose storage holds nothing yet. */
    constructor ()
      ensures stored == None && visitorId == None && sessionId == None && abVariant == None
    {
      stored, visitorId, sessionId, abVariant := None, None, None, None;
    }

    /** `getVisitorId`: the stored visitor id, or `generated`, which is then
        stored for good. */
    method GetVisitorId(generated: string) returns (id: string)
      modifies this
      ensures id == CurrentId(old(visitorId), generated) && visitorId == Some(id)
      ensures stored == old(stored) && sessionId == old(sessionId) && abVariant == old(abVariant)
    {
      if !Truthy(visitorId) {
        visitorId := Some(generated);
      }
      id := visitorId.value;
    }

    /** `getSessionId`: the tab's session id, or `generated`, which is then
        stored for the tab's lifetime. */
    method GetSessionId(generated: string) returns (id: string)
      modifies this
      ensures id == CurrentId(old(sessionId), generated) && sessionId == Some(id)
      ensures stored == old(stored) && visitorId == old(visitorId) && abVariant == old(abVariant)
    {
      if !Truthy(sessionId) {
        sessionId := Some(generated);
      }
      id := sessionId.value;
    }

    /** `getAnalyticsData`: a fresh copy of the persisted store, or the empty
        default when nothing is persisted. */
    method GetAnalyticsData() returns (data: Store)
      ensures data == Loaded(stored)
      ensures stored.None? ==> data.sessions == [] && data.totalVisits == 0 && data.lastVisit.None?
    {
      if stored.None? {
        return Store([], 0, None);
      }
      data := stored.value;
    }

    /** `saveAnalyticsData`: persists the store, cut to its newest
        `MaxSessions` sessions. */
    method SaveAnalyticsData(data: Store)
      modifies this
      ensures stored == Some(Truncated(data))
      ensures visitorId == old(visitorId) && sessionId == old(sessionId) && abVariant == old(abVariant)
    {
      var d := data;
      if |d.sessions| > MaxSessions {
        d := d.(sessions := d.sessions[|d.sessions| - MaxSessions..]);
      }
      stored := Some(d);
    }

    /** `initSession(variant)`: returns the tab's session id, creating and
        saving a session for it unless one exists. */
    method InitSession(variant: Option<string>, env: Env) returns (id: string)
      modifies this
      ensures id == CurrentId(old(sessionId), env.freshSessionId) && sessionId == Some(id)
      ensures visitorId == Some(CurrentId(old(visitorId), env.freshVisitorId))
      ensures stored == Initialized(old(stored), id, visitorId.value, variant, env)
      ensures WellFormed(old(stored)) ==> WellFormed(stored)
      ensures abVariant == old(abVariant)
    {
      if WellFormed(stored) {
        InitKeepsWellFormed(stored, CurrentId(sessionId, env.freshSessionId), CurrentId(visitorId, env.freshVisitorId), variant, env);
      }
      var data := GetAnalyticsData();
      id := GetSessionId(env.freshSessionId);
      var vid := GetVisitorId(env.freshVisitorId);
      var existing := FindSession(data.sessions, id);
      if existing.None? {
        var session := Session(id, vid, env.now, None, 1, [], [], variant,
                               env.userAgent, env.referrer, env.screenResolution);
        assert session == NewSession(id, vid, variant, env);
        data := data.(sessions := data.sessions + [session]);
        data := data.(totalVisits := data.totalVisits + 1);
        data := data.(lastVisit := Some(env.now));
        SaveAnalyticsData(data);
      }
    }

    /** `updateSessionEnd()`: stamps the current session's end time. */
    method UpdateSessionEnd(env: Env)
      modifies this
      ensures sessionId == Some(CurrentId(old(sessionId), env.freshSessionId))
      ensures stored == EndUpdated(old(stored), sessionId.value, env.now)
      ensures WellFormed(old(stored)) ==> WellFormed(stored)
      ensures visitorId == old(visitorId) && abVariant == old(abVariant)
    {
      if WellFormed(stored) {
        UpdatesKeepWellFormed(stored, CurrentId(sessionId, env.freshSessionId), "", "", map[], env.now);
      }
      ghost var start := stored;
      var data := GetAnalyticsData();
      var sid := GetSessionId(env.freshSessionId);
      var found := FindSession(data.sessions, sid);
      if found.Some? {
        var i := found.value;
        data := data.(sessions := data.sessions[i := data.sessions[i].(endTime := Some(env.now))]);
        assert EndUpdated(start, sid, env.now) == Some(Truncated(data));
        SaveAnalyticsData(data);
      }
    }

    /** `trackPageView()`. The nested `updateSessionEnd` saves its own copy;
        the caller's copy, loaded before it, is saved last. */
    method TrackPageView(env: Env)
      modifies this
      ensures sessionId == Some(CurrentId(old(sessionId), env.freshSessionId))
      ensures stored == PageViewed(old(stored), sessionId.value)
      ensures WellFormed(old(stored)) ==> WellFormed(stored)
      ensures visitorId == old(visitorId) && abVariant == old(abVariant)
    {
      if WellFormed(stored) {
        UpdatesKeepWellFormed(stored, CurrentId(sessionId, env.freshSessionId), "", "", map[], env.now);
      }
      ghost var start := stored;
      var data := GetAnalyticsData();
      var sid := GetSessionId(env.freshSessionId);
      var found := FindSession(data.sessions, sid);
      if found.Some? {
        var i := found.value;
        ghost var loaded := data;
        data := data.(sessions := data.sessions[i := data.sessions[i].(
          pageViews := data.sessions[i].pageViews + 1)]);
        PageViewedAt(start, sid, i, loaded, data);
        UpdateSessionEnd(env);
        SaveAnalyticsData(data);
      }
    }

    /** `trackSectionVisit(sectionId)`: records a section once per session. */
    method TrackSectionVisit(sectionId: string, env: Env)
      modifies this
      ensures sessionId == Some(CurrentId(old(sessionId), env.freshSessionId))
      ensures stored == SectionVisited(old(stored), sessionId.value, sectionId)
      ensures WellFormed(old(stored)) ==> WellFormed(stored)
      ensures visitorId == old(visitorId) && abVariant == old(abVariant)
    {
      if WellFormed(stored) {
        UpdatesKeepWellFormed(stored, CurrentId(sessionId, env.freshSessionId), sectionId, "", map[], env.now);
      }
      ghost var start := stored;
      var data := GetAnalyticsData();
      var sid := GetSessionId(env.freshSessionId);
      var found := FindSession(data.sessions, sid);
      if found.Some? && sectionId !in data.sessions[found.value].sectionsVisited {
        var i := found.value;
        data := data.(sessions := data.sessions[i := data.sessions[i].(
          sectionsVisited := data.sessions[i].sectionsVisited + [sectionId])]);
        UpdateSessionEnd(env);
        assert SectionVisited(start, sid, sectionId) == Some(Truncated(data));
        SaveAnalyticsData(data);
      }
    }

    /** `trackEvent(eventName, eventData)`: appends an event stamped `now`. */
    method TrackEvent(eventName: string, eventData: map<string, string>, env: Env)
      modifies this
      ensures sessionId == Some(CurrentId(old(sessionId), env.freshSessionId))
      ensures stored == EventTracked(old(stored), sessionId.value, eventName, eventData, env.now)
      ensures WellFormed(old(stored)) ==> WellFormed(stored)
      ensures visitorId == old(visitorId) && abVariant == old(abVariant)
    {
      if WellFormed(stored) {
        UpdatesKeepWellFormed(stored, CurrentId(sessionId, env.freshSessionId), "", eventName, eventData, env.now);
      }
      ghost var start := stored;
      var data := GetAnalyticsData();
      var sid := GetSessionId(env.freshSessionId);
      var found := FindSession(data.sessions, sid);
      if found.Some? {
        var i := found.value;
        data := data.(sessions := data.sessions[i := data.sessions[i].(
          events := data.sessions[i].events + [Event(eventName, eventData, env.now)])]);
        UpdateSessionEnd(env);
        assert EventTracked(start, sid, eventName, eventData, env.now) == Some(Truncated(data));
        SaveAnalyticsData(data);
      }
    }

    /** `getAnalyticsSummary()` at clock reading `now`; it saves nothing. */
    method GetAnalyticsSummary(now: int) returns (summary: Summary)
      ensures summary == Summarize(Loaded(stored), now)
      ensures summary.totalSessions == |Loaded(stored).sessions|
      ensures summary.last7DaysSessions <= summary.last30DaysSessions <= summary.totalSessions
    {
      var data := GetAnalyticsData();
      var last7Days := now - 7 * DayMs;
      var last30Days := now - 30 * DayMs;
      var recentSessions := CountSince(data.sessions, last7Days);
      var monthlySessions := CountSince(data.sessions, last30Days);
      var avgDuration := AverageDuration(data.sessions);
      var sectionCounts := SectionPopularity(data.sessions);
      var variantStats := VariantStatistics(data.sessions);
      summary := Summary(data.totalVisits, |data.sessions|, recentSessions, monthlySessions,
                         avgDuration, sectionCounts, variantStats, data.lastVisit);
      SummaryCounts(data, now);
    }

    /** `clearAnalyticsData()`: removes the analytics record only. */
    method ClearAnalyticsData()
      modifies this
      ensures stored == None && Loaded(stored) == EmptyStore()
      ensures visitorId == old(visitorId) && sessionId == old(sessionId) && abVariant == old(abVariant)
    {
      stored := None;
    }
  }
}
