/** The A/B test provider of `portfolio/src/contexts/ABTestContext.jsx`:
    the variant assigned on mount and the manual switch, over the browser
    storage of Analytics. */
module ABTest {
  import opened Wrappers
  import opened Sessions
  import opened Analytics

  /** The keys of `VARIANTS`, in declaration order. */
  const VariantKeys: seq<string> := ["BLUE", "INDIGO"]
  /** `Object.values(VARIANTS)`, in declaration order. */
  const VariantValues: seq<string> := ["blue", "indigo"]

  /** The colour schemes of `COLOR_SCHEMES`, by display name; the palettes
      themselves are presentation. */
  datatype Scheme = DeepBlue | CorporateIndigo

  /** `VARIANTS[key]`: defined exactly for the two upper-case keys. */
  function VariantNamed(key: string): (r: Option<string>)
    ensures r.Some? <==> key in VariantKeys
    ensures r.Some? ==> r.value in VariantValues
  {
    if key == VariantKeys[0] then Some(VariantValues[0])
    else if key == VariantKeys[1] then Some(VariantValues[1])
    else None
  }

  /** `COLOR_SCHEMES[v]`: defined exactly for the two variant values. */
  function SchemeOf(v: string): (r: Option<Scheme>)
    ensures r.Some? <==> v in VariantValues
  {
    if v == "blue" then Some(DeepBlue)
    else if v == "indigo" then Some(CorporateIndigo)
    else None
  }

  /** `toUpperCase` on one character, for every character whose upper case
      is an ASCII letter: the ASCII letters, dotless i and long s. Any other
      character is left as it is. */
  function UpperChar(c: char): char
  {
    if 'a' <= c <= 'z' then (c as int - 'a' as int + 'A' as int) as char
    else if c == '\U{0131}' then 'I'
    else if c == '\U{017F}' then 'S'
    else c
  }

  /** `String.prototype.toUpperCase`, character by character. */
  function UpperCase(s: string): (r: string)
    ensures |r| == |s|
    ensures forall i :: 0 <= i < |s| ==> r[i] == UpperChar(s[i])
  {
    if |s| == 0 then "" else [UpperChar(s[0])] + UpperCase(s[1..])
  }

  /** The guard of `switchVariant`: `VARIANTS[newVariant.toUpperCase()]`. */
  predicate Accepts(newVariant: string)
  {
    VariantNamed(UpperCase(newVariant)).Some?
  }

  /** `variants[Math.floor(Math.random() * variants.length)]` for a roll of
      `Math.random()`. */
  function PickVariant(roll: real): (v: string)
    requires 0.0 <= roll < 1.0
    ensures v in VariantValues
    ensures v == "blue" <==> roll < 0.5
  {
    var k := (roll * |VariantValues| as real).Floor;
    assert 0 <= k < 2;
    VariantValues[k]
  }

  /** `ABTestProvider`: its React state and the browser it runs in. */
  class Provider {
    /** React state `variant`. */
    var variant: Option<string>
    /** React state `colorScheme`. */
    var colorScheme: Option<Scheme>
    /** The browser whose storage the provider reads and writes. */
    const browser: Browser

    /** A provider before its mount effect has run. */
    constructor (b: Browser)
      ensures browser == b && variant == None && colorScheme == None
    {
      browser := b;
      variant, colorScheme := None, None;
    }

    /** The mount effect: keeps a stored variant, or assigns one from `roll`,
        persists it and tracks `ab_test_assigned`; then sets the React state
        and starts the analytics session tagged with the variant. */
    method Mount(roll: real, env: Env)
      requires 0.0 <= roll < 1.0
      modifies this, browser
      ensures Truthy(old(browser.abVariant)) ==> variant == old(browser.abVariant)
      ensures !Truthy(old(browser.abVariant)) ==> variant == Some(PickVariant(roll))
      ensures Truthy(variant) && browser.abVariant == variant
      ensures colorScheme == SchemeOf(variant.value)
      ensures browser.sessionId == Some(CurrentId(old(browser.sessionId), env.freshSessionId))
      ensures browser.visitorId == Some(CurrentId(old(browser.visitorId), env.freshVisitorId))
      ensures browser.stored == Initialized(
                if Truthy(old(browser.abVariant)) then old(browser.stored)
                else EventTracked(old(browser.stored), browser.sessionId.value, "ab_test_assigned",
                                  map["variant" := variant.value], env.now),
                browser.sessionId.value, browser.visitorId.value, variant, env)
    {
      var assignedVariant := browser.abVariant;
      if !Truthy(assignedVariant) {
        var v := PickVariant(roll);
        assignedVariant := Some(v);
        browser.abVariant := assignedVariant;
        browser.TrackEvent("ab_test_assigned", map["variant" := v], env);
      }
      variant := assignedVariant;
      colorScheme := SchemeOf(assignedVariant.value);
      ghost var tracked := browser.stored;
      var sid := browser.InitSession(assignedVariant, env);
      ghost var vid := browser.visitorId.value;
      assert browser.stored == Initialized(tracked, sid, vid, assignedVariant, env);
      CurrentIdKept(old(browser.sessionId), env.freshSessionId);
    }

    /** `switchVariant(newVariant)` up to the page reload: an accepted name is
        persisted and put into state exactly as given, and tracked as
        `ab_test_manual_switch`; any other name changes nothing. */
    method SwitchVariant(newVariant: string, env: Env)
      modifies this, browser
      ensures !Accepts(newVariant) ==> unchanged(this) && unchanged(browser)
      ensures Accepts(newVariant) ==>
                && variant == Some(newVariant)
                && colorScheme == SchemeOf(newVariant)
                && browser.abVariant == Some(newVariant)
                && browser.sessionId == Some(CurrentId(old(browser.sessionId), env.freshSessionId))
                && browser.stored == EventTracked(old(browser.stored), browser.sessionId.value,
                                                  "ab_test_manual_switch", map["variant" := newVariant], env.now)
                && browser.visitorId == old(browser.visitorId)
    {
      if VariantNamed(UpperCase(newVariant)).Some? {
        browser.abVariant := Some(newVariant);
        variant := Some(newVariant);
        colorScheme := SchemeOf(newVariant);
        browser.TrackEvent("ab_test_manual_switch", map["variant" := newVariant], env);
      }
    }
  }

  /** An accepted switch followed by the page reload, which mounts a new
      provider in the same tab: the new provider shows exactly the name
      that was passed, whether or not it has a colour scheme, and the
      reload's `initSession` runs with that name. When the tab's session is
      already stored, the reload finds it, so the session keeps the variant
      it was created with: the switch tags only later sessions. */
  method SwitchAndReload(p: Provider, newVariant: string, env: Env, roll: real, reloadEnv: Env)
    returns (q: Provider)
    requires 0.0 <= roll < 1.0
    modifies p, p.browser
    ensures !Accepts(newVariant) ==> q == p && unchanged(p) && unchanged(p.browser)
    ensures Accepts(newVariant) ==>
              && q.browser == p.browser
              && q.variant == Some(newVariant) && p.browser.abVariant == Some(newVariant)
              && q.colorScheme == SchemeOf(newVariant)
              && p.browser.sessionId == Some(CurrentId(Some(CurrentId(old(p.browser.sessionId), env.freshSessionId)),
                                                       reloadEnv.freshSessionId))
              && p.browser.visitorId == Some(CurrentId(old(p.browser.visitorId), reloadEnv.freshVisitorId))
              && p.browser.stored == Initialized(
                   EventTracked(old(p.browser.stored), CurrentId(old(p.browser.sessionId), env.freshSessionId),
                                "ab_test_manual_switch", map["variant" := newVariant], env.now),
                   p.browser.sessionId.value, p.browser.visitorId.value, Some(newVariant), reloadEnv)
    ensures Accepts(newVariant) && Truthy(old(p.browser.sessionId))
            && |Loaded(old(p.browser.stored)).sessions| <= MaxSessions
            && Find(Loaded(old(p.browser.stored)).sessions, old(p.browser.sessionId).value).Some? ==>
              var i := Find(Loaded(old(p.browser.stored)).sessions, old(p.browser.sessionId).value).value;
              && p.browser.sessionId == old(p.browser.sessionId)
              && p.browser.stored == EventTracked(old(p.browser.stored), old(p.browser.sessionId).value,
                                                  "ab_test_manual_switch", map["variant" := newVariant], env.now)
              && Loaded(p.browser.stored).sessions[i].variant == Loaded(old(p.browser.stored)).sessions[i].variant
  {
    ghost var before := p.browser.stored;
    p.SwitchVariant(newVariant, env);
    if !Accepts(newVariant) {
      return p;
    }
    AcceptedNames(newVariant);
    ghost var switched := p.browser.stored;
    ghost var sid := p.browser.sessionId.value;
    q := new Provider(p.browser);
    q.Mount(roll, reloadEnv);
    if Truthy(old(p.browser.sessionId)) && |Loaded(before).sessions| <= MaxSessions
       && Find(Loaded(before).sessions, sid).Some? {
      ReloadFindsSession(before, sid, newVariant, env.now, reloadEnv, p.browser.visitorId.value);
    }
  }

  // ---------------------------------------------------------------------
  // Lemmas
  // ---------------------------------------------------------------------

  /** An id read back after it was stored is the id that was stored. */
  lemma CurrentIdKept(kept: Option<string>, generated: string)
    ensures CurrentId(Some(CurrentId(kept, generated)), generated) == CurrentId(kept, generated)
  {
  }

  /** The switch guard matches a name letter by letter, ignoring case: it
      accepts exactly the spellings of "blue" and "indigo" whose characters
      upper-case to the key's letters. Such a name is never empty. */
  lemma AcceptedNames(s: string)
    ensures Accepts(s) <==>
              || (|s| == 4 && forall i :: 0 <= i < 4 ==> UpperChar(s[i]) == "BLUE"[i])
              || (|s| == 6 && forall i :: 0 <= i < 6 ==> UpperChar(s[i]) == "INDIGO"[i])
    ensures Accepts(s) ==> s != ""
  {
    var u := UpperCase(s);
    if |s| == 4 && forall i :: 0 <= i < 4 ==> UpperChar(s[i]) == "BLUE"[i] {
      assert u == "BLUE";
    }
    if |s| == 6 && forall i :: 0 <= i < 6 ==> UpperChar(s[i]) == "INDIGO"[i] {
      assert u == "INDIGO";
    }
  }

  /** Both variant values pass the switch guard. */
  lemma VariantValuesAccepted()
    ensures forall v :: v in VariantValues ==> Accepts(v)
  {
    assert UpperCase("blue") == "BLUE";
    assert UpperCase("indigo") == "INDIGO";
  }

  /** Other spellings pass the guard too: "BLUE" is not a variant value, and
      neither "BLUE" nor "ındigo" has a colour scheme. */
  lemma OtherSpellingsAccepted()
    ensures Accepts("BLUE") && "BLUE" !in VariantValues && SchemeOf("BLUE").None?
    ensures Accepts("\U{0131}ndigo") && SchemeOf("\U{0131}ndigo").None?
  {
    assert UpperCase("BLUE") == "BLUE";
    assert UpperCase("\U{0131}ndigo") == "INDIGO";
  }

  /** Names that are not a spelling of a key are refused. */
  lemma OtherNamesRefused()
    ensures !Accepts("green") && !Accepts("") && !Accepts("blue ") && !Accepts("bleu")
  {
    assert UpperCase("bleu")[2] == 'E';
  }

  /** The reload after a manual switch finds the session the switch tracked
      its event in, so its `initSession` persists nothing and the session's
      variant tag stays as it was. */
  lemma ReloadFindsSession(stored: Option<Store>, sid: string, name: string, now: int, env: Env, vid: string)
    requires |Loaded(stored).sessions| <= MaxSessions
    requires Find(Loaded(stored).sessions, sid).Some?
    ensures var tracked := EventTracked(stored, sid, "ab_test_manual_switch", map["variant" := name], now);
            var i := Find(Loaded(stored).sessions, sid).value;
            && Initialized(tracked, sid, vid, Some(name), env) == tracked
            && Loaded(tracked).sessions[i].variant == Loaded(stored).sessions[i].variant
  {
    var i := Find(Loaded(stored).sessions, sid).value;
    var tracked := EventTracked(stored, sid, "ab_test_manual_switch", map["variant" := name], now);
    TrackEventEffect(stored, sid, "ab_test_manual_switch", map["variant" := name], now, i);
    SameIdsSameFind(Loaded(stored).sessions, Loaded(tracked).sessions, sid);
    InitSessionExisting(tracked, sid, vid, Some(name), env);
  }

  /** On a visitor's first mount in a new tab the `ab_test_assigned` event is
      tracked before the session exists, so it is lost: the session created
      next starts with no events. */
  lemma FirstVisitEventDropped(stored: Option<Store>, sid: string, vid: string, variant: Option<string>,
                               env: Env, data: map<string, string>)
    requires Find(Loaded(stored).sessions, sid).None?
    ensures var after := Initialized(EventTracked(stored, sid, "ab_test_assigned", data, env.now),
                                     sid, vid, variant, env);
            && after.Some?
            && Find(after.value.sessions, sid) == Some(|after.value.sessions| - 1)
            && after.value.sessions[|after.value.sessions| - 1].events == []
  {
    MissingSessionNoOp(stored, sid, "", "ab_test_assigned", data, env.now);
    assert EventTracked(stored, sid, "ab_test_assigned", data, env.now) == stored;
    InitSessionCreates(stored, sid, vid, variant, env);
    InitSessionFindsNew(stored, sid, vid, variant, env);
  }
}
