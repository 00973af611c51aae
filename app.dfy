/**
 * The application shell: the signed-in user's data (offers, sources, filter
 * criteria), the active tab and the onboarding and dirty flags, with the
 * handlers that change them. The new lists are computed by pure functions; the
 * `AppState` class holds the component state the handlers update.
 */
module App {
  import opened Options
  import opened Seqs
  import opened Types
  import JobList

  // ---------------------------------------------------------------------------
  // Job sources
  // ---------------------------------------------------------------------------

  /** `[...sources, { ...draft, id, lastSync: undefined }]`. */
  function AppendSource(sources: seq<JobSource>, draft: SourceDraft, id: string): (r: seq<JobSource>)
    ensures |r| == |sources| + 1 && r[..|sources|] == sources
    ensures var added := r[|sources|];
      && added.id == id && added.name == draft.name && added.kind == draft.kind
      && added.url == draft.url && added.enabled == draft.enabled && added.lastSync == None
  {
    sources + [JobSource(id, draft.name, draft.kind, draft.url, draft.enabled, None)]
  }

  /** `sources.map(s => s.id === id ? { ...s, enabled: !s.enabled } : s)`. */
  function ToggleEnabled(sources: seq<JobSource>, id: string): (r: seq<JobSource>)
    ensures |r| == |sources|
    ensures forall i :: 0 <= i < |r| ==> r[i].enabled == (sources[i].enabled != (sources[i].id == id))
    ensures forall i :: 0 <= i < |r| ==> r[i].(enabled := sources[i].enabled) == sources[i]
  {
    seq(|sources|, i requires 0 <= i < |sources| =>
      if sources[i].id == id then sources[i].(enabled := !sources[i].enabled) else sources[i])
  }

  /** `sources.filter(s => s.id !== id)`. */
  function RemoveSources(sources: seq<JobSource>, id: string): (r: seq<JobSource>)
    ensures IsSubsequence(r, sources)
    ensures forall i :: 0 <= i < |r| ==> r[i].id != id
    ensures forall i :: 0 <= i < |sources| && sources[i].id != id ==> sources[i] in r
  {
    var other := (s: JobSource) => s.id != id;
    FilterIsSubsequence(other, sources);
    Filter(other, sources)
  }

  /** `sources.map(s => s.id === id ? { ...s, lastSync: now } : s)`. */
  function StampSync(sources: seq<JobSource>, id: string, now: int): (r: seq<JobSource>)
    ensures |r| == |sources|
    ensures forall i :: 0 <= i < |r| ==> r[i].lastSync == if sources[i].id == id then Some(now) else sources[i].lastSync
    ensures forall i :: 0 <= i < |r| ==> r[i].(lastSync := sources[i].lastSync) == sources[i]
  {
    seq(|sources|, i requires 0 <= i < |sources| =>
      if sources[i].id == id then sources[i].(lastSync := Some(now)) else sources[i])
  }

  /** Toggling the same id twice is the identity. */
  lemma ToggleEnabledTwice(sources: seq<JobSource>, id: string)
    ensures ToggleEnabled(ToggleEnabled(sources, id), id) == sources
  {
    var once := ToggleEnabled(sources, id);
    var twice := ToggleEnabled(once, id);
    forall i | 0 <= i < |sources|
      ensures twice[i] == sources[i]
    {
      assert once[i].id == sources[i].id;
      assert twice[i].(enabled := once[i].enabled) == once[i];
    }
  }

  /** Every source with the id is removed, each other source stays as often as it was. */
  lemma RemoveSourcesMultiplicity(sources: seq<JobSource>, id: string, s: JobSource)
    ensures multiset(RemoveSources(sources, id))[s] == if s.id == id then 0 else multiset(sources)[s]
  {
    FilterMultiplicity((x: JobSource) => x.id != id, sources, s);
  }

  /** Deleting an id no source carries changes nothing. */
  lemma RemoveAbsentSource(sources: seq<JobSource>, id: string)
    requires forall i :: 0 <= i < |sources| ==> sources[i].id != id
    ensures RemoveSources(sources, id) == sources
  {
    FilterAll((x: JobSource) => x.id != id, sources);
  }

  /** Deleting the id of a source just added undoes the addition (and removes older sources with that id). */
  lemma RemoveUndoesAppend(sources: seq<JobSource>, draft: SourceDraft, id: string)
    ensures RemoveSources(AppendSource(sources, draft, id), id) == RemoveSources(sources, id)
  {
    var added := JobSource(id, draft.name, draft.kind, draft.url, draft.enabled, None);
    FilterAppend((x: JobSource) => x.id != id, sources, [added]);
  }

  // ---------------------------------------------------------------------------
  // Filters extracted from a résumé
  // ---------------------------------------------------------------------------

  /** `Partial<FilterCriteria>`: each list present or absent. */
  datatype PartialFilters = PartialFilters(
    stack: Option<seq<string>>,
    experience: Option<seq<string>>,
    keywords: Option<seq<string>>,
    location: Option<seq<string>>,
    jobType: Option<seq<string>>,
    excludeKeywords: Option<seq<string>>)

  function GetPartial(p: PartialFilters, field: Field): Option<seq<string>> {
    match field
    case Stack => p.stack
    case Experience => p.experience
    case Keywords => p.keywords
    case Location => p.location
    case JobType => p.jobType
    case ExcludeKeywords => p.excludeKeywords
  }

  /** `{ ...filters, ...partial }`: the lists `partial` holds win, the others are kept. */
  function Merge(filters: FilterCriteria, partial: PartialFilters): (r: FilterCriteria)
    ensures forall field :: GetPartial(partial, field).Some? ==> Get(r, field) == GetPartial(partial, field).value
    ensures forall field :: GetPartial(partial, field).None? ==> Get(r, field) == Get(filters, field)
  {
    FilterCriteria(
      partial.stack.GetOr(filters.stack),
      partial.experience.GetOr(filters.experience),
      partial.keywords.GetOr(filters.keywords),
      partial.location.GetOr(filters.location),
      partial.jobType.GetOr(filters.jobType),
      partial.excludeKeywords.GetOr(filters.excludeKeywords))
  }

  /** Merging the same partial criteria twice is merging once; merging nothing changes nothing. */
  lemma MergeIdempotent(filters: FilterCriteria, partial: PartialFilters)
    ensures Merge(Merge(filters, partial), partial) == Merge(filters, partial)
    ensures Merge(filters, PartialFilters(None, None, None, None, None, None)) == filters
  {
    CriteriaExtensional(Merge(Merge(filters, partial), partial), Merge(filters, partial));
    CriteriaExtensional(Merge(filters, PartialFilters(None, None, None, None, None, None)), filters);
  }

  // ---------------------------------------------------------------------------
  // Tabs
  // ---------------------------------------------------------------------------

  /** The tabs reachable while a résumé is required. */
  predicate OnboardingTab(tab: string) {
    tab == "cv" || tab == "settings"
  }

  /** `handleTabChange`: the tab after a request to switch to `requested`. */
  function NextTab(resumeRequired: bool, current: string, requested: string): (r: string)
    ensures !resumeRequired ==> r == requested
    ensures resumeRequired ==> (r == requested <==> OnboardingTab(requested) || requested == current)
    ensures resumeRequired ==> (r == requested || r == current)
  {
    if resumeRequired && requested != "cv" && requested != "settings" then current else requested
  }

  /** While a résumé is required, switching tabs never leaves the onboarding tabs. */
  lemma NextTabKeepsOnboarding(current: string, requested: string)
    requires OnboardingTab(current)
    ensures OnboardingTab(NextTab(true, current, requested))
  {
  }

  // ---------------------------------------------------------------------------
  // Dashboard figure
  // ---------------------------------------------------------------------------

  /** `matchedJobs = jobs.filter(j => j.isMatch)`. */
  function MatchedJobs(jobs: seq<JobOffer>): (r: seq<JobOffer>)
    ensures IsSubsequence(r, jobs)
    ensures forall i :: 0 <= i < |r| ==> r[i].isMatch
    ensures forall i :: 0 <= i < |jobs| && jobs[i].isMatch ==> jobs[i] in r
  {
    FilterIsSubsequence((j: JobOffer) => j.isMatch, jobs);
    Filter((j: JobOffer) => j.isMatch, jobs)
  }

  /** The dashboard's matched figure is the job list's Matched count, and what its Matched tab shows with no search. */
  lemma DashboardMatchesJobList(jobs: seq<JobOffer>, sortBy: string, now: int)
    ensures |MatchedJobs(jobs)| == JobList.MatchedCount(jobs)
    ensures |MatchedJobs(jobs)| == |JobList.View(jobs, "", "matched", sortBy, now)|
  {
    JobList.CountsAgreeWithTabs(jobs, "", sortBy, now);
  }

  // ---------------------------------------------------------------------------
  // The component state
  // ---------------------------------------------------------------------------

  /** `!userEmail` is false: an address is known and it is not the empty string. */
  predicate HasEmail(email: Option<string>) {
    email.Some? && email.value != ""
  }

  /** All the state the handlers read or write, as one value. */
  datatype Fields = Fields(
    isAuthenticated: bool,
    showRegister: bool,
    registerSuccess: bool,
    userEmail: Option<string>,
    resumeRequired: bool,
    jobs: seq<JobOffer>,
    sources: seq<JobSource>,
    filters: FilterCriteria,
    activeTab: string,
    isFiltersDirty: bool)

  class AppState {
    var isAuthenticated: bool
    var showRegister: bool
    var registerSuccess: bool
    var userEmail: Option<string>
    var resumeRequired: bool
    var jobs: seq<JobOffer>
    var sources: seq<JobSource>
    var filters: FilterCriteria
    var activeTab: string
    var isFiltersDirty: bool

    function Current(): Fields
      reads this
    {
      Fields(isAuthenticated, showRegister, registerSuccess, userEmail, resumeRequired,
             jobs, sources, filters, activeTab, isFiltersDirty)
    }

    /** While a résumé is required, only the onboarding tabs are shown. */
    predicate OnboardingGuard()
      reads this
    {
      resumeRequired ==> OnboardingTab(activeTab)
    }

    /** The initial state: signed out, no data, the dashboard tab, nothing dirty. */
    constructor ()
      ensures Current() == Fields(false, false, false, None, false, [], [], NoFilters, "dashboard", false)
      ensures OnboardingGuard()
    {
      isAuthenticated, showRegister, registerSuccess := false, false, false;
      userEmail, resumeRequired := None, false;
      jobs, sources, filters := [], [], NoFilters;
      activeTab, isFiltersDirty := "dashboard", false;
    }

    /** `handleLogin` and `handleRegister`: signed in as `email`, register screen closed. */
    method Login(email: string)
      modifies this
      ensures Current() == old(Current()).(isAuthenticated := true, showRegister := false, userEmail := Some(email))
    {
      isAuthenticated := true;
      showRegister := false;
      userEmail := Some(email);
    }

    /** `handleLogout`: everything the user owns is cleared; the dirty flag and register screen are left alone. */
    method Logout()
      modifies this
      ensures Current() == old(Current()).(
        isAuthenticated := false, userEmail := None, activeTab := "dashboard",
        jobs := [], sources := [], filters := NoFilters,
        resumeRequired := false, registerSuccess := false)
      ensures OnboardingGuard()
      ensures forall field :: Get(filters, field) == []
    {
      isAuthenticated := false;
      userEmail := None;
      activeTab := "dashboard";
      jobs := [];
      sources := [];
      filters := NoFilters;
      resumeRequired := false;
      registerSuccess := false;
    }

    /** `handleAddSource`: one source appended with the supplied fresh id. */
    method AddSource(draft: SourceDraft, freshId: string)
      modifies this
      ensures Current() == old(Current()).(sources := AppendSource(old(sources), draft, freshId))
    {
      sources := AppendSource(sources, draft, freshId);
    }

    /** `handleToggleSource`. */
    method ToggleSource(id: string)
      modifies this
      ensures Current() == old(Current()).(sources := ToggleEnabled(old(sources), id))
    {
      sources := ToggleEnabled(sources, id);
    }

    /** `handleDeleteSource`. */
    method DeleteSource(id: string)
      modifies this
      ensures Current() == old(Current()).(sources := RemoveSources(old(sources), id))
    {
      sources := RemoveSources(sources, id);
    }

    /** `handleSyncSource`, stamping the instant `now`. */
    method SyncSource(id: string, now: int)
      modifies this
      ensures Current() == old(Current()).(sources := StampSync(old(sources), id, now))
    {
      sources := StampSync(sources, id, now);
    }

    /** `handleUpdateFilters`: new criteria, now unsaved. */
    method UpdateFilters(f: FilterCriteria)
      modifies this
      ensures Current() == old(Current()).(filters := f, isFiltersDirty := true)
    {
      filters := f;
      isFiltersDirty := true;
    }

    /**
     * `handleExtractFilters`: merges the extracted lists and opens the filters tab.
     * The dirty flag is not touched, and the tab is opened even while a résumé
     * is required.
     */
    method ExtractFilters(partial: PartialFilters)
      modifies this
      ensures Current() == old(Current()).(filters := Merge(old(filters), partial), activeTab := "filters")
    {
      filters := Merge(filters, partial);
      activeTab := "filters";
    }

    /**
     * `handleSaveFilters` up to its request: with a known address the criteria
     * held now are sent (the returned value); without one nothing is sent.
     * No state changes.
     */
    method BeginSave() returns (sent: Option<FilterCriteria>)
      ensures sent.Some? <==> HasEmail(userEmail)
      ensures sent.Some? ==> sent.value == filters
    {
      if !HasEmail(userEmail) {
        return None;
      }
      sent := Some(filters);
    }

    /**
     * The continuation of `handleSaveFilters` once the server has answered: a
     * success status clears the dirty flag, whatever the criteria are by then;
     * a failure status or a failed request changes nothing.
     */
    method FinishSave(responseOk: bool)
      modifies this
      ensures Current() == if responseOk then old(Current()).(isFiltersDirty := false) else old(Current())
    {
      if responseOk {
        isFiltersDirty := false;
      }
    }

    /**
     * A save with no other handler running while the request is in flight:
     * the criteria stop being dirty iff an address is known and the server
     * answered with success.
     */
    method SaveFilters(responseOk: bool)
      modifies this
      ensures Current() == if HasEmail(old(userEmail)) && responseOk
                           then old(Current()).(isFiltersDirty := false)
                           else old(Current())
    {
      var sent := BeginSave();
      if sent.Some? {
        FinishSave(responseOk);
      }
    }

    /** `handleTabChange`. */
    method TabChange(value: string)
      modifies this
      ensures Current() == old(Current()).(activeTab := NextTab(old(resumeRequired), old(activeTab), value))
      ensures old(OnboardingGuard()) ==> OnboardingGuard()
    {
      if resumeRequired && value != "cv" && value != "settings" {
        return;
      }
      activeTab := value;
    }
  }

  /**
   * An edit made while a save request is in flight: `UpdateFilters` marks the
   * new criteria unsaved, and the late success response then clears the flag,
   * although the criteria held are not the ones that were sent.
   */
  method EditDuringSave(email: string, saved: FilterCriteria, edited: FilterCriteria)
    returns (sent: Option<FilterCriteria>, held: FilterCriteria, dirty: bool)
    requires email != ""
    ensures sent == Some(saved) && held == edited && !dirty
  {
    var app := new AppState();
    app.Login(email);
    app.UpdateFilters(saved);
    sent := app.BeginSave();
    app.UpdateFilters(edited);
    app.FinishSave(true);
    held, dirty := app.filters, app.isFiltersDirty;
  }
}
