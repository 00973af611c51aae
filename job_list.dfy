/**
 * The job-listing view: from the collected offers and the query state (search
 * text, active tab, sort key) and the current instant, the ordered list of
 * offers to display, the two tab counts and the relative posting-date label.
 */
module JobList {
  import opened Text
  import opened Seqs
  import opened Types

  /** One day and one week in milliseconds. */
  const DayMs := 1000 * 60 * 60 * 24
  const WeekMs := 7 * 24 * 60 * 60 * 1000

  // ---------------------------------------------------------------------------
  // Search and tab predicates
  // ---------------------------------------------------------------------------

  /**
   * The search test: the lower-cased query is included in the lower-cased title,
   * the lower-cased company, or some lower-cased entry of the stack.
   */
  predicate MatchesSearch(job: JobOffer, query: string) {
    var q := Lower(query);
    || Includes(Lower(job.title), q)
    || Includes(Lower(job.company), q)
    || (exists tech :: tech in job.stack && Includes(Lower(tech), q))
  }

  /** Posted strictly later than one week before `now`. */
  predicate IsNew(job: JobOffer, now: int) {
    job.posted > now - WeekMs
  }

  /** The tab test. Tab names other than the three known ones admit nothing. */
  predicate MatchesTab(job: JobOffer, tab: string, now: int) {
    || tab == "all"
    || (tab == "matched" && job.isMatch)
    || (tab == "new" && IsNew(job, now))
  }

  predicate Keep(job: JobOffer, query: string, tab: string, now: int) {
    MatchesSearch(job, query) && MatchesTab(job, tab, now)
  }

  /** The empty query matches every offer. */
  lemma EmptyQueryMatchesAll(job: JobOffer)
    ensures MatchesSearch(job, "")
  {
    assert Lower("") == "";
    IncludesEmpty(Lower(job.title));
  }

  /**
   * For a non-empty query, the search test holds exactly when the lower-cased
   * query occurs somewhere in the lower-cased title, company or a stack entry.
   */
  lemma SearchIffOccurs(job: JobOffer, query: string)
    ensures MatchesSearch(job, query) <==>
      || (exists i :: OccursAt(Lower(job.title), Lower(query), i))
      || (exists i :: OccursAt(Lower(job.company), Lower(query), i))
      || (exists tech, i :: tech in job.stack && OccursAt(Lower(tech), Lower(query), i))
  {
    var q := Lower(query);
    IncludesIffOccurs(Lower(job.title), q);
    IncludesIffOccurs(Lower(job.company), q);
    forall tech | tech in job.stack
      ensures Includes(Lower(tech), q) <==> exists i :: OccursAt(Lower(tech), q, i)
    {
      IncludesIffOccurs(Lower(tech), q);
    }
  }

  /** How each tab value admits an offer. */
  lemma TabSemantics(job: JobOffer, tab: string, now: int)
    ensures tab == "all" ==> MatchesTab(job, tab, now)
    ensures tab == "matched" ==> (MatchesTab(job, tab, now) <==> job.isMatch)
    ensures tab == "new" ==> (MatchesTab(job, tab, now) <==> job.posted > now - 604800000)
    ensures tab != "all" && tab != "matched" && tab != "new" ==> !MatchesTab(job, tab, now)
  {
  }

  // ---------------------------------------------------------------------------
  // filteredJobs
  // ---------------------------------------------------------------------------

  /**
   * `filteredJobs`: the offers passing both tests, as an order-preserving
   * selection of `jobs`.
   */
  function FilterJobs(jobs: seq<JobOffer>, query: string, tab: string, now: int): (r: seq<JobOffer>)
    ensures IsSubsequence(r, jobs)
    ensures forall i :: 0 <= i < |r| ==> MatchesSearch(r[i], query) && MatchesTab(r[i], tab, now)
    ensures forall i :: 0 <= i < |jobs| && MatchesSearch(jobs[i], query) && MatchesTab(jobs[i], tab, now) ==> jobs[i] in r
  {
    var keep := job => Keep(job, query, tab, now);
    FilterIsSubsequence(keep, jobs);
    Filter(keep, jobs)
  }

  /** An offer appears in the filtered list as often as in `jobs` when it passes both tests, and never otherwise. */
  lemma FilterJobsMultiplicity(jobs: seq<JobOffer>, query: string, tab: string, now: int, job: JobOffer)
    ensures multiset(FilterJobs(jobs, query, tab, now))[job] ==
      if MatchesSearch(job, query) && MatchesTab(job, tab, now) then multiset(jobs)[job] else 0
  {
    FilterMultiplicity(job => Keep(job, query, tab, now), jobs, job);
  }

  // ---------------------------------------------------------------------------
  // sortedJobs
  // ---------------------------------------------------------------------------

  /** The value the comparator orders by: higher first. Unknown sort keys give every offer the same value. */
  function SortKey(job: JobOffer, sortBy: string): int {
    if sortBy == "matchScore" then job.matchScore
    else if sortBy == "date" then job.posted
    else 0
  }

  /** The comparator passed to `sort`: negative keeps `a` before `b`, positive puts `b` first. */
  function Compare(a: JobOffer, b: JobOffer, sortBy: string): (c: int)
    ensures c == SortKey(b, sortBy) - SortKey(a, sortBy)
  {
    if sortBy == "matchScore" then b.matchScore - a.matchScore
    else if sortBy == "date" then b.posted - a.posted
    else 0
  }

  /** Non-increasing in the sort key. */
  predicate SortedDesc(s: seq<JobOffer>, sortBy: string) {
    forall i, j :: 0 <= i < j < |s| ==> SortKey(s[i], sortBy) >= SortKey(s[j], sortBy)
  }

  /** The offers of `s` whose sort key is `k`, in the order of `s`. */
  function WithKey(s: seq<JobOffer>, sortBy: string, k: int): seq<JobOffer> {
    Filter(job => SortKey(job, sortBy) == k, s)
  }

  /**
   * Stability: for every key, the offers carrying it come in the same order in
   * `out` as in `input`.
   */
  ghost predicate StableWrt(out: seq<JobOffer>, input: seq<JobOffer>, sortBy: string) {
    forall k :: WithKey(out, sortBy, k) == WithKey(input, sortBy, k)
  }

  /**
   * Inserts `x`, which comes before every element of `r` in the input, in front
   * of the first element the comparator does not rank strictly above it.
   */
  function Insert(x: JobOffer, r: seq<JobOffer>, sortBy: string): seq<JobOffer> {
    if r == [] || Compare(x, r[0], sortBy) <= 0 then [x] + r
    else [r[0]] + Insert(x, r[1..], sortBy)
  }

  lemma {:induction false} InsertPermutes(x: JobOffer, r: seq<JobOffer>, sortBy: string)
    ensures multiset(Insert(x, r, sortBy)) == multiset(r) + multiset{x}
  {
    if r != [] && Compare(x, r[0], sortBy) > 0 {
      InsertPermutes(x, r[1..], sortBy);
      assert r == [r[0]] + r[1..];
    }
  }

  lemma {:induction false} InsertSorted(x: JobOffer, r: seq<JobOffer>, sortBy: string)
    requires SortedDesc(r, sortBy)
    ensures SortedDesc(Insert(x, r, sortBy), sortBy)
  {
    if r != [] && Compare(x, r[0], sortBy) > 0 {
      var tail := Insert(x, r[1..], sortBy);
      InsertSorted(x, r[1..], sortBy);
      InsertPermutes(x, r[1..], sortBy);
      forall j | 0 <= j < |tail|
        ensures SortKey(r[0], sortBy) >= SortKey(tail[j], sortBy)
      {
        assert tail[j] in multiset(tail);
        if tail[j] != x {
          assert tail[j] in multiset(r[1..]);
        }
      }
    }
  }

  lemma {:induction false} InsertStable(x: JobOffer, r: seq<JobOffer>, sortBy: string, k: int)
    requires SortedDesc(r, sortBy)
    ensures WithKey(Insert(x, r, sortBy), sortBy, k) == WithKey([x] + r, sortBy, k)
  {
    if r != [] && Compare(x, r[0], sortBy) > 0 {
      var tail := Insert(x, r[1..], sortBy);
      InsertStable(x, r[1..], sortBy, k);
      WithKeyHead([r[0]] + tail, sortBy, k);
      WithKeyHead([x] + r[1..], sortBy, k);
      WithKeyHead([x] + r, sortBy, k);
      WithKeyHead(r, sortBy, k);
      assert ([r[0]] + tail)[1..] == tail;
      assert ([x] + r[1..])[1..] == r[1..];
      assert ([x] + r)[1..] == r;
    }
  }

  /** One step of the sort: inserting the first offer into the sorted rest keeps sortedness and stability. */
  lemma SortStep(x: JobOffer, rest: seq<JobOffer>, tail: seq<JobOffer>, sortBy: string)
    requires SortedDesc(rest, sortBy) && StableWrt(rest, tail, sortBy)
    ensures SortedDesc(Insert(x, rest, sortBy), sortBy)
    ensures StableWrt(Insert(x, rest, sortBy), [x] + tail, sortBy)
  {
    InsertSorted(x, rest, sortBy);
    forall k
      ensures WithKey(Insert(x, rest, sortBy), sortBy, k) == WithKey([x] + tail, sortBy, k)
    {
      InsertStable(x, rest, sortBy, k);
      WithKeyHead([x] + rest, sortBy, k);
      WithKeyHead([x] + tail, sortBy, k);
      assert ([x] + rest)[1..] == rest;
      assert ([x] + tail)[1..] == tail;
      assert WithKey(rest, sortBy, k) == WithKey(tail, sortBy, k);
    }
  }

  /**
   * `[...filteredJobs].sort(comparator)`: a stable sort of a copy. The result is
   * a permutation of the input, non-increasing in the sort key, and offers with
   * equal keys keep their input order.
   */
  function SortJobs(s: seq<JobOffer>, sortBy: string): (r: seq<JobOffer>)
    ensures multiset(r) == multiset(s)
    ensures SortedDesc(r, sortBy)
    ensures StableWrt(r, s, sortBy)
  {
    if s == [] then []
    else
      var rest := SortJobs(s[1..], sortBy);
      InsertPermutes(s[0], rest, sortBy);
      SortStep(s[0], rest, s[1..], sortBy);
      assert s == [s[0]] + s[1..];
      Insert(s[0], rest, sortBy)
  }

  lemma WithKeyHead(s: seq<JobOffer>, sortBy: string, k: int)
    requires s != []
    ensures SortKey(s[0], sortBy) == k ==> WithKey(s, sortBy, k) == [s[0]] + WithKey(s[1..], sortBy, k)
    ensures SortKey(s[0], sortBy) != k ==> WithKey(s, sortBy, k) == WithKey(s[1..], sortBy, k)
  {
  }

  /** Some element of a non-empty `s` has a key at least as large as the first key of any stable rearrangement. */
  lemma FirstKeyBound(a: seq<JobOffer>, b: seq<JobOffer>, sortBy: string)
    requires a != [] && SortedDesc(b, sortBy) && StableWrt(a, b, sortBy)
    ensures b != [] && SortKey(b[0], sortBy) >= SortKey(a[0], sortBy)
  {
    var k := SortKey(a[0], sortBy);
    WithKeyHead(a, sortBy, k);
    assert a[0] in WithKey(b, sortBy, k);
    var j :| 0 <= j < |b| && b[j] == a[0];
  }

  /**
   * A stable, non-increasing arrangement is unique: two sequences that are both
   * sorted and hold the same offers per key in the same order are equal.
   */
  lemma {:induction false} StableSortUnique(a: seq<JobOffer>, b: seq<JobOffer>, sortBy: string)
    requires SortedDesc(a, sortBy) && SortedDesc(b, sortBy)
    requires StableWrt(a, b, sortBy)
    ensures a == b
    decreases |a|
  {
    if a != [] {
      SameHead(a, b, sortBy);
      SameTailKeys(a, b, sortBy);
      StableSortUnique(a[1..], b[1..], sortBy);
      assert a == [a[0]] + a[1..] && b == [b[0]] + b[1..];
    } else if b != [] {
      FirstKeyBound(b, a, sortBy);
    }
  }

  /** Two sorted, stable rearrangements of each other start with the same offer. */
  lemma SameHead(a: seq<JobOffer>, b: seq<JobOffer>, sortBy: string)
    requires a != [] && SortedDesc(a, sortBy) && SortedDesc(b, sortBy)
    requires StableWrt(a, b, sortBy)
    ensures b != [] && a[0] == b[0]
  {
    FirstKeyBound(a, b, sortBy);
    FirstKeyBound(b, a, sortBy);
    var k := SortKey(a[0], sortBy);
    WithKeyHead(a, sortBy, k);
    WithKeyHead(b, sortBy, k);
    assert WithKey(a, sortBy, k) == WithKey(b, sortBy, k);
    assert a[0] == WithKey(a, sortBy, k)[0] == WithKey(b, sortBy, k)[0] == b[0];
  }

  /** Dropping a common first offer keeps two sequences stable rearrangements of each other. */
  lemma SameTailKeys(a: seq<JobOffer>, b: seq<JobOffer>, sortBy: string)
    requires a != [] && b != [] && a[0] == b[0]
    requires StableWrt(a, b, sortBy)
    ensures StableWrt(a[1..], b[1..], sortBy)
  {
    forall k ensures WithKey(a[1..], sortBy, k) == WithKey(b[1..], sortBy, k) {
      WithKeyHead(a, sortBy, k);
      WithKeyHead(b, sortBy, k);
      assert WithKey(a, sortBy, k) == WithKey(b, sortBy, k);
      if SortKey(a[0], sortBy) == k {
        assert WithKey(a[1..], sortBy, k) == WithKey(a, sortBy, k)[1..];
        assert WithKey(b[1..], sortBy, k) == WithKey(b, sortBy, k)[1..];
      }
    }
  }

  /**
   * `SortJobs` is the stable sort: any arrangement of `s` that is non-increasing
   * in the key and keeps the input order among equal keys is `SortJobs(s)`.
   */
  lemma SortJobsIsTheStableSort(s: seq<JobOffer>, r: seq<JobOffer>, sortBy: string)
    requires SortedDesc(r, sortBy) && StableWrt(r, s, sortBy)
    ensures r == SortJobs(s, sortBy)
  {
    StableSortUnique(r, SortJobs(s, sortBy), sortBy);
  }

  /** With a sort key the comparator does not know, every comparison is 0 and the order is kept. */
  lemma UnknownSortKeepsOrder(s: seq<JobOffer>, sortBy: string)
    requires sortBy != "matchScore" && sortBy != "date"
    ensures SortJobs(s, sortBy) == s
  {
    SortJobsIsTheStableSort(s, s, sortBy);
  }

  // ---------------------------------------------------------------------------
  // The displayed list
  // ---------------------------------------------------------------------------

  /** `sortedJobs`: what the list shows. */
  function View(jobs: seq<JobOffer>, query: string, tab: string, sortBy: string, now: int): seq<JobOffer> {
    SortJobs(FilterJobs(jobs, query, tab, now), sortBy)
  }

  /**
   * What is displayed: each offer of `jobs` that passes both tests, as many
   * times as it occurs in `jobs`, nothing else, non-increasing in the sort key,
   * equal keys in input order.
   */
  lemma ViewSpec(jobs: seq<JobOffer>, query: string, tab: string, sortBy: string, now: int)
    ensures var shown := View(jobs, query, tab, sortBy, now);
      && multiset(shown) == multiset(FilterJobs(jobs, query, tab, now))
      && multiset(shown) <= multiset(jobs)
      && (forall job :: job in shown <==> job in jobs && Keep(job, query, tab, now))
      && SortedDesc(shown, sortBy)
      && StableWrt(shown, FilterJobs(jobs, query, tab, now), sortBy)
  {
    var filtered := FilterJobs(jobs, query, tab, now);
    SubsequenceMultiset(filtered, jobs);
    forall job
      ensures job in View(jobs, query, tab, sortBy, now) <==> job in jobs && Keep(job, query, tab, now)
    {
      FilterJobsMultiplicity(jobs, query, tab, now, job);
      assert job in filtered <==> job in multiset(filtered);
    }
  }

  // ---------------------------------------------------------------------------
  // Tab counts
  // ---------------------------------------------------------------------------

  /** `matchedCount`, over the whole collection. */
  function MatchedCount(jobs: seq<JobOffer>): (n: nat)
    ensures n <= |jobs|
  {
    |Filter((job: JobOffer) => job.isMatch, jobs)|
  }

  /** `newCount`, over the whole collection. */
  function NewCount(jobs: seq<JobOffer>, now: int): (n: nat)
    ensures n <= |jobs|
  {
    |Filter(job => IsNew(job, now), jobs)|
  }

  /**
   * The counts take no query and no tab; they are the lengths the Matched and
   * New tabs show for an empty query, and bound what those tabs show for any
   * query.
   */
  lemma CountsAgreeWithTabs(jobs: seq<JobOffer>, query: string, sortBy: string, now: int)
    ensures MatchedCount(jobs) == |View(jobs, "", "matched", sortBy, now)|
    ensures NewCount(jobs, now) == |View(jobs, "", "new", sortBy, now)|
    ensures |View(jobs, query, "matched", sortBy, now)| <= MatchedCount(jobs)
    ensures |View(jobs, query, "new", sortBy, now)| <= NewCount(jobs, now)
  {
    forall job | job in jobs
      ensures MatchesSearch(job, "")
    {
      EmptyQueryMatchesAll(job);
    }
    FilterAgree(job => Keep(job, "", "matched", now), (job: JobOffer) => job.isMatch, jobs);
    FilterAgree(job => Keep(job, "", "new", now), job => IsNew(job, now), jobs);
    SortLength(FilterJobs(jobs, "", "matched", now), sortBy);
    SortLength(FilterJobs(jobs, "", "new", now), sortBy);
    SortLength(FilterJobs(jobs, query, "matched", now), sortBy);
    SortLength(FilterJobs(jobs, query, "new", now), sortBy);
    FilterMonotone(job => Keep(job, query, "matched", now), (job: JobOffer) => job.isMatch, jobs);
    FilterMonotone(job => Keep(job, query, "new", now), job => IsNew(job, now), jobs);
  }

  lemma SortLength(s: seq<JobOffer>, sortBy: string)
    ensures |SortJobs(s, sortBy)| == |s|
  {
    assert |multiset(SortJobs(s, sortBy))| == |multiset(s)|;
  }

  // ---------------------------------------------------------------------------
  // formatDate
  // ---------------------------------------------------------------------------

  /** The posting-date label. `LocaleDate` stands for `toLocaleDateString` of the instant. */
  datatype DayLabel = Today | Yesterday | DaysAgo(days: nat) | LocaleDate(instant: int) {

    /** The text shown; the locale formatting of an instant is supplied by the caller. */
    function Display(localeDate: int -> string): string {
      match this
      case Today => "Today"
      case Yesterday => "Yesterday"
      case DaysAgo(d) => IntDecimal(d) + " days ago"
      case LocaleDate(t) => localeDate(t)
    }
  }

  function Abs(x: int): nat {
    if x < 0 then -x else x
  }

  /**
   * `formatDate`: the whole number of days between the posting and now, in
   * either direction, decides the label.
   */
  function FormatDate(posted: int, now: int): (r: DayLabel)
    ensures r == Today <==> Abs(now - posted) < DayMs
    ensures r == Yesterday <==> DayMs <= Abs(now - posted) < 2 * DayMs
    ensures r.DaysAgo? <==> 2 * DayMs <= Abs(now - posted) < WeekMs
    ensures r.DaysAgo? ==> 2 <= r.days < 7 && r.days * DayMs <= Abs(now - posted) < (r.days + 1) * DayMs
    ensures r.LocaleDate? <==> WeekMs <= Abs(now - posted)
    ensures r.LocaleDate? ==> r.instant == posted
  {
    var diffDays := Abs(now - posted) / DayMs;
    if diffDays == 0 then Today
    else if diffDays == 1 then Yesterday
    else if diffDays < 7 then DaysAgo(diffDays)
    else LocaleDate(posted)
  }

  // ---------------------------------------------------------------------------
  // A worked example
  // ---------------------------------------------------------------------------

  function Offer(title: string, tech: string, score: int, isMatch: bool, posted: int): JobOffer {
    JobOffer("", title, "", "", "", Options.None, "", [], [tech], "", posted, "", "", isMatch, score, Options.None)
  }

  /**
   * Two engineering offers, one posted two days ago, one ten days ago: the
   * query "engineer" keeps both, best score first; the New and Matched tabs keep
   * the recent one; the query "react" keeps the other.
   */
  lemma ExampleAll(backend: JobOffer, frontend: JobOffer, now: int)
    requires backend == Offer("Backend Engineer", "Go", 80, true, now - 2 * DayMs)
    requires frontend == Offer("Frontend Engineer", "React", 60, false, now - 10 * DayMs)
    ensures View([backend, frontend], "engineer", "all", "matchScore", now) == [backend, frontend]
  {
    ExampleSearches(backend, frontend);
    FilterJobsOfTwo(backend, frontend, "engineer", "all", now);
    SortedIsFixed([backend, frontend], "matchScore");
  }

  lemma ExampleNew(backend: JobOffer, frontend: JobOffer, now: int)
    requires backend == Offer("Backend Engineer", "Go", 80, true, now - 2 * DayMs)
    requires frontend == Offer("Frontend Engineer", "React", 60, false, now - 10 * DayMs)
    ensures View([backend, frontend], "engineer", "new", "matchScore", now) == [backend]
  {
    assert DayMs == 86400000 && WeekMs == 604800000;
    assert IsNew(backend, now) && !IsNew(frontend, now);
    ExampleSearches(backend, frontend);
    FilterJobsOfTwo(backend, frontend, "engineer", "new", now);
    SortedIsFixed([backend], "matchScore");
  }

  lemma ExampleMatched(backend: JobOffer, frontend: JobOffer, now: int)
    requires backend == Offer("Backend Engineer", "Go", 80, true, now - 2 * DayMs)
    requires frontend == Offer("Frontend Engineer", "React", 60, false, now - 10 * DayMs)
    ensures View([backend, frontend], "engineer", "matched", "matchScore", now) == [backend]
  {
    ExampleSearches(backend, frontend);
    FilterJobsOfTwo(backend, frontend, "engineer", "matched", now);
    SortedIsFixed([backend], "matchScore");
  }

  lemma ExampleReact(backend: JobOffer, frontend: JobOffer, now: int)
    requires backend == Offer("Backend Engineer", "Go", 80, true, now - 2 * DayMs)
    requires frontend == Offer("Frontend Engineer", "React", 60, false, now - 10 * DayMs)
    ensures View([backend, frontend], "react", "all", "matchScore", now) == [frontend]
  {
    ExampleSearches(backend, frontend);
    FilterJobsOfTwo(backend, frontend, "react", "all", now);
    SortedIsFixed([frontend], "matchScore");
  }

  /** An already sorted list is left as it is. */
  lemma SortedIsFixed(s: seq<JobOffer>, sortBy: string)
    requires SortedDesc(s, sortBy)
    ensures SortJobs(s, sortBy) == s
  {
    SortJobsIsTheStableSort(s, s, sortBy);
  }

  lemma ExampleSearches(backend: JobOffer, frontend: JobOffer)
    requires backend.title == "Backend Engineer" && backend.company == "" && backend.stack == ["Go"]
    requires frontend.title == "Frontend Engineer" && frontend.company == "" && frontend.stack == ["React"]
    ensures MatchesSearch(backend, "engineer") && MatchesSearch(frontend, "engineer")
    ensures MatchesSearch(frontend, "react") && !MatchesSearch(backend, "react")
  {
    LowerLiteral("engineer");
    TitleIncludes("Backend Engineer", "backend engineer", 8);
    TitleIncludes("Frontend Engineer", "frontend engineer", 9);
    StackMatchesReact(frontend);
    BackendMissesReact(backend);
  }

  lemma StackMatchesReact(job: JobOffer)
    requires job.stack == ["React"]
    ensures MatchesSearch(job, "react")
  {
    LowerLiteral("react");
    LowerOf("React", "react");
    assert Includes("react", "react");
    assert "React" in job.stack;
  }

  lemma BackendMissesReact(job: JobOffer)
    requires job.title == "Backend Engineer" && job.company == "" && job.stack == ["Go"]
    ensures !MatchesSearch(job, "react")
  {
    LowerLiteral("react");
    NoLowerOccurrence("Backend Engineer", "react");
    NoLowerOccurrence("", "react");
    NoLowerOccurrence("Go", "react");
    forall tech | tech in job.stack ensures !Includes(Lower(tech), "react") {
      assert tech == "Go";
    }
  }

  /** When no lower-cased character of `s` that could start the needle equals its first character, `Lower(s)` does not include it. */
  lemma NoLowerOccurrence(s: string, needle: string)
    requires needle != []
    requires forall i :: 0 <= i <= |s| - |needle| ==> LowerChar(s[i]) != needle[0]
    ensures !Includes(Lower(s), needle)
  {
    NoOccurrence(Lower(s), needle);
  }

  lemma TitleIncludes(title: string, lower: string, at: nat)
    requires |title| == |lower| && forall i :: 0 <= i < |title| ==> LowerChar(title[i]) == lower[i]
    requires at + 8 <= |lower| && lower[at..at + 8] == "engineer"
    ensures Includes(Lower(title), "engineer")
  {
    LowerOf(title, lower);
    assert OccursAt(lower, "engineer", at);
    IncludesIffOccurs(lower, "engineer");
  }

  /** Filtering a two-element list keeps each element exactly when it passes. */
  lemma FilterJobsOfTwo(a: JobOffer, b: JobOffer, query: string, tab: string, now: int)
    ensures FilterJobs([a, b], query, tab, now) ==
      (if Keep(a, query, tab, now) then [a] else []) + (if Keep(b, query, tab, now) then [b] else [])
  {
    var keep := job => Keep(job, query, tab, now);
    assert [a, b][1..] == [b];
    assert Filter(keep, [b]) == (if Keep(b, query, tab, now) then [b] else []) + Filter(keep, []);
  }

  lemma LowerOf(s: string, t: string)
    requires |s| == |t| && forall i :: 0 <= i < |s| ==> LowerChar(s[i]) == t[i]
    ensures Lower(s) == t
  {
  }

  lemma LowerLiteral(s: string)
    requires forall i :: 0 <= i < |s| ==> !IsUpper(s[i])
    ensures Lower(s) == s
  {
  }

  /** A string whose first `|hay| - |needle| + 1` characters never start the needle does not include it. */
  lemma NoOccurrence(hay: string, needle: string)
    requires needle != []
    requires forall i :: 0 <= i <= |hay| - |needle| ==> hay[i] != needle[0]
    ensures !Includes(hay, needle)
  {
    IncludesIffOccurs(hay, needle);
    forall i | 0 <= i && i + |needle| <= |hay|
      ensures !OccursAt(hay, needle, i)
    {
      assert hay[i..i + |needle|][0] == hay[i] != needle[0];
    }
  }
}
