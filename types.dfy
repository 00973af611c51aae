/**
 * The records the application passes around: job offers, job sources and the
 * filter criteria. Dates are instants in milliseconds since the epoch.
 */
module Types {
  import opened Options

  /** A collected job offer. `posted` is the instant `postedDate` denotes. */
  datatype JobOffer = JobOffer(
    id: string,
    title: string,
    company: string,
    location: string,
    kind: string,            // Full-time, Part-time, Contract
    salary: Option<string>,
    description: string,
    requirements: seq<string>,
    stack: seq<string>,
    experience: string,
    posted: int,
    source: string,
    url: string,
    isMatch: bool,
    matchScore: int,
    aiSummary: Option<string>)

  datatype SourceKind = RSS | Email | API

  /** A place job offers are collected from. `lastSync` is the instant of the last sync, if any. */
  datatype JobSource = JobSource(
    id: string,
    name: string,
    kind: SourceKind,
    url: string,
    enabled: bool,
    lastSync: Option<int>)

  /** A job source before it has an id (`Omit<JobSource, 'id'>` as the add form fills it). */
  datatype SourceDraft = SourceDraft(name: string, kind: SourceKind, url: string, enabled: bool)

  /** The six lists of free-text criteria, each in insertion order. */
  datatype FilterCriteria = FilterCriteria(
    stack: seq<string>,
    experience: seq<string>,
    keywords: seq<string>,
    location: seq<string>,
    jobType: seq<string>,
    excludeKeywords: seq<string>)

  /** `keyof FilterCriteria`. */
  datatype Field = Stack | Experience | Keywords | Location | JobType | ExcludeKeywords

  const NoFilters := FilterCriteria([], [], [], [], [], [])

  /** `filters[field]`. */
  function Get(f: FilterCriteria, field: Field): seq<string> {
    match field
    case Stack => f.stack
    case Experience => f.experience
    case Keywords => f.keywords
    case Location => f.location
    case JobType => f.jobType
    case ExcludeKeywords => f.excludeKeywords
  }

  /** `{ ...filters, [field]: v }`: the named list replaced, the other five kept. */
  function With(f: FilterCriteria, field: Field, v: seq<string>): (r: FilterCriteria)
    ensures Get(r, field) == v
    ensures forall g :: g != field ==> Get(r, g) == Get(f, g)
  {
    match field
    case Stack => f.(stack := v)
    case Experience => f.(experience := v)
    case Keywords => f.(keywords := v)
    case Location => f.(location := v)
    case JobType => f.(jobType := v)
    case ExcludeKeywords => f.(excludeKeywords := v)
  }

  /** Two criteria with the same six lists are the same criteria. */
  lemma CriteriaExtensional(f: FilterCriteria, g: FilterCriteria)
    requires forall field :: Get(f, field) == Get(g, field)
    ensures f == g
  {
    assert Get(f, Stack) == Get(g, Stack) && Get(f, Experience) == Get(g, Experience);
    assert Get(f, Keywords) == Get(g, Keywords) && Get(f, Location) == Get(g, Location);
    assert Get(f, JobType) == Get(g, JobType) && Get(f, ExcludeKeywords) == Get(g, ExcludeKeywords);
  }
}
