/**
 * The job-sources page: the add-source form, which forwards a filled-in draft
 * and resets itself, and the "last synced" label.
 */
module JobSources {
  import opened Options
  import opened Text
  import opened Types

  const MinuteMs := 60000
  const HourMs := 3600000

  /** The form accepts a draft whose name and url are both non-empty; whitespace counts as content. */
  predicate Accepts(draft: SourceDraft) {
    draft.name != "" && draft.url != ""
  }

  const EmptyDraft := SourceDraft("", RSS, "", true)

  /** The add-source dialog and the draft it edits. */
  class SourceForm {
    var name: string
    var kind: SourceKind
    var url: string
    var enabled: bool
    var dialogOpen: bool

    function Draft(): SourceDraft
      reads this
    {
      SourceDraft(name, kind, url, enabled)
    }

    /** A closed dialog over the empty draft. */
    constructor ()
      ensures Draft() == EmptyDraft && !dialogOpen
    {
      name, kind, url, enabled := "", RSS, "", true;
      dialogOpen := false;
    }

    /**
     * `handleAddSource`: an accepted draft is forwarded to the parent (the
     * returned value), then the form is reset and the dialog closed; a rejected
     * one forwards nothing and changes nothing.
     */
    method Submit() returns (forwarded: Option<SourceDraft>)
      modifies this
      ensures forwarded.Some? <==> Accepts(old(Draft()))
      ensures forwarded.Some? ==> forwarded.value == old(Draft()) && Draft() == EmptyDraft && !dialogOpen
      ensures forwarded.None? ==> Draft() == old(Draft()) && dialogOpen == old(dialogOpen)
    {
      if name != "" && url != "" {
        forwarded := Some(Draft());
        name, kind, url, enabled := "", RSS, "", true;
        dialogOpen := false;
      } else {
        forwarded := None;
      }
    }
  }

  /** The "last synced" label. `SyncDate` stands for `toLocaleDateString` of the instant. */
  datatype SyncLabel = Never | MinsAgo(mins: int) | HoursAgo(hours: int) | SyncDate(instant: int) {

    /** The text shown; the locale formatting of an instant is supplied by the caller. */
    function Display(localeDate: int -> string): string {
      match this
      case Never => "Never"
      case MinsAgo(m) => IntDecimal(m) + " mins ago"
      case HoursAgo(h) => IntDecimal(h) + " hours ago"
      case SyncDate(t) => localeDate(t)
    }
  }

  /**
   * `formatLastSync`: whole minutes below one hour (including negative
   * differences, for a sync stamped in the future), whole hours below one day,
   * a date beyond that. Both divisions round towards minus infinity.
   */
  function FormatLastSync(lastSync: Option<int>, now: int): (r: SyncLabel)
    ensures r == Never <==> lastSync.None?
    ensures r.MinsAgo? <==> lastSync.Some? && now - lastSync.value < HourMs
    ensures r.MinsAgo? ==> r.mins * MinuteMs <= now - lastSync.value < (r.mins + 1) * MinuteMs && r.mins < 60
    ensures r.HoursAgo? <==> lastSync.Some? && HourMs <= now - lastSync.value < 24 * HourMs
    ensures r.HoursAgo? ==> r.hours * HourMs <= now - lastSync.value < (r.hours + 1) * HourMs && 1 <= r.hours < 24
    ensures r.SyncDate? <==> lastSync.Some? && 24 * HourMs <= now - lastSync.value
    ensures r.SyncDate? ==> r.instant == lastSync.value
  {
    match lastSync
    case None => Never
    case Some(t) =>
      var diffMs := now - t;
      var diffMins := diffMs / MinuteMs;
      var diffHours := diffMs / HourMs;
      if diffMins < 60 then MinsAgo(diffMins)
      else if diffHours < 24 then HoursAgo(diffHours)
      else SyncDate(t)
  }

  /** Two labels with different minute counts read differently. */
  lemma MinsTextDistinct(m: int, n: int, localeDate: int -> string)
    requires m != n
    ensures MinsAgo(m).Display(localeDate) != MinsAgo(n).Display(localeDate)
  {
    DecimalRoundTrip(m);
    DecimalRoundTrip(n);
    var a, b, suffix := IntDecimal(m), IntDecimal(n), " mins ago";
    assert a != b;
    if |a| != |b| {
      assert |a + suffix| != |b + suffix|;
    } else {
      var i :| 0 <= i < |a| && a[i] != b[i];
      assert (a + suffix)[i] != (b + suffix)[i];
    }
  }
}
