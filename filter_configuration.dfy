/**
 * Editing the six lists of the filter criteria. Every handler builds new
 * criteria and hands them to the parent's update callback; `AddItem` may decline
 * to call it, which is why it returns an `Option`.
 */
module FilterConfiguration {
  import opened Options
  import opened Text
  import opened Seqs
  import opened Types

  // ---------------------------------------------------------------------------
  // addItem
  // ---------------------------------------------------------------------------

  /**
   * `addItem(field, value)`: `None` when no update is issued (the trimmed value
   * is empty, or already in the list by exact comparison); otherwise the
   * criteria with the trimmed value appended to that list and the rest kept.
   */
  function AddItem(filters: FilterCriteria, field: Field, value: string): (r: Option<FilterCriteria>)
    ensures r.None? <==> Trim(value) == [] || Trim(value) in Get(filters, field)
    ensures r.Some? ==> Get(r.value, field) == Get(filters, field) + [Trim(value)]
    ensures r.Some? ==> forall g :: g != field ==> Get(r.value, g) == Get(filters, g)
  {
    var v := Trim(value);
    if v == [] then None
    else if v in Get(filters, field) then None
    else Some(With(filters, field, Get(filters, field) + [v]))
  }

  /** A list without duplicates stays without duplicates, and what is added has no surrounding whitespace. */
  lemma AddItemKeepsNoDuplicates(filters: FilterCriteria, field: Field, value: string)
    requires NoDuplicates(Get(filters, field))
    ensures var r := AddItem(filters, field, value);
      r.Some? ==> && NoDuplicates(Get(r.value, field))
                  && var added := Get(r.value, field)[|Get(filters, field)|];
                     added != [] && !IsWhitespace(added[0]) && !IsWhitespace(added[|added| - 1])
  {
    TrimSpec(value);
  }

  /** Adding the same value a second time issues no update, so twice is the same as once. */
  lemma AddItemIdempotent(filters: FilterCriteria, field: Field, value: string)
    ensures var once := AddItem(filters, field, value).GetOr(filters);
      AddItem(once, field, value) == None
  {
  }

  // ---------------------------------------------------------------------------
  // removeItem
  // ---------------------------------------------------------------------------

  /** `s.filter((_, i) => i !== index)` where `s` starts at position `offset` of the whole list. */
  function DropPosition(s: seq<string>, index: int, offset: int): seq<string> {
    if s == [] then []
    else (if offset != index then [s[0]] else []) + DropPosition(s[1..], index, offset + 1)
  }

  lemma {:induction false} DropPositionSpec(s: seq<string>, index: int, offset: int)
    ensures DropPosition(s, index, offset) ==
      if offset <= index < offset + |s| then s[..index - offset] + s[index - offset + 1..] else s
  {
    if s != [] {
      DropPositionSpec(s[1..], index, offset + 1);
      if offset + 1 <= index < offset + |s| {
        assert s[..index - offset] == [s[0]] + s[1..][..index - offset - 1];
        assert s[index - offset + 1..] == s[1..][index - offset..];
      } else if index != offset {
        assert s == [s[0]] + s[1..];
      }
    }
  }

  /**
   * `removeItem(field, index)`: the list loses exactly the element at `index`
   * when the index is in range and is kept whole otherwise; the other five
   * lists are unchanged.
   */
  function RemoveItem(filters: FilterCriteria, field: Field, index: int): (r: FilterCriteria)
    ensures var l := Get(filters, field);
      Get(r, field) == if 0 <= index < |l| then l[..index] + l[index + 1..] else l
    ensures var l := Get(filters, field);
      |Get(r, field)| == if 0 <= index < |l| then |l| - 1 else |l|
    ensures forall g :: g != field ==> Get(r, g) == Get(filters, g)
  {
    DropPositionSpec(Get(filters, field), index, 0);
    With(filters, field, DropPosition(Get(filters, field), index, 0))
  }

  // ---------------------------------------------------------------------------
  // toggleJobType / toggleExperience
  // ---------------------------------------------------------------------------

  /** `l.filter(t => t !== v)`. */
  function Without(l: seq<string>, v: string): seq<string> {
    Filter((t: string) => t != v, l)
  }

  lemma WithoutSpec(l: seq<string>, v: string)
    ensures IsSubsequence(Without(l, v), l)
    ensures forall u :: multiset(Without(l, v))[u] == if u != v then multiset(l)[u] else 0
  {
    FilterIsSubsequence((t: string) => t != v, l);
    forall u ensures multiset(Without(l, v))[u] == if u != v then multiset(l)[u] else 0 {
      FilterMultiplicity((t: string) => t != v, l, u);
    }
  }

  /** Removes every occurrence of `v` when present, appends it at the end when absent. */
  function Toggle(l: seq<string>, v: string): (r: seq<string>)
    ensures v in r <==> v !in l
    ensures forall u :: u != v ==> multiset(r)[u] == multiset(l)[u]
    ensures v !in l ==> r == l + [v]
    ensures v in l ==> IsSubsequence(r, l)
  {
    WithoutSpec(l, v);
    if v in l then Without(l, v) else l + [v]
  }

  /** Toggling a value that is absent twice gives back the original list. */
  lemma ToggleTwiceRestores(l: seq<string>, v: string)
    requires v !in l
    ensures Toggle(Toggle(l, v), v) == l
  {
    FilterAppend((t: string) => t != v, l, [v]);
    FilterAll((t: string) => t != v, l);
  }

  /** Toggling keeps a duplicate-free list duplicate-free. */
  lemma ToggleKeepsNoDuplicates(l: seq<string>, v: string)
    requires NoDuplicates(l)
    ensures NoDuplicates(Toggle(l, v))
  {
    if v in l {
      FilterNoDuplicates((t: string) => t != v, l);
    }
  }

  /** `toggleJobType(type)`: membership of `type` in `jobType` flips; nothing else changes. */
  function ToggleJobType(filters: FilterCriteria, kind: string): (r: FilterCriteria)
    ensures r.jobType == Toggle(filters.jobType, kind)
    ensures kind in r.jobType <==> kind !in filters.jobType
    ensures forall u :: u != kind ==> multiset(r.jobType)[u] == multiset(filters.jobType)[u]
    ensures forall g :: g != JobType ==> Get(r, g) == Get(filters, g)
  {
    With(filters, JobType, Toggle(filters.jobType, kind))
  }

  /** `toggleExperience(level)`: membership of `level` in `experience` flips; nothing else changes. */
  function ToggleExperience(filters: FilterCriteria, level: string): (r: FilterCriteria)
    ensures r.experience == Toggle(filters.experience, level)
    ensures level in r.experience <==> level !in filters.experience
    ensures forall u :: u != level ==> multiset(r.experience)[u] == multiset(filters.experience)[u]
    ensures forall g :: g != Experience ==> Get(r, g) == Get(filters, g)
  {
    With(filters, Experience, Toggle(filters.experience, level))
  }

  /** Toggling an absent job type or experience level twice restores the criteria. */
  lemma ToggleCriteriaTwice(filters: FilterCriteria, kind: string, level: string)
    ensures kind !in filters.jobType ==> ToggleJobType(ToggleJobType(filters, kind), kind) == filters
    ensures level !in filters.experience ==> ToggleExperience(ToggleExperience(filters, level), level) == filters
  {
    if kind !in filters.jobType {
      ToggleTwiceRestores(filters.jobType, kind);
    }
    if level !in filters.experience {
      ToggleTwiceRestores(filters.experience, level);
    }
  }
}
