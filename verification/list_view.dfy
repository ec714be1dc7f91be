/**
 * What the list screens share: the search predicate, the status filter, and
 * how the local copy of a list follows the list it was given.
 */
module ListView {
  import opened Wrappers
  import opened Text

  /** `field.toLowerCase().includes(query.toLowerCase())`. */
  predicate MatchesIgnoringCase(field: string, query: string)
  {
    Contains(LowerStr(field), LowerStr(query))
  }

  /** `field.includes(query)`: the query as typed, case and all. */
  predicate MatchesExactly(field: string, query: string)
  {
    Contains(field, query)
  }

  /** An empty query matches every field, both ways. */
  lemma EmptyQueryMatches(field: string)
    ensures MatchesIgnoringCase(field, "")
    ensures MatchesExactly(field, "")
  {
    ContainsEmpty(field);
    ContainsEmpty(LowerStr(field));
  }

  /** Matching ignoring case is matching exactly, once both sides are lower-cased. */
  lemma IgnoringCaseIsExactOnLowered(field: string, query: string)
    ensures MatchesIgnoringCase(field, query) <==> MatchesExactly(LowerStr(field), LowerStr(query))
    ensures MatchesIgnoringCase(LowerStr(field), query) <==> MatchesIgnoringCase(field, query)
  {
    LowerStrIdempotent(field);
  }

  /** `statusFilter === "all" || status === statusFilter`. */
  predicate StatusAllows(statusFilter: string, status: string)
  {
    statusFilter == "all" || status == statusFilter
  }

  /** How a list's local copy follows the list passed in. */
  datatype SyncPolicy =
    | Always      // replaced whenever a new list is passed in
    | WhenGiven   // replaced only when a list is actually passed in
    | Never       // initialised once and kept

  /** The local copy after the parent passes `incoming` (absent when none is passed). */
  function Sync<T>(policy: SyncPolicy, local: seq<T>, incoming: Option<seq<T>>): (r: seq<T>)
    ensures policy == Never ==> r == local
    ensures incoming.None? ==> r == local
    ensures incoming.Some? && policy != Never ==> r == incoming.value
  {
    match policy
    case Never => local
    case WhenGiven => incoming.GetOr(local)
    case Always => if incoming.Some? then incoming.value else local
  }

  /** The local copy when the list first renders: the list passed in, else `fallback`. */
  function Initial<T>(incoming: Option<seq<T>>, fallback: seq<T>): (r: seq<T>)
    ensures incoming.Some? ==> r == incoming.value
    ensures incoming.None? ==> r == fallback
  {
    incoming.GetOr(fallback)
  }
}
