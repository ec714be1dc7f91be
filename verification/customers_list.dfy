/** The customer list: search, initials, deletion and the spent total. */
module CustomersList {
  import opened Wrappers
  import opened Seqs
  import opened Text
  import opened Entities
  import opened ListView
  import Reports

  /** Name and email are matched ignoring case; the phone against the query as typed. */
  predicate Matches(c: Customer, query: string)
  {
    MatchesIgnoringCase(c.name, query) || MatchesIgnoringCase(c.email, query) || MatchesExactly(c.phone, query)
  }

  function Visible(customers: seq<Customer>, query: string): (r: seq<Customer>)
    ensures forall c :: c in r <==> c in customers && Matches(c, query)
    ensures IsSubsequence(r, customers)
    ensures forall c :: multiset(r)[c] == if Matches(c, query) then multiset(customers)[c] else 0
  {
    Filter(customers, (c: Customer) => Matches(c, query))
  }

  /** `handleDelete`. */
  function Delete(customers: seq<Customer>, id: int): (r: seq<Customer>)
    ensures forall c :: c in r <==> c in customers && c.id != id
    ensures IsSubsequence(r, customers)
    ensures forall c :: multiset(r)[c] == if c.id != id then multiset(customers)[c] else 0
  {
    Filter(customers, (c: Customer) => c.id != id)
  }

  /** The local list is set from the first list passed in and never follows later ones. */
  lemma NeverResynchronised(local: seq<Customer>, incoming: Option<seq<Customer>>)
    ensures Sync(Never, local, incoming) == local
  {
  }

  /** The avatar text: first letters of the space-separated words, upper-cased, at most two. */
  function AvatarInitials(name: string): (r: string)
    ensures |r| == Min(2, |NonEmptyWords(Split(name, ' '))|)
    ensures forall i :: 0 <= i < |r| ==> r[i] == Upper(NonEmptyWords(Split(name, ' '))[i][0])
  {
    Initials(name, ' ')
  }

  /** A one-word name gives one initial: its first letter, upper-cased. */
  lemma OneWordName(name: string)
    requires |name| > 0 && ' ' !in name
    ensures AvatarInitials(name) == [Upper(name[0])]
  {
    SplitWithoutSeparator(name, ' ');
    assert NonEmptyWords([name]) == [name] by {
      assert [name][1..] == [];
    }
  }

  /**
   * The total shown on a card: a missing amount shows as 0, the same amount the
   * top-customer ranking sorts it by.
   */
  function ShownSpent(c: Customer): (t: real)
    ensures c.totalSpent.Some? ==> t == c.totalSpent.value
    ensures c.totalSpent.None? ==> t == 0.0
    ensures t == Reports.Spent(c)
  {
    c.totalSpent.GetOr(0.0)
  }
}
