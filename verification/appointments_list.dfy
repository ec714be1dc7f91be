/** The appointment list: its built-in sample, search, and delegated deletion. */
module AppointmentsList {
  import opened Wrappers
  import opened Seqs
  import opened Text
  import opened Entities
  import opened ListView

  /** The three appointments shown when no list is passed in. */
  const Sample: seq<Appointment> := [
    Appointment(1, "Carlos García", "+34 612 345 678", "2025-10-28T10:00:00", "confirmed",
      "Revisión general y cambio de aceite", 60.0),
    Appointment(2, "María López", "+34 623 456 789", "2025-10-28T14:30:00", "pending",
      "Reparación de frenos", 90.0),
    Appointment(3, "Juan Martínez", "+34 634 567 890", "2025-10-29T09:00:00", "confirmed",
      "Cambio de neumáticos", 45.0)
  ]

  /**
   * The badge for a status. The declared status type admits only the four
   * known ones; for any other value the list would fail while rendering, so
   * such a status gets no badge here.
   */
  function StatusLabel(status: string): (caption: Option<string>)
    ensures caption.Some? <==> status in {"pending", "confirmed", "completed", "cancelled"}
  {
    match status
    case "pending" => Some("Pendiente")
    case "confirmed" => Some("Confirmada")
    case "completed" => Some("Completada")
    case "cancelled" => Some("Cancelada")
    case _ => None
  }

  /** Every sample appointment has a badge and a distinct id. */
  lemma SampleIsWellFormed()
    ensures forall i :: 0 <= i < |Sample| ==> StatusLabel(Sample[i].status).Some?
    ensures forall i, j :: 0 <= i < j < |Sample| ==> Sample[i].id != Sample[j].id
  {
  }

  /**
   * Name and description are matched ignoring case; the phone is matched
   * against the query as typed. There is no status filter.
   */
  predicate Matches(a: Appointment, query: string)
  {
    MatchesIgnoringCase(a.customerName, query) || MatchesExactly(a.customerPhone, query)
    || MatchesIgnoringCase(a.description, query)
  }

  function Visible(appointments: seq<Appointment>, query: string): (r: seq<Appointment>)
    ensures forall a :: a in r <==> a in appointments && Matches(a, query)
    ensures IsSubsequence(r, appointments)
    ensures forall a :: multiset(r)[a] == if Matches(a, query) then multiset(appointments)[a] else 0
  {
    Filter(appointments, (a: Appointment) => Matches(a, query))
  }

  /**
   * A query that differs only in case finds the same appointments by name and
   * description, but not necessarily by phone (see PhoneMatchKeepsCase).
   */
  lemma CaseOnlyMattersForPhone(a: Appointment, query: string)
    ensures MatchesIgnoringCase(a.customerName, query) <==> MatchesIgnoringCase(a.customerName, LowerStr(query))
    ensures MatchesIgnoringCase(a.description, query) <==> MatchesIgnoringCase(a.description, LowerStr(query))
  {
    LowerStrIdempotent(query);
  }

  /**
   * The phone is matched case and all: an appointment whose phone holds "ABC"
   * (and nothing else) is found by "ABC" but not by its lower-cased "abc".
   */
  lemma PhoneMatchKeepsCase()
    ensures var a := Appointment(1, "", "ABC", "", "pending", "", 60.0);
      && LowerStr("ABC") == "abc"
      && Matches(a, "ABC")
      && !Matches(a, LowerStr("ABC"))
  {
    var a := Appointment(1, "", "ABC", "", "pending", "", 60.0);
    assert LowerStr("ABC") == "abc";
    assert OccursAt(a.customerPhone, "ABC", 0);
    assert LowerStr("") == "";
    assert !Contains(a.customerPhone, "abc") by {
      forall i | 0 <= i <= |a.customerPhone| - 3
        ensures !OccursAt(a.customerPhone, "abc", i)
      {
        assert i == 0;
        assert a.customerPhone[0] != 'a';
      }
    }
  }

  /** What deleting does: hand the id to the parent, or drop it from the local list. */
  datatype DeleteEffect =
    | Delegated(id: int)
    | Removed(remaining: seq<Appointment>)

  /** `handleDelete`: the parent's `onDelete` wins when it is given. */
  function Delete(appointments: seq<Appointment>, id: int, hasOnDelete: bool): (e: DeleteEffect)
    ensures hasOnDelete <==> e.Delegated?
    ensures e.Delegated? ==> e.id == id
    ensures e.Removed? ==> forall a :: a in e.remaining <==> a in appointments && a.id != id
    ensures e.Removed? ==> IsSubsequence(e.remaining, appointments)
    ensures e.Removed? ==> forall a :: multiset(e.remaining)[a] == if a.id != id then multiset(appointments)[a] else 0
  {
    if hasOnDelete then Delegated(id) else Removed(Filter(appointments, (a: Appointment) => a.id != id))
  }

  /**
   * The local list starts as the list passed in, else the sample, and is
   * replaced only when a list is passed in.
   */
  lemma LocalListPolicy(local: seq<Appointment>, incoming: Option<seq<Appointment>>)
    ensures incoming.None? ==> Initial(incoming, Sample) == Sample
    ensures incoming.None? ==> Sync(WhenGiven, local, incoming) == local
    ensures incoming.Some? ==> Sync(WhenGiven, local, incoming) == incoming.value
  {
  }
}
