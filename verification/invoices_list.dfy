/** The invoice list: search, status filter, deletion and following the invoices passed in. */
module InvoicesList {
  import opened Wrappers
  import opened Seqs
  import opened Entities
  import opened ListView

  predicate Matches(invoice: Invoice, query: string)
  {
    MatchesIgnoringCase(invoice.customerName, query) || MatchesIgnoringCase(invoice.invoiceNumber, query)
    || MatchesIgnoringCase(invoice.customerEmail, query)
  }

  /** `filteredInvoices`: the search, then the status filter unless it is "all". */
  function Visible(invoices: seq<Invoice>, query: string, statusFilter: string): (r: seq<Invoice>)
    ensures forall v :: v in r <==> v in invoices && Matches(v, query) && StatusAllows(statusFilter, v.status)
    ensures IsSubsequence(r, invoices)
    ensures forall v :: multiset(r)[v] ==
             if Matches(v, query) && StatusAllows(statusFilter, v.status) then multiset(invoices)[v] else 0
  {
    var found := Filter(invoices, (v: Invoice) => Matches(v, query));
    if statusFilter != "all" then
      var kept := Filter(found, (v: Invoice) => v.status == statusFilter);
      SubsequenceTransitive(kept, found, invoices);
      kept
    else found
  }

  /** Narrowing the status filter from "all" to one status only removes invoices. */
  lemma StatusFilterNarrows(invoices: seq<Invoice>, query: string, status: string)
    ensures forall v :: v in Visible(invoices, query, status) ==> v in Visible(invoices, query, "all")
    ensures forall v :: v in Visible(invoices, query, "all") && v.status == status ==> v in Visible(invoices, query, status)
  {
  }

  /** `handleDelete`. */
  function Delete(invoices: seq<Invoice>, id: int): (r: seq<Invoice>)
    ensures forall v :: v in r <==> v in invoices && v.id != id
    ensures IsSubsequence(r, invoices)
    ensures forall v :: multiset(r)[v] == if v.id != id then multiset(invoices)[v] else 0
  {
    Filter(invoices, (v: Invoice) => v.id != id)
  }

  /** The local list is replaced by each new list passed in, discarding local deletions. */
  lemma NewListReplaces(local: seq<Invoice>, incoming: seq<Invoice>, id: int)
    ensures Sync(Always, Delete(local, id), Some(incoming)) == incoming
  {
  }
}
