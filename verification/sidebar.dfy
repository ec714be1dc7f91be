/** The sidebar: the navigation links, which one is active, the user's initials and the mobile toggle. */
module Sidebar {
  import opened Wrappers
  import opened Seqs
  import opened Text

  datatype Link = Link(caption: string, href: string)

  /** The eight navigation entries, in order. */
  const Menu: seq<Link> := [
    Link("Dashboard", "/"),
    Link("Citas", "/appointments"),
    Link("Clientes", "/customers"),
    Link("Inventario", "/inventory"),
    Link("Órdenes", "/repair-orders"),
    Link("Facturas", "/invoices"),
    Link("Reportes", "/reports"),
    Link("Configuración", "/settings")
  ]

  /** An entry is highlighted when the current path is exactly its target. */
  predicate IsActive(pathname: string, link: Link)
  {
    pathname == link.href
  }

  /** The indices of the highlighted entries. */
  function ActiveEntries(pathname: string): (r: seq<nat>)
    ensures |r| <= 1
    ensures forall i :: 0 <= i < |Menu| ==> (IsActive(pathname, Menu[i]) <==> i in r)
  {
    var found := FindFirst(Menu, (l: Link) => IsActive(pathname, l));
    TargetsDistinct();
    if found.Some? then [found.value] else []
  }

  /** No two entries lead to the same page. */
  lemma TargetsDistinct()
    ensures forall i, j :: 0 <= i < j < |Menu| ==> Menu[i].href != Menu[j].href
  {
    forall i, j | 0 <= i < j < |Menu|
      ensures Menu[i].href != Menu[j].href
    {
      if i == 0 {
        assert |Menu[i].href| == 1 < |Menu[j].href|;
      } else {
        assert Menu[i].href[1] != Menu[j].href[1] || |Menu[i].href| != |Menu[j].href|;
      }
    }
  }

  /** Every page of the application highlights exactly its own entry. */
  lemma EachPageHighlightsItsEntry(i: nat)
    requires i < |Menu|
    ensures ActiveEntries(Menu[i].href) == [i]
  {
  }

  /** The avatar text before the user is known, or when nothing can be derived from the email. */
  const Anonymous := "U"

  /** The non-empty dot-separated parts of the part of an email before the first "@". */
  function NameParts(email: string): seq<string>
  {
    NonEmptyWords(Split(Split(email, '@')[0], '.'))
  }

  /**
   * The avatar initials: the first letters of the dot-separated parts of the
   * email's local part, upper-cased, at most two; "U" when there is no email or
   * nothing to take.
   */
  function UserInitials(email: Option<string>): (r: string)
    ensures 1 <= |r| <= 2
    ensures email.None? || email == Some("") ==> r == Anonymous
    ensures email.Some? && email.value != "" && |NameParts(email.value)| == 0 ==> r == Anonymous
    ensures email.Some? && email.value != "" && |NameParts(email.value)| > 0 ==>
      |r| == Min(2, |NameParts(email.value)|) &&
      forall i :: 0 <= i < |r| ==> r[i] == Upper(NameParts(email.value)[i][0])
  {
    if email.None? || email.value == "" then Anonymous
    else
      var initials := Initials(Split(email.value, '@')[0], '.');
      if initials == "" then Anonymous else initials
  }

  /** An address whose local part has no letters to take (as in "@taller.es") shows "U". */
  lemma EmptyLocalPartIsAnonymous(domain: string)
    ensures UserInitials(Some("@" + domain)) == Anonymous
  {
    var email := "@" + domain;
    assert email[1..] == domain;
    assert Split(email, '@')[0] == "";
    assert Split("", '.') == [""];
    assert NonEmptyWords([""]) == [];
  }

  /** `nombre.apellido@…` gives the two initials. */
  lemma FirstAndLastName(first: string, last: string, domain: string)
    requires |first| > 0 && |last| > 0
    requires '.' !in first && '.' !in last && '@' !in first && '@' !in last
    ensures UserInitials(Some(first + "." + last + "@" + domain)) == [Upper(first[0]), Upper(last[0])]
  {
    var local := first + "." + last;
    var email := local + "@" + domain;
    assert email == first + "." + last + "@" + domain;
    SplitAtFirst(local, '@', domain);
    assert Split(email, '@')[0] == local;
    SplitWithoutSeparator(first, '.');
    SplitWithoutSeparator(last, '.');
    SplitAtFirst(first, '.', last);
    assert Split(local, '.') == [first, last];
    assert NonEmptyWords([first, last]) == [first, last] by {
      assert [first, last][1..] == [last];
      assert [last][1..] == [];
      assert NonEmptyWords([last]) == [last];
    }
  }

  /** The sidebar starts open on small screens; the button flips it and the overlay closes it. */
  const OpenAtStart := true

  function Toggle(isOpen: bool): (r: bool)
    ensures r != isOpen
  {
    !isOpen
  }

  /** The overlay is only there while the sidebar is open; clicking it closes the sidebar. */
  function OverlayClick(isOpen: bool): (r: bool)
    requires isOpen
    ensures !r
  {
    false
  }

  /** Two presses of the button leave the sidebar as it was; the overlay agrees with one press. */
  lemma ToggleTwice(isOpen: bool)
    ensures Toggle(Toggle(isOpen)) == isOpen
    ensures isOpen ==> OverlayClick(isOpen) == Toggle(isOpen)
  {
  }
}
