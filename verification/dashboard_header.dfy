/** The header's notification counter and its two drop-down menus. */
module DashboardHeader {
  import opened Seqs
  import opened Entities

  predicate IsPending(a: Appointment) { a.status == "pending" }

  predicate NothingToReport(items: seq<InventoryItem>, appointments: seq<Appointment>)
  {
    && (forall x :: x in items ==> x.quantity >= x.minQuantity)
    && (forall a :: a in appointments ==> a.status != "pending")
  }

  /** `notificationCount`: items strictly under their minimum plus pending appointments. */
  function NotificationCount(items: seq<InventoryItem>, appointments: seq<Appointment>): (n: nat)
    ensures n == |Filter(items, BelowMinimum)| + |Filter(appointments, IsPending)|
    ensures n == 0 <==> NothingToReport(items, appointments)
  {
    var low := Filter(items, BelowMinimum);
    var pending := Filter(appointments, IsPending);
    assert |low| == 0 <==> forall x :: x in items ==> x.quantity >= x.minQuantity by {
      if |low| > 0 { assert low[0] in low; }
    }
    assert |pending| == 0 <==> forall a :: a in appointments ==> a.status != "pending" by {
      if |pending| > 0 { assert pending[0] in pending; }
    }
    |low| + |pending|
  }

  /** The panel lists at most five of each kind, the first ones in list order. */
  function Listed(items: seq<InventoryItem>, appointments: seq<Appointment>): (r: (seq<InventoryItem>, seq<Appointment>))
    ensures |r.0| == Min(5, |Filter(items, BelowMinimum)|)
    ensures |r.1| == Min(5, |Filter(appointments, IsPending)|)
    ensures r.0 == Filter(items, BelowMinimum)[..|r.0|]
    ensures r.1 == Filter(appointments, IsPending)[..|r.1|]
  {
    var low := Take(Filter(items, BelowMinimum), 5);
    var pending := Take(Filter(appointments, IsPending), 5);
    (low, pending)
  }

  /** What the bell shows for a count: the red dot, the label, the empty state. */
  datatype Bell = Bell(dot: bool, caption: string, empty: bool)

  function BellFor(count: nat): (b: Bell)
    ensures b.dot <==> count > 0
    ensures b.empty <==> count == 0
    ensures b.caption == "notificación" <==> count == 1
    ensures b.caption == "notificaciones" <==> count != 1
  {
    Bell(count > 0, if count == 1 then "notificación" else "notificaciones", count == 0)
  }

  /** Which drop-downs are open. */
  datatype Menus = Menus(userMenu: bool, notifications: bool)

  const Closed := Menus(false, false)

  predicate AtMostOneOpen(m: Menus) { !(m.userMenu && m.notifications) }

  /** `toggleNotifications`: flip the notifications panel, close the user menu. */
  function ToggleNotifications(m: Menus): (r: Menus)
    ensures r.notifications == !m.notifications && !r.userMenu
    ensures AtMostOneOpen(r)
  {
    Menus(false, !m.notifications)
  }

  /** `toggleUserMenu`: flip the user menu, close the notifications panel. */
  function ToggleUserMenu(m: Menus): (r: Menus)
    ensures r.userMenu == !m.userMenu && !r.notifications
    ensures AtMostOneOpen(r)
  {
    Menus(!m.userMenu, false)
  }

  /** A mouse press: each menu the press falls outside of closes; one it falls inside stays as it was. */
  function ClickAt(m: Menus, insideUserMenu: bool, insideNotifications: bool): (r: Menus)
    ensures insideUserMenu ==> r.userMenu == m.userMenu
    ensures !insideUserMenu ==> !r.userMenu
    ensures insideNotifications ==> r.notifications == m.notifications
    ensures !insideNotifications ==> !r.notifications
    ensures AtMostOneOpen(m) ==> AtMostOneOpen(r)
  {
    Menus(m.userMenu && insideUserMenu, m.notifications && insideNotifications)
  }

  /** Following a link in the notifications panel closes it. */
  function FollowNotification(m: Menus): (r: Menus)
    ensures !r.notifications && r.userMenu == m.userMenu
    ensures AtMostOneOpen(r)
  {
    m.(notifications := false)
  }

  datatype Event = ToggleBell | ToggleUser | Click(insideUserMenu: bool, insideNotifications: bool) | Follow

  function Step(m: Menus, e: Event): Menus
  {
    match e
    case ToggleBell => ToggleNotifications(m)
    case ToggleUser => ToggleUserMenu(m)
    case Click(u, n) => ClickAt(m, u, n)
    case Follow => FollowNotification(m)
  }

  function Run(m: Menus, events: seq<Event>): Menus
    decreases |events|
  {
    if |events| == 0 then m else Run(Step(m, events[0]), events[1..])
  }

  /** Whatever the user does from closed menus, the two menus are never open together. */
  lemma {:induction false} NeverBothOpen(m: Menus, events: seq<Event>)
    requires AtMostOneOpen(m)
    ensures AtMostOneOpen(Run(m, events))
    decreases |events|
  {
    if |events| > 0 {
      NeverBothOpen(Step(m, events[0]), events[1..]);
    }
  }
}
