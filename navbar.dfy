/** `src/components/Layout/Navbar.tsx`: the notification conditions, the
    promotion banner with its maximum discount, and the mobile menu state. */
module Navbar {
  import opened Wrappers
  import opened Seqs
  import opened Events
  import opened Text

  /** `hasActiveEvents`. */
  predicate HasActiveEvents(activeEvents: seq<Event>) {
    |activeEvents| > 0
  }

  /** One entry of the navigation list. */
  datatype NavItem = NavItem(name: string, href: string, hasNotification: bool)

  /** `navigation`, with `t` the current translation function: home,
      products and events, of which only events carries a notification. */
  function Navigation(t: string -> string): (r: seq<NavItem>)
    ensures |r| == 3
    ensures r[0].href == "/" && r[1].href == "/produk" && r[2].href == "/event"
    ensures r[0].name == t("nav.home") && r[1].name == t("nav.products") && r[2].name == t("nav.events")
    ensures forall i :: 0 <= i < |r| ==> (r[i].hasNotification <==> i == 2)
  {
    [ NavItem(t("nav.home"), "/", false),
      NavItem(t("nav.products"), "/produk", false),
      NavItem(t("nav.events"), "/event", true) ]
  }

  /** The badge and the tooltip beside an item. */
  predicate BadgeShown(item: NavItem, activeEvents: seq<Event>) {
    item.hasNotification && HasActiveEvents(activeEvents)
  }

  /** Translation keys of the count shown beside the badge: the desktop
      tooltip and the mobile menu's pill. */
  const TooltipKey: string := "nav.active_events"
  const MobilePillKey: string := "events.ongoing"

  /** `{activeEvents.length} {t(key)}` beside an item, or `None` where the
      item shows no badge. */
  function CountBadge(t: string -> string, key: string, item: NavItem, activeEvents: seq<Event>): (r: Option<string>)
    ensures r.Some? <==> item.hasNotification && |activeEvents| > 0
    ensures r.Some? ==> StartsWith(r.value, NatToString(|activeEvents|) + " ") && EndsWith(r.value, t(key))
    ensures r.Some? ==> r.value == NatToString(|activeEvents|) + " " + t(key)
  {
    if BadgeShown(item, activeEvents) then
      var head := NatToString(|activeEvents|) + " ";
      assert (head + t(key))[..|head|] == head;
      assert (head + t(key))[|head|..] == t(key);
      Some(head + t(key))
    else None
  }

  /** Only the Events item carries a badge, and only while there are active
      events. */
  lemma BadgeOnlyOnEvents(t: string -> string, activeEvents: seq<Event>, i: int)
    requires 0 <= i < 3
    ensures BadgeShown(Navigation(t)[i], activeEvents) <==>
            Navigation(t)[i].href == "/event" && |activeEvents| > 0
  {
  }

  /** A discount is truthy when present and non-zero. */
  predicate HasDiscount(e: Event) {
    e.discount.Some? && e.discount.value != 0
  }

  /** `e.discount || 0`. */
  function DiscountOrZero(e: Event): int {
    if HasDiscount(e) then e.discount.value else 0
  }

  /** `Math.max(...xs)` of a non-empty list: one of its elements and at
      least every one of them. */
  function Max(xs: seq<int>): (m: int)
    requires |xs| >= 1
    ensures m in xs
    ensures forall x :: x in xs ==> x <= m
  {
    if |xs| == 1 then xs[0]
    else
      var rest := Max(xs[1..]);
      assert forall x :: x in xs ==> x == xs[0] || x in xs[1..];
      if xs[0] >= rest then xs[0] else rest
  }

  /** The banner's percentage, or `None` where the banner is not shown:
      it shows iff some active event has a truthy discount. */
  function BannerDiscount(activeEvents: seq<Event>): (r: Option<int>)
    ensures r.Some? <==> exists e :: e in activeEvents && HasDiscount(e)
  {
    var withDiscount := Filter(activeEvents, HasDiscount);
    if HasActiveEvents(activeEvents) && |withDiscount| > 0
    then Some(Max(Map(withDiscount, DiscountOrZero)))
    else None
  }

  /** The percentage is one of the truthy discounts and at least each of
      them. */
  lemma BannerShowsMaximum(activeEvents: seq<Event>)
    requires BannerDiscount(activeEvents).Some?
    ensures exists e :: e in activeEvents && HasDiscount(e) && e.discount.value == BannerDiscount(activeEvents).value
    ensures forall e :: e in activeEvents && HasDiscount(e) ==> e.discount.value <= BannerDiscount(activeEvents).value
  {
    var withDiscount := Filter(activeEvents, HasDiscount);
    var ds := Map(withDiscount, DiscountOrZero);
    var m := BannerDiscount(activeEvents).value;
    assert m == Max(ds);
    var k :| 0 <= k < |ds| && ds[k] == m;
    assert withDiscount[k] in activeEvents && HasDiscount(withDiscount[k]);
    forall e | e in activeEvents && HasDiscount(e)
      ensures e.discount.value <= m
    {
      var i :| 0 <= i < |activeEvents| && activeEvents[i] == e;
      var j :| 0 <= j < |withDiscount| && withDiscount[j] == e;
      assert ds[j] in ds;
    }
  }

  /** Events without a truthy discount do not change the banner. */
  lemma NoDiscountIgnored(activeEvents: seq<Event>, e: Event)
    requires !HasDiscount(e)
    ensures BannerDiscount(activeEvents + [e]) == BannerDiscount(activeEvents)
  {
    FilterAppend(activeEvents, [e], HasDiscount);
    assert Filter([e], HasDiscount) == [];
    assert Filter(activeEvents + [e], HasDiscount) == Filter(activeEvents, HasDiscount);
    if |Filter(activeEvents, HasDiscount)| > 0 {
      assert |activeEvents| > 0;
    }
  }

  /** The navigation bar: its `activeEvents` prop and whether the mobile
      menu is open. */
  class NavigationBar {
    const activeEvents: seq<Event>
    var isMobileMenuOpen: bool

    /** `activeEvents` defaults to the empty list; the menu starts closed. */
    constructor (activeEvents: Option<seq<Event>>)
      ensures this.activeEvents == activeEvents.GetOr([])
      ensures !isMobileMenuOpen
    {
      this.activeEvents := activeEvents.GetOr([]);
      isMobileMenuOpen := false;
    }

    /** The menu button. */
    method ToggleMenu()
      modifies this
      ensures isMobileMenuOpen == !old(isMobileMenuOpen)
      ensures HasActiveEvents(activeEvents) ==> MobileDotShown() == !old(MobileDotShown())
    {
      isMobileMenuOpen := !isMobileMenuOpen;
    }

    /** A click on a mobile link. */
    method CloseMenu()
      modifies this
      ensures !isMobileMenuOpen
      ensures MobileDotShown() == HasActiveEvents(activeEvents)
    {
      isMobileMenuOpen := false;
    }

    /** The dot on the menu button. */
    function MobileDotShown(): bool
      reads this
    {
      HasActiveEvents(activeEvents) && !isMobileMenuOpen
    }
  }

  /** Without the prop there are no active events, so no badge, no dot and
      no banner. */
  lemma DefaultShowsNothing(bar: NavigationBar, t: string -> string, i: int)
    requires bar.activeEvents == []
    requires 0 <= i < 3
    ensures !BadgeShown(Navigation(t)[i], bar.activeEvents)
    ensures !bar.MobileDotShown()
    ensures BannerDiscount(bar.activeEvents).None?
  {
  }
}
