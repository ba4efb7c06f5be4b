/** The notification bell of the web front end: relative dates, the unread
    badge, and the list and counter it keeps while notifications are marked
    as read. */
module NotificationBell {
  import opened Common
  import opened Entities
  import Ordering

  const MinuteMs := 60000
  const HourMs := 3600000
  const DayMs := 86400000

  /** `Math.floor(a / d)` for a positive divisor. Dafny's division rounds
      toward negative infinity when the divisor is positive, which is what
      the floor of the exact quotient does. */
  function FloorDiv(a: int, d: int): (q: int)
    requires d > 0
    ensures q * d <= a < (q + 1) * d
  {
    a / d
  }

  /** What `formatDate` shows, before it is turned into text. */
  datatype Age =
    | JustNow
    | MinutesAgo(minutes: int)
    | HoursAgo(hours: int)
    | DaysAgo(days: int)
    | CalendarDate(date: int)

  /** The age of a notification created at `date` when the clock reads
      `now`, both in milliseconds. */
  function FormatDate(date: int, now: int): (r: Age)
    ensures r.JustNow? <==> now - date < MinuteMs
    ensures r.MinutesAgo? <==> MinuteMs <= now - date < HourMs
    ensures r.HoursAgo? <==> HourMs <= now - date < DayMs
    ensures r.DaysAgo? <==> DayMs <= now - date < 7 * DayMs
    ensures r.CalendarDate? <==> now - date >= 7 * DayMs
    ensures r.MinutesAgo? ==> 1 <= r.minutes <= 59 && r.minutes * MinuteMs <= now - date < (r.minutes + 1) * MinuteMs
    ensures r.HoursAgo? ==> 1 <= r.hours <= 23 && r.hours * HourMs <= now - date < (r.hours + 1) * HourMs
    ensures r.DaysAgo? ==> 1 <= r.days <= 6 && r.days * DayMs <= now - date < (r.days + 1) * DayMs
    ensures r.CalendarDate? ==> r.date == date
  {
    var diffMs := now - date;
    var diffMins := FloorDiv(diffMs, MinuteMs);
    var diffHours := FloorDiv(diffMs, HourMs);
    var diffDays := FloorDiv(diffMs, DayMs);
    if diffMins < 1 then JustNow
    else if diffMins < 60 then MinutesAgo(diffMins)
    else if diffHours < 24 then HoursAgo(diffHours)
    else if diffDays < 7 then DaysAgo(diffDays)
    else CalendarDate(date)
  }

  /** The text of a relative age; a calendar date is rendered by the
      browser's locale and has no text here. */
  function AgeText(a: Age): (s: Option<string>)
    requires !a.MinutesAgo? || a.minutes >= 0
    requires !a.HoursAgo? || a.hours >= 0
    requires !a.DaysAgo? || a.days >= 0
    ensures s.None? <==> a.CalendarDate?
  {
    match a
    case JustNow => Some("À l'instant")
    case MinutesAgo(m) => Some("Il y a " + NatToString(m) + " min")
    case HoursAgo(h) => Some("Il y a " + NatToString(h) + "h")
    case DaysAgo(d) => Some("Il y a " + NatToString(d) + "j")
    case CalendarDate(_) => None
  }

  /** Two different relative ages never read the same. */
  lemma AgeTextInjective(a: Age, b: Age)
    requires !a.CalendarDate? && !b.CalendarDate?
    requires !a.MinutesAgo? || a.minutes >= 0
    requires !a.HoursAgo? || a.hours >= 0
    requires !a.DaysAgo? || a.days >= 0
    requires !b.MinutesAgo? || b.minutes >= 0
    requires !b.HoursAgo? || b.hours >= 0
    requires !b.DaysAgo? || b.days >= 0
    requires AgeText(a) == AgeText(b)
    ensures a == b
  {
    var ta, tb := AgeText(a).value, AgeText(b).value;
    assert ta[|ta| - 1] == tb[|tb| - 1];
    if a.MinutesAgo? && b.MinutesAgo? {
      SameNumber(NatToString(a.minutes), NatToString(b.minutes), " min");
      NatToStringInjective(a.minutes, b.minutes);
    } else if a.HoursAgo? && b.HoursAgo? {
      SameNumber(NatToString(a.hours), NatToString(b.hours), "h");
      NatToStringInjective(a.hours, b.hours);
    } else if a.DaysAgo? && b.DaysAgo? {
      SameNumber(NatToString(a.days), NatToString(b.days), "j");
      NatToStringInjective(a.days, b.days);
    }
  }

  lemma SameNumber(x: string, y: string, unit: string)
    requires "Il y a " + x + unit == "Il y a " + y + unit
    ensures x == y
  {
    var t := "Il y a " + x + unit;
    assert |x| == |y|;
    assert x == t[7..7 + |x|];
    assert y == t[7..7 + |y|];
  }

  // -----------------------------------------------------------------------
  // The badge on the bell
  // -----------------------------------------------------------------------

  /** The badge: hidden without unread notifications, capped at `99+`. */
  function Badge(unreadCount: int): (r: Option<string>)
    ensures r.Some? <==> unreadCount > 0
    ensures r == Some("99+") <==> unreadCount > 99
    ensures 0 < unreadCount <= 99 ==> r.Some? && 1 <= |r.value| <= 2
  {
    if unreadCount <= 0 then None
    else if unreadCount > 99 then Some("99+")
    else
      assert !IsDigit("99+"[2]);
      assert unreadCount >= 10 ==> NatToString(unreadCount) == NatToString(unreadCount / 10) + [DigitChar(unreadCount % 10)];
      assert unreadCount >= 10 ==> |NatToString(unreadCount / 10)| == 1;
      Some(NatToString(unreadCount))
  }

  // -----------------------------------------------------------------------
  // The component's state
  // -----------------------------------------------------------------------

  /** The list without the entries of one id, in the same order. */
  function WithoutId(ns: seq<Notification>, id: Id): (r: seq<Notification>)
    ensures forall i :: 0 <= i < |r| ==> r[i].id != id && r[i] in ns
    ensures forall n :: n in ns && n.id != id ==> n in r
  {
    Ordering.Filter(ns, (n: Notification) => n.id != id)
  }

  /** Each notification of another id keeps its multiplicity. */
  lemma WithoutIdCounts(ns: seq<Notification>, id: Id, n: Notification)
    ensures multiset(WithoutId(ns, id))[n] == if n.id == id then 0 else multiset(ns)[n]
  {
    Ordering.FilterMultiset(ns, (n: Notification) => n.id != id, n);
  }

  class Bell {
    var unreadCount: int
    var notifications: seq<Notification>
    var isOpen: bool
    var isLoading: bool

    predicate Valid()
      reads this
    {
      unreadCount >= 0
    }

    constructor()
      ensures Valid() && unreadCount == 0 && notifications == [] && !isOpen && !isLoading
    {
      unreadCount, notifications, isOpen, isLoading := 0, [], false, false;
    }

    /** `loadUnreadCount`: the count the server returned, or no change when
        the call failed. */
    method LoadUnreadCount(fetched: Option<nat>)
      requires Valid()
      modifies this
      ensures Valid()
      ensures unreadCount == if fetched.Some? then fetched.value else old(unreadCount)
      ensures notifications == old(notifications) && isOpen == old(isOpen) && isLoading == old(isLoading)
    {
      if fetched.Some? {
        unreadCount := fetched.value;
      }
    }

    /** `loadNotifications`: the unread list the server returned, or no
        change when the call failed; the spinner is off afterwards. */
    method LoadNotifications(fetched: Option<seq<Notification>>)
      requires Valid()
      modifies this
      ensures Valid()
      ensures notifications == if fetched.Some? then fetched.value else old(notifications)
      ensures unreadCount == old(unreadCount) && isOpen == old(isOpen) && !isLoading
    {
      isLoading := true;
      if fetched.Some? {
        notifications := fetched.value;
      }
      isLoading := false;
    }

    /** `handleToggle`: opening the dropdown loads the list; closing it does
        not. */
    method HandleToggle(fetched: Option<seq<Notification>>)
      requires Valid()
      modifies this
      ensures Valid()
      ensures isOpen == !old(isOpen) && unreadCount == old(unreadCount)
      ensures !old(isOpen) ==> notifications == if fetched.Some? then fetched.value else old(notifications)
      ensures old(isOpen) ==> notifications == old(notifications) && isLoading == old(isLoading)
    {
      if !isOpen {
        LoadNotifications(fetched);
      }
      isOpen := !isOpen;
    }

    /** `handleMarkAsRead`: once the server has accepted, the entries with
        that id leave the list and the counter drops by one, never below
        zero; a failed call changes nothing. */
    method HandleMarkAsRead(id: Id, succeeded: bool)
      requires Valid()
      modifies this
      ensures Valid()
      ensures succeeded ==> notifications == WithoutId(old(notifications), id)
      ensures succeeded ==> unreadCount == if old(unreadCount) > 0 then old(unreadCount) - 1 else 0
      ensures !succeeded ==> notifications == old(notifications) && unreadCount == old(unreadCount)
      ensures isOpen == old(isOpen) && isLoading == old(isLoading)
    {
      if succeeded {
        notifications := WithoutId(notifications, id);
        unreadCount := if 0 > unreadCount - 1 then 0 else unreadCount - 1;
      }
    }

    /** `handleMarkAllAsRead`: the list empties and the counter is zero, or
        nothing changes when the call failed. */
    method HandleMarkAllAsRead(succeeded: bool)
      requires Valid()
      modifies this
      ensures Valid()
      ensures succeeded ==> notifications == [] && unreadCount == 0
      ensures !succeeded ==> notifications == old(notifications) && unreadCount == old(unreadCount)
      ensures isOpen == old(isOpen) && isLoading == old(isLoading)
    {
      if succeeded {
        notifications := [];
        unreadCount := 0;
      }
    }
  }

  /** Marking the same id as read a second time leaves the list as it was
      after the first. */
  lemma WithoutIdIdempotent(ns: seq<Notification>, id: Id)
    ensures WithoutId(WithoutId(ns, id), id) == WithoutId(ns, id)
  {
    Ordering.FilterKeepsAll(WithoutId(ns, id), (n: Notification) => n.id != id);
  }
}
