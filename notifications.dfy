/**
  The notifications page (app/notifications/page.tsx): a list of
  notifications that can be marked read one at a time or all at once and
  deleted, the unread counter, and the tabs that show the unread ones or
  those of one type.
 */
module Notifications {
  import opened Lists

  /** `kind` is the source's `type` field ("message", "grade", "event", "resource", "attendance"). */
  datatype Notification = Notification(id: int, title: string, description: string, kind: string, date: string, read: bool)

  /** The tabs of the page, in the order they are shown. */
  datatype Tab = All | Unread | Messages | Grades | Events

  const SampleNotifications: seq<Notification> := [
    Notification(1, "New message from Ms. Johnson", "About the upcoming science project", "message", "2024-03-10T10:30:00", false),
    Notification(2, "Grade updated for Science", "Your child's grade has been updated", "grade", "2024-03-09T15:45:00", false),
    Notification(3, "Parent-Teacher Conference scheduled", "March 15, 2024 at 3:30 PM", "event", "2024-03-08T13:15:00", true),
    Notification(4, "New resource shared: Math Practice", "Practice worksheets for fractions and decimals", "resource", "2024-03-07T09:20:00", true),
    Notification(5, "Attendance marked: Absent", "Your child was marked absent on March 3, 2024", "attendance", "2024-03-03T16:00:00", true)
  ]

  /** No two notifications share an id. */
  predicate UniqueIds(ns: seq<Notification>) {
    forall i, j :: 0 <= i < j < |ns| ==> ns[i].id != ns[j].id
  }

  function NotificationId(n: Notification): int {
    n.id
  }

  // ---------------------------------------------------------------------
  // The list operations

  /** `n => n.id === id ? { ...n, read: true } : n`. */
  function ReadIfId(id: int): Notification -> Notification {
    (n: Notification) => if n.id == id then n.(read := true) else n
  }

  /** `n => ({ ...n, read: true })`. */
  function SetRead(n: Notification): Notification {
    n.(read := true)
  }

  /** The predicate `n => n.id !== id`. */
  function OtherId(id: int): Notification -> bool {
    (n: Notification) => n.id != id
  }

  predicate IsUnread(n: Notification) {
    !n.read
  }

  /**
    The list after `markAsRead(id)`: `read` is set on exactly the
    notifications with that id; every other field, every other
    notification, the order and the length stay as they were.
   */
  function MarkRead(ns: seq<Notification>, id: int): (r: seq<Notification>)
    ensures |r| == |ns|
    ensures forall k :: 0 <= k < |ns| ==>
      r[k].read == (ns[k].read || ns[k].id == id) && r[k].(read := ns[k].read) == ns[k]
  {
    Map(ns, ReadIfId(id))
  }

  /** The list after `deleteNotification(id)`. */
  function Delete(ns: seq<Notification>, id: int): seq<Notification> {
    Filter(ns, OtherId(id))
  }

  /** The list after `markAllAsRead()`. */
  function MarkAllRead(ns: seq<Notification>): seq<Notification> {
    Map(ns, SetRead)
  }

  /** `unreadCount`: the length of the list of unread notifications. */
  function UnreadCount(ns: seq<Notification>): nat {
    |Filter(ns, IsUnread)|
  }

  /** Reference definition of the unread count, one notification at a time. */
  function CountUnread(ns: seq<Notification>): nat {
    if ns == [] then 0 else (if ns[0].read then 0 else 1) + CountUnread(ns[1..])
  }

  /** The counter is the number of unread notifications. */
  lemma {:induction false} UnreadCountIsCount(ns: seq<Notification>)
    ensures UnreadCount(ns) == CountUnread(ns)
  {
    if ns != [] {
      UnreadCountIsCount(ns[1..]);
    }
  }

  /** The counter never exceeds the length of the list, and is zero exactly when everything is read. */
  lemma UnreadCountBounds(ns: seq<Notification>)
    ensures UnreadCount(ns) <= |ns|
    ensures UnreadCount(ns) == 0 <==> forall k :: 0 <= k < |ns| ==> ns[k].read
  {
    FilterEmptyIff(ns, IsUnread);
  }

  /** Marking an id that no notification has changes nothing. */
  lemma {:induction false} MarkReadAbsent(ns: seq<Notification>, id: int)
    requires forall k :: 0 <= k < |ns| ==> ns[k].id != id
    ensures MarkRead(ns, id) == ns
  {
    if ns != [] {
      MarkReadAbsent(ns[1..], id);
      assert MarkRead(ns, id) == [ns[0]] + MarkRead(ns[1..], id);
    }
  }

  /**
    With unique ids, marking a notification read lowers the counter by one
    when it was unread, and leaves the counter alone when it was already
    read or no notification has the id.
   */
  lemma {:induction false} MarkReadCount(ns: seq<Notification>, id: int)
    requires UniqueIds(ns)
    ensures CountUnread(MarkRead(ns, id)) ==
      CountUnread(ns) - (if exists k :: 0 <= k < |ns| && ns[k].id == id && !ns[k].read then 1 else 0)
  {
    if ns != [] {
      var t := ns[1..];
      assert MarkRead(ns, id) == [ReadIfId(id)(ns[0])] + MarkRead(t, id);
      assert MarkRead(ns, id)[1..] == MarkRead(t, id);
      assert UniqueIds(t) by {
        forall i, j | 0 <= i < j < |t| ensures t[i].id != t[j].id {
          assert t[i] == ns[i + 1] && t[j] == ns[j + 1];
        }
      }
      if ns[0].id == id {
        forall k | 0 <= k < |t| ensures t[k].id != id {
          assert t[k] == ns[k + 1];
        }
        MarkReadAbsent(t, id);
      } else {
        MarkReadCount(t, id);
        if exists k :: 0 <= k < |t| && t[k].id == id && !t[k].read {
          var k :| 0 <= k < |t| && t[k].id == id && !t[k].read;
          assert ns[k + 1] == t[k];
        }
        if exists k :: 0 <= k < |ns| && ns[k].id == id && !ns[k].read {
          var k :| 0 <= k < |ns| && ns[k].id == id && !ns[k].read;
          assert t[k - 1] == ns[k];
        }
      }
    }
  }

  /** `MarkReadCount` for the counter the page shows. */
  lemma MarkReadUnreadCount(ns: seq<Notification>, id: int, k: nat)
    requires UniqueIds(ns) && k < |ns| && ns[k].id == id
    ensures !ns[k].read ==> UnreadCount(MarkRead(ns, id)) == UnreadCount(ns) - 1
    ensures ns[k].read ==> UnreadCount(MarkRead(ns, id)) == UnreadCount(ns)
  {
    MarkReadCount(ns, id);
    UnreadCountIsCount(ns);
    UnreadCountIsCount(MarkRead(ns, id));
    assert forall j :: 0 <= j < |ns| && ns[j].id == id ==> j == k;
  }

  /**
    Deletion removes exactly the notifications with the id and keeps the
    others, every copy of each, in their order; for an id no notification
    has, nothing changes.
   */
  lemma DeleteRemovesExactly(ns: seq<Notification>, id: int)
    ensures IsSubsequence(Delete(ns, id), ns)
    ensures forall k :: 0 <= k < |Delete(ns, id)| ==> Delete(ns, id)[k].id != id
    ensures forall k :: 0 <= k < |ns| && ns[k].id != id ==> ns[k] in Delete(ns, id)
    ensures (forall k :: 0 <= k < |ns| ==> ns[k].id != id) ==> Delete(ns, id) == ns
    ensures forall n :: multiset(Delete(ns, id))[n] == if n.id != id then multiset(ns)[n] else 0
  {
    FilterIsSubsequence(ns, OtherId(id));
    FilterCounts(ns, OtherId(id));
    if forall k :: 0 <= k < |ns| ==> ns[k].id != id {
      FilterKeepsAll(ns, OtherId(id));
    }
  }

  /** Deletion keeps the ids unique. */
  lemma DeleteKeepsUnique(ns: seq<Notification>, id: int)
    requires UniqueIds(ns)
    ensures UniqueIds(Delete(ns, id))
  {
    FilterIsSubsequence(ns, OtherId(id));
    SubsequenceKeepsDistinct(Delete(ns, id), ns, NotificationId);
  }

  /**
    After marking everything read, every notification is read and the
    counter is zero; only `read` changed, and doing it again changes nothing.
   */
  lemma MarkAllReadClears(ns: seq<Notification>)
    ensures |MarkAllRead(ns)| == |ns|
    ensures forall k :: 0 <= k < |ns| ==> MarkAllRead(ns)[k].read && MarkAllRead(ns)[k].(read := ns[k].read) == ns[k]
    ensures UnreadCount(MarkAllRead(ns)) == 0
    ensures MarkAllRead(MarkAllRead(ns)) == MarkAllRead(ns)
  {
    UnreadCountBounds(MarkAllRead(ns));
    var once := MarkAllRead(ns);
    assert forall k :: 0 <= k < |once| ==> SetRead(once[k]) == once[k];
  }

  // ---------------------------------------------------------------------
  // Tabs

  /** The type a type tab selects. */
  function TabKind(tab: Tab): string
    requires tab != All && tab != Unread
  {
    match tab
    case Messages => "message"
    case Grades => "grade"
    case Events => "event"
  }

  /** The predicate `n => n.type === kind`. */
  function OfKind(kind: string): Notification -> bool {
    (n: Notification) => n.kind == kind
  }

  /** Whether a notification is listed under a tab. */
  predicate ShownIn(tab: Tab, n: Notification) {
    match tab
    case All => true
    case Unread => !n.read
    case _ => n.kind == TabKind(tab)
  }

  /** The notifications a tab lists. */
  function TabView(ns: seq<Notification>, tab: Tab): seq<Notification> {
    match tab
    case All => ns
    case Unread => Filter(ns, IsUnread)
    case _ => Filter(ns, OfKind(TabKind(tab)))
  }

  /**
    Each tab lists, in the order of the full list, exactly the notifications
    it selects: all of them, the unread ones, or those of its type.
   */
  lemma TabViewSelects(ns: seq<Notification>, tab: Tab)
    ensures IsSubsequence(TabView(ns, tab), ns)
    ensures forall k :: 0 <= k < |TabView(ns, tab)| ==> ShownIn(tab, TabView(ns, tab)[k])
    ensures forall k :: 0 <= k < |ns| && ShownIn(tab, ns[k]) ==> ns[k] in TabView(ns, tab)
  {
    match tab
    case All =>
      SubsequenceReflexive(ns);
    case Unread =>
      FilterIsSubsequence(ns, IsUnread);
    case _ =>
      FilterIsSubsequence(ns, OfKind(TabKind(tab)));
  }

  // ---------------------------------------------------------------------
  // The page state

  /** The state of the notifications page and its event handlers. */
  class NotificationCenter {
    var items: seq<Notification>
    var activeTab: Tab

    constructor ()
      ensures items == SampleNotifications && activeTab == All
    {
      items := SampleNotifications;
      activeTab := All;
    }

    /** The number on the unread badge. */
    function Unread(): nat
      reads this
    {
      UnreadCount(items)
    }

    /** The notifications listed under the active tab. */
    function Visible(): seq<Notification>
      reads this
    {
      TabView(items, activeTab)
    }

    method SelectTab(tab: Tab)
      modifies this`activeTab
      ensures activeTab == tab
    {
      activeTab := tab;
    }

    /** `markAsRead`. */
    method MarkAsRead(id: int)
      modifies this`items
      ensures items == MarkRead(old(items), id)
      ensures UniqueIds(old(items)) ==> UniqueIds(items)
    {
      items := MarkRead(items, id);
    }

    /** `deleteNotification`. */
    method DeleteNotification(id: int)
      modifies this`items
      ensures items == Delete(old(items), id)
      ensures UniqueIds(old(items)) ==> UniqueIds(items)
    {
      if UniqueIds(items) {
        DeleteKeepsUnique(items, id);
      }
      items := Delete(items, id);
    }

    /** `markAllAsRead`. */
    method MarkAllAsRead()
      modifies this`items
      ensures items == MarkAllRead(old(items)) && Unread() == 0
    {
      MarkAllReadClears(items);
      items := MarkAllRead(items);
    }
  }
}
