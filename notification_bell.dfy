/**
 * The header's notification bell: a red badge with the number of unread
 * notifications, and a menu listing every notification with a dot on the
 * unread ones.
 */
module NotificationBell {
  import opened Wrappers
  import Sequences

  datatype Notification = Notification(id: nat, title: string, message: string, time: string, unread: bool)

  const Notifications: seq<Notification> := [
    Notification(1, "New AI Model Available", "DALL-E 3 is now available for generation", "2 minutes ago", true),
    Notification(2, "Credits Added", "Your monthly credits have been renewed", "1 hour ago", true),
    Notification(3, "Generation Complete", "Your batch generation is ready for download", "3 hours ago", false)
  ]

  function IsUnread(n: Notification): bool {
    n.unread
  }

  /** `notifications.filter(n => n.unread).length`. */
  function UnreadCount(ns: seq<Notification>): (c: nat)
    ensures c <= |ns|
    ensures c == Sequences.Count(ns, IsUnread)
    ensures c == 0 <==> forall i :: 0 <= i < |ns| ==> !ns[i].unread
  {
    Sequences.FilterLength(ns, IsUnread);
    var kept := Sequences.Filter(ns, IsUnread);
    assert kept != [] ==> kept[0] in kept;
    assert forall i :: 0 <= i < |ns| ==> ns[i] in ns;
    |kept|
  }

  /** Every notification unread exactly when the count reaches the list's length. */
  lemma {:induction false} AllUnreadIff(ns: seq<Notification>)
    ensures UnreadCount(ns) == |ns| <==> forall i :: 0 <= i < |ns| ==> ns[i].unread
  {
    if ns != [] {
      AllUnreadIff(ns[1..]);
      assert forall i :: 1 <= i < |ns| ==> ns[i] == ns[1..][i - 1];
      assert UnreadCount(ns[1..]) <= |ns[1..]|;
    }
  }

  /** The badge on the bell: the unread count, shown only when positive. */
  function Badge(ns: seq<Notification>): (b: Option<nat>)
    ensures b.Some? <==> exists i :: 0 <= i < |ns| && ns[i].unread
    ensures b.Some? ==> b.value == UnreadCount(ns) && b.value > 0
  {
    var c := UnreadCount(ns);
    if c > 0 then Some(c) else None
  }

  /** One row of the menu. */
  datatype Row = Row(title: string, message: string, time: string, dot: bool)

  datatype Menu = Rows(rows: seq<Row>) | NoNewNotifications

  function RowOf(n: Notification): Row {
    Row(n.title, n.message, n.time, n.unread)
  }

  function RowsOf(ns: seq<Notification>): (rows: seq<Row>)
    ensures |rows| == |ns|
    ensures forall i :: 0 <= i < |ns| ==> rows[i] == RowOf(ns[i])
  {
    if ns == [] then [] else [RowOf(ns[0])] + RowsOf(ns[1..])
  }

  /** The menu: a row per notification, or the empty-state text when there are none. */
  function MenuOf(ns: seq<Notification>): (m: Menu)
    ensures m == NoNewNotifications <==> ns == []
    ensures m.Rows? ==> m.rows == RowsOf(ns)
  {
    if |ns| > 0 then Rows(RowsOf(ns)) else NoNewNotifications
  }

  function HasDot(r: Row): bool {
    r.dot
  }

  /** The dots in the menu add up to the number on the badge. */
  lemma {:induction false} DotsMatchBadge(ns: seq<Notification>)
    ensures Sequences.Count(RowsOf(ns), HasDot) == UnreadCount(ns)
  {
    if ns != [] {
      DotsMatchBadge(ns[1..]);
      assert RowsOf(ns)[1..] == RowsOf(ns[1..]);
    }
  }

  /** The sample data: two unread notifications of three, so the badge reads 2. */
  lemma SampleBadge()
    ensures UnreadCount(Notifications) == 2
    ensures Badge(Notifications) == Some(2)
  {
    var ns := Notifications;
    assert ns[1..][1..][1..] == [];
  }
}
