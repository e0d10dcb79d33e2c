/** The notification bell: the display order of notifications, the unread badge, the
    mark-as-read handler and the style of each notification type. */
module NotificationBell {
  import opened Base
  import Seqs
  import Sorting

  /** `NotificationTypeEnum`, plus any other value the server might send. */
  datatype NotificationType = Success | Error | Information | Warning | Unknown(raw: string)

  /** A notification; `createdAt` is its timestamp in milliseconds (`getTime()`). */
  datatype Notification = Notification(id: Option<string>, title: Option<string>, message: Option<string>,
                                       kind: NotificationType, read: bool, createdAt: int)

  // ---------------------------------------------------------------------------
  // sortedNotifications
  // ---------------------------------------------------------------------------

  /** The comparator given to `sort`: unread before read, and newest first among equals. */
  function Compare(a: Notification, b: Notification): int {
    if a.read == b.read then b.createdAt - a.createdAt
    else if a.read then 1
    else -1
  }

  /** `a` may be placed before `b`. */
  predicate Precedes(a: Notification, b: Notification) {
    Compare(a, b) <= 0
  }

  lemma PrecedesIsTotalPreorder()
    ensures Sorting.TotalPreorder(Precedes)
  {
    assert forall a, b, c :: Precedes(a, b) && Precedes(b, c) ==> Precedes(a, c) by {
      forall a, b, c | Precedes(a, b) && Precedes(b, c)
        ensures Precedes(a, c)
      {
        if a.read == c.read && a.read != b.read {
          assert false;
        }
      }
    }
  }

  /** Every unread notification comes before every read one. */
  ghost predicate UnreadFirst(s: seq<Notification>) {
    forall i, j :: 0 <= i < j < |s| && s[i].read ==> s[j].read
  }

  /** Among notifications of equal read status, the newer comes first. */
  ghost predicate NewestFirstWithinStatus(s: seq<Notification>) {
    forall i, j :: 0 <= i < j < |s| && s[i].read == s[j].read ==> s[i].createdAt >= s[j].createdAt
  }

  /** `sortedNotifications`: a list of one element or none is shown as it is (a missing list
      as `[]`); a longer one is sorted in a copy. */
  function SortedNotifications(ns: Option<seq<Notification>>): (r: seq<Notification>)
    ensures ns.None? ==> r == []
    ensures ns.Some? ==> multiset(r) == multiset(ns.value) && |r| == |ns.value|
    ensures ns.Some? && |ns.value| <= 1 ==> r == ns.value
    ensures UnreadFirst(r)
    ensures NewestFirstWithinStatus(r)
  {
    match ns
    case None => []
    case Some(list) =>
      if |list| > 1 then
        PrecedesIsTotalPreorder();
        var r := Sorting.Sort(list, Precedes);
        assert forall i, j :: 0 <= i < j < |r| ==> Precedes(r[i], r[j]);
        r
      else
        list
  }

  // ---------------------------------------------------------------------------
  // the unread badge
  // ---------------------------------------------------------------------------

  predicate IsUnread(n: Notification) {
    !n.read
  }

  /** The number of unread notifications, counted one by one. */
  function CountUnread(s: seq<Notification>): nat
    decreases |s|
  {
    if |s| == 0 then 0 else (if s[0].read then 0 else 1) + CountUnread(s[1..])
  }

  /** `filter(notif => !notif.read).length` is the count of unread notifications. */
  lemma {:induction false} FilterCountsUnread(s: seq<Notification>)
    ensures |Seqs.Filter(s, IsUnread)| == CountUnread(s)
    decreases |s|
  {
    if |s| > 0 {
      FilterCountsUnread(s[1..]);
    }
  }

  /** The badge: shown with the number of unread notifications, and only when there is one. */
  function Badge(ns: Option<seq<Notification>>): (r: Option<nat>)
    ensures r.Some? <==> ns.Some? && exists i :: 0 <= i < |ns.value| && !ns.value[i].read
    ensures r.Some? ==> r.value > 0 && r.value == CountUnread(ns.value)
  {
    if ns.Some? && |ns.value| > 0 && |Seqs.Filter(ns.value, IsUnread)| > 0 then
      FilterCountsUnread(ns.value);
      Some(|Seqs.Filter(ns.value, IsUnread)|)
    else
      assert ns.Some? ==> forall i :: 0 <= i < |ns.value| ==> ns.value[i] !in Seqs.Filter(ns.value, IsUnread);
      None
  }

  lemma {:induction false} UnreadFormPrefix(s: seq<Notification>)
    requires UnreadFirst(s)
    ensures forall i :: 0 <= i < |s| ==> (!s[i].read <==> i < |Seqs.Filter(s, IsUnread)|)
    decreases |s|
  {
    if |s| > 0 {
      if s[0].read {
        assert forall i :: 0 <= i < |s| ==> s[i].read;
        assert forall x :: x in s ==> x.read;
        assert Seqs.Filter(s, IsUnread) == [];
      } else {
        UnreadFormPrefix(s[1..]);
        assert forall i :: 1 <= i < |s| ==> s[i] == s[1..][i - 1];
      }
    }
  }

  /** The badge agrees with the open list: it counts exactly the notifications shown at the top
      of the sorted list, those before the first read one. */
  lemma BadgeCountsUnreadPrefix(ns: Option<seq<Notification>>)
    ensures var sorted := SortedNotifications(ns);
      (forall i :: 0 <= i < |sorted| ==>
        (!sorted[i].read <==> Badge(ns).Some? && i < Badge(ns).value))
      && (Badge(ns).Some? ==> Badge(ns).value <= |sorted|)
  {
    var sorted := SortedNotifications(ns);
    UnreadFormPrefix(sorted);
    if ns.Some? {
      Seqs.FilterLengthOfPermutation(sorted, ns.value, IsUnread);
    }
  }

  // ---------------------------------------------------------------------------
  // handleMarkAsRead and getNotificationStyle
  // ---------------------------------------------------------------------------

  const ReadPathPrefix: string := "/notifications/read/"

  /** What clicking a notification does: the callback it makes, if any, and the path of the
      `PUT` request it always sends. */
  datatype MarkEffects = MarkEffects(callback: Option<string>, requestPath: string)

  /** `handleMarkAsRead`: the callback runs only for a truthy id; the request is sent in every
      case, with `undefined` in the path when there is no id. */
  function HandleMarkAsRead(id: Option<string>): (r: MarkEffects)
    ensures r.callback.Some? <==> TruthyString(id)
    ensures r.callback.Some? ==> r.callback == id
    ensures ReadPathPrefix <= r.requestPath
    ensures id.Some? ==> r.requestPath[|ReadPathPrefix|..] == id.value
    ensures id.None? ==> r.requestPath[|ReadPathPrefix|..] == "undefined"
  {
    var path := ReadPathPrefix + (match id case Some(s) => s case None => "undefined");
    if TruthyString(id) then MarkEffects(id, path) else MarkEffects(None, path)
  }

  /** Different present ids are sent to different paths, so the server is told which
      notification was read; the callback, when made, names the notification of the path. */
  lemma MarkAsReadNamesTheNotification(a: Option<string>, b: Option<string>)
    requires a.Some? && b.Some? && a != b
    ensures HandleMarkAsRead(a).requestPath != HandleMarkAsRead(b).requestPath
    ensures HandleMarkAsRead(a).callback.Some? ==>
              HandleMarkAsRead(a).requestPath == ReadPathPrefix + HandleMarkAsRead(a).callback.value
  {
    var pa, pb := HandleMarkAsRead(a).requestPath, HandleMarkAsRead(b).requestPath;
    assert pa[|ReadPathPrefix|..] != pb[|ReadPathPrefix|..];
  }

  const DefaultStyle: string := "bg-gray-100 text-gray-800"

  /** `getNotificationStyle`: one colour per known type, grey for anything else. */
  function Style(kind: NotificationType): (r: string)
    ensures r == DefaultStyle <==> kind.Unknown?
  {
    match kind
    case Success => "bg-green-100 text-green-800"
    case Error => "bg-red-100 text-red-800"
    case Information => "bg-blue-100 text-blue-800"
    case Warning => "bg-yellow-100 text-yellow-800"
    case Unknown(_) => DefaultStyle
  }

  /** The four known types are told apart by their style. */
  lemma StylesAreDistinct(a: NotificationType, b: NotificationType)
    requires !a.Unknown? && !b.Unknown? && a != b
    ensures Style(a) != Style(b)
  {
  }
}
