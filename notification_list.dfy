/**
 * The bell menu's list (client/src/components/common/NotificationList.jsx):
 * what a click on a notification does, and what an empty list shows.
 */
module NotificationList {
  import opened Wrappers
  import opened Models
  import ListOps
  import NotificationSlice

  /** What the menu renders: the placeholder text, or one row per notification. */
  datatype View = NoNotifications | Rows(rows: seq<Notification>)

  function Render(notifications: seq<Notification>): (v: View)
    ensures v == NoNotifications <==> notifications == []
    ensures v.Rows? ==> v.rows == notifications
  {
    if |notifications| == 0 then NoNotifications else Rows(notifications)
  }

  /** handleRead: the id to mark as read, only for an unread notification. */
  function HandleRead(id: Id, read: bool): (r: Option<Id>)
    ensures r.Some? <==> !read
    ensures r.Some? ==> r.value == id
  {
    if !read then Some(id) else None
  }

  /** The effects of one click: a mark-read request, closing the menu, and where to go. */
  datatype ClickEffect = ClickEffect(markRead: Option<Id>, close: bool, navigateTo: Option<string>)

  /**
   * handleNotificationClick: marks an unread notification, always closes
   * the menu, and goes to the chat for a message, to the dashboard for an
   * application event, and nowhere for a system notice.
   */
  function Click(n: Notification): (e: ClickEffect)
    ensures e.close
    ensures e.markRead == HandleRead(n.id, n.read)
    ensures e.navigateTo == Some("/chat") <==> n.kind == NewMessage
    ensures e.navigateTo == Some("/dashboard") <==> n.kind == ApplicationStatus || n.kind == NewApplication
    ensures e.navigateTo.None? <==> n.kind == System
  {
    ClickEffect(HandleRead(n.id, n.read), true,
      match n.kind
      case NewMessage => Some("/chat")
      case ApplicationStatus => Some("/dashboard")
      case NewApplication => Some("/dashboard")
      case System => None)
  }

  /**
   * Clicking an unread notification in the list, once the server answers
   * with it marked read, leaves that row read and every other row as it was.
   */
  lemma ClickedRowBecomesRead(s: seq<Notification>, k: nat)
    requires k < |s| && !s[k].read
    requires forall j :: 0 <= j < k ==> s[j].id != s[k].id
    ensures Click(s[k]).markRead == Some(s[k].id)
    ensures var after := ListOps.ReplaceFirst(s, NotificationSlice.NoteId, s[k].(read := true));
            |after| == |s| && after[k].read && forall j :: 0 <= j < |s| && j != k ==> after[j] == s[j]
  {
    assert ListOps.FindIndex(s, NotificationSlice.NoteId, s[k].id) == Some(k);
  }
}
