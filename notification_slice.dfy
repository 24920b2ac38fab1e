/**
 * The client's notification store (client/src/redux/slices/notificationSlice.js):
 * the list shown in the bell menu, newest first, with its loading and error
 * flags. Each reducer case is a method that changes the state in place.
 */
module NotificationSlice {
  import opened Wrappers
  import opened Models
  import ListOps

  /** The `_id` the reducers match notifications by. */
  function NoteId(n: Notification): string { n.id }

  class NotificationState {
    var notifications: seq<Notification>
    var loading: bool
    var error: Option<string>

    /** The initial state: no notifications, not loading, no error. */
    constructor ()
      ensures notifications == [] && !loading && error == None
    {
      notifications := [];
      loading := false;
      error := None;
    }

    /** addNotification: a notification pushed by the socket goes to the front. */
    method AddNotification(n: Notification)
      modifies this
      ensures notifications == [n] + old(notifications)
      ensures |notifications| == |old(notifications)| + 1
      ensures loading == old(loading) && error == old(error)
    {
      notifications := [n] + notifications;
    }

    /** fetchNotifications.pending */
    method FetchPending()
      modifies this
      ensures loading && notifications == old(notifications) && error == old(error)
    {
      loading := true;
    }

    /** fetchNotifications.fulfilled: the fetched list replaces the whole list. */
    method FetchFulfilled(payload: seq<Notification>)
      modifies this
      ensures !loading && notifications == payload && error == old(error)
    {
      loading := false;
      notifications := payload;
    }

    /** fetchNotifications.rejected */
    method FetchRejected(message: string)
      modifies this
      ensures !loading && error == Some(message) && notifications == old(notifications)
    {
      loading := false;
      error := Some(message);
    }

    /**
     * markNotificationAsRead.fulfilled: the updated notification replaces the
     * first one with its id; nothing changes when no entry has that id.
     */
    method MarkReadFulfilled(n: Notification)
      modifies this
      ensures notifications == ListOps.ReplaceFirst(old(notifications), NoteId, n)
      ensures loading == old(loading) && error == old(error)
    {
      var i := ListOps.FindIndex(notifications, NoteId, n.id);
      if i.Some? {
        notifications := notifications[i.value := n];
      }
    }
  }

  /** A notification just added is the one a mark-read for its id replaces. */
  lemma MarkReadAfterAdd(n: Notification, s: seq<Notification>, updated: Notification)
    requires updated.id == n.id
    ensures ListOps.ReplaceFirst([n] + s, NoteId, updated) == [updated] + s
  {
    assert ListOps.FindIndex([n] + s, NoteId, updated.id) == Some(0);
  }
}
