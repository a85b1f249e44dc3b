/**
 * The in-memory notification list of the HTTP server: what `broadcastNotification`
 * stores, and what the mark-read and clear endpoints do to it. The Pusher broadcast,
 * the HTTP responses and the log lines are not modelled; `Date.now()` and the ISO
 * timestamp are parameters.
 */
module Server {
  import opened Wrappers

  /** The fields of `data` that a stored notification copies. */
  datatype Payload = Payload(message: Option<string>, taskId: Option<int>, priority: Option<string>)

  /** One entry of `notifications`. */
  datatype Notification = Notification(
    id: int,
    kind: string,
    message: Option<string>,
    taskId: Option<int>,
    timestamp: string,
    read: bool,
    priority: string)

  /** The notification types that are kept in the list. */
  const StoredTypes: seq<string> := ["TASK_CREATED", "TASK_UPDATED", "TASK_DELETED", "BULK_UPDATE", "BULK_DELETE", "ERROR"]

  /** The most notifications the list keeps. */
  const Capacity: nat := 100

  /** `data.priority || "normal"` */
  function PriorityOf(data: Payload): string {
    match data.priority
    case Some(p) => if p == "" then "normal" else p
    case None => "normal"
  }

  /** The entry `broadcastNotification` puts at the front. */
  function Fresh(kind: string, data: Payload, now: int, timestamp: string): Notification {
    Notification(now, kind, data.message, data.taskId, timestamp, false, PriorityOf(data))
  }

  /** `notifications.slice(0, 100)` when the list is longer than that. */
  function KeepNewest(s: seq<Notification>): (r: seq<Notification>)
    ensures |r| <= Capacity
  {
    if |s| > Capacity then s[..Capacity] else s
  }

  /** The list after `broadcastNotification(kind, data)`. */
  function Stored(s: seq<Notification>, kind: string, data: Payload, now: int, timestamp: string): (r: seq<Notification>)
    ensures kind in StoredTypes ==> 0 < |r| <= Capacity && r[0] == Fresh(kind, data, now, timestamp)
  {
    if kind in StoredTypes then KeepNewest([Fresh(kind, data, now, timestamp)] + s) else s
  }

  /** The index that `notifications.find((n) => n.id === id)` finds: the first with that id. */
  function FindIndex(s: seq<Notification>, id: int): (r: Option<nat>)
    ensures r.Some? ==> r.value < |s| && s[r.value].id == id && forall j | 0 <= j < r.value :: s[j].id != id
    ensures r.None? ==> forall j | 0 <= j < |s| :: s[j].id != id
  {
    if s == [] then None
    else if s[0].id == id then Some(0)
    else
      match FindIndex(s[1..], id)
      case Some(i) => Some(i + 1)
      case None => None
  }

  /** The list after marking the notification with `id` read, if there is one. */
  function MarkedRead(s: seq<Notification>, id: int): (r: seq<Notification>)
    ensures |r| == |s|
  {
    match FindIndex(s, id)
    case Some(i) => s[i := s[i].(read := true)]
    case None => s
  }

  /**
   * Storing: any other type leaves the list as it was; a stored type puts a fresh unread
   * entry, with priority "normal" unless one is given, in front of the existing ones,
   * which keep their order, and drops the oldest beyond 100.
   */
  lemma StoredProperties(s: seq<Notification>, kind: string, data: Payload, now: int, timestamp: string)
    ensures kind !in StoredTypes ==> Stored(s, kind, data, now, timestamp) == s
    ensures kind in StoredTypes ==>
      var r := Stored(s, kind, data, now, timestamp);
      && |r| == (if |s| < 100 then |s| + 1 else 100)
      && r[0] == Fresh(kind, data, now, timestamp)
      && !r[0].read
      && (data.priority.None? || data.priority == Some("") ==> r[0].priority == "normal")
      && r[1..] == s[..|r| - 1]
  {
    if kind in StoredTypes {
      var t := [Fresh(kind, data, now, timestamp)] + s;
      assert t[1..] == s;
      if |t| > Capacity {
        assert t[..Capacity][1..] == s[..Capacity - 1];
      }
    }
  }

  /** Storing never takes the list over 100 entries. */
  lemma StoredBounded(s: seq<Notification>, kind: string, data: Payload, now: int, timestamp: string)
    requires |s| <= 100
    ensures |Stored(s, kind, data, now, timestamp)| <= 100
  {
  }

  /**
   * Marking read: an unknown id changes nothing; a known one sets `read` on the first
   * entry with that id and leaves every other entry, and the length, as they were.
   */
  lemma MarkedReadProperties(s: seq<Notification>, id: int)
    ensures |MarkedRead(s, id)| == |s|
    ensures (forall j | 0 <= j < |s| :: s[j].id != id) ==> MarkedRead(s, id) == s
    ensures forall i | 0 <= i < |s| && s[i].id == id && (forall j | 0 <= j < i :: s[j].id != id) ::
      && MarkedRead(s, id)[i] == s[i].(read := true)
      && forall j | 0 <= j < |s| && j != i :: MarkedRead(s, id)[j] == s[j]
  {
  }

  /** The server's notification list. */
  class NotificationStore {
    var notifications: seq<Notification>

    /** At most 100 entries. */
    predicate Valid()
      reads this
    {
      |notifications| <= Capacity
    }

    /** `let notifications = []` */
    constructor ()
      ensures notifications == [] && Valid()
    {
      notifications := [];
    }

    /** The storing part of `broadcastNotification(type, data)`. */
    method BroadcastNotification(kind: string, data: Payload, now: int, timestamp: string)
      requires Valid()
      modifies this
      ensures Valid()
      ensures notifications == Stored(old(notifications), kind, data, now, timestamp)
    {
      if kind in StoredTypes {
        notifications := [Fresh(kind, data, now, timestamp)] + notifications;
        if |notifications| > 100 {
          notifications := notifications[..100];
        }
      }
    }

    /**
     * `POST /api/notifications/:id/mark-read`: `id` is the parsed request id (`None` for
     * NaN, which equals no id). Returns the updated notification, or `None` for not found.
     */
    method MarkRead(id: Option<int>, now: int, timestamp: string) returns (found: Option<Notification>)
      requires Valid()
      modifies this
      ensures Valid()
      ensures id.None? ==> found.None? && notifications == old(notifications)
      ensures id.Some? ==> notifications == MarkedRead(old(notifications), id.value)
      ensures id.Some? ==> match FindIndex(old(notifications), id.value)
        case Some(i) => found == Some(notifications[i]) && found.value.read
        case None => found.None?
    {
      if id.None? {
        return None;
      }
      var index := FindIndex(notifications, id.value);
      if index.None? {
        return None;
      }
      var i := index.value;
      notifications := notifications[i := notifications[i].(read := true)];
      found := Some(notifications[i]);
      ghost var marked := notifications;
      BroadcastNotification("NOTIFICATION_UPDATED", Payload(None, None, None), now, timestamp);
      assert notifications == marked;
    }

    /** `POST /api/notifications/clear` */
    method Clear(now: int, timestamp: string)
      requires Valid()
      modifies this
      ensures Valid()
      ensures notifications == []
    {
      notifications := [];
      BroadcastNotification("NOTIFICATIONS_CLEARED", Payload(Some("All notifications cleared"), None, None), now, timestamp);
    }
  }
}
