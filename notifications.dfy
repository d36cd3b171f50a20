/** The notification read-state ledger of `useNotificationStore`: a list of
    notifications, each with an `isNew` (unread) flag, a counter of unread
    entries and a pagination record. The list-level logic (`map`, `filter`,
    `slice`) is pure; the store itself is a class whose actions overwrite its
    fields. */
module Notifications {
  import opened Common

  /** A notification as the store keeps it. `kind` is the wire field `type`. */
  datatype Notification = Notification(
    id: int, memberId: int, postId: Option<int>, kind: string,
    content: string, createdAt: string, isNew: bool)

  /** A notification as the server sends it: `isNew` may be null or missing. */
  datatype WireNotification = WireNotification(
    id: int, memberId: int, postId: Option<int>, kind: string,
    content: string, createdAt: string, isNew: Option<bool>)

  /** What awaiting `fetchNotificationsApi()` can give: a rejection, a falsy
      value, or a page envelope (only `content` and `totalElements` are read). */
  datatype NotificationFetch =
    | FetchFailed
    | NoData
    | Fetched(content: seq<WireNotification>, totalElements: int)

  /** The list is capped at this many entries when a notification arrives. */
  const Capacity: nat := 20

  /** Page size recorded after any fetch, successful or not. */
  const FetchedPageSize: int := 20

  const InitialPagination: Pagination := Pagination(0, 0, 10, 0)

  /** The unread entries of the list, in list order. */
  function Unread(s: seq<Notification>): (r: seq<Notification>)
    ensures forall x :: x in r <==> x in s && x.isNew
    ensures Subseq(r, s)
  {
    if s == [] then []
    else
      var rest := Unread(s[1..]);
      SubseqCons(s[0], rest, s[1..]);
      assert s == [s[0]] + s[1..];
      assert forall x :: x in s <==> x == s[0] || x in s[1..];
      if s[0].isNew then [s[0]] + rest else rest
  }

  /** The number of unread entries, which the store keeps as its counter. */
  function CountNew(s: seq<Notification>): nat {
    |Unread(s)|
  }

  lemma {:induction false} UnreadAppend(a: seq<Notification>, b: seq<Notification>)
    ensures Unread(a + b) == Unread(a) + Unread(b)
    decreases |a|
  {
    if a != [] {
      assert (a + b)[0] == a[0] && (a + b)[1..] == a[1..] + b;
      UnreadAppend(a[1..], b);
      assert Unread(a + b) == (if a[0].isNew then [a[0]] else []) + Unread(a[1..] + b);
    } else {
      assert a + b == b;
    }
  }

  /** The filter keeps every unread entry as often as the list holds it, and
      no read entry. */
  lemma {:induction false} UnreadMultiplicity(s: seq<Notification>)
    ensures forall x :: multiset(Unread(s))[x] == if x.isNew then multiset(s)[x] else 0
    decreases |s|
  {
    if s != [] {
      UnreadMultiplicity(s[1..]);
      assert s == [s[0]] + s[1..];
      assert Unread(s) == (if s[0].isNew then [s[0]] else []) + Unread(s[1..]);
    }
  }

  /** The unread count never exceeds the length and is zero exactly when no entry is new. */
  lemma {:induction false} CountNewBounds(s: seq<Notification>)
    ensures CountNew(s) <= |s|
    ensures CountNew(s) == 0 <==> forall i :: 0 <= i < |s| ==> !s[i].isNew
    decreases |s|
  {
    if s != [] {
      CountNewBounds(s[1..]);
      assert forall i :: 1 <= i < |s| ==> s[i] == s[1..][i - 1];
      if s[0].isNew {
        assert s[0] in Unread(s);
      }
    }
  }

  /** Everything but `isNew` of a stored notification agrees with the wire item. */
  predicate SameFields(n: Notification, w: WireNotification) {
    n.id == w.id && n.memberId == w.memberId && n.postId == w.postId &&
    n.kind == w.kind && n.content == w.content && n.createdAt == w.createdAt
  }

  /** A wire item as the store keeps it: a missing or null `isNew` becomes
      unread, and every other field is copied. */
  function FromWire(w: WireNotification): Notification {
    Notification(w.id, w.memberId, w.postId, w.kind, w.content, w.createdAt, w.isNew.GetOr(true))
  }

  /** The list a successful fetch stores: every wire item converted, in order. */
  function LoadFromWire(ws: seq<WireNotification>): (r: seq<Notification>)
    ensures |r| == |ws|
    ensures forall i :: 0 <= i < |ws| ==>
      SameFields(r[i], ws[i]) && (r[i].isNew <==> ws[i].isNew != Some(false))
  {
    if ws == [] then []
    else
      var rest := LoadFromWire(ws[1..]);
      assert forall i :: 1 <= i < |ws| ==> ws[i] == ws[1..][i - 1];
      [FromWire(ws[0])] + rest
  }

  /** An explicit `isNew: false` on the wire stays read; only a missing flag becomes unread. */
  lemma LoadKeepsExplicitRead(ws: seq<WireNotification>, i: int)
    requires 0 <= i < |ws| && ws[i].isNew == Some(false)
    ensures !LoadFromWire(ws)[i].isNew && SameFields(LoadFromWire(ws)[i], ws[i])
  {
  }

  /** Every entry carrying `id` becomes read; every other entry is kept as it is. */
  function MarkRead(s: seq<Notification>, id: int): (r: seq<Notification>)
    ensures |r| == |s|
    ensures forall i :: 0 <= i < |s| ==>
      r[i].(isNew := s[i].isNew) == s[i] && (r[i].isNew <==> s[i].isNew && s[i].id != id)
  {
    if s == [] then []
    else
      var rest := MarkRead(s[1..], id);
      assert forall i :: 1 <= i < |s| ==> s[i] == s[1..][i - 1];
      [if s[0].id == id then s[0].(isNew := false) else s[0]] + rest
  }

  /** Number of unread entries carrying `id`. */
  function CountUnreadWithId(s: seq<Notification>, id: int): nat {
    if s == [] then 0
    else (if s[0].isNew && s[0].id == id then 1 else 0) + CountUnreadWithId(s[1..], id)
  }

  /** Marking `id` read removes exactly the unread entries carrying `id` from the count. */
  lemma {:induction false} MarkReadCount(s: seq<Notification>, id: int)
    ensures CountNew(MarkRead(s, id)) + CountUnreadWithId(s, id) == CountNew(s)
    decreases |s|
  {
    if s != [] {
      MarkReadCount(s[1..], id);
      var r := MarkRead(s, id);
      assert r == [r[0]] + r[1..];
      assert r[1..] == MarkRead(s[1..], id);
      assert s == [s[0]] + s[1..];
      UnreadAppend([r[0]], r[1..]);
      UnreadAppend([s[0]], s[1..]);
    }
  }

  /** Marking a notification read never increases the unread count. */
  lemma MarkReadNeverIncreases(s: seq<Notification>, id: int)
    ensures CountNew(MarkRead(s, id)) <= CountNew(s)
  {
    MarkReadCount(s, id);
  }

  /** Marking an id that no entry carries leaves the list as it was. */
  lemma MarkReadAbsent(s: seq<Notification>, id: int)
    requires forall i :: 0 <= i < |s| ==> s[i].id != id
    ensures MarkRead(s, id) == s
  {
  }

  lemma {:induction false} CountUnreadWithIdAbsent(s: seq<Notification>, id: int)
    requires forall i :: 0 <= i < |s| ==> s[i].id != id
    ensures CountUnreadWithId(s, id) == 0
    decreases |s|
  {
    if s != [] {
      assert forall i :: 1 <= i < |s| ==> s[i] == s[1..][i - 1];
      CountUnreadWithIdAbsent(s[1..], id);
    }
  }

  /** With ids unique, marking an unread notification read lowers the count by exactly one. */
  lemma {:induction false} MarkReadUniqueUnread(s: seq<Notification>, id: int, k: int)
    requires 0 <= k < |s| && s[k].id == id && s[k].isNew
    requires forall j :: 0 <= j < |s| && j != k ==> s[j].id != id
    ensures CountNew(MarkRead(s, id)) == CountNew(s) - 1
  {
    MarkReadCount(s, id);
    CountUnreadWithIdOne(s, id, k);
  }

  lemma {:induction false} CountUnreadWithIdOne(s: seq<Notification>, id: int, k: int)
    requires 0 <= k < |s| && s[k].id == id && s[k].isNew
    requires forall j :: 0 <= j < |s| && j != k ==> s[j].id != id
    ensures CountUnreadWithId(s, id) == 1
    decreases |s|
  {
    assert forall i :: 1 <= i < |s| ==> s[i] == s[1..][i - 1];
    if k == 0 {
      CountUnreadWithIdAbsent(s[1..], id);
    } else {
      CountUnreadWithIdOne(s[1..], id, k - 1);
    }
  }

  /** The arriving notification, marked unread, goes in front, and the list is
      cut to its first `Capacity` entries. */
  function AddNew(s: seq<Notification>, n: Notification): seq<Notification> {
    var all := [n.(isNew := true)] + s;
    if |all| <= Capacity then all else all[..Capacity]
  }

  function Min(a: int, b: int): int { if a <= b then a else b }

  /** The new notification heads the list as unread, followed by the first
      `min(old length, 19)` old entries in order; the list never exceeds 20. */
  lemma AddNewShape(s: seq<Notification>, n: Notification)
    ensures var r := AddNew(s, n);
      |r| == Min(|s| + 1, Capacity) && |r| <= Capacity &&
      r[0] == n.(isNew := true) && r[1..] == s[..Min(|s|, Capacity - 1)]
  {
  }

  /** The unread count after an arrival is one plus the unread kept from the old list. */
  lemma AddNewCount(s: seq<Notification>, n: Notification)
    ensures CountNew(AddNew(s, n)) == 1 + CountNew(s[..Min(|s|, Capacity - 1)])
    ensures 1 <= CountNew(AddNew(s, n)) <= Capacity
  {
    var r := AddNew(s, n);
    AddNewShape(s, n);
    assert r == [r[0]] + r[1..];
    UnreadAppend([r[0]], r[1..]);
    CountNewBounds(r);
  }

  /** No de-duplication: an arriving notification whose id is already listed
      is stored beside the old one, so two entries share that id. */
  lemma AddNewKeepsDuplicate(s: seq<Notification>, n: Notification, k: int)
    requires 0 <= k < |s| && k < Capacity - 1 && s[k].id == n.id
    ensures var r := AddNew(s, n);
      0 < k + 1 < |r| && r[0].id == n.id && r[k + 1].id == n.id
  {
    AddNewShape(s, n);
  }

  /** The store: `notifications`, `newNotificationCount` and `pagination`. */
  class NotificationStore {
    var notifications: seq<Notification>
    var newNotificationCount: nat
    var pagination: Pagination

    /** The counter is the live number of unread entries. */
    ghost predicate CounterAgrees()
      reads this
    {
      newNotificationCount == CountNew(notifications)
    }

    /** The counter agrees with the list, except after a failed fetch, which
        empties the list and leaves the counter as it was. */
    ghost predicate Valid()
      reads this
    {
      CounterAgrees() || notifications == []
    }

    constructor ()
      ensures notifications == [] && newNotificationCount == 0
      ensures pagination == InitialPagination
      ensures Valid() && CounterAgrees()
    {
      notifications := [];
      newNotificationCount := 0;
      pagination := InitialPagination;
    }

    method SetPagination(p: Pagination)
      modifies this
      ensures pagination == p
      ensures notifications == old(notifications) && newNotificationCount == old(newNotificationCount)
    {
      pagination := p;
    }

    /** Stores the list unchanged and recounts the unread entries. */
    method SetNotifications(ns: seq<Notification>)
      modifies this
      ensures notifications == ns && newNotificationCount == CountNew(ns)
      ensures pagination == old(pagination)
      ensures Valid() && CounterAgrees()
    {
      var newCount := CountNew(ns);
      notifications, newNotificationCount := ns, newCount;
    }

    /** The part of `fetchNotifications` after the request settles; `response`
        is its outcome. The three successive `set` calls of a success are three
        assignments. */
    method FetchNotifications(response: NotificationFetch)
      requires Valid()
      modifies this
      ensures Valid()
      ensures response.FetchFailed? ==>
        notifications == [] && pagination == Pagination(0, 0, FetchedPageSize, 0) &&
        newNotificationCount == old(newNotificationCount)
      ensures response.NoData? ==>
        notifications == old(notifications) && pagination == old(pagination) &&
        newNotificationCount == old(newNotificationCount)
      ensures response.Fetched? ==>
        notifications == LoadFromWire(response.content) &&
        pagination == Pagination(response.totalElements, 1, FetchedPageSize, 0) &&
        CounterAgrees()
    {
      match response
      case FetchFailed =>
        notifications := [];
        pagination := Pagination(0, 0, FetchedPageSize, 0);
      case NoData =>
      case Fetched(content, totalElements) =>
        var loaded := LoadFromWire(content);
        notifications := loaded;
        pagination := Pagination(totalElements, 1, FetchedPageSize, 0);
        newNotificationCount := CountNew(loaded);
    }

    /** Marks every entry carrying `id` read and recounts. */
    method MarkAsRead(id: int)
      requires Valid()
      modifies this
      ensures notifications == MarkRead(old(notifications), id)
      ensures newNotificationCount == CountNew(notifications) <= old(newNotificationCount)
      ensures pagination == old(pagination)
      ensures Valid() && CounterAgrees()
    {
      var updated := MarkRead(notifications, id);
      MarkReadNeverIncreases(notifications, id);
      notifications, newNotificationCount := updated, CountNew(updated);
    }

    /** Prepends `n` as unread, caps the list at 20 and recounts. */
    method AddNewNotification(n: Notification)
      modifies this
      ensures notifications == AddNew(old(notifications), n)
      ensures newNotificationCount == CountNew(notifications)
      ensures |notifications| <= Capacity && notifications[0] == n.(isNew := true)
      ensures pagination == old(pagination)
      ensures Valid() && CounterAgrees()
    {
      var updated := AddNew(notifications, n);
      AddNewShape(notifications, n);
      notifications, newNotificationCount := updated, CountNew(updated);
    }
  }

  /** A failed fetch after an arrival: the list is empty but the counter still
      reports the one unread notification. */
  method FailedFetchLeavesStaleCounter(n: Notification) returns (counter: nat, listed: nat)
    ensures counter == 1 && listed == 0
  {
    var store := new NotificationStore();
    store.AddNewNotification(n);
    assert store.notifications == [n.(isNew := true)];
    assert Unread(store.notifications) == [n.(isNew := true)];
    store.FetchNotifications(FetchFailed);
    counter, listed := store.newNotificationCount, |store.notifications|;
  }
}
