// The dismissed-notification updaters (frontend/src/app/notificationActions.js):
// mark one notice read, mark a list of notices read, clear the history. Each
// takes the previous dismissed map and yields the next one.
module NotificationActions {
  import opened Seqs
  import opened Derived
  import opened WorkspaceComputed

  /** `markNotificationRead`: `{ ...prev, [id]: true }`. */
  function MarkRead(prev: map<string, bool>, id: string): (next: map<string, bool>)
    ensures next.Keys == prev.Keys + {id}
    ensures Dismissed(next, id)
    ensures forall k :: k in prev && k != id ==> next[k] == prev[k]
  {
    prev[id := true]
  }

  /** Marking one notice read hides exactly that notice among the active ones. */
  lemma MarkReadHidesOne(generated: seq<Notice>, prev: map<string, bool>, id: string)
    ensures ActiveNotifications(generated, MarkRead(prev, id))
         == Filter(ActiveNotifications(generated, prev), OtherId(id))
  {
    DismissOne(generated, prev, id);
  }

  /** The map `markAllNotificationsRead` returns: each id in turn set to true. */
  function MarkedAll(prev: map<string, bool>, ids: seq<string>): (next: map<string, bool>)
    ensures next.Keys == prev.Keys + set id | id in ids
    ensures forall id :: id in ids ==> next[id]
    ensures forall k :: k in prev && k !in ids ==> next[k] == prev[k]
    decreases |ids|
  {
    if ids == [] then prev else MarkedAll(prev[ids[0] := true], ids[1..])
  }

  /** `markAllNotificationsRead`: copy the previous map, then set every id to true. */
  method MarkAllRead(prev: map<string, bool>, ids: seq<string>) returns (next: map<string, bool>)
    ensures next == MarkedAll(prev, ids)
  {
    next := prev;
    var i := 0;
    while i < |ids|
      invariant 0 <= i <= |ids|
      invariant MarkedAll(next, ids[i..]) == MarkedAll(prev, ids)
    {
      assert ids[i..][1..] == ids[i + 1..];
      next := next[ids[i] := true];
      i := i + 1;
    }
  }

  /** Marking the same ids read twice is marking them once. */
  lemma {:induction false} MarkedAllIdempotent(prev: map<string, bool>, ids: seq<string>)
    ensures MarkedAll(MarkedAll(prev, ids), ids) == MarkedAll(prev, ids)
  {
    var once := MarkedAll(prev, ids);
    var twice := MarkedAll(once, ids);
    assert twice.Keys == once.Keys;
    forall k | k in twice
      ensures twice[k] == once[k]
    {
    }
  }

  /** The id of every notice, in order (`activeNotifications.map(item => item.id)`). */
  function Ids(notices: seq<Notice>): (r: seq<string>)
    ensures |r| == |notices|
    ensures forall i :: 0 <= i < |notices| ==> r[i] == notices[i].id
  {
    seq(|notices|, i requires 0 <= i < |notices| => notices[i].id)
  }

  /** The "mark all read" button, given the active ids, leaves no active notice. */
  lemma MarkAllActiveClears(generated: seq<Notice>, prev: map<string, bool>)
    ensures ActiveNotifications(generated, MarkedAll(prev, Ids(ActiveNotifications(generated, prev)))) == []
  {
    var active := ActiveNotifications(generated, prev);
    var next := MarkedAll(prev, Ids(active));
    forall i | 0 <= i < |generated|
      ensures !NotDismissed(next)(generated[i])
    {
      var n := generated[i];
      if !Dismissed(prev, n.id) {
        assert n in active;
        var j :| 0 <= j < |active| && active[j] == n;
        assert Ids(active)[j] == n.id;
      }
    }
    FilterNone(generated, NotDismissed(next));
  }

  /** `clearNotificationHistory`: the empty map, in which nothing is dismissed. */
  function ClearHistory(): (next: map<string, bool>)
    ensures forall id :: !Dismissed(next, id)
  {
    map[]
  }

  /** After clearing the history every generated notice is active again. */
  lemma ClearHistoryShowsAll(generated: seq<Notice>)
    ensures ActiveNotifications(generated, ClearHistory()) == generated
  {
    NothingDismissed(generated);
  }
}
