/**
 * The notification queue behind the snackbar: notifications are appended,
 * removed by key, and the one at the head of the queue is shown.
 */
module Notifications {
  import opened Common

  datatype Severity = Info | Warning | Error | Success

  /**
   * The options of `enqueue` (None = property absent). The action callback is
   * an opaque handle.
   */
  datatype EnqueueOptions = EnqueueOptions(
    key: Option<string>,
    severity: Option<Severity>,
    autoHideDuration: Option<nat>,
    actionText: Option<string>,
    onAction: Option<nat>)

  const NoOptions := EnqueueOptions(None, None, None, None, None)

  datatype QueueEntry = QueueEntry(
    key: string,
    msg: string,
    severity: Option<Severity>,
    autoHideDuration: Option<nat>,
    actionText: Option<string>,
    onAction: Option<nat>)

  /**
   * `{ msg, ...options, key }` with `key = options?.key ?? <random key>`;
   * the random key is a parameter.
   */
  function NewEntry(msg: string, options: Option<EnqueueOptions>, randomKey: string): (e: QueueEntry)
    ensures options.Some? && options.value.key.Some? ==> e.key == options.value.key.value
    ensures options.None? || options.value.key.None? ==> e.key == randomKey
    ensures e.msg == msg
    ensures e.severity == (if options.Some? then options.value.severity else None)
    ensures e.autoHideDuration == (if options.Some? then options.value.autoHideDuration else None)
    ensures e.actionText == (if options.Some? then options.value.actionText else None)
    ensures e.onAction == (if options.Some? then options.value.onAction else None)
  {
    var o := options.GetOr(NoOptions);
    QueueEntry(o.key.GetOr(randomKey), msg, o.severity, o.autoHideDuration, o.actionText, o.onAction)
  }

  /** `queue.filter((n) => n.key !== key)`. */
  function Without(queue: seq<QueueEntry>, key: string): (r: seq<QueueEntry>)
    ensures |r| <= |queue|
    ensures forall e :: e in r <==> e in queue && e.key != key
  {
    if queue == [] then []
    else if queue[0].key != key then [queue[0]] + Without(queue[1..], key)
    else Without(queue[1..], key)
  }

  /** Filtering a concatenation filters each part: the remaining entries keep their order. */
  lemma {:induction false} WithoutDistributes(a: seq<QueueEntry>, b: seq<QueueEntry>, key: string)
    ensures Without(a + b, key) == Without(a, key) + Without(b, key)
  {
    if a != [] {
      assert (a + b)[0] == a[0];
      assert (a + b)[1..] == a[1..] + b;
      WithoutDistributes(a[1..], b, key);
    } else {
      assert a + b == b;
    }
  }

  /** Closing a key no entry has changes nothing. */
  lemma {:induction false} WithoutAbsentKey(queue: seq<QueueEntry>, key: string)
    requires forall i :: 0 <= i < |queue| ==> queue[i].key != key
    ensures Without(queue, key) == queue
  {
    if queue != [] {
      WithoutAbsentKey(queue[1..], key);
      assert [queue[0]] + queue[1..] == queue;
    }
  }

  /** Closing the same key twice is closing it once. */
  lemma WithoutIsIdempotent(queue: seq<QueueEntry>, key: string)
    ensures Without(Without(queue, key), key) == Without(queue, key)
  {
    var once := Without(queue, key);
    assert forall i :: 0 <= i < |once| ==> once[i] in once;
    WithoutAbsentKey(once, key);
  }

  /** The notification shown: the head of the queue, or none. */
  function CurrentOf(queue: seq<QueueEntry>): (current: Option<QueueEntry>)
    ensures current.None? <==> queue == []
    ensures current.Some? ==> current.value == queue[0]
  {
    if queue == [] then None else Some(queue[0])
  }

  /** The badge: the queue length, shown only when more notifications wait behind the current one. */
  function BadgeOf(queue: seq<QueueEntry>): (badge: Option<nat>)
    ensures badge.Some? <==> |queue| > 1
    ensures badge.Some? ==> badge.value == |queue|
  {
    if |queue| > 1 then Some(|queue|) else None
  }

  /** First in, first out: enqueueing never replaces the notification being shown. */
  lemma EnqueueKeepsCurrent(queue: seq<QueueEntry>, e: QueueEntry)
    requires queue != []
    ensures CurrentOf(queue + [e]) == CurrentOf(queue)
  {
  }

  /** Closing the shown notification shows the next one, when keys are distinct. */
  lemma {:induction false} ClosingCurrentShowsNext(queue: seq<QueueEntry>)
    requires queue != []
    requires forall i :: 1 <= i < |queue| ==> queue[i].key != queue[0].key
    ensures CurrentOf(Without(queue, queue[0].key)) == CurrentOf(queue[1..])
  {
    WithoutAbsentKey(queue[1..], queue[0].key);
  }

  /**
   * `queue.filter((n) => n.key !== key)` for a key that may be `undefined`
   * (None): an entry stays unless its key, a string, is that key.
   */
  function CloseKey(queue: seq<QueueEntry>, key: Option<string>): (r: seq<QueueEntry>)
    ensures forall e :: e in r <==> e in queue && Some(e.key) != key
  {
    if queue == [] then []
    else if Some(queue[0].key) != key then [queue[0]] + CloseKey(queue[1..], key)
    else CloseKey(queue[1..], key)
  }

  /** For a string key, `CloseKey` is `Without`. */
  lemma {:induction false} CloseKeyOfString(queue: seq<QueueEntry>, key: string)
    ensures CloseKey(queue, Some(key)) == Without(queue, key)
  {
    if queue != [] {
      CloseKeyOfString(queue[1..], key);
    }
  }

  /** Closing `undefined` keeps every entry, since no entry's key is undefined. */
  lemma {:induction false} CloseUndefinedKeepsQueue(queue: seq<QueueEntry>)
    ensures CloseKey(queue, None) == queue
  {
    if queue != [] {
      CloseUndefinedKeepsQueue(queue[1..]);
      assert [queue[0]] + queue[1..] == queue;
    }
  }

  /** What `enqueue` returns, as written: nothing, which a caller reads as `undefined`. */
  const EnqueueResultAsWritten: Option<string> := None

  /**
   * The "Show" action of a success notification, as written: it closes the key
   * it kept from `enqueue`, which is `undefined`, so the notification stays queued.
   */
  lemma ShowActionAsWrittenKeepsNotification(queue: seq<QueueEntry>, msg: string, options: Option<EnqueueOptions>, randomKey: string)
    ensures var e := NewEntry(msg, options, randomKey);
      CloseKey(queue + [e], EnqueueResultAsWritten) == queue + [e] &&
      e in CloseKey(queue + [e], EnqueueResultAsWritten)
  {
    var e := NewEntry(msg, options, randomKey);
    CloseUndefinedKeepsQueue(queue + [e]);
  }

  /**
   * With `enqueue` returning the key it used, the "Show" action removes its own
   * notification and, when no other entry shares the key, only that one.
   */
  lemma {:induction false} ShowActionClosesNotification(queue: seq<QueueEntry>, msg: string, options: Option<EnqueueOptions>, randomKey: string)
    requires forall i :: 0 <= i < |queue| ==> queue[i].key != NewEntry(msg, options, randomKey).key
    ensures var e := NewEntry(msg, options, randomKey);
      e !in CloseKey(queue + [e], Some(e.key)) && CloseKey(queue + [e], Some(e.key)) == queue
  {
    var e := NewEntry(msg, options, randomKey);
    CloseKeyOfString(queue + [e], e.key);
    WithoutDistributes(queue, [e], e.key);
    WithoutAbsentKey(queue, e.key);
    assert Without([e], e.key) == [];
  }

  /** The notifications provider's state: its queue. */
  class NotificationsProvider {
    var queue: seq<QueueEntry>

    constructor()
      ensures queue == []
    {
      queue := [];
    }

    /**
     * `enqueue`: appends one entry at the end. It also returns the key it used,
     * which the source's `enqueue` does not (see `ShowActionAsWrittenKeepsNotification`).
     */
    method Enqueue(msg: string, options: Option<EnqueueOptions>, randomKey: string) returns (key: string)
      modifies this
      ensures queue == old(queue) + [NewEntry(msg, options, randomKey)]
      ensures key == queue[|queue| - 1].key
    {
      key := if options.Some? && options.value.key.Some? then options.value.key.value else randomKey;
      var o := options.GetOr(NoOptions);
      queue := queue + [QueueEntry(key, msg, o.severity, o.autoHideDuration, o.actionText, o.onAction)];
    }

    /** `close`: removes every entry with the key. */
    method Close(key: string)
      modifies this
      ensures queue == Without(old(queue), key)
    {
      queue := Without(queue, key);
    }

    function Current(): Option<QueueEntry>
      reads this
    {
      CurrentOf(queue)
    }

    function Badge(): Option<nat>
      reads this
    {
      BadgeOf(queue)
    }

    /** `handleClose(key)`: a click away from the snackbar does not close it. */
    method HandleClose(key: string, reason: Option<string>)
      modifies this
      ensures reason == Some("clickaway") ==> queue == old(queue)
      ensures reason != Some("clickaway") ==> queue == Without(old(queue), key)
    {
      if reason == Some("clickaway") {
        return;
      }
      Close(key);
    }
  }
}
