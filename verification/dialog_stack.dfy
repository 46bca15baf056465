/**
 * The stack of open dialogs kept by both dialog providers: entries are
 * appended under counter-based keys, found by the promise they settle,
 * marked closed, and removed once the closing animation is over.
 */
module DialogStack {
  import opened Common
  import opened Text

  /** The component rendering a dialog: one of the three system dialogs, or a caller's (opaque). */
  datatype DialogComponent = AlertDialog | ConfirmDialog | PromptDialog | CustomDialog(id: nat)

  /** A dialog's payload, a plain object. */
  type Payload = map<string, Value>

  /**
   * A stack entry. `H` is what the provider keeps besides the payload: the
   * `onClose` hook in one provider, nothing in the other.
   */
  datatype DialogEntry<H> = DialogEntry(
    key: string,
    open: bool,
    promise: Promise,
    component: DialogComponent,
    payload: Payload,
    onClose: H)

  /** `{ ...options, msg }`: the options with `msg` set (it wins over an option named msg). */
  function WithMsg(options: Payload, msg: string): (payload: Payload)
    ensures payload.Keys == options.Keys + {"msg"}
    ensures payload["msg"] == Str(msg)
    ensures forall k :: k in options && k != "msg" ==> payload[k] == options[k]
  {
    options["msg" := Str(msg)]
  }

  /** `stack.find((entry) => entry.promise === dialog)`: the index of the first entry of the dialog. */
  function FindEntry<H>(stack: seq<DialogEntry<H>>, dialog: Promise): (found: Option<nat>)
    ensures found.None? ==> forall i :: 0 <= i < |stack| ==> stack[i].promise != dialog
    ensures found.Some? ==>
      found.value < |stack| && stack[found.value].promise == dialog &&
      (forall i :: 0 <= i < found.value ==> stack[i].promise != dialog)
  {
    if stack == [] then None
    else if stack[0].promise == dialog then Some(0)
    else match FindEntry(stack[1..], dialog)
      case None => None
      case Some(i) => Some(i + 1)
  }

  /** First phase of `closeDialogUi`: the dialog's entries get `open: false`, nothing else changes. */
  function MarkClosed<H>(stack: seq<DialogEntry<H>>, dialog: Promise): (marked: seq<DialogEntry<H>>)
    ensures |marked| == |stack|
    ensures forall i :: 0 <= i < |stack| && stack[i].promise == dialog ==> marked[i] == stack[i].(open := false)
    ensures forall i :: 0 <= i < |stack| && stack[i].promise != dialog ==> marked[i] == stack[i]
  {
    seq(|stack|, i requires 0 <= i < |stack| =>
      if stack[i].promise == dialog then stack[i].(open := false) else stack[i])
  }

  /** Second phase of `closeDialogUi`: the dialog's entries are filtered out. */
  function Remove<H>(stack: seq<DialogEntry<H>>, dialog: Promise): (rest: seq<DialogEntry<H>>)
    ensures |rest| <= |stack|
    ensures forall i :: 0 <= i < |rest| ==> rest[i] in stack && rest[i].promise != dialog
    ensures forall i :: 0 <= i < |stack| && stack[i].promise != dialog ==> stack[i] in rest
  {
    if stack == [] then []
    else if stack[0].promise != dialog then [stack[0]] + Remove(stack[1..], dialog)
    else Remove(stack[1..], dialog)
  }

  /** Removing after marking removes exactly what removing alone would: the two phases compose. */
  lemma {:induction false} RemoveAfterMark<H>(stack: seq<DialogEntry<H>>, dialog: Promise)
    ensures Remove(MarkClosed(stack, dialog), dialog) == Remove(stack, dialog)
  {
    if stack != [] {
      var marked := MarkClosed(stack, dialog);
      assert marked[1..] == MarkClosed(stack[1..], dialog);
      RemoveAfterMark(stack[1..], dialog);
    }
  }

  /** Filtering a concatenation filters each part. */
  lemma {:induction false} RemoveDistributes<H>(a: seq<DialogEntry<H>>, b: seq<DialogEntry<H>>, dialog: Promise)
    ensures Remove(a + b, dialog) == Remove(a, dialog) + Remove(b, dialog)
  {
    if a != [] {
      assert (a + b)[0] == a[0];
      assert (a + b)[1..] == a[1..] + b;
      RemoveDistributes(a[1..], b, dialog);
    } else {
      assert a + b == b;
    }
  }

  /** Removing a dialog with no entry changes nothing. */
  lemma {:induction false} RemoveNothing<H>(stack: seq<DialogEntry<H>>, dialog: Promise)
    requires forall j :: 0 <= j < |stack| ==> stack[j].promise != dialog
    ensures Remove(stack, dialog) == stack
  {
    if stack != [] {
      RemoveNothing(stack[1..], dialog);
      assert [stack[0]] + stack[1..] == stack;
    }
  }

  /** Removing the one entry of a dialog leaves the others in their order. */
  lemma RemoveKeepsOrder<H>(stack: seq<DialogEntry<H>>, dialog: Promise, i: nat)
    requires i < |stack| && stack[i].promise == dialog
    requires forall j :: 0 <= j < |stack| && j != i ==> stack[j].promise != dialog
    ensures Remove(stack, dialog) == stack[..i] + stack[i + 1..]
  {
    assert stack == stack[..i] + ([stack[i]] + stack[i + 1..]);
    RemoveDistributes(stack[..i], [stack[i]] + stack[i + 1..], dialog);
    RemoveDistributes([stack[i]], stack[i + 1..], dialog);
    RemoveNothing(stack[..i], dialog);
    RemoveNothing(stack[i + 1..], dialog);
  }

  /** A key the counter issued: `${prefix}-${n}` for some n below `nextId`. */
  ghost predicate IssuedKey(key: string, prefix: string, nextId: nat) {
    exists n: nat :: n < nextId && key == CounterKey(prefix, n)
  }

  /** Keys and promises are pairwise distinct. */
  predicate Distinct<H>(stack: seq<DialogEntry<H>>) {
    forall i, j :: 0 <= i < j < |stack| ==> stack[i].key != stack[j].key && stack[i].promise != stack[j].promise
  }

  /** What every provider state satisfies: every key was issued by the counter, and entries are distinct. */
  ghost predicate WellFormed<H>(stack: seq<DialogEntry<H>>, prefix: string, nextId: nat) {
    (forall i :: 0 <= i < |stack| ==> IssuedKey(stack[i].key, prefix, nextId)) && Distinct(stack)
  }

  /** A request appends an entry under the next counter key with a new promise. */
  lemma AppendKeepsWellFormed<H>(stack: seq<DialogEntry<H>>, prefix: string, nextId: nat, e: DialogEntry<H>)
    requires WellFormed(stack, prefix, nextId)
    requires e.key == CounterKey(prefix, nextId)
    requires forall i :: 0 <= i < |stack| ==> stack[i].promise != e.promise
    ensures WellFormed(stack + [e], prefix, nextId + 1)
  {
    var s := stack + [e];
    forall i | 0 <= i < |stack|
      ensures stack[i].key != e.key && IssuedKey(stack[i].key, prefix, nextId + 1)
    {
      assert IssuedKey(stack[i].key, prefix, nextId);
      var n: nat :| n < nextId && stack[i].key == CounterKey(prefix, n);
      CounterKeysDistinct(prefix, n, nextId);
    }
    assert IssuedKey(e.key, prefix, nextId + 1);
    assert forall i :: 0 <= i < |s| ==> s[i] == if i < |stack| then stack[i] else e;
  }

  lemma MarkClosedKeepsWellFormed<H>(stack: seq<DialogEntry<H>>, prefix: string, nextId: nat, dialog: Promise)
    requires WellFormed(stack, prefix, nextId)
    ensures WellFormed(MarkClosed(stack, dialog), prefix, nextId)
  {
    var marked := MarkClosed(stack, dialog);
    assert forall i :: 0 <= i < |marked| ==> marked[i].key == stack[i].key && marked[i].promise == stack[i].promise;
  }

  lemma {:induction false} RemoveKeepsDistinct<H>(stack: seq<DialogEntry<H>>, dialog: Promise)
    requires Distinct(stack)
    ensures Distinct(Remove(stack, dialog))
  {
    if stack != [] {
      var tail := stack[1..];
      assert forall i :: 0 <= i < |tail| ==> tail[i] == stack[i + 1];
      RemoveKeepsDistinct(tail, dialog);
      if stack[0].promise != dialog {
        var rest := Remove(tail, dialog);
        forall k | 0 <= k < |rest|
          ensures rest[k].key != stack[0].key && rest[k].promise != stack[0].promise
        {
          var j :| 0 <= j < |tail| && tail[j] == rest[k];
          assert stack[j + 1] == rest[k];
        }
        var s := [stack[0]] + rest;
        assert forall i :: 0 < i < |s| ==> s[i] == rest[i - 1];
      }
    }
  }

  lemma RemoveKeepsWellFormed<H>(stack: seq<DialogEntry<H>>, prefix: string, nextId: nat, dialog: Promise)
    requires WellFormed(stack, prefix, nextId)
    ensures WellFormed(Remove(stack, dialog), prefix, nextId)
  {
    RemoveKeepsDistinct(stack, dialog);
    var rest := Remove(stack, dialog);
    forall k | 0 <= k < |rest|
      ensures IssuedKey(rest[k].key, prefix, nextId)
    {
      var j :| 0 <= j < |stack| && stack[j] == rest[k];
    }
  }

  /** In a well-formed stack a dialog has at most one entry: marking closes exactly that one. */
  lemma MarkClosedClosesOnlyThatDialog<H>(stack: seq<DialogEntry<H>>, prefix: string, nextId: nat, dialog: Promise, i: nat)
    requires WellFormed(stack, prefix, nextId)
    requires i < |stack| && stack[i].promise == dialog
    ensures MarkClosed(stack, dialog)[i] == stack[i].(open := false)
    ensures forall j :: 0 <= j < |stack| && j != i ==> MarkClosed(stack, dialog)[j] == stack[j]
  {
  }
}
