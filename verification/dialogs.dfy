/**
 * The older dialog provider (`useDialog`): the same stack, without an
 * `onClose` hook. Closing a dialog resolves its promise and closes its UI.
 */
module Dialogs {
  import opened Common
  import opened Text
  import opened DialogStack

  /** An entry of this provider keeps nothing besides its payload. */
  type Entry = DialogEntry<()>

  /** The system dialogs this provider opens. */
  datatype SystemDialog = Alert | Confirm | Prompt

  function ComponentOf(kind: SystemDialog): DialogComponent {
    match kind
    case Alert => AlertDialog
    case Confirm => ConfirmDialog
    case Prompt => PromptDialog
  }

  /** `{ ...options, msg }` with missing options spreading nothing. */
  function SystemPayload(options: Option<Payload>, msg: string): (payload: Payload)
    ensures payload.Keys == (if options.Some? then options.value.Keys else {}) + {"msg"}
    ensures payload["msg"] == Str(msg)
    ensures options.Some? ==> forall k :: k in options.value && k != "msg" ==> payload[k] == options.value[k]
  {
    WithMsg(options.GetOr(map[]), msg)
  }

  datatype CloseStep = Resolved(result: Value) | UiCloseStarted

  class DialogProvider {
    const keyPrefix: string
    var stack: seq<Entry>
    var nextId: nat

    ghost predicate Valid()
      reads this
    {
      WellFormed(stack, keyPrefix, nextId)
    }

    constructor(keyPrefix: string)
      ensures this.keyPrefix == keyPrefix && stack == [] && nextId == 0
      ensures Valid()
    {
      this.keyPrefix := keyPrefix;
      stack := [];
      nextId := 0;
    }

    /** `requestDialog(Component, payload)`: pushes an open entry under the next key. */
    method RequestDialog(component: DialogComponent, payload: Payload) returns (promise: Promise)
      requires Valid()
      modifies this
      ensures Valid()
      ensures fresh(promise) && promise.settled.None?
      ensures stack == old(stack) + [DialogEntry(CounterKey(keyPrefix, old(nextId)), true, promise, component, payload, ())]
      ensures nextId == old(nextId) + 1
    {
      promise := new Promise();
      var key := keyPrefix + "-" + NatToString(nextId);
      nextId := nextId + 1;
      var entry := DialogEntry(key, true, promise, component, payload, ());
      AppendKeepsWellFormed(stack, keyPrefix, nextId - 1, entry);
      stack := stack + [entry];
    }

    /**
     * alert / confirm / prompt of `useDialog`. As `async` functions they
     * return a new promise, not the entry's, so `close` cannot find it.
     */
    method OpenSystemDialog(kind: SystemDialog, msg: string, options: Option<Payload>) returns (promise: Promise)
      requires Valid()
      modifies this
      ensures Valid()
      ensures fresh(promise) && promise.settled.None?
      ensures |stack| == |old(stack)| + 1 && stack[..|old(stack)|] == old(stack)
      ensures var entry := stack[|stack| - 1];
        fresh(entry.promise) && entry.promise.settled.None? &&
        entry == DialogEntry(CounterKey(keyPrefix, old(nextId)), true, entry.promise, ComponentOf(kind), SystemPayload(options, msg), ())
      ensures promise != stack[|stack| - 1].promise
      ensures FindEntry(stack, promise).None?
      ensures nextId == old(nextId) + 1
    {
      var inner := RequestDialog(ComponentOf(kind), SystemPayload(options, msg));
      assert stack[..|old(stack)|] == old(stack);
      promise := new Promise();
      assert forall i :: 0 <= i < |stack| ==> stack[i].promise != promise;
    }

    /** Closing a system dialog by the promise alert / confirm / prompt returned fails and leaves the dialog open. */
    method CloseSystemDialogByItsPromise(kind: SystemDialog, msg: string, options: Option<Payload>, result: Value)
      returns (outcome: Result<Promise>, steps: seq<CloseStep>)
      requires Valid()
      modifies this
      ensures Valid()
      ensures outcome == Err("dialog not found") && steps == []
      ensures stack != [] && stack[|stack| - 1].open && stack[|stack| - 1].component == ComponentOf(kind)
      ensures stack[|stack| - 1].payload == SystemPayload(options, msg)
    {
      var promise := OpenSystemDialog(kind, msg, options);
      outcome, steps := CloseDialog(promise, result);
    }

    /** First phase of `closeDialogUi`. */
    method CloseDialogUi(dialog: Promise)
      requires Valid()
      modifies this
      ensures Valid()
      ensures stack == MarkClosed(old(stack), dialog) && nextId == old(nextId)
    {
      MarkClosedKeepsWellFormed(stack, keyPrefix, nextId, dialog);
      stack := MarkClosed(stack, dialog);
    }

    /** Second phase of `closeDialogUi`, after the closing animation. */
    method RemoveDialog(dialog: Promise)
      requires Valid()
      modifies this
      ensures Valid()
      ensures stack == Remove(old(stack), dialog) && nextId == old(nextId)
    {
      RemoveKeepsWellFormed(stack, keyPrefix, nextId, dialog);
      stack := Remove(stack, dialog);
    }

    /** `closeDialog`: fails with "dialog not found", or resolves the dialog and starts closing its UI. */
    method CloseDialog(dialog: Promise, result: Value) returns (outcome: Result<Promise>, steps: seq<CloseStep>)
      requires Valid()
      modifies this, dialog
      ensures Valid() && nextId == old(nextId)
      ensures FindEntry(old(stack), dialog).None? ==>
        outcome == Err("dialog not found") && steps == [] &&
        stack == old(stack) && dialog.settled == old(dialog.settled)
      ensures FindEntry(old(stack), dialog).Some? ==>
        outcome == Ok(dialog) && steps == [Resolved(result), UiCloseStarted] &&
        stack == MarkClosed(old(stack), dialog) &&
        dialog.settled == (if old(dialog.settled).None? then Some(result) else old(dialog.settled))
    {
      var found := FindEntry(stack, dialog);
      if found.None? {
        return Err("dialog not found"), [];
      }
      dialog.Resolve(result);
      steps := [Resolved(result)];
      CloseDialogUi(dialog);
      steps := steps + [UiCloseStarted];
      outcome := Ok(dialog);
    }
  }
}
