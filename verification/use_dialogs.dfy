/**
 * The dialog provider of `useDialogs`: dialogs are opened with an optional
 * asynchronous `onClose` hook, and closing one runs the hook before settling
 * the dialog's promise and closing its UI.
 */
module UseDialogs {
  import opened Common
  import opened Text
  import opened DialogStack

  /** An `onClose` hook: the default no-op, or the caller's (opaque). */
  datatype OnCloseHook = NoOpHook | Hook(id: nat)

  type Entry = DialogEntry<OnCloseHook>

  /** The options of alert/confirm/prompt: the `onClose` hook and the other properties (None = no options). */
  datatype SystemDialogOptions = SystemDialogOptions(onClose: Option<OnCloseHook>, rest: Payload)

  /** `{ onClose, ...options } = {}` then `{ ...options, msg }`: the payload of a system dialog. */
  function SystemPayload(options: Option<SystemDialogOptions>, msg: string): (payload: Payload)
    ensures options.None? ==> payload == map["msg" := Str(msg)]
    ensures options.Some? ==> payload == WithMsg(options.value.rest - {"onClose"}, msg)
    ensures "onClose" !in payload
  {
    var rest := if options.Some? then options.value.rest - {"onClose"} else map[];
    WithMsg(rest, msg)
  }

  /** The hook a request keeps: the given one, or the no-op default. */
  function HookOf(onClose: Option<OnCloseHook>): (hook: OnCloseHook)
    ensures onClose.None? ==> hook == NoOpHook
    ensures onClose.Some? ==> hook == onClose.value
  {
    onClose.GetOr(NoOpHook)
  }

  datatype SystemDialog = Alert | Confirm | Prompt

  function ComponentOf(kind: SystemDialog): DialogComponent {
    match kind
    case Alert => AlertDialog
    case Confirm => ConfirmDialog
    case Prompt => PromptDialog
  }

  /** What `closeDialog` did, in order. */
  datatype CloseStep = RanOnClose(hook: OnCloseHook, result: Value) | Resolved(result: Value) | UiCloseStarted

  /** The state of one `DialogProvider`: its key prefix, its stack and its counter. */
  class DialogProvider {
    const keyPrefix: string
    var stack: seq<Entry>
    var nextId: nat

    ghost predicate Valid()
      reads this
    {
      WellFormed(stack, keyPrefix, nextId)
    }

    /** A fresh provider; its key prefix comes from `useId`. */
    constructor(keyPrefix: string)
      ensures this.keyPrefix == keyPrefix && stack == [] && nextId == 0
      ensures Valid()
    {
      this.keyPrefix := keyPrefix;
      stack := [];
      nextId := 0;
    }

    /** `requestDialog`: pushes an open entry under the next key and returns its new promise. */
    method RequestDialog(component: DialogComponent, payload: Payload, onClose: Option<OnCloseHook>) returns (promise: Promise)
      requires Valid()
      modifies this
      ensures Valid()
      ensures fresh(promise) && promise.settled.None?
      ensures stack == old(stack) + [DialogEntry(CounterKey(keyPrefix, old(nextId)), true, promise, component, payload, HookOf(onClose))]
      ensures nextId == old(nextId) + 1
    {
      promise := new Promise();
      var key := keyPrefix + "-" + NatToString(nextId);
      nextId := nextId + 1;
      var entry := DialogEntry(key, true, promise, component, payload, if onClose.Some? then onClose.value else NoOpHook);
      AppendKeepsWellFormed(stack, keyPrefix, nextId - 1, entry);
      stack := stack + [entry];
    }

    /**
     * alert / confirm / prompt: open the system dialog with the options and
     * the message as payload. They are `async` functions, so the promise they
     * return is a new one, not the entry's: `close` cannot find it.
     */
    method OpenSystemDialog(kind: SystemDialog, msg: string, options: Option<SystemDialogOptions>) returns (promise: Promise)
      requires Valid()
      modifies this
      ensures Valid()
      ensures fresh(promise) && promise.settled.None?
      ensures |stack| == |old(stack)| + 1 && stack[..|old(stack)|] == old(stack)
      ensures var entry := stack[|stack| - 1];
        fresh(entry.promise) && entry.promise.settled.None? &&
        entry == DialogEntry(CounterKey(keyPrefix, old(nextId)), true, entry.promise, ComponentOf(kind),
                             SystemPayload(options, msg),
                             HookOf(if options.Some? then options.value.onClose else None))
      ensures promise != stack[|stack| - 1].promise
      ensures FindEntry(stack, promise).None?
      ensures nextId == old(nextId) + 1
    {
      var onClose := if options.Some? then options.value.onClose else None;
      var inner := RequestDialog(ComponentOf(kind), SystemPayload(options, msg), onClose);
      assert stack[..|old(stack)|] == old(stack);
      promise := new Promise();
      assert forall i :: 0 <= i < |stack| ==> stack[i].promise != promise;
    }

    /**
     * Closing a system dialog by the promise alert / confirm / prompt returned
     * fails with "dialog not found", runs no step and leaves the dialog open.
     */
    method CloseSystemDialogByItsPromise(kind: SystemDialog, msg: string, options: Option<SystemDialogOptions>,
                                         result: Value, hookError: Option<string>)
      returns (outcome: Result<Promise>, steps: seq<CloseStep>)
      requires Valid()
      modifies this
      ensures Valid()
      ensures outcome == Err("dialog not found") && steps == []
      ensures stack != [] && stack[|stack| - 1].open && stack[|stack| - 1].component == ComponentOf(kind)
      ensures stack[|stack| - 1].payload == SystemPayload(options, msg)
    {
      var promise := OpenSystemDialog(kind, msg, options);
      outcome, steps := CloseDialog(promise, result, hookError);
    }

    /** First phase of `closeDialogUi`: the dialog's entry is marked closed. */
    method CloseDialogUi(dialog: Promise)
      requires Valid()
      modifies this
      ensures Valid()
      ensures stack == MarkClosed(old(stack), dialog) && nextId == old(nextId)
    {
      MarkClosedKeepsWellFormed(stack, keyPrefix, nextId, dialog);
      stack := MarkClosed(stack, dialog);
    }

    /** Second phase of `closeDialogUi`, after the closing animation: the dialog's entry is removed. */
    method RemoveDialog(dialog: Promise)
      requires Valid()
      modifies this
      ensures Valid()
      ensures stack == Remove(old(stack), dialog) && nextId == old(nextId)
    {
      RemoveKeepsWellFormed(stack, keyPrefix, nextId, dialog);
      stack := Remove(stack, dialog);
    }

    /**
     * `closeDialog`: fails with "dialog not found" unless the dialog is on the
     * stack. Otherwise it awaits the entry's `onClose(result)` (whose failure,
     * `hookError`, is a parameter and stops the close), resolves the dialog
     * with the same result and starts closing its UI.
     */
    method CloseDialog(dialog: Promise, result: Value, hookError: Option<string>)
      returns (outcome: Result<Promise>, steps: seq<CloseStep>)
      requires Valid()
      modifies this, dialog
      ensures Valid() && nextId == old(nextId)
      ensures FindEntry(old(stack), dialog).None? ==>
        outcome == Err("dialog not found") && steps == [] &&
        stack == old(stack) && dialog.settled == old(dialog.settled)
      ensures FindEntry(old(stack), dialog).Some? ==>
        var entry := old(stack)[FindEntry(old(stack), dialog).value];
        if entry.onClose.Hook? && hookError.Some? then
          outcome == Err(hookError.value) && steps == [RanOnClose(entry.onClose, result)] &&
          stack == old(stack) && dialog.settled == old(dialog.settled)
        else
          outcome == Ok(dialog) && steps == [RanOnClose(entry.onClose, result), Resolved(result), UiCloseStarted] &&
          stack == MarkClosed(old(stack), dialog) &&
          dialog.settled == (if old(dialog.settled).None? then Some(result) else old(dialog.settled))
    {
      var found := FindEntry(stack, dialog);
      if found.None? {
        return Err("dialog not found"), [];
      }
      var entry := stack[found.value];
      steps := [RanOnClose(entry.onClose, result)];
      if entry.onClose.Hook? && hookError.Some? {
        return Err(hookError.value), steps;
      }
      dialog.Resolve(result);
      steps := steps + [Resolved(result)];
      CloseDialogUi(dialog);
      steps := steps + [UiCloseStarted];
      outcome := Ok(dialog);
    }
  }

  /** A dialog's entry stays on the stack until its removal, and leaves it afterwards. */
  lemma ClosedDialogLeavesTheStack(stack: seq<Entry>, prefix: string, nextId: nat, dialog: Promise)
    requires WellFormed(stack, prefix, nextId)
    ensures FindEntry(Remove(MarkClosed(stack, dialog), dialog), dialog).None?
    ensures |Remove(MarkClosed(stack, dialog), dialog)| == |stack| - (if FindEntry(stack, dialog).Some? then 1 else 0)
  {
    RemoveAfterMark(stack, dialog);
    var found := FindEntry(stack, dialog);
    if found.Some? {
      RemoveKeepsOrder(stack, dialog, found.value);
    } else {
      RemoveNothing(stack, dialog);
    }
  }
}
