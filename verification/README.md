# Dashboard toolkit core, modelled in Dafny

This project models the logic of a React dashboard toolkit:

- **Data providers.** A data provider is an object with `getMany`, `getOne`, `createOne`, `updateOne` and `deleteOne` methods and a map of field definitions. The model covers:
  - how a provider definition is normalised;
  - the query keys under which results are cached;
  - how the caller's filter is merged with the environment's filter;
  - the `loading` flag;
  - the guards in front of the three mutations.
- **The data grid.**
  - The editing reducer: which row is being edited, whether an update is running, and the row modes.
  - The draft row used to create a record.
  - The field-level diff sent to `updateOne`.
  - How columns are completed from the provider's fields and made editable.
  - The actions offered on each row.
  - The branches and effects of the row-update handler.
- **The CRUD page.** The optional catch-all `method` route parameter is parsed into the page to show. The resource's base path is recovered from the pathname. The model also covers the default values of the record editor and the list page's window.
- **Notifications.** The snackbar queue: enqueue, close by key, the notification shown, and the badge.
- **Dialogs.** Both dialog providers: the newer one, with an `onClose` hook, and the older one, without. Each keeps a stack of dialogs under counter-based keys. Each dialog is found by its promise, then marked closed, then removed.
- **`getObjectKey`.** A memo that gives each object a numeric key.
- **The example employees store.** An in-memory table with an id counter.
- **The Metric card's `aggregate`.**

How code maps to Dafny:

- Code that only computes is written as datatypes, functions and lemmas.
- State the source updates in place is written as classes with `modifies` clauses:
  - the dialog providers;
  - the notifications provider;
  - the object-key memo;
  - the employees store;
  - a promise.
- The one loop of the core, in `diffRows`, is a method with invariants. `getActions`, which pushes items onto an array, is a method too.

JavaScript semantics are written out where they matter:

- A missing property reads as `undefined`.
- `0` and `""` are falsy.
- `Object.is` is compared against a Date's `getTime()`. A Date value carries an identity and a time.
- In an object spread, the later part wins.
- `slice(0, -n)`.
- A promise settles only once.
- `Number(s)` is modelled on integer strings.

Randomness (`Math.random`), `useId`, the clock (`new Date()`) and the provider's own methods become parameters of the operations that use them.

Module layout:

| Module | Contents |
|---|---|
| `Common` | `Option`, `Result`, row values, promises |
| `Text` | Number formatting, `Number(...)`, split/join, counter keys |
| `DataProvider` | The data-provider contract |
| `DataGrid` | The data grid |
| `CrudPage` | The CRUD page |
| `Notifications` | The snackbar queue |
| `DialogStack` | The stack shared by both dialog providers |
| `UseDialogs` | The newer dialog provider |
| `Dialogs` | The older dialog provider |
| `ObjectKeys` | `getObjectKey` |
| `EmployeeStore` | The employees example |
| `Metric` | The Metric card's `aggregate` |

## Model

| member | source | states |
|---|---|---|
| Common.Promise.constructor | src/lib/dash/useDialogs/useDialogs.tsx:114-118 | A new dialog promise is pending |
| Common.Promise.Resolve | src/lib/dash/useDialogs/useDialogs.tsx:155 | Resolving settles a pending promise with the value; resolving a settled promise changes nothing |
| Text.NatToString | src/lib/dash/DataProvider/DataProvider.ts:125-127 | `${n}` is a non-empty digit string whose decimal value is n |
| Text.NatToStringInjective | src/lib/dash/DataProvider/DataProvider.ts:125-127 | Different numbers print differently |
| Text.ParseNumberOfIntToString | src/app/crud-table/data.ts:44 | `Number` (`ParseNumber`) of a printed integer (`IntToString`) gives the integer back |
| Text.Split | src/lib/dash/CrudPage/CrudPage.tsx:547 | `split` gives at least one piece, and no piece contains the separator |
| Text.JoinSplit | src/lib/dash/CrudPage/CrudPage.tsx:546-548 | Joining (`Join`) the pieces of a split restores the string |
| Text.SplitJoin | src/lib/dash/CrudPage/CrudPage.tsx:546-548 | Splitting a join of separator-free pieces restores the pieces |
| Text.SplitWithoutSeparator | src/lib/dash/CrudPage/CrudPage.tsx:547 | A string without the separator splits into itself |
| Text.SplitAroundSeparator | src/lib/dash/CrudPage/CrudPage.tsx:547 | Splitting `a + sep + b` splits `a` and `b` separately and concatenates the pieces |
| Text.SplitHeadIsPrefix | src/lib/dash/CrudPage/CrudPage.tsx:228 | The first piece of a split is the prefix before the first separator |
| Text.CounterKeysDistinct | src/lib/dash/useDialogs/useDialogs.tsx:120 | Under one prefix, different counter values give different keys `${prefix}-${n}` (`CounterKey`) |
| DataProvider.ResolveField | src/lib/dash/DataProvider/DataProvider.ts:109-112 | A field's type defaults to "string" and its label to its name; what the definition gives wins |
| DataProvider.CreateDataProvider | src/lib/dash/DataProvider/DataProvider.ts:103-116 | The result has exactly the input's fields plus "id". "id" gets the default field unless the input defines it. Every input field is resolved. The methods are kept |
| DataProvider.ResolvedFieldsAreLabelled | src/lib/dash/DataProvider/DataProvider.ts:106-114 | Every resolved field has the input's label, or else its own name |
| DataProvider.PageWindowsAreDisjoint | src/lib/dash/DataGrid/DataGrid.tsx:484-487 | Windows (`PageWindow`, `{ start: page * pageSize, pageSize }`) of two different pages of the same size share no row |
| DataProvider.EveryRowIsOnAPage | src/lib/dash/DataGrid/DataGrid.tsx:484-487 | With a positive page size every row lies in the window of page `index / pageSize`; with the lemma above, in exactly one window |
| DataProvider.LaterPagesStartLater | src/lib/dash/DataGrid/DataGrid.tsx:484-487 | A later page's window starts no earlier |
| DataProvider.PaginationKeyInjective | src/lib/dash/DataProvider/DataProvider.ts:125-127 | Equal keys `${start}-${pageSize}` (`GetKeyFromPagination`) come from equal windows |
| DataProvider.GetKeyForParams | src/lib/dash/DataProvider/DataProvider.ts:129-134 | Exactly two parts: the filter key or "", and the pagination key or "" when pagination is missing or null |
| DataProvider.ResolveParams | src/lib/dash/DataProvider/DataProvider.ts:143-146 | The merged filter has the keys of both filters. The caller's value wins and the environment's fills in. Pagination is absent without params, null when the params carry null, and the window otherwise |
| DataProvider.ProviderKeyPart | src/lib/dash/DataProvider/DataProvider.ts:140 | The provider's part of a key is its object key, and null exactly when there is no provider |
| DataProvider.GetManyQueryKey | src/lib/dash/DataProvider/DataProvider.ts:150 | Four parts: "getMany", the provider key, then the filter key and the pagination key of `getKeyForParams` |
| DataProvider.GetOneQueryKey | src/lib/dash/DataProvider/DataProvider.ts:171-178 | Three parts: "getOne", the provider key and the id |
| DataProvider.GetOneKeysSeparateRecords | src/lib/dash/DataProvider/DataProvider.ts:171-178 | Equal `getOne` keys mean the same provider and the same id, so records of different providers or ids are cached apart |
| DataProvider.DistinctWindowsAreCachedApart | src/lib/dash/DataProvider/DataProvider.ts:150 | Two different pages of the same query never share a cache key |
| DataProvider.DistinctProvidersAreCachedApart | src/lib/dash/DataProvider/DataProvider.ts:140-150 | Two different providers never share a `getMany` key, whatever their params |
| DataProvider.MissingPaginationKeysLikeNull | src/lib/dash/DataProvider/DataProvider.ts:145 | Because the default is written under a misspelled key, pagination is absent rather than null; either way the cache key is the same |
| DataProvider.Loading | src/lib/dash/DataProvider/DataProvider.ts:159 | Initial loading is loading, and so is fetching while placeholder data shows. Loading needs one of the two; when not fetching, it is exactly initial loading |
| DataProvider.MutationFn | src/lib/dash/DataProvider/DataProvider.ts:202-209 | No provider throws "no dataProvider available". A missing method throws "<op> not implemented". The provider's method is called exactly when it exists |
| DataGrid.GridEditingReducer | src/lib/dash/DataGrid/DataGrid.tsx:172-209 | As written: a start request is ignored while a row is edited, otherwise that row enters edit mode. Cancel discards modifications only for a truthy id. Update start clears the modes. Update end clears the edited row |
| DataGrid.GridEditingReducerCorrected | src/lib/dash/DataGrid/DataGrid.tsx:187-199 | Cancel discards the modifications of whichever row is edited. Every other action behaves as written |
| DataGrid.ReducersAgreeOnTruthyIds | src/lib/dash/DataGrid/DataGrid.tsx:187-199 | The two reducers differ only when a row with a falsy id is edited |
| DataGrid.ReducerKeepsAtMostOneRowMode | src/lib/dash/DataGrid/DataGrid.tsx:172-209 | Each action leaves at most one row in the row modes model |
| DataGrid.RunKeepsAtMostOneRowMode | src/lib/dash/DataGrid/DataGrid.tsx:465-472 | Every sequence of dispatched actions (`Run`, in order) keeps at most one row in the row modes model, for the reducer as written and for the corrected one |
| DataGrid.EditRequestsWaitForTheCurrentEdit | src/lib/dash/DataGrid/DataGrid.tsx:174-186 | While a row is edited, any number of edit requests leave the state unchanged, under either reducer |
| DataGrid.PatchRowModesModel | src/lib/dash/DataGrid/DataGrid.tsx:392-412 | The patched model has the rows of both models. The new mode wins, and rows only in the previous model go back to View |
| DataGrid.CancelOfRowZeroKeepsModifications | src/lib/dash/DataGrid/DataGrid.tsx:187-199 | As written, cancelling the edit of row 0 sets it to View without ignoring modifications |
| DataGrid.CancelDiscardsModifications | src/lib/dash/DataGrid/DataGrid.tsx:187-199 | With the corrected reducer, cancelling any edit sets the row to View with modifications ignored |
| DataGrid.CreateDraftRow | src/lib/dash/DataGrid/DataGrid.tsx:57-66 | The draft row is empty and carries the marker that `IsDraftRow` reads |
| DataGrid.CleanDraftRow | src/lib/dash/DataGrid/DataGrid.tsx:68-72 | The cleaned row keeps every field and loses the marker |
| DataGrid.GetRowId | src/lib/dash/DataGrid/DataGrid.tsx:618-629 | The draft row has the draft id; otherwise the caller's getter decides, or else the row's own id |
| DataGrid.PlainRows | src/lib/dash/DataGrid/DataGrid.tsx:506 | Each fetched row is shown as a non-draft row, in order |
| DataGrid.RenderedRows | src/lib/dash/DataGrid/DataGrid.tsx:505-511 | The fetched rows are shown in order. A draft row comes first exactly while the draft id is edited |
| DataGrid.DraftRowIsTheEditedRow | src/lib/dash/DataGrid/DataGrid.tsx:505-511 | A draft row on screen is the first row, and its id is the edited row id |
| DataGrid.CreateButtonDisabled | src/lib/dash/DataGrid/DataGrid.tsx:608-616 | The create button is disabled exactly while loading or while a row with a truthy id is edited |
| DataGrid.CreateDuringEditOfRowZeroIsIgnored | src/lib/dash/DataGrid/DataGrid.tsx:474-476 | While row 0 is edited the create button is enabled, but its request leaves the state unchanged |
| DataGrid.RowEditStart | src/lib/dash/DataGrid/DataGrid.tsx:636-642 | Only a double click on a cell starts editing, and it edits that row |
| DataGrid.GridGetManyParams | src/lib/dash/DataGrid/DataGrid.tsx:480-496 | No filter. A page window is sent exactly in server pagination mode |
| DataGrid.DiffRows | src/lib/dash/DataGrid/DataGrid.tsx:414-436 | The loop over all keys of both rows records exactly the keys of `Diff`: those whose values are not `SameValue` (`Object.is`, or Dates with equal time), with the changed value |
| DataGrid.DiffOfSameRowIsEmpty | src/lib/dash/DataGrid/DataGrid.tsx:414-436 | A row has no diff with itself |
| DataGrid.PatchingWithDiffGivesChanged | src/lib/dash/DataGrid/DataGrid.tsx:414-436 | Merging the diff into the original gives the changed row on every property, up to Dates with equal time |
| DataGrid.EmptyDiffMeansSameRow | src/lib/dash/DataGrid/DataGrid.tsx:414-436 | An empty diff means the rows agree on every property |
| DataGrid.WithProviderField | src/lib/dash/DataGrid/DataGrid.tsx:220-248 | The column's own type, header and formatter win. Missing ones come from the provider field, with the formatter bound to the column's field; with neither a column nor a field formatter there is none. Date columns get the date getter around their own |
| DataGrid.UpdateColumnsWithDataProviderFields | src/lib/dash/DataGrid/DataGrid.tsx:212-251 | One column per base column, in order, each completed from its own provider field |
| DataGrid.ColumnSettingsWin | src/lib/dash/DataGrid/DataGrid.tsx:226-230 | What a column sets itself is never overridden |
| DataGrid.DateFieldsGetDateGetter | src/lib/dash/DataGrid/DataGrid.tsx:240-244 | An untyped column over a date field gets the date value getter |
| DataGrid.CapabilitiesOf | src/lib/dash/DataGrid/DataGrid.tsx:259-261 | The grid can create, edit or delete exactly when the provider has the method |
| DataGrid.UpdateColumnsWithDataProviderEditing | src/lib/dash/DataGrid/DataGrid.tsx:253-350 | Columns other than "id" become editable when rows can be created or edited. Nothing else changes. The actions column is appended exactly when some mutation exists |
| DataGrid.OnClick | src/lib/dash/DataGrid/DataGrid.tsx:306-339 | Save dispatches the update start, Cancel the cancel, Edit the edit of its row; Delete dispatches nothing |
| DataGrid.GetActions | src/lib/dash/DataGrid/DataGrid.tsx:286-345 | The items pushed are those of `RowActions`: Save and Cancel on the edited row, Edit and Delete by capability on the others |
| DataGrid.SaveAndCancelOnlyOnEditedRow | src/lib/dash/DataGrid/DataGrid.tsx:293-318 | Save and Cancel appear only on the edited row, disabled exactly while the update runs |
| DataGrid.OtherRowsOfferEditAndDelete | src/lib/dash/DataGrid/DataGrid.tsx:319-342 | Another row offers Edit exactly when editing is possible and Delete exactly when deleting is possible, and nothing else |
| DataGrid.EnabledEditStartsEditing | src/lib/dash/DataGrid/DataGrid.tsx:320-331 | An enabled Edit item starts editing its row, which enters edit mode |
| DataGrid.EnabledSaveAndCancelFinishTheEdit | src/lib/dash/DataGrid/DataGrid.tsx:293-318 | Under the reducer as written, an enabled Save starts the update of the edited row and clears the row modes. An enabled Cancel ends the edit; it discards the row's changes when the id is truthy and leaves the row modes empty otherwise. Under the corrected reducer, Cancel discards the changes for every id |
| DataGrid.CreateDraft | src/lib/dash/DataGrid/DataGrid.tsx:528-550 | The draft-row branch: the cleaned row is sent to `createOne`. Success returns the created row with effects exactly [create, "Row created", end update, refetch]. Failure returns the original marked for deletion with [create, "Failed to create row", end update, refetch] |
| DataGrid.UpdateExisting | src/lib/dash/DataGrid/DataGrid.tsx:555-580 | The existing-row branch: an empty diff returns the original with only the `finally` effects. Otherwise `updateOne(id, diff)` is called. Success returns the new row with exactly [update, "Row updated", end update, refetch]. Failure returns the original with [update, "Failed to update row", end update, refetch] |
| DataGrid.ProcessRowUpdate | src/lib/dash/DataGrid/DataGrid.tsx:513-597 | Built from `CreateDraft`, `UpdateExisting` and `Finally`. The effects always end with ending the update and refetching. A draft row is created: success notifies "Row created", failure notifies and returns the original marked for deletion. An edited row is sent as its diff: success notifies "Row updated", failure notifies and returns the original. Each of these four calls gives exactly the call, its notification, then the `finally` effects. An empty diff returns the original with no call and no notification. A missing method rejects with its message and notifies nothing |
| DataGrid.RowUpdateEndsTheEdit | src/lib/dash/DataGrid/DataGrid.tsx:584-588 | Whatever the branch, the grid ends with no edited row and no update running |
| DataGrid.UnchangedRowIsNotSent | src/lib/dash/DataGrid/DataGrid.tsx:555-558 | An unchanged row is returned as is, and the only effects are ending the update and refetching, so `updateOne` is never called |
| CrudPage.AsArray | src/lib/dash/CrudPage/CrudPage.tsx:74-79 | An array stays as is, a missing value becomes [], one value becomes a singleton |
| CrudPage.ParseMethod | src/lib/dash/CrudPage/CrudPage.tsx:81-98 | List iff there are no segments. New iff the segments are ["new"]. Edit(id) iff ["edit", id]. Show(id) iff ["show", id] |
| CrudPage.RoutesThatParse | src/lib/dash/CrudPage/CrudPage.tsx:81-98 | A route names a page iff it has no segment, is ["new"], or has two segments starting with "edit" or "show"; every other route is not found |
| CrudPage.RenderedPage | src/lib/dash/CrudPage/CrudPage.tsx:519-572 | "Not found" iff the method does not parse; otherwise the page of the parsed method |
| CrudPage.DropLast | src/lib/dash/CrudPage/CrudPage.tsx:547 | `slice(0, -n)` drops the last n elements, or everything when there are fewer |
| CrudPage.BasePath | src/lib/dash/CrudPage/CrudPage.tsx:544-549 | Without method segments the base path is the pathname; otherwise the pathname's components joined again without the last n |
| CrudPage.BasePathDropsMethodComponents | src/lib/dash/CrudPage/CrudPage.tsx:544-549 | With n method segments, the base path splits into the pathname's components without the last n; when there are no more than n, it is "" |
| CrudPage.PagePath | src/lib/dash/CrudPage/CrudPage.tsx:139-483 | The links are `${basePath}`, `${basePath}/new`, `${basePath}/edit/${id}` and `${basePath}/show/${id}` |
| CrudPage.NavigationRoundTrip | src/lib/dash/CrudPage/CrudPage.tsx:544-554 | Following a link to a page parses back to that page and recovers the same base path |
| CrudPage.GetDefaultFieldValue | src/lib/dash/CrudPage/CrudPage.tsx:219-231 | Each default fits its field's type: "", 0 and false, and for a date the part of the ISO timestamp before the first "T"; no type gives "" |
| CrudPage.DateDefaultIsTheIsoDate | src/lib/dash/CrudPage/CrudPage.tsx:228 | For a timestamp `${date}T${time}` the date default is `date` |
| CrudPage.DefaultFormValues | src/lib/dash/CrudPage/CrudPage.tsx:241-247 | One value per field: the record's value when not null or undefined, else the field's default |
| CrudPage.NewRecordDefaultsFit | src/lib/dash/CrudPage/CrudPage.tsx:241-247 | A new record's form starts with a value fitting each field's type |
| CrudPage.ListPageParams | src/lib/dash/CrudPage/CrudPage.tsx:150-159 | The list page always asks for its page window and no filter |
| Notifications.NewEntry | src/lib/dash/useNotifications/useNotifications.tsx:50-53 | The entry has the message and every option (severity, autoHideDuration, actionText, onAction), and its key is the option's key or else the random one |
| Notifications.Without | src/lib/dash/useNotifications/useNotifications.tsx:55-57 | Closing keeps exactly the entries with another key |
| Notifications.WithoutDistributes | src/lib/dash/useNotifications/useNotifications.tsx:56 | Closing keeps the remaining entries in their order |
| Notifications.WithoutAbsentKey | src/lib/dash/useNotifications/useNotifications.tsx:56 | Closing a key no entry has changes nothing |
| Notifications.WithoutIsIdempotent | src/lib/dash/useNotifications/useNotifications.tsx:55-57 | Closing twice is closing once |
| Notifications.CurrentOf | src/lib/dash/useNotifications/useNotifications.tsx:59 | The shown notification (`NotificationsProvider.Current`) is the head of the queue, or none when the queue is empty |
| Notifications.BadgeOf | src/lib/dash/useNotifications/useNotifications.tsx:82-85 | The badge (`NotificationsProvider.Badge`) shows the queue length only when more than one notification is queued |
| Notifications.EnqueueKeepsCurrent | src/lib/dash/useNotifications/useNotifications.tsx:50-59 | Enqueueing never replaces the shown notification |
| Notifications.ClosingCurrentShowsNext | src/lib/dash/useNotifications/useNotifications.tsx:55-68 | Closing the shown notification shows the next one |
| Notifications.CloseKey | src/lib/dash/useNotifications/useNotifications.tsx:55-57 | Closing a key that may be undefined keeps exactly the entries whose string key is not that key |
| Notifications.CloseKeyOfString | src/lib/dash/useNotifications/useNotifications.tsx:55-57 | For a string key this is `Without` |
| Notifications.CloseUndefinedKeepsQueue | src/lib/dash/useNotifications/useNotifications.tsx:55-57 | Closing `undefined` keeps the whole queue, since every entry's key is a string |
| Notifications.ShowActionAsWrittenKeepsNotification | src/lib/dash/DataGrid/DataGrid.tsx:539-550 | As written, the "Show" action closes an undefined key, so the notification stays queued |
| Notifications.ShowActionClosesNotification | src/lib/dash/DataGrid/DataGrid.tsx:539-550 | When the key is the one the notification was enqueued under, closing removes it and leaves the rest of the queue |
| Notifications.NotificationsProvider.constructor | src/lib/dash/useNotifications/useNotifications.tsx:48 | The queue starts empty |
| Notifications.NotificationsProvider.Enqueue | src/lib/dash/useNotifications/useNotifications.tsx:50-53 | Appends the new entry at the end and returns its key |
| Notifications.NotificationsProvider.Close | src/lib/dash/useNotifications/useNotifications.tsx:55-57 | The queue loses exactly the entries with the key |
| Notifications.NotificationsProvider.HandleClose | src/lib/dash/useNotifications/useNotifications.tsx:61-68 | A click away changes nothing. Any other close reason closes the key |
| DialogStack.WithMsg | src/lib/dash/useDialogs/useDialogs.tsx:311 | `{ ...options, msg }` has the options' keys plus "msg", and msg wins |
| DialogStack.FindEntry | src/lib/dash/useDialogs/useDialogs.tsx:152 | The index of the first entry of the dialog, or none when it has none |
| DialogStack.MarkClosed | src/lib/dash/useDialogs/useDialogs.tsx:139-143 | The dialog's entries get `open: false`. Every other entry and the order are unchanged |
| DialogStack.Remove | src/lib/dash/useDialogs/useDialogs.tsx:144-147 | Exactly the other dialogs' entries remain |
| DialogStack.RemoveAfterMark | src/lib/dash/useDialogs/useDialogs.tsx:138-148 | The two phases of closing compose: removing after marking is plain removal |
| DialogStack.RemoveDistributes | src/lib/dash/useDialogs/useDialogs.tsx:146 | Removal filters each part of a stack separately |
| DialogStack.RemoveNothing | src/lib/dash/useDialogs/useDialogs.tsx:146 | Removing a dialog that is not on the stack changes nothing |
| DialogStack.RemoveKeepsOrder | src/lib/dash/useDialogs/useDialogs.tsx:146 | Removing the dialog's one entry leaves the others in order |
| DialogStack.AppendKeepsWellFormed | src/lib/dash/useDialogs/useDialogs.tsx:120-132 | A request under the next counter key with a new promise keeps keys issued and pairwise distinct |
| DialogStack.MarkClosedKeepsWellFormed | src/lib/dash/useDialogs/useDialogs.tsx:139-143 | Marking keeps the stack well formed |
| DialogStack.RemoveKeepsDistinct | src/lib/dash/useDialogs/useDialogs.tsx:146 | Removal keeps keys and promises pairwise distinct |
| DialogStack.RemoveKeepsWellFormed | src/lib/dash/useDialogs/useDialogs.tsx:146 | Removal keeps the stack well formed |
| DialogStack.MarkClosedClosesOnlyThatDialog | src/lib/dash/useDialogs/useDialogs.tsx:139-143 | In a well-formed stack, marking closes exactly the dialog's one entry |
| UseDialogs.SystemPayload | src/lib/dash/useDialogs/useDialogs.tsx:309-325 | The payload is the options with any `onClose` key dropped, plus msg; it never holds `onClose`, and with no options it is just msg |
| UseDialogs.HookOf | src/lib/dash/useDialogs/useDialogs.tsx:112 | A missing `onClose` becomes the no-op default |
| UseDialogs.DialogProvider.constructor | src/lib/dash/useDialogs/useDialogs.tsx:105-107 | An empty stack, the counter at 0, and the given key prefix |
| UseDialogs.DialogProvider.RequestDialog | src/lib/dash/useDialogs/useDialogs.tsx:109-136 | Appends an open entry under `${prefix}-${n}` with a new pending promise and advances the counter. The stack stays well formed |
| UseDialogs.DialogProvider.OpenSystemDialog | src/lib/dash/useDialogs/useDialogs.tsx:309-325 | alert/confirm/prompt push an open entry for their component with the system payload and hook, under a new pending promise. Being `async`, they return a different new promise, which no stack entry holds |
| UseDialogs.DialogProvider.CloseSystemDialogByItsPromise | src/lib/dash/useDialogs/useDialogs.tsx:150-160 | Closing a system dialog by the promise alert/confirm/prompt returned fails with "dialog not found", runs no step, and leaves the dialog open |
| UseDialogs.DialogProvider.CloseDialogUi | src/lib/dash/useDialogs/useDialogs.tsx:138-143 | The dialog is marked closed |
| UseDialogs.DialogProvider.RemoveDialog | src/lib/dash/useDialogs/useDialogs.tsx:144-147 | The dialog's entry is removed |
| UseDialogs.DialogProvider.CloseDialog | src/lib/dash/useDialogs/useDialogs.tsx:150-160 | An unknown dialog fails with "dialog not found". Otherwise the hook runs first; if it fails, nothing else happens. If not, the promise resolves with the result and the dialog is marked closed |
| UseDialogs.ClosedDialogLeavesTheStack | src/lib/dash/useDialogs/useDialogs.tsx:138-148 | After closing, the dialog is no longer on the stack, and the stack is one entry shorter exactly when it was there |
| Dialogs.SystemPayload | src/lib/dash/dialogs/index.tsx:256-269 | `{ ...options, msg }`, with missing options spreading nothing |
| Dialogs.DialogProvider.constructor | src/lib/dash/dialogs/index.tsx:91-93 | An empty stack, the counter at 0, and the given key prefix |
| Dialogs.DialogProvider.RequestDialog | src/lib/dash/dialogs/index.tsx:95-118 | Appends an open entry under `${prefix}-${n}` with a new pending promise. The stack stays well formed |
| Dialogs.DialogProvider.OpenSystemDialog | src/lib/dash/dialogs/index.tsx:256-269 | alert/confirm/prompt push an open entry for their component with `{ ...options, msg }`, under a new pending promise. Being `async`, they return a different new promise, which no stack entry holds |
| Dialogs.DialogProvider.CloseSystemDialogByItsPromise | src/lib/dash/dialogs/index.tsx:132-141 | Closing a system dialog by the promise alert/confirm/prompt returned fails with "dialog not found" and leaves the dialog open |
| Dialogs.DialogProvider.CloseDialogUi | src/lib/dash/dialogs/index.tsx:120-125 | The dialog is marked closed |
| Dialogs.DialogProvider.RemoveDialog | src/lib/dash/dialogs/index.tsx:126-129 | The dialog's entry is removed |
| Dialogs.DialogProvider.CloseDialog | src/lib/dash/dialogs/index.tsx:132-141 | An unknown dialog fails with "dialog not found". Otherwise the promise resolves with the result and the dialog is marked closed |
| ObjectKeys.AssignKeepsKeyTable | src/lib/dash/utils.ts:8-11 | Giving a new object the counter's value keeps the keys positive, below the counter and unshared |
| ObjectKeys.ObjectKeyMemo.constructor | src/lib/dash/utils.ts:3-4 | No keys, counter at 1 |
| ObjectKeys.ObjectKeyMemo.GetObjectKey | src/lib/dash/utils.ts:6-13 | A known object keeps its key and nothing changes. A new one gets the counter's value and the counter advances. Keys stay positive and no two objects share one |
| EmployeeStore.FindIndex | src/app/crud-table/data.ts:55 | The index of the first row whose id `Matches` `Number(id)` (`NumberOf`; NaN matches nothing), or -1 when none matches |
| EmployeeStore.FoundByPrintedId | src/app/crud-table/data.ts:44 | A row is found at its own index by the decimal spelling of its id |
| EmployeeStore.Employees.constructor | src/app/crud-table/data.ts:13-30 | The two seed rows with ids 1 and 2, and the counter at 3 |
| EmployeeStore.Employees.GetMany | src/app/crud-table/data.ts:37-41 | Every row, whatever the filter |
| EmployeeStore.Employees.GetOne | src/app/crud-table/data.ts:42-45 | The first row whose id is `Number(id)`, or null exactly when none matches |
| EmployeeStore.Employees.CreateOne | src/app/crud-table/data.ts:46-51 | The values are appended with the next id, and the counter advances. Ids stay unique and below the counter |
| EmployeeStore.Employees.UpdateOne | src/app/crud-table/data.ts:52-62 | An unknown id fails with "Employee with id ${id} not found" (`IdText`) and changes nothing. Otherwise the first matching row is merged with the values and returned |
| EmployeeStore.Employees.DeleteOne | src/app/crud-table/data.ts:63-69 | The first matching row is removed; an unknown id changes nothing. Ids stay unique |
| Metric.FieldValues | src/lib/dash/Metric/Metric.tsx:22 | The field of each row, in order |
| Metric.FoldSumIsTotal | src/lib/dash/Metric/Metric.tsx:27 | The left fold of `+` from 0 (`FoldSum`, the `reduce`) equals the sum taken from the front |
| Metric.TotalOfConcat | src/lib/dash/Metric/Metric.tsx:27 | The sum of a concatenation is the sum of the parts |
| Metric.MinOf | src/lib/dash/Metric/Metric.tsx:36 | `Math.min` of non-empty values is one of them and at most each |
| Metric.MaxOf | src/lib/dash/Metric/Metric.tsx:39 | `Math.max` of non-empty values is one of them and at least each |
| Metric.Aggregate | src/lib/dash/Metric/Metric.tsx:21-42 | See the list below the table |
| Metric.SumOverConcatenatedRows | src/lib/dash/Metric/Metric.tsx:26-28 | The sum over two lists of rows is the sum of their sums |
| Metric.LatestIsAFieldValue | src/lib/dash/Metric/Metric.tsx:23-25 | On non-empty rows, "latest" is one of the field's values |
| Metric.MinAtMostMax | src/lib/dash/Metric/Metric.tsx:35-40 | The minimum never exceeds the maximum, and they are equal iff all values are equal |

What `Metric.Aggregate` states, by aggregation:

- An unknown name throws "Unknown aggregation: …".
- "latest" gives the last row's value, or undefined when there are no rows.
- "count" gives the number of rows.
- "sum" gives the sum of the values.
- "average" gives a quotient whose product with the count is the sum; with no rows it is NaN.
- "min" gives a value that is one of the values and at most each of them; with no rows it is +Infinity.
- "max" gives a value that is one of the values and at least each of them; with no rows it is -Infinity.

## Left out

- Rendering is not modelled: JSX, MUI components, layout props, icons, the toolbar slots, the Snackbar and Badge display, and the SSR detection.
- TanStack Query is not modelled: caching, refetching, `keepPreviousData` and `enabled`. The model covers the query keys and the `loading` formula only.
- Asynchrony and timing are not modelled: the 1000 ms removal of a closed dialog is the separate `RemoveDialog` step, and the `delay(500)` of the employees store is dropped.
- `Math.random`, `useId`, `new Date()` and the filter-key function are parameters. The filter module and the applied-filter hook are not part of this model.
- DataProvider.MutationFn: `invariant` failures are modelled by their message only. The library's production message prefix is not modelled.
- Only integer numbers are modelled, with no floating point:
  - `Number(s)` accepts only optional sign plus digits, and the empty string. It ignores whitespace, exponents, hex and decimals.
  - Metric values are integers, and the average is an exact rational.
  - `Intl.NumberFormat` and the Metric card's formatting and `isNaN` check are not modelled.
- Metric.Aggregate: requires integer field values for sum, average, min and max. The source would add strings or produce NaN there.
- A caller-supplied `processRowUpdate` prop and the `apiRef` filter set by the "Show" notification action are not modelled.
- The delete action is not modelled beyond `DeleteItem`. Its click handler calls `deleteOne`, notifies and refetches.
- `usePatchedRowModesModel` compares models by value; the source compares by reference. This is the same whenever a new model object means a changed model.
- Notifications: the `onAction` callback and `actionText` are opaque values.
- Dialogs:
  - Components, and a dialog's own rendering and submit flow, are opaque.
  - The `close` captured from a stale stack is not modelled: the model always looks in the current stack.
  - `onClose` hooks are opaque. Whether one fails is a parameter.
- UseDialogs.DialogProvider.OpenSystemDialog: the returned promise is unlinked from the entry's. The model does not capture that the `async` wrapper settles when the entry's promise does.
- Dialogs.DialogProvider.OpenSystemDialog: the same as for `useDialogs`; the wrapper's adoption of the entry's settlement is not modelled.
- `getObjectKey`: the WeakMap's garbage collection is not modelled, since keys never leave the map.
- Date values are compared by their time only inside the diff. Their conversion by the grid's date getter is opaque.
- The order of the diff's keys and of the columns built from `Object.keys(fields)` is not modelled.
- EmployeeStore.Employees.UpdateOne: keeps ids unique only when the merged values carry no "id". The source lets `updateOne` overwrite a row's id.

## Findings

| source | as written | input that shows it | evidently intended | confidence | as-written member | corrected member |
|---|---|---|---|---|---|---|
| src/lib/dash/DataGrid/DataGrid.tsx:187-199 | `CANCEL_ROW_EDIT` tests `state.editedRowId` for truthiness, so row id `0` gets no `ignoreModifications: true` entry and its edits are kept rather than discarded | Edit the row with id 0, then cancel | Test `editedRowId !== null`, as `START_ROW_EDIT` does | not executed; medium | DataGrid.CancelOfRowZeroKeepsModifications | DataGrid.GridEditingReducerCorrected (with DataGrid.CancelDiscardsModifications) |
| src/lib/dash/DataGrid/DataGrid.tsx:539-550 | The success notification's "Show" action calls `close(key)`. `key` is the result of `enqueue`, which returns nothing, so the action would close no notification. The defect is latent: the notifications provider (useNotifications.tsx:69-95) renders neither `actionText` nor `onAction`, so no "Show" button appears. It shows once the provider renders the action | Create or update a row with a provider that renders the notification's action, then click "Show" | `enqueue` returns the key it used, and the action closes that notification | not executed; medium | Notifications.ShowActionAsWrittenKeepsNotification | Notifications.NotificationsProvider.Enqueue (with Notifications.ShowActionClosesNotification) |

`DataGrid.Run` takes either reducer, and its lemmas hold for both. The other grid lemmas state the reducer as written, and add the corrected one where the two differ. The rest of the model uses the key-returning `Enqueue`.
