# react-utils form, table and drag-and-drop core, in Dafny

This project models the logic of the form, table and drag-and-drop
components of `react-utils`, a library of React/antd helpers:

- `FormX` (`src/form.tsx`): it registers one field decorator and one
  single-field validate function per form field. It keeps each field's
  error messages, found by walking antd's nested error tree along the
  dotted field name. It registers the `<name>_dropdown` handlers that
  selects call when their dropdown closes; these run on a timer. It also
  provides `FormItem`, the help fallback to the first error message, and
  the `FormComponent` lifecycle (`lazyInit`, `createForm`, `formInit`).
- `SimpleForm` (`src/simple-form.tsx`): it turns a tree of field specs
  (leaves and one level of groups) into decorator options
  (`getFormFields`) and into compiled field records (`initForm`). It
  normalises each field's `addition`, turns help, extra, hidden and
  disabled into thunks, and starts each select's option sources: a URL,
  an observable, or a descriptor whose `query`/`param` entries may depend
  on other fields through `#name` markers. It delivers field changes to
  the dependent selects, and its `render` draws every leaf under the name
  it was decorated with. The `SimpleFormRef` handle forwards to the form.
- The older `FormComponent` (`src/form-component.tsx`): the same flow over
  flat specs, with its own differences. Its dependent-select scan runs
  before `state.fields` exists. `extraText` becomes `null` when falsy.
  A descriptor's `observe` skips the parse step. URL and observable sources
  do not re-render. The `FormComponentContainer` handle forwards to it.
- The validators `test`, `requiredBy` and `equalWith`
  (`src/form/validators.ts`), and `buildUrl`, `getPathAndQuery`,
  `getLoginUrl` and `getLogoutUrl` (`src/common.ts`).
- `TableX` and `TableComponent` (`src/table.tsx`). `TableX` applies the
  `column-<index or key>` render overrides. `TableComponent` keeps the
  paging and loading state.
- The drag-and-drop rows of `src/dragable-table.tsx`. `beginDrag` records
  the dragged index. `drop` calls `moveRow` and moves the drag item. Each
  row gets its hover class and style.

Objects whose fields the source updates in place are classes: `FormX`,
both form components, the handles, `TableComponent`, the drag state and
the drag item. Each method states the new state it leaves. The pure
parts are datatypes and functions: spec compilation, error-tree walks,
URL building, validators, column resolution and row classes. Lemmas
relate the two.

A JavaScript object used as a dictionary is a sequence of key/value pairs
in insertion order (`Dict`). JavaScript values, including truthiness and
`===`, are the datatype `Js.Value`. Integers are unbounded. Fetches and
subscriptions are entries of a request log. An emission is an explicit
call (`Deliver`, `Receive`, `Emit`). A `setTimeout` callback is an entry
of a task queue, and the caller runs the oldest one. A `TypeError` that
the source would throw is an `ok = false` result, and nothing that comes
after it in the same loop runs.

Three places in the source are not what its authors evidently meant;
all are described under "Findings", and for each the model has both the
code as written and a corrected definition with its intended property
proved. The two URL fallbacks of `loadSelectData` are corrected in the
engine, which uses the corrected load. The missing prefix of the nested
`initForm` call is kept as written in the engine: a select inside a group
registers its `_dropdown` validator under its bare name. The corrected
names (`SimpleForm.SelectsUpTo`) are proved beside it. Other quirks are
kept as written:

- `replace` with a string pattern rewrites only the first occurrence.
- The nested `getFormFields` prefix is not accumulated.
- A `#name` marker naming a group finds no channel.
- Dependency targets are looked up among the top-level records only.
- The falsy-clear path of a subscription does not re-render.

## Model

| member | source | states |
|---|---|---|
| Js.AsThunk | src/simple-form.tsx:162-164 | the stored function returns what the prop gives, and a function prop is kept as is |
| Text.ReplaceFirstSplices | src/simple-form.tsx:252 | `url.replace(':' + x, v)` leaves a URL without the token unchanged, and otherwise puts `v` in place of the first occurrence, keeping the text around it |
| Text.ReplaceFirstKeepsLaterOccurrences | src/simple-form.tsx:252 | an occurrence after the first survives the replacement, shifted by the difference in length |
| Text.IndexFromFinds | src/simple-form.tsx:252 | the search for the token finds its first occurrence at or after the start, or reports none |
| Text.Split | src/form.tsx:96 | `name.split('.')` gives pieces free of the separator |
| Text.JoinSplit | src/form.tsx:96 | joining the pieces of a split with the separator gives the string back |
| Text.SplitJoin | src/simple-form.tsx:139 | splitting a join of separator-free pieces gives the pieces back |
| Text.SplitAround | src/form.tsx:96 | splitting at a separator between two strings splits each of them |
| Text.ParseInt | src/table.tsx:14 | `parseInt(s, 10)` is NaN exactly when no digit follows the leading white space and sign |
| Text.ParseIntOfIntToString | src/table.tsx:14-15 | every decimal integer suffix is read back as that integer |
| Dict.Get | src/form.tsx:90 | a lookup misses exactly when the key is absent |
| Dict.Keys | src/simple-form.tsx:141 | `Object.keys` lists the keys in insertion order |
| Dict.AssignFacts | src/simple-form.tsx:89 | after `d[k] = v`, `k` holds `v`, every other key is unchanged, an existing key keeps its place, and a new key goes last |
| Dict.AssignAgain | src/dragable-table.tsx:30-32 | assigning a key the value it already holds changes nothing |
| Dict.AssignDistinct | src/simple-form.tsx:89 | assigning keeps the keys distinct |
| Dict.AssignAll | src/simple-form.tsx:105 | `Object.assign(d, e)` assigns the entries of `e` into `d` in order |
| Dict.AssignAllDistinct | src/simple-form.tsx:105 | `Object.assign` keeps the keys distinct |
| Dict.AssignAllEntries | src/simple-form.tsx:105 | after `Object.assign(d, e)`, a key of `e` holds the value of its last entry in `e`, every other key keeps its value in `d`, and every entry comes from `d` or `e` |
| Dict.LastOf | src/simple-form.tsx:105 | a key has a last entry in `e` iff it is a key of `e` |
| Dict.LastOfDistinct | src/simple-form.tsx:105 | when the keys of `e` are distinct, a key's last entry is its only one, so `Object.assign` gives every key of `e` its value in `e` |
| Validators.Test | src/form/validators.ts:3-11 | the callback gets no error iff `fn(value)` holds, and the rule's message otherwise |
| Validators.RequiredBy | src/form/validators.ts:13-22 | a truthy value passes without reading the other field; a falsy one passes iff the other field is falsy, or iff `testFn` accepts when one is given |
| Validators.EqualWith | src/form/validators.ts:24-28 | valid iff `value === getFn()` |
| Validators.RequiredByAcceptsIff | src/form/validators.ts:13-22 | without `testFn`, the validator rejects iff the value is falsy and the other field is truthy |
| Common.BuildUrl | src/common.ts:12-14 | origin (default empty), then path, then `?` and the query string iff a query is given, then `#` and the hash iff the hash is non-empty |
| Common.HashPart | src/common.ts:13 | the hash part is empty iff the hash is empty, and is `#` followed by the hash otherwise |
| Common.BuiltUrlLayout | src/common.ts:12-14 | where the first `?` and the first `#` of a built URL are |
| Common.UrlPartsReadBack | src/common.ts:12-14 | the text before the first `?` and `#` is origin and path, and the query and hash are read back between them |
| Common.BuildUrlParsesBack | src/common.ts:12-14 | a built URL parses back into its origin and path, query string and hash when those contain no `?`/`#` |
| Common.GetPathAndQuery | src/common.ts:16-19 | the path followed by the query string |
| Common.GetLoginUrl | src/common.ts:21-27 | `/login`, with a `redirect` query iff the current path and query differ from `currentUrl` |
| Common.GetLogoutUrl | src/common.ts:29-35 | the same rule with `/logout` |
| Common.LoginLogoutDifferInPathOnly | src/common.ts:21-35 | the login and logout URLs for the same location differ only in the path |
| Resolver.Classify | src/simple-form.tsx:224-225 | a string starting with `#` is a marker naming a field; `undefined`/`null` make `path[0]` throw; any other entry is plain |
| Resolver.ScanParams | src/simple-form.tsx:223-239 | the scan subscribes once per marker naming a field with a channel, keeps the eager load only while no marker is met, and stops at the first entry that throws |
| Resolver.ScanSubscribesPerMarker | src/simple-form.tsx:223-236 | the subscriptions are exactly the markers that name a field with a channel, in entry order |
| Resolver.ScanStops | src/simple-form.tsx:223-239 | after an entry throws, later entries change nothing |
| Resolver.AddListeners | src/simple-form.tsx:228 | adding one listener per subscription keeps one list per channel and appends each listener to its channel |
| Resolver.AddListenersStep | src/simple-form.tsx:228 | one more subscription adds exactly one listener to its channel |
| Resolver.SubstituteParams | src/simple-form.tsx:251-253 | the loop over `param` keys gives the URL with each `:key` token replaced, first occurrence only, in key order |
| Resolver.SecondOccurrenceSurvives | src/simple-form.tsx:252 | a token that occurs twice keeps its second occurrence |
| Form.ErrorEntry | src/form.tsx:94-98 | a `null` argument (a field that validates) is stored as `null` and an `undefined` one as `undefined`; for a tree, the stored entry is the messages of the node the dotted name reaches, `undefined` when a segment is missing, and a throw when the walk stops at an object without `errors` |
| Form.ErrorEntryOfNest | src/form.tsx:94-98 | a field's messages nested under its dotted name are found again, in their order |
| Form.MissingSegmentClears | src/form.tsx:96-97 | a missing segment gives a falsy entry |
| Form.WalkNest | src/form.tsx:96-97 | walking a tree along the path it nests messages under finds those messages |
| Form.Lookup | src/form.tsx:100-113 | a registered `_dropdown` handler holds the validator its field had when it was registered |
| Form.RegisteredKeys | src/form.tsx:100-113 | registering adds a `<name>_dropdown` key per name and leaves every other key as it was |
| Form.RegisteredAppend | src/form.tsx:100-103 | registering two lists in turn is registering their concatenation |
| Form.RegisteredCaptures | src/form.tsx:101-103 | a handler registered for a field with a validator captures exactly that validator |
| Form.ClearAllEntries | src/form.tsx:80-82 | on success every field's entry becomes `null`, and nothing else changes |
| Form.RecordAllEntries | src/form.tsx:83-85 | on failure, when no walk throws, every field's entry is what its own walk of the error tree yields |
| Form.FormX.constructor | src/form.tsx:116-129 | one decorator and one single-field validator per field of `getFormFields`, no errors, no timers |
| Form.FormX.ErrorOf | src/form.tsx:90 | a field with no stored entry reads as `undefined` |
| Form.FormX.GetItemHelp | src/form.tsx:89-92 | the first stored message, or a falsy value when the field has none |
| Form.FormX.SetErrors | src/form.tsx:94-98 | the field's entry becomes `ErrorEntry` of the argument (`null` for a passing field, the leaf's messages for a failing one) and nothing else changes; `ok` is false where the source throws, and then nothing is stored |
| Form.FormX.SubmitForm | src/form.tsx:79-86 | on success all entries are cleared and `submitCallback` gets the values once; on failure each field's entry is set in key order, stopping at a throw |
| Form.FormX.SetSelectValidFn | src/form.tsx:100-114 | the validator map becomes `Registered` of the names, each handler capturing the current validator |
| Form.FormX.Invoke | src/form.tsx:103-112 | a field validator stores its field's `ErrorEntry` (`null` when the field passes); a `_dropdown` handler schedules its captured validator when closed and does nothing when opened; a missing key does nothing |
| Form.FormX.RunTimer | src/form.tsx:105-110 | the oldest timer runs its captured validator, storing its field's `ErrorEntry` (`null` when the field passes), then `triggerUpdate` when the form has one; with nothing captured the call throws and no update follows |
| Form.FormX.FormItem | src/form.tsx:55-69 | a missing help falls back to the first error message, a function help or extra is called, the error state is set iff the field has messages, and the control is wrapped by its decorator unless `decorator` is false |
| Form.FormComponent.constructor | src/form.tsx:158-163 | the form is created in the constructor iff `lazyInit` is not set |
| Form.FormComponent.ComponentDidMount | src/form.tsx:165-171 | with `lazyInit` the form is created and an update triggered, and `formInit` runs after that in both cases |
| Form.StartUp | src/form.tsx:158-177 | constructing and mounting creates the form exactly once, before `formInit` |
| Host.Host.TriggerUpdate | src/form.tsx:168 | each call re-renders the owning component once |
| SimpleForm.LeafOptions | src/simple-form.tsx:89-103 | a leaf's options: its value and rules, validating first, preserved, and `valuePropName` `checked` for a switch or a non-group checkbox |
| SimpleForm.FieldsUpToLeaves | src/simple-form.tsx:85-109 | every collected entry is a leaf's key with that leaf's options |
| SimpleForm.LeavesInFields | src/simple-form.tsx:85-109 | every leaf's key is collected |
| SimpleForm.FieldsUpToDistinct | src/simple-form.tsx:85-109 | the collected keys are distinct |
| SimpleForm.FlatFields | src/simple-form.tsx:87-103 | without groups and with distinct names, there is one entry per spec, in order, under `prefix + name` |
| SimpleForm.GetFormFields | src/simple-form.tsx:85-109 | the loop collects the entries of the fold, visiting entries in order and groups recursively |
| SimpleForm.CollectEntry | src/simple-form.tsx:87-106 | one entry: a leaf's options under `prefix + name`, or a group's fields under `name.` assigned in |
| SimpleForm.ClassListKept | src/simple-form.tsx:137-140 | a list of class names is joined by spaces so that splitting gives the list back |
| SimpleForm.NormalizeAdditionKeeps | src/simple-form.tsx:135-140 | a missing label flag becomes true, class entries become strings (empty when missing), and the data source, decorator and data are kept |
| SimpleForm.NormalizeRenderResolves | src/simple-form.tsx:144-153 | a help or extra render given as a value becomes a function returning it, and normalising never changes what it gives |
| SimpleForm.Thunks | src/simple-form.tsx:141-143 | each `helpText` entry keeps its key and becomes a function |
| SimpleForm.ThunksResolve | src/simple-form.tsx:141-143 | each thunk returns what the entry gave |
| SimpleForm.CompileLeafThunks | src/simple-form.tsx:156-175 | the compiled record: label empty when `addition.label` is falsy and a space for a non-group checkbox; placeholder, type and subtype defaults; thunks that return what the spec gives; default item and control renderers |
| SimpleForm.LoadRequestsCases | src/simple-form.tsx:245-267 | corrected: a request iff there is a URL or a `from`; the URL is substituted, `from(query, url)` wins over a GET, and `parse` is applied when given |
| SimpleForm.DescriptorWithoutUrlRequestsItself | src/simple-form.tsx:248 | as written, a descriptor without a URL or `from` sends a GET to `[object Object]` |
| SimpleForm.DescriptorWithoutUrlThrows | src/simple-form.tsx:248-252 | as written, a descriptor without a URL but with a `param` throws |
| SimpleForm.LoadAsWrittenAgreesWithUrl | src/simple-form.tsx:248-257 | with a URL the written and corrected versions agree, and as written `from` is never called without one |
| SimpleForm.SelectEffectsCases | src/simple-form.tsx:195-217 | nothing without a source; a GET for a non-empty URL; a subscription for an observable; a load for a descriptor without `query` and `param`; otherwise one deferred `observeSelect` per dictionary given |
| SimpleForm.AdditionsCount | src/simple-form.tsx:111-193 | one addition slot per leaf |
| SimpleForm.LeafSelects | src/simple-form.tsx:177-179 | a select registers one `_dropdown` name, `prefix + name`, and any other leaf registers none |
| SimpleForm.WalkSlots | src/simple-form.tsx:111-193 | the walk gives each leaf one slot |
| SimpleForm.WalkAdditions | src/simple-form.tsx:134-140 | one normalised addition per leaf in spec order, a group's leaves in place |
| SimpleForm.WalkListeners | src/simple-form.tsx:154 | every slot gets an `afterChange` channel with no subscriber |
| SimpleForm.WalkRequests | src/simple-form.tsx:177-190 | the requests made are those of the `initSelect` calls, in order |
| SimpleForm.WalkTasks | src/simple-form.tsx:210-214 | the deferred `observeSelect` calls are those of the `initSelect` calls, in order |
| SimpleForm.WalkValidFns | src/simple-form.tsx:131-179 | the `_dropdown` validators registered are those of the selects, a top-level select under `prefix + name` and a grouped one under its bare name, since the nested call passes no prefix |
| SimpleForm.WalkFromStart | src/simple-form.tsx:111-193 | from the constructor's empty state, the walk leaves exactly the additions, channels, requests, tasks and validators above |
| SimpleFormComponent.ChannelOf | src/simple-form.tsx:226-227 | a top-level lookup finds nothing, a leaf and its channel, or a group, which has no channel |
| SimpleFormComponent.SimpleForm.constructor | src/simple-form.tsx:61-79 | the form is created with the collected options, `initForm` compiles the records, the walk's effects are those `Walk` gives, and a `_ref` is bound |
| SimpleFormComponent.SimpleForm.InitForm | src/simple-form.tsx:111-193 | the records are `RecordsUpTo` and the new state is `Walk` of the old one |
| SimpleFormComponent.SimpleForm.InitEntry | src/simple-form.tsx:113-133 | one entry of the loop advances the walk by that entry, and a group runs a nested walk with no prefix |
| SimpleFormComponent.SimpleForm.InitLeaf | src/simple-form.tsx:134-190 | a leaf takes the next slot and a fresh channel, stores its record, and a select registers its validator and starts its sources |
| SimpleFormComponent.SimpleForm.AddSlot | src/simple-form.tsx:135-154 | a new addition takes the next slot, with an empty channel |
| SimpleFormComponent.SimpleForm.InitSelect | src/simple-form.tsx:195-217 | the requests and tasks grow by exactly those `SelectEffects` gives for the slot's source |
| SimpleFormComponent.SimpleForm.LoadSelectData | src/simple-form.tsx:245-267 | the request log grows by the corrected `LoadRequests` of the slot's descriptor |
| SimpleFormComponent.SimpleForm.RunTask | src/simple-form.tsx:212 | the oldest task runs `observeSelect` for its dictionary and is removed |
| SimpleFormComponent.SimpleForm.ObserveScan | src/simple-form.tsx:223-242 | the scan subscribes as `ScanParams` says, and loads once iff no entry was a marker and none threw |
| SimpleFormComponent.SimpleForm.ScanEntry | src/simple-form.tsx:224-238 | one entry of the scan advances it as `ScanParams` does |
| SimpleFormComponent.SimpleForm.Subscribe | src/simple-form.tsx:228 | the subscription is appended to its channel's list |
| SimpleFormComponent.SimpleForm.React | src/simple-form.tsx:229-234 | the value is written into the entry, then a truthy value reloads the select and a falsy one empties its options |
| SimpleFormComponent.SimpleForm.Emit | src/simple-form.tsx:170 | the channel's subscriptions react in the order they were made, as `Notify` gives |
| SimpleFormComponent.SimpleForm.OnChange | src/simple-form.tsx:168-174 | the value is emitted on the leaf's channel (each subscribed select reacting as `Notify` says), then the spec's own `onChange` is called with the value and the remaining arguments, and is skipped when absent |
| SimpleFormComponent.SimpleForm.Deliver | src/simple-form.tsx:262-265 | an emission sets that request's select's `data` (and no other slot's) to what `parse` returns for it when the request has a `parse`, to the raw payload otherwise, and re-renders once |
| SimpleFormComponent.SimpleForm.FormInit | src/simple-form.tsx:81-83 | `hideFields` becomes true and nothing else changes |
| SimpleFormComponent.SimpleFormRef.constructor | src/simple-form.tsx:602-612 | an unbound handle |
| SimpleFormComponent.SimpleFormRef.Submit | src/simple-form.tsx:614-618 | a bound handle runs the form's `submitForm`, and an unbound one does nothing |
| SimpleFormComponent.SimpleFormRef.SetFieldError | src/simple-form.tsx:646-650 | a bound handle runs `setErrors`, storing `ErrorEntry` of the argument (`null` stays `null`), and an unbound one does nothing |
| SimpleFormComponent.SimpleFormRef.ResetFieldError | src/simple-form.tsx:652-656 | the field's error entry becomes `null`, and the form's fields, validators, timers and submissions are unchanged |
| SimpleFormComponent.SimpleFormRef.IsLoading | src/simple-form.tsx:658-660 | the bound form's `state.loading`, and `undefined` when unbound |
| SimpleFormComponent.SimpleFormRef.SetLoading | src/simple-form.tsx:662-667 | the bound form's `state.loading` becomes the argument; an unbound handle returns `never()` |
| SimpleFormEvents.WriteParam | src/simple-form.tsx:229 | `params[x] = value` changes only that entry of that dictionary |
| SimpleFormEvents.Notified | src/simple-form.tsx:229-234 | one subscription writes its entry, then reloads on a truthy value or empties the options on a falsy one |
| SimpleFormEvents.Notify | src/simple-form.tsx:228-235 | an emission passes the value to the subscriptions in order |
| SimpleFormEvents.NotifiedFrame | src/simple-form.tsx:229-234 | one subscription touches only its own slot, and requests at most one reload of it |
| SimpleFormEvents.NotifiedKeepsHolds | src/simple-form.tsx:229 | one subscription keeps an entry that already holds the value |
| SimpleFormEvents.NotifyWritesValue | src/simple-form.tsx:229 | after an emission, every subscribed entry holds the value |
| SimpleFormEvents.NotifyKeepsHolds | src/simple-form.tsx:229 | an entry that holds the value keeps it through the emission |
| SimpleFormEvents.NotifyKeepsOthers | src/simple-form.tsx:228-235 | a slot no subscription targets is unchanged |
| SimpleFormEvents.NotifyRequestLog | src/simple-form.tsx:230-234 | the log only grows, by at most one reload per subscription, and a falsy value requests nothing |
| SimpleFormEvents.NotifyKeepsData | src/simple-form.tsx:230-234 | a falsy value leaves emptied options empty, and a truthy value leaves every option list unchanged |
| SimpleFormEvents.NotifyData | src/simple-form.tsx:230-234 | a falsy value empties the options of every targeted select, and a truthy one changes none |
| SimpleFormEvents.NotifyReloadsEach | src/simple-form.tsx:230-232 | a truthy value reloads once per subscription when every target can load |
| SimpleFormRender.UseNodeOrCall | src/simple-form.tsx:22-30 | a function is called, a truthy node is used as it is, and a falsy node gives `undefined` |
| SimpleFormRender.MergeClassSplits | src/simple-form.tsx:286-295 | the merged class holds the control's own class names followed by the addition's |
| SimpleFormRender.RenderItemOfSpec | src/simple-form.tsx:275-298 | an item is left out iff the fields are hidden and `hidden()` is truthy; otherwise label, help, extra, class and decorator come from the spec |
| SimpleFormRender.GroupItemsDrawable | src/simple-form.tsx:512-527 | every item a group draws is one of its leaves, under its full name |
| SimpleFormRender.RenderPlanDrawable | src/simple-form.tsx:494-533 | every item `render` draws is a leaf, under a drawable name |
| SimpleFormRender.LeafKeysCollected | src/simple-form.tsx:85-109 | every leaf key is a key `getFormFields` collects |
| SimpleFormRender.DrawnNamesAreLeafKeys | src/simple-form.tsx:505-523 | a top-level leaf's name and a grouped leaf's full name are leaf keys |
| SimpleFormRender.SelectsAreLeafKeys | src/simple-form.tsx:179 | corrected: every `_dropdown` name registered is a leaf key, so `renderSelect` finds the handler for each drawn select |
| SimpleFormRender.GroupedSelectAsWritten | src/simple-form.tsx:131 | as written, a select in a group registers its handler under its bare name, which no field is drawn under |
| SimpleFormRender.AsWrittenDropsGroupNames | src/simple-form.tsx:131-179 | for every spec, the names registered as written are, one by one, suffixes of the corrected names (the group's name and dot dropped), and without groups the two agree |
| SimpleFormRender.RecordsDrawn | src/simple-form.tsx:130-133 | leaf records are stored under leaf names, and a group's leaves under names whose full names are grouped names |
| SimpleFormRender.DrawableNamesRegistered | src/simple-form.tsx:501-523 | every name `render` can draw was registered by `getFormFields` |
| SimpleFormRender.RenderPlanRegistered | src/simple-form.tsx:494-533 | every item `render` draws carries a registered name |
| FormComponentSpec.OptionsOf | src/form-component.tsx:37-41 | a spec's options: value and rules, validating first, no `preserve` and no `valuePropName` |
| FormComponentSpec.GetFormFields | src/form-component.tsx:34-44 | the loop gives the options fold over the specs |
| FormComponentSpec.FieldsUpToKeys | src/form-component.tsx:36-42 | one entry per spec name and no other, with distinct keys |
| FormComponentSpec.FieldsUpToOptions | src/form-component.tsx:36-42 | a name holds the options of the last spec with that name |
| FormComponentSpec.ClassOrEmpty | src/form-component.tsx:79 | a truthy class entry is kept as it is (an array is not joined), and a falsy one becomes `''` |
| FormComponentSpec.NormalizeAdditionKeeps | src/form-component.tsx:77-79 | a missing label flag becomes true, class entries are kept or `''`, and the data source and data are kept |
| FormComponentSpec.CompileFieldRules | src/form-component.tsx:95-107 | the label is empty for a non-group checkbox and the spec's label otherwise; placeholder, type and subtype defaults; `extraText` is `null` iff falsy; thunks return what the spec gives |
| FormComponentSpec.ChannelOf | src/form-component.tsx:139-140 | before `state.fields` exists the lookup throws; afterwards it finds nothing or a field's channel |
| FormComponentSpec.ScanWithoutFields | src/form-component.tsx:136-155 | during `initForm` a scan subscribes to nothing, runs to its end iff no entry is a marker or throws, and then the load is due |
| FormComponentSpec.LoadRequestsCases | src/form-component.tsx:158-175 | corrected: a request iff there is a URL; a GET for the substituted URL with the query, parsed only without `observe`, with a re-render |
| FormComponentSpec.LoadAsWrittenWithoutUrl | src/form-component.tsx:161 | as written, a descriptor without a URL sends a GET to `[object Object]`, or throws when it has a `param` |
| FormComponentSpec.StartSelectCases | src/form-component.tsx:109-127 | nothing without a source or with an empty URL; a GET or a subscription without re-render for a URL or an observable; a load or a scan per dictionary for a descriptor |
| FormComponentSpec.WalkStep | src/form-component.tsx:61-128 | one more entry advances the walk, and once it throws the remaining entries change nothing |
| FormComponentSpec.SelectNames | src/form-component.tsx:109-110 | the names of the selects, in order |
| FormComponentSpec.WalkStops | src/form-component.tsx:61-128 | a thrown walk stays where it stopped |
| FormComponentSpec.WalkRuns | src/form-component.tsx:61-128 | the walk runs to its end iff no entry throws; then each entry has one slot and each select its `_dropdown` validator |
| FormComponentSpec.WalkRequests | src/form-component.tsx:109-127 | requests only grow, each is for a slot taken by then, and a thrown walk requests nothing more |
| FormComponentSpec.WriteParam | src/form-component.tsx:142 | `params[x] = value` changes only that entry |
| FormComponentSpec.Notified | src/form-component.tsx:142-147 | one subscription writes its entry, then reloads on a truthy value or empties the options on a falsy one |
| FormComponentSpec.Notify | src/form-component.tsx:141-148 | an emission passes the value to the subscriptions in order |
| FormComponentSpec.NotifiedEffects | src/form-component.tsx:142-147 | a falsy value empties its select's options and requests nothing; a truthy one keeps every option list and requests at most one reload |
| FormComponentSpec.NotifyKeepsData | src/form-component.tsx:143-147 | a falsy value requests nothing and leaves emptied options empty; a truthy value leaves every option list unchanged |
| FormComponentSpec.NotifyData | src/form-component.tsx:143-147 | a falsy value empties every targeted select's options, and a truthy one changes none |
| FormComponentSpec.NotifyRequestLog | src/form-component.tsx:143-145 | the request log only grows, by at most one reload per subscription |
| FormComponents.FormComponent.constructor | src/form-component.tsx:29-32 | the form gets the collected options, `initForm` runs as `Walk` says, and `state.fields` holds the records iff the walk did not throw |
| FormComponents.FormComponent.InitForm | src/form-component.tsx:59-130 | the records are `RecordsUpTo` and the new state is `Walk` of the old one; `ok` is false where it throws |
| FormComponents.FormComponent.InitEntry | src/form-component.tsx:61-107 | one entry advances the walk, and a throw ends it |
| FormComponents.FormComponent.InitField | src/form-component.tsx:77-127 | the new state is `EntryEffects` of the old one |
| FormComponents.FormComponent.AddSlot | src/form-component.tsx:77-93 | a new addition takes the next slot, with an empty channel |
| FormComponents.FormComponent.StartSelectAt | src/form-component.tsx:111-126 | the request log grows by `StartSelect` of the slot's source, and `ok` is its verdict |
| FormComponents.FormComponent.LoadSelectData | src/form-component.tsx:158-175 | the request log grows by the corrected `LoadRequests` |
| FormComponents.FormComponent.InitSelect | src/form-component.tsx:132-156 | the scan subscribes as `ScanParams` says and loads iff it ends without markers or throws |
| FormComponents.FormComponent.ScanEntry | src/form-component.tsx:137-151 | one entry advances the scan as `ScanParams` does |
| FormComponents.FormComponent.Subscribe | src/form-component.tsx:141 | the subscription is appended to its channel's list |
| FormComponents.FormComponent.React | src/form-component.tsx:141-148 | the subscription's effect is `Notified` |
| FormComponents.FormComponent.Emit | src/form-component.tsx:106 | the channel's subscriptions react in order, as `Notify` gives |
| FormComponents.FormComponent.NotifyAll | src/form-component.tsx:141-148 | the subscriptions react in order, as `Notify` gives |
| FormComponents.FormComponent.OnChange | src/form-component.tsx:106 | `event.target.value` is emitted on the field's channel |
| FormComponents.FormComponent.Deliver | src/form-component.tsx:170-173 | an emission sets that request's select's `data` (and no other slot's) to what `parse` returns for it when the request has a `parse`, to the raw payload otherwise, re-rendering iff the request asked for it |
| FormComponents.FormComponent.FormInit | src/form-component.tsx:46-57 | a container, when given, is bound to the component |
| FormComponents.FormComponentContainer.constructor | src/form-component.tsx:427-432 | an unbound handle |
| FormComponents.FormComponentContainer.Submit | src/form-component.tsx:434-438 | a bound handle runs `submitForm`, and an unbound one does nothing |
| FormComponents.FormComponentContainer.IsLoading | src/form-component.tsx:452-454 | the bound component's `state.loading`, and `undefined` when unbound |
| FormComponents.FormComponentContainer.SetLoading | src/form-component.tsx:456-461 | the bound component's `state.loading` becomes the argument; an unbound handle returns `never()` |
| Tables.RenderOf | src/table.tsx:19 | a string becomes a constant render returning it, and anything else is the render itself |
| Tables.FindKey | src/table.tsx:16 | the first column whose key is the suffix, or -1 iff there is none |
| Tables.Override | src/table.tsx:12-20 | one prop keeps the number of columns |
| Tables.OverridesUpTo | src/table.tsx:11-22 | the `forEach` keeps the number of columns |
| Tables.OverridesStop | src/table.tsx:11-22 | after a prop throws, later props change nothing |
| Tables.OverridesKeepKeys | src/table.tsx:18-20 | only renders are replaced: the columns keep their keys and order |
| Tables.ResolveIndexByKeys | src/table.tsx:13-17 | which column a prop names depends only on the column keys |
| Tables.OutOfRangeByKeys | src/table.tsx:13-19 | whether a prop names a column, and whether it throws, depends only on the keys |
| Tables.OverrideOk | src/table.tsx:18-19 | one prop throws iff its numeric suffix is past the last column |
| Tables.OverridesOk | src/table.tsx:11-22 | the `forEach` runs to its end iff no prop names a column past the last one |
| Tables.OverridesLastWins | src/table.tsx:11-22 | each column draws with the value of the last prop naming it, and a column no prop names is unchanged |
| Tables.OverridesWithoutColumnProps | src/table.tsx:11-12 | props without the `column-` prefix change nothing |
| Tables.TableX | src/table.tsx:9-23 | without columns nothing happens; with columns the array becomes the fold's columns and `ok` its verdict |
| Tables.OverrideAt | src/table.tsx:12-21 | one prop updates the array as `Override` says |
| Tables.FindKeyIn | src/table.tsx:16 | the search over the array gives `FindKey` of its contents |
| Tables.View | src/table.tsx:44-62 | the caller's `dataSource` when truthy, `state.items` otherwise; loading iff neither is truthy; the paging fields as pagination |
| Tables.ItemsStopLoading | src/table.tsx:45-56 | once items have arrived the table is never drawn loading, even for an empty page; before, it is drawn loading unless the caller gives data |
| Tables.TableComponent.constructor | src/table.tsx:40-42 | page 1, size 10, total 0 |
| Tables.TableComponent.ComponentDidMount | src/table.tsx:69-71 | the first load: loading, one subscription |
| Tables.TableComponent.LoadItems | src/table.tsx:73-76 | `state.loading` becomes true and `onLoadItems()` is subscribed once |
| Tables.TableComponent.ChangePage | src/table.tsx:64-67 | the page number is set, then the load starts |
| Tables.TableComponent.Receive | src/table.tsx:75 | an emission stores the items, ends loading, and the table then shows them |
| DragableTables.MoveHandler.MoveRow | src/dragable-table.tsx:69 | each call is recorded once, in order |
| DragableTables.DragState.constructor | src/dragable-table.tsx:8 | `dragingIndex` starts at -1 |
| DragableTables.DragItem.constructor | src/dragable-table.tsx:83 | the item holds the dragged index |
| DragableTables.BeginDrag | src/dragable-table.tsx:81-84 | the index is recorded in `dragingIndex` and in a fresh drag item |
| DragableTables.Drop | src/dragable-table.tsx:63-71 | `moveRow(drag, hover)` is called once iff the indices differ, and the item ends at the hovered row |
| DragableTables.DropMovesChain | src/dragable-table.tsx:63-71 | the moves of successive drops never move a row onto itself, and each starts where the previous one ended |
| DragableTables.DropMovesEnds | src/dragable-table.tsx:63-71 | the chain of moves runs from the starting row to the last row dropped onto |
| DragableTables.RenderRow | src/dragable-table.tsx:28-50 | the class is `RowClass` and the style `RowStyle` of the props and `dragingIndex` |
| DragableTables.RowClassFacts | src/dragable-table.tsx:33-46 | the class changes iff the row is hovered and is not the dragged one; then it ends with the downward or upward class, after one space iff there was a class |
| DragableTables.RowStyleFacts | src/dragable-table.tsx:30-32 | the cursor is always `move`, and every other key keeps its value and place |
| DragableTables.DragableTable.OnRow | src/dragable-table.tsx:93 | the row's index and the table's `onMoveRow` |

## Left out

- JSX rendering is left out, because it is widget wiring: `renderField`, `renderText`/`renderStatic`, `renderInput`, `renderInputNumber`, `renderSelect` (beyond its `_dropdown` lookup), `renderCheckbox`, `renderRadio`, `renderSwitch`, `renderDatetime`, `RenderText`, `wrapItemTemplate`, the `FormX`/`FormField`/`FragmentWrap`/`SpinWrap` wrappers, and the JSX of `TableX`, `TableComponent` and `DragableTable`.
- `getPopupContainer` of `renderSelect`: it picks a DOM node.
- The choice `table || TableX` in `DragableTable.render` and the `DndProvider` wiring are not modelled: they are component selection only.
- antd's rc-form engine (`getFieldDecorator`, `validateFields`) is an oracle. The decorators are identities, and `validateFields` gives its error tree or values as parameters.
- `getValueFromEvent`: the value it reads from the event is a parameter of `OnChange`.
- The passthroughs `setFieldsValue`, `resetFields`, `getFieldValue`, `getFieldsValue` and `validateFields` of `SimpleFormRef` and `FormComponentContainer` forward straight to rc-form with no logic of their own.
- axios and rxjs are not modelled. Requests are a log, emissions are explicit calls, and `setTimeout` is a task queue. An observable that emits synchronously during `subscribe` is not modelled. Responses may arrive in any order, and nothing about their order is claimed.
- React's `setState` is applied at once. Batching and asynchrony are not modelled.
- Numbers are unbounded integers. `NaN` is only `parseInt`'s failure, and floating point is not modelled.
- `$` patterns in `replace` replacement strings are not interpreted.
- `disabled` in `src/form-component.tsx`: it is destructured and never used, so the record has no such field.
- FormComponentSpec.OptionsOf: its `preserve = false` stands for the absent `preserve` option, which rc-form reads as false.
- FormComponents.FormComponent.constructor: the `TypeError` that `initForm` throws out of the constructor is modelled as `state.fields` never being assigned. The `render` guard on `this.fields` is then left to the caller. The form is always created before `initForm`, as without `lazyInit`; with `lazyInit`, `setSelectValidFn` does not exist yet when `initForm` runs, so a select would throw there, and that path is not modelled.
- SimpleFormComponent.SimpleForm.constructor: the form is always created before `initForm`, as without `lazyInit`. With `lazyInit`, `setSelectValidFn` does not exist yet when `initForm` runs, so a select would throw out of the constructor; that path is not modelled. `Form.FormComponent` models the `lazyInit` ordering itself.
- Dict.Keys: field and column names are taken not to be integer-like. JavaScript lists integer-like keys first, in ascending order, before the other keys in insertion order.
- DragableTables.RenderRow: `className` is taken to be a string, as the row props declare. An `undefined` class name would be concatenated as the text `undefined`.
- Tables.TableComponent.Receive: the items of `onLoadItems()` are the subclass's. The model takes any emitted page after at least one subscription, and does not track which subscription it came from.
- Tables.OverridesLastWins: it states the renders only when the `forEach` runs to its end. After a throw, `OverridesStop` fixes the columns at the point of the throw.
- `src/modal.tsx`, `src/currency.ts`, `src/axios.ts`, `src/api.ts`, `src/ajax.ts`, `src/react.ts`, `src/next.tsx` and `src/captcha/aliyun.ts` are not part of this model. They are DOM mounting, floating-point rounding, transport setup and routing.
- `getQueryParams` and `getParentNode` of `src/common.ts` depend on `window`, `qs.parse` and the DOM, and are not part of this model.

## Findings

| source | as written | input that shows it | evidently intended | confidence | as-written member | corrected member |
|---|---|---|---|---|---|---|
| src/simple-form.tsx:248 | `let url = dataFrom.url \|\| addition.dataFrom` falls back to the descriptor object itself, so `if (url)` always holds and `else if (from)` (line 255) is unreachable | a descriptor `{ query: {...} }` with no `url` and no `from`: a GET to `[object Object]`; with a `param`, `url.replace` throws | no request without a URL, and `from(query)` when only `from` is given | not executed | SimpleForm.DescriptorWithoutUrlRequestsItself | SimpleForm.LoadRequestsCases |
| src/form-component.tsx:161 | the same fallback: a descriptor without `url` is used as the URL | a descriptor `{ query: {...} }` with no `url`: a GET to `[object Object]`; with a `param`, `url.replace` throws | no request without a URL | not executed | FormComponentSpec.LoadAsWrittenWithoutUrl | FormComponentSpec.LoadRequestsCases |
| src/simple-form.tsx:131 | a group's children are compiled by `this.initForm(state.children)` with no prefix, so a select `s` in group `g` registers `s_dropdown` (line 179), while `getFormFields` decorates it as `g.s` (line 105) and `renderSelect` looks up `g.s_dropdown` (lines 405, 518) | group `g` holding one select `s`: the handler is stored under `s_dropdown`, which no drawn field reads, and `g.s_dropdown` is missing | the nested call passes `` `${ name }.` `` as `getFormFields` does | not executed | SimpleFormRender.GroupedSelectAsWritten | SimpleFormRender.SelectsAreLeafKeys |
