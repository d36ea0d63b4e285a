/** The `SimpleForm` component of `src/simple-form.tsx` as an object: the
    records `initForm` compiles, the normalised additions (one slot per
    leaf, which is also the leaf's `afterChange` channel), the subscriptions
    made on those channels, the option requests made so far, the
    `observeSelect` calls waiting in `setTimeout`, and the user callbacks
    called. A fetch or an observable is an entry of the request log; its
    emissions are delivered by an explicit call. */
module SimpleFormComponent {
  import opened Js
  import opened Text
  import opened Dict
  import Entries = Dict
  import opened Resolver
  import opened Seqs
  import opened Spec = SimpleForm
  import opened SimpleFormEvents
  import Form
  import Host

  /** What a `#name` marker finds in the top-level records: nothing, a leaf
      and its `afterChange` channel, or a group, which has no channel. */
  function ChannelOf(fs: Dict<FormField>, name: string): (c: Channel)
    ensures c == NoField <==> Entries.Get(fs, name).None?
    ensures c.Emits? <==> Entries.Get(fs, name).Some? && Entries.Get(fs, name).value.Leaf?
    ensures c.Emits? ==> c.id == Entries.Get(fs, name).value.addition
  {
    var found := Entries.Get(fs, name);
    if found.None? then NoField
    else if found.value.Leaf? then Emits(found.value.addition)
    else NoChannel
  }

  function Channels(fs: Dict<FormField>): string -> Channel
  {
    name => ChannelOf(fs, name)
  }

  /** The scan `observeSelect` makes for task `t`, the top-level records
      being `fs`. */
  function ScanOf(adds: seq<AdditionState>, t: Task, fs: Dict<FormField>): Scan
    requires HasDict(adds, t.target, t.which)
  {
    var params := DictOf(adds[t.target].dataFrom.value, t.which).value;
    ScanParams(params, |params|, Channels(fs))
  }

  class SimpleForm {
    /** The `FormX` the component shares its registries with. */
    const form: Form.FormX
    /** The component itself, for `triggerUpdate`. */
    const host: Host.Host
    /** `state.fields`. */
    var fields: Dict<FormField>
    /** The leaves' additions, by slot. */
    var additions: seq<AdditionState>
    /** The subscriptions on each slot's `afterChange` channel, in order. */
    var listeners: seq<seq<Listener>>
    /** Every option request made so far, in order. */
    var requests: seq<Request>
    /** The `observeSelect` calls scheduled and not yet run, oldest first. */
    var tasks: seq<Task>
    /** The user `onChange` callbacks called, each with the value and the
        further arguments it got. */
    var userCalls: seq<(nat, Value, seq<Value>)>
    /** `state.hideFields`. */
    var hideFields: bool
    /** `state.loading`. */
    var loading: Value

    /** Every request is for an existing slot, every task and every
        subscription writes into a dictionary its slot's descriptor has, and
        there is one channel per slot. */
    ghost predicate Valid()
      reads this
    {
      && |listeners| == |additions|
      && (forall i :: 0 <= i < |requests| ==> requests[i].target < |additions|)
      && (forall i :: 0 <= i < |tasks| ==> HasDict(additions, tasks[i].target, tasks[i].which))
      && (forall k, j :: 0 <= k < |listeners| && 0 <= j < |listeners[k]| ==>
            HasDict(additions, listeners[k][j].target, listeners[k][j].which))
    }

    /** The constructor: the form is created with the decorator options
        `getFormFields` collects (registering a validator per field), then
        `initForm` compiles the specs into `state.fields`, starting from no
        additions (`WalkFromStart` says what that leaves); a `_ref` handle
        passed in is bound to the new form. */
    constructor(states: FormStates, host: Host.Host, ref: SimpleFormRef?)
      modifies host, ref
      ensures Valid()
      ensures fresh(form) && this.host == host && form.host == host
      ensures form.fields == FormFieldsOf(states, "")
      ensures fields == Records(states, 0)
      ensures WalkState() == Walk(states, "", |states.entries|,
                                  Effects([], [], [], [], map n | n in KeySet(FormFieldsOf(states, "")) :: Form.FieldValidator(n)))
      ensures userCalls == [] && !hideFields && loading == Undefined
      ensures ref != null ==> ref.bound == this
    {
      var formFields := GetFormFields(states, "");
      FieldsUpToDistinct(states, "", |states.entries|);
      form := new Form.FormX(formFields, host);
      this.host := host;
      fields := [];
      additions := [];
      listeners := [];
      requests := [];
      tasks := [];
      userCalls := [];
      hideFields := false;
      loading := Undefined;
      new;
      var fs := InitForm(states, "");
      fields := fs;
      if ref != null {
        ref.bound := this;
      }
    }

    /** The state the walk of `initForm` carries from entry to entry. */
    ghost function WalkState(): Effects
      reads this, form
    {
      Effects(additions, listeners, requests, tasks, form.validFns)
    }

    /** `initForm(states, prefix)`: the records of the entries, in order,
        the first leaf taking the next free slot, and the state the walk
        leaves, as `Walk` gives it; a group's children are compiled by a
        nested call that, as in the source, passes no prefix. */
    method InitForm(sts: FormStates, prefix: string) returns (fs: Dict<FormField>)
      requires Valid()
      modifies this, form
      ensures Valid()
      ensures fs == RecordsUpTo(sts, |old(additions)|, |sts.entries|)
      ensures WalkState() == Walk(sts, prefix, |sts.entries|, old(WalkState()))
      ensures fields == old(fields) && userCalls == old(userCalls)
      ensures hideFields == old(hideFields) && loading == old(loading)
      ensures form.fields == old(form.fields) && form.errors == old(form.errors)
      ensures form.timers == old(form.timers) && form.submissions == old(form.submissions)
      decreases sts, 1
    {
      fs := [];
      for i := 0 to |sts.entries|
        invariant Valid()
        invariant fs == RecordsUpTo(sts, |old(additions)|, i)
        invariant WalkState() == Walk(sts, prefix, i, old(WalkState()))
        invariant fields == old(fields) && userCalls == old(userCalls)
        invariant hideFields == old(hideFields) && loading == old(loading)
        invariant form.fields == old(form.fields) && form.errors == old(form.errors)
        invariant form.timers == old(form.timers) && form.submissions == old(form.submissions)
      {
        fs := InitEntry(sts, prefix, i, fs, old(WalkState()));
      }
    }

    /** The body of the loop of `initForm` for entry `i`: a leaf is
        compiled by `InitLeaf`, a group by a nested walk of its children. */
    method InitEntry(sts: FormStates, prefix: string, i: nat, fs: Dict<FormField>, ghost e0: Effects)
      returns (fs': Dict<FormField>)
      requires Valid() && i < |sts.entries|
      requires fs == RecordsUpTo(sts, |e0.adds|, i)
      requires WalkState() == Walk(sts, prefix, i, e0)
      modifies this, form
      ensures Valid()
      ensures fs' == RecordsUpTo(sts, |e0.adds|, i + 1)
      ensures WalkState() == Walk(sts, prefix, i + 1, e0)
      ensures fields == old(fields) && userCalls == old(userCalls)
      ensures hideFields == old(hideFields) && loading == old(loading)
      ensures form.fields == old(form.fields) && form.errors == old(form.errors)
      ensures form.timers == old(form.timers) && form.submissions == old(form.submissions)
      decreases sts, 0
    {
      var name := sts.entries[i].0;
      var st := sts.entries[i].1;
      WalkSlots(sts, prefix, i, e0);
      match st.children {
        case None =>
          RecordsStepLeaf(sts, |e0.adds|, i + 1, |additions|);
          fs' := InitLeaf(prefix, name, st, fs);
        case Some(kids) =>
          RecordsStepGroup(sts, |e0.adds|, i + 1, |additions|);
          assert kids < st;
          var sub := InitForm(kids, "");
          fs' := Assign(fs, name, Group(st.caption, sub));
      }
    }

    /** `loadSelectData(addition)` for slot `slot`. */
    method LoadSelectData(slot: nat)
      requires Valid()
      requires slot < |additions| && additions[slot].dataFrom.Some? && additions[slot].dataFrom.value.Descriptor?
      modifies this
      ensures Valid()
      ensures requests == old(requests) + LoadRequests(slot, old(additions[slot].dataFrom.value))
      ensures additions == old(additions) && listeners == old(listeners) && tasks == old(tasks)
      ensures fields == old(fields) && userCalls == old(userCalls)
      ensures hideFields == old(hideFields) && loading == old(loading)
    {
      var d := additions[slot].dataFrom.value;
      if d.url != "" {
        var url := d.url;
        if d.param.Some? {
          url := SubstituteParams(d.url, d.param.value);
        }
        var source := if d.from.Some? then Custom(d.from.value, d.query, Some(url)) else Get(url, d.query);
        requests := requests + [Request(slot, source, d.parse, true)];
      } else if d.from.Some? {
        requests := requests + [Request(slot, Custom(d.from.value, d.query, None), d.parse, true)];
      }
    }

    /** `initSelect(addition)` for slot `slot`. */
    method InitSelect(slot: nat)
      requires Valid() && slot < |additions|
      modifies this
      ensures Valid()
      ensures requests == old(requests) + SelectEffects(slot, old(additions[slot].dataFrom)).0
      ensures tasks == old(tasks) + SelectEffects(slot, old(additions[slot].dataFrom)).1
      ensures additions == old(additions) && listeners == old(listeners)
      ensures fields == old(fields) && userCalls == old(userCalls)
      ensures hideFields == old(hideFields) && loading == old(loading)
    {
      match additions[slot].dataFrom {
        case None =>
        case Some(UrlString(url)) =>
          if url != "" {
            requests := requests + [Request(slot, Get(url, None), None, true)];
          }
        case Some(Stream(s)) =>
          requests := requests + [Request(slot, Watch(s), None, true)];
        case Some(d) =>
          if d.query.None? && d.param.None? {
            LoadSelectData(slot);
          } else {
            if d.query.Some? {
              tasks := tasks + [Observe(slot, Query)];
            }
            if d.param.Some? {
              tasks := tasks + [Observe(slot, Param)];
            }
          }
      }
    }

    /** A new addition takes the next slot, with a channel nobody listens
        to yet. */
    method AddSlot(a: AdditionState) returns (slot: nat)
      requires Valid()
      modifies this
      ensures Valid()
      ensures slot == |old(additions)|
      ensures additions == old(additions) + [a] && listeners == old(listeners) + [[]]
      ensures requests == old(requests) && tasks == old(tasks)
      ensures fields == old(fields) && userCalls == old(userCalls)
      ensures hideFields == old(hideFields) && loading == old(loading)
    {
      slot := |additions|;
      additions := additions + [a];
      listeners := listeners + [[]];
      assert forall k :: 0 <= k < slot ==> additions[k] == old(additions)[k];
    }

    /** The part of `initForm` for one leaf `name` with spec `st`: its
        addition takes the next slot and gets a channel, its record is
        stored under its name, a select registers its dropdown validator
        under `prefix + name`, and selects, checkbox groups and radios start
        loading their options. */
    method InitLeaf(prefix: string, name: string, st: FormState, fs: Dict<FormField>) returns (fs': Dict<FormField>)
      requires Valid()
      modifies this, form
      ensures Valid()
      ensures fs' == Assign(fs, name, CompileLeaf(st, |old(additions)|))
      ensures WalkState() == LeafEffects(old(WalkState()), prefix, name, st)
      ensures fields == old(fields) && userCalls == old(userCalls)
      ensures hideFields == old(hideFields) && loading == old(loading)
      ensures form.fields == old(form.fields) && form.errors == old(form.errors)
      ensures form.timers == old(form.timers) && form.submissions == old(form.submissions)
    {
      var slot := AddSlot(NormalizeAddition(st.addition));
      fs' := Assign(fs, name, CompileLeaf(st, slot));
      if st.kind == Some("select") {
        form.SetSelectValidFn([prefix + name]);
        InitSelect(slot);
      } else if st.kind == Some("checkbox") {
        if st.subtype == Some("group") {
          InitSelect(slot);
        }
      } else if st.kind == Some("radio") {
        InitSelect(slot);
      }
    }
  
    /** `field.afterChange.subscribe(...)`: subscription `l` is added to
        channel `id`. */
    method Subscribe(id: nat, l: Listener)
      requires Valid() && id < |listeners| && HasDict(additions, l.target, l.which)
      modifies this
      ensures Valid()
      ensures listeners == old(listeners)[id := old(listeners[id]) + [l]]
      ensures additions == old(additions) && requests == old(requests) && tasks == old(tasks)
      ensures fields == old(fields) && userCalls == old(userCalls)
      ensures hideFields == old(hideFields) && loading == old(loading)
    {
      listeners := listeners[id := listeners[id] + [l]];
    }

    /** What subscription `l` does when its channel emits `value`: the
        value is written into its entry of the select's descriptor, then a
        truthy value reloads the select's options and a falsy one empties
        them. */
    method React(l: Listener, value: Value)
      requires Valid() && HasDict(additions, l.target, l.which)
      modifies this
      ensures Valid()
      ensures additions == Notified(old(additions), old(requests), l, value).0
      ensures requests == Notified(old(additions), old(requests), l, value).1
      ensures listeners == old(listeners) && tasks == old(tasks)
      ensures fields == old(fields) && userCalls == old(userCalls)
      ensures hideFields == old(hideFields) && loading == old(loading)
    {
      var a := additions[l.target];
      var d := WriteParam(a.dataFrom.value, l.which, l.key, value);
      additions := additions[l.target := a.(dataFrom := Some(d))];
      if Truthy(value) {
        LoadSelectData(l.target);
      } else {
        additions := additions[l.target := additions[l.target].(data := Arr([]))];
      }
    }

    /** `afterChange.next(value)` on channel `id`: its subscriptions react
        in the order they were made. */
    method Emit(id: nat, value: Value)
      requires Valid() && id < |listeners|
      modifies this
      ensures Valid()
      ensures additions == Notify(old(additions), old(requests), old(listeners[id]), value).0
      ensures requests == Notify(old(additions), old(requests), old(listeners[id]), value).1
      ensures listeners == old(listeners) && tasks == old(tasks)
      ensures fields == old(fields) && userCalls == old(userCalls)
      ensures hideFields == old(hideFields) && loading == old(loading)
    {
      var ls := listeners[id];
      assert forall l :: l in ls ==> HasDict(additions, l.target, l.which) by {
        forall l | l in ls
          ensures HasDict(additions, l.target, l.which)
        {
          var j :| 0 <= j < |ls| && ls[j] == l;
        }
      }
      for i := 0 to |ls|
        invariant Valid()
        invariant forall l :: l in ls ==> HasDict(additions, l.target, l.which)
        invariant Notify(additions, requests, ls[i..], value) == Notify(old(additions), old(requests), ls, value)
        invariant listeners == old(listeners) && tasks == old(tasks)
        invariant fields == old(fields) && userCalls == old(userCalls)
        invariant hideFields == old(hideFields) && loading == old(loading)
      {
        assert ls[i..][0] == ls[i] && ls[i..][1..] == ls[i + 1..];
        React(ls[i], value);
      }
    }

    /** The `onChange` handler of a compiled leaf `f`, called with an event
        and the further arguments `args`, `value` being what
        `getValueFromEvent` reads from the event: the value is emitted on the
        leaf's channel, then the spec's own `onChange` is called with the
        value followed by `args`, when there is one. */
    method OnChange(f: FormField, value: Value, args: seq<Value>)
      requires Valid() && f.Leaf? && f.addition < |listeners|
      modifies this
      ensures Valid()
      ensures additions == Notify(old(additions), old(requests), old(listeners[f.addition]), value).0
      ensures requests == Notify(old(additions), old(requests), old(listeners[f.addition]), value).1
      ensures userCalls == old(userCalls) + if f.onChange.Some? then [(f.onChange.value, value, args)] else []
      ensures listeners == old(listeners) && tasks == old(tasks)
      ensures fields == old(fields) && hideFields == old(hideFields) && loading == old(loading)
    {
      Emit(f.addition, value);
      if f.onChange.Some? {
        userCalls := userCalls + [(f.onChange.value, value, args)];
      }
    }
  
    /** The oldest `setTimeout` callback, `observeSelect` for dictionary
        `which` of slot `target`: each entry is read in order; a `#name`
        marker subscribes the select to field `name`'s channel when the
        top-level records have such a field, and any marker cancels the
        eager load; a load follows when no entry was a marker. `ok` is
        false where the callback throws (an entry `path[0]` cannot be read
        from, or a marker naming a group), which ends it. */
    method RunTask() returns (ok: bool)
      requires Valid() && tasks != []
      modifies this
      ensures Valid()
      ensures var t := old(tasks[0]);
        var s := ScanOf(old(additions), t, old(fields));
        && ok == s.ok
        && listeners == AddListeners(old(listeners), s.subscriptions, t.target, t.which)
        && (s.ok && s.load ==> requests == old(requests) + LoadRequests(t.target, old(additions[t.target].dataFrom.value)))
        && (!(s.ok && s.load) ==> requests == old(requests))
      ensures tasks == old(tasks[1..]) && additions == old(additions)
      ensures fields == old(fields) && userCalls == old(userCalls)
      ensures hideFields == old(hideFields) && loading == old(loading)
    {
      var t := tasks[0];
      tasks := tasks[1..];
      var load;
      ok, load := ObserveScan(t);
      if ok && load {
        LoadSelectData(t.target);
      }
    }

    /** The scan of `observeSelect` over the entries of dictionary
        `t.which` of slot `t.target`, in order, ending at the first entry
        that throws. */
    method ObserveScan(t: Task) returns (ok: bool, load: bool)
      requires Valid() && HasDict(additions, t.target, t.which)
      modifies this
      ensures Valid()
      ensures ok == ScanOf(old(additions), t, old(fields)).ok && (ok ==> load == ScanOf(old(additions), t, old(fields)).load)
      ensures listeners == AddListeners(old(listeners), ScanOf(old(additions), t, old(fields)).subscriptions, t.target, t.which)
      ensures additions == old(additions) && requests == old(requests) && tasks == old(tasks)
      ensures fields == old(fields) && userCalls == old(userCalls)
      ensures hideFields == old(hideFields) && loading == old(loading)
    {
      var params := DictOf(additions[t.target].dataFrom.value, t.which).value;
      ghost var channel := Channels(fields);
      load := true;
      ok := true;
      var i := 0;
      while i < |params|
        invariant 0 <= i <= |params|
        invariant Valid() && HasDict(additions, t.target, t.which)
        invariant ok && ScanParams(params, i, channel).ok && load == ScanParams(params, i, channel).load
        invariant listeners == AddListeners(old(listeners), ScanParams(params, i, channel).subscriptions, t.target, t.which)
        invariant additions == old(additions) && requests == old(requests) && tasks == old(tasks)
        invariant fields == old(fields) && userCalls == old(userCalls)
        invariant hideFields == old(hideFields) && loading == old(loading)
      {
        ok, load := ScanEntry(t, params, i, load, channel, old(listeners));
        if !ok {
          ScanStops(params, i + 1, |params|, channel);
          break;
        }
        i := i + 1;
      }
    }

    /** The body of the scan of `observeSelect` for entry `i` of `params`:
        a marker naming a leaf subscribes to its channel, any marker
        cancels the eager load, and `ok` is false where reading the entry
        throws. */
    method ScanEntry(t: Task, params: Params, i: nat, load: bool, ghost channel: string -> Channel,
                     ghost ls0: seq<seq<Listener>>)
      returns (ok: bool, load': bool)
      requires Valid() && HasDict(additions, t.target, t.which)
      requires i < |params| && channel == Channels(fields)
      requires ScanParams(params, i, channel).ok && load == ScanParams(params, i, channel).load
      requires listeners == AddListeners(ls0, ScanParams(params, i, channel).subscriptions, t.target, t.which)
      modifies this
      ensures Valid()
      ensures ok == ScanParams(params, i + 1, channel).ok && load' == ScanParams(params, i + 1, channel).load
      ensures listeners == AddListeners(ls0, ScanParams(params, i + 1, channel).subscriptions, t.target, t.which)
      ensures additions == old(additions) && requests == old(requests) && tasks == old(tasks)
      ensures fields == old(fields) && userCalls == old(userCalls)
      ensures hideFields == old(hideFields) && loading == old(loading)
    {
      var key := params[i].0;
      ok, load' := true, load;
      match Classify(params[i].1) {
        case PathThrows =>
          ok := false;
        case Plain =>
        case Marker(name) =>
          match ChannelOf(fields, name) {
            case NoField =>
              load' := false;
            case NoChannel =>
              ok := false;
            case Emits(id) =>
              AddListenersStep(ls0, ScanParams(params, i, channel).subscriptions, id, key, t.target, t.which);
              if id < |listeners| {
                Subscribe(id, Listener(t.target, t.which, key));
              }
              load' := false;
          }
      }
    }
  
    /** An emission `payload` of request `k`: the select's `data` becomes
        the items (`parsed` being what the request's `parse` function
        returns for `payload`), and the component re-renders. */
    method Deliver(k: nat, payload: Value, parsed: Value)
      requires Valid() && k < |requests|
      modifies this, host
      ensures Valid()
      ensures var r := old(requests[k]);
        additions == old(additions)[r.target := old(additions[r.target]).(data := (if r.parse.Some? then parsed else payload))]
      ensures host.updates == old(host.updates) + if old(requests[k]).refresh then 1 else 0
      ensures listeners == old(listeners) && requests == old(requests) && tasks == old(tasks)
      ensures fields == old(fields) && userCalls == old(userCalls)
      ensures hideFields == old(hideFields) && loading == old(loading)
    {
      var r := requests[k];
      additions := additions[r.target := additions[r.target].(data := (if r.parse.Some? then parsed else payload))];
      if r.refresh {
        host.TriggerUpdate();
      }
    }

    /** `formInit`, which `componentDidMount` runs once the form exists:
        from then on a field whose `hidden()` is truthy is not rendered. */
    method FormInit()
      modifies this
      ensures hideFields
      ensures additions == old(additions) && listeners == old(listeners)
      ensures requests == old(requests) && tasks == old(tasks)
      ensures fields == old(fields) && userCalls == old(userCalls) && loading == old(loading)
    {
      hideFields := true;
    }
  }

  /** `SimpleFormRef`, the handle a parent passes as `_ref`: a form
      constructed with it binds the handle's calls to itself; until then
      each call does nothing, `isLoading` answers `undefined` and
      `setLoading` returns `never()`. The calls that go straight to rc-form
      are not part of this model. */
  class SimpleFormRef {
    var bound: SimpleForm?

    constructor()
      ensures bound == null
    {
      bound := null;
    }

    /** What the bound form's calls may change. */
    ghost function FormObjects(): set<object>
      reads this
    {
      if bound == null then {} else {bound.form}
    }

    /** `submit`: the bound form's `submitForm`. */
    method Submit(outcome: Form.Validation) returns (ok: bool)
      modifies FormObjects()
      ensures bound == old(bound)
      ensures bound != null && outcome.Passed? ==>
        ok && bound.form.errors == Form.ClearAll(old(bound.form.errors), Keys(bound.form.fields))
        && bound.form.submissions == old(bound.form.submissions) + [outcome.values]
      ensures bound != null && outcome.Failed? ==>
        (bound.form.errors, ok) == Form.RecordAll(old(bound.form.errors), Keys(bound.form.fields), outcome.err)
        && bound.form.submissions == old(bound.form.submissions)
      ensures bound == null ==> ok
    {
      ok := true;
      if bound != null {
        ok := bound.form.SubmitForm(outcome);
      }
    }

    /** `setFieldError(name, error)`: the bound form's `setErrors`. */
    method SetFieldError(name: string, err: Form.ErrorArg) returns (ok: bool)
      modifies FormObjects()
      ensures bound == old(bound)
      ensures bound != null ==> ok == Form.ErrorEntry(err, name).Some?
      ensures bound != null && ok ==> bound.form.errors == old(bound.form.errors)[name := Form.ErrorEntry(err, name).value]
      ensures bound != null && !ok ==> bound.form.errors == old(bound.form.errors)
      ensures bound == null ==> ok
    {
      ok := true;
      if bound != null {
        ok := bound.form.SetErrors(name, err);
      }
    }

    /** `resetFieldError(name)`: the field's error entry becomes `null`. */
    method ResetFieldError(name: string)
      modifies FormObjects()
      ensures bound == old(bound)
      ensures bound != null ==> bound.form.errors == old(bound.form.errors)[name := Form.Cleared]
      ensures bound != null ==> bound.form.fields == old(bound.form.fields) && bound.form.validFns == old(bound.form.validFns)
      ensures bound != null ==> bound.form.timers == old(bound.form.timers) && bound.form.submissions == old(bound.form.submissions)
    {
      if bound != null {
        bound.form.errors := bound.form.errors[name := Form.Cleared];
      }
    }

    /** `isLoading()`: `this._isLoading && this._isLoading()`. */
    function IsLoading(): (v: Value)
      reads this, bound
      ensures bound == null ==> v == Undefined
      ensures bound != null ==> v == bound.loading
    {
      if bound == null then Undefined else bound.loading
    }

    /** `setLoading(loading)`: the bound form's `state.loading` becomes
        `loading`. */
    method SetLoading(loading: Value) returns (r: Host.LoadingResult)
      modifies if bound == null then {} else {bound}
      ensures bound == old(bound)
      ensures bound == null <==> r == Host.Never
      ensures bound != null ==> bound.loading == loading
      ensures bound != null ==> bound.hideFields == old(bound.hideFields) && bound.fields == old(bound.fields)
    {
      if bound != null {
        bound.loading := loading;
        r := Host.StateUpdate;
      } else {
        r := Host.Never;
      }
    }
  }
}
