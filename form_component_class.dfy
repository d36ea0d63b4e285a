/** The `FormComponent` of `src/form-component.tsx` as an object: the
    records of `state.fields` (absent until `initForm` has returned), the
    normalised additions (one slot per field, which is also the field's
    `afterChange` channel), the subscriptions made on those channels and
    the option requests made so far. A fetch or an observable is an entry
    of the request log; its emissions are delivered by an explicit call. */
module FormComponents {
  import opened Js
  import opened Dict
  import opened Resolver
  import opened FormComponentSpec
  import Form
  import Host

  class FormComponent {
    /** The `FormX` the component shares its registries with. */
    const form: Form.FormX
    /** The component itself, for `triggerUpdate`. */
    const host: Host.Host
    /** `state.fields`: `None` until the constructor assigns it. */
    var fields: Option<Dict<FormField>>
    /** The fields' additions, by slot. */
    var additions: seq<AdditionState>
    /** The subscriptions on each slot's `afterChange` channel, in order. */
    var listeners: seq<seq<Listener>>
    /** Every option request made so far, in order. */
    var requests: seq<Request>
    /** `state.loading`. */
    var loading: Value

    /** Every request is for an existing slot, every subscription writes
        into a dictionary its slot's descriptor has, and there is one
        channel per slot. */
    ghost predicate Valid()
      reads this
    {
      && |listeners| == |additions|
      && (forall i :: 0 <= i < |requests| ==> requests[i].target < |additions|)
      && (forall k, j :: 0 <= k < |listeners| && 0 <= j < |listeners[k]| ==>
            HasDict(additions, listeners[k][j].target, listeners[k][j].which))
    }

    /** No channel has a subscriber. */
    ghost predicate Unsubscribed()
      reads this
    {
      forall k :: 0 <= k < |listeners| ==> listeners[k] == []
    }

    /** The state the walk of `initForm` carries, `ok` saying whether it is
        still running. */
    ghost function WalkState(ok: bool): Effects
      reads this, form
    {
      Effects(additions, requests, form.validFns, ok)
    }

    /** The constructor: the form is created with the options
        `getFormFields` collects (registering a validator per field), then
        `initForm` runs, and `state.fields` is assigned its records when it
        returns. When it throws (`WalkRuns` says exactly when), the fields
        are never assigned and the requests made before the throw stay
        made. No subscription can be made while `initForm` runs. */
    constructor(states: FormStates, host: Host.Host)
      ensures Valid() && Unsubscribed()
      ensures fresh(form) && this.host == host && form.host == host
      ensures form.fields == FieldsUpTo(states, |states.entries|)
      ensures WalkState(fields.Some?) == Walk(states, |states.entries|,
        Effects([], [], map n | n in KeySet(FieldsUpTo(states, |states.entries|)) :: Form.FieldValidator(n), true))
      ensures fields.Some? ==> fields.value == RecordsUpTo(states, 0, |states.entries|)
      ensures loading == Undefined
    {
      var formFields := GetFormFields(states);
      FieldsUpToKeys(states, |states.entries|);
      form := new Form.FormX(formFields, host);
      this.host := host;
      fields := None;
      additions := [];
      listeners := [];
      requests := [];
      loading := Undefined;
      new;
      var fs, ok := InitForm(states);
      if ok {
        fields := Some(fs);
      }
    }

    /** `initForm()`: the records of the entries, in order, and the state
        the walk leaves, as `Walk` gives it; `ok` is false where it
        throws. */
    method InitForm(sts: FormStates) returns (fs: Dict<FormField>, ok: bool)
      requires Valid() && Unsubscribed() && fields.None?
      modifies this, form
      ensures Valid() && Unsubscribed()
      ensures WalkState(ok) == Walk(sts, |sts.entries|, old(WalkState(true)))
      ensures ok ==> fs == RecordsUpTo(sts, |old(additions)|, |sts.entries|)
      ensures fields == old(fields) && loading == old(loading)
      ensures form.fields == old(form.fields)
    {
      ghost var e0 := WalkState(true);
      fs := [];
      ok := true;
      var i := 0;
      while i < |sts.entries|
        invariant 0 <= i <= |sts.entries|
        invariant Valid() && Unsubscribed() && ok
        invariant |additions| == |e0.adds| + i
        invariant fs == RecordsUpTo(sts, |e0.adds|, i)
        invariant WalkState(true) == Walk(sts, i, e0)
        invariant fields == old(fields) && loading == old(loading)
        invariant form.fields == old(form.fields)
      {
        fs, ok := InitEntry(sts, i, fs, e0);
        if !ok {
          return;
        }
        i := i + 1;
      }
    }

    /** The body of the loop of `initForm` for entry `i`; where it throws,
        the walk has reached its end. */
    method InitEntry(sts: FormStates, i: nat, fs: Dict<FormField>, ghost e0: Effects) returns (fs': Dict<FormField>, ok: bool)
      requires Valid() && Unsubscribed() && fields.None? && i < |sts.entries|
      requires |additions| == |e0.adds| + i
      requires fs == RecordsUpTo(sts, |e0.adds|, i)
      requires WalkState(true) == Walk(sts, i, e0)
      modifies this, form
      ensures Valid() && Unsubscribed()
      ensures |additions| == |e0.adds| + i + 1
      ensures fs' == RecordsUpTo(sts, |e0.adds|, i + 1)
      ensures ok ==> WalkState(true) == Walk(sts, i + 1, e0)
      ensures !ok ==> WalkState(false) == Walk(sts, |sts.entries|, e0)
      ensures fields == old(fields) && loading == old(loading)
      ensures form.fields == old(form.fields)
    {
      var slot;
      slot, ok := InitField(sts.entries[i].0, sts.entries[i].1);
      fs' := Assign(fs, sts.entries[i].0, CompileField(sts.entries[i].1, slot));
      WalkStep(sts, i, e0);
    }

    /** What `initForm` does for entry `name` with spec `st`, besides
        storing its record: the addition takes the next slot, and a select
        registers its `_dropdown` validator, then starts its sources. */
    method InitField(name: string, st: FormState) returns (slot: nat, ok: bool)
      requires Valid() && Unsubscribed() && fields.None?
      modifies this, form
      ensures Valid() && Unsubscribed()
      ensures slot == |old(additions)|
      ensures WalkState(ok) == EntryEffects(old(WalkState(true)), name, st)
      ensures fields == old(fields) && loading == old(loading)
      ensures form.fields == old(form.fields)
    {
      slot := AddSlot(NormalizeAddition(st.addition));
      ok := true;
      if st.kind == Some("select") {
        form.SetSelectValidFn([name]);
        ok := StartSelectAt(slot);
      }
    }

    /** A new addition takes the next slot, with a channel nobody listens
        to yet. */
    method AddSlot(a: AdditionState) returns (slot: nat)
      requires Valid()
      modifies this
      ensures Valid()
      ensures slot == |old(additions)|
      ensures additions == old(additions) + [a] && listeners == old(listeners) + [[]]
      ensures requests == old(requests) && fields == old(fields) && loading == old(loading)
    {
      slot := |additions|;
      additions := additions + [a];
      listeners := listeners + [[]];
      assert forall k :: 0 <= k < slot ==> additions[k] == old(additions)[k];
    }

    /** The select branch of `initForm` for slot `slot`, run before
        `state.fields` exists: a URL is fetched and an observable
        subscribed, both without a re-render; a descriptor is loaded, or
        scanned by `initSelect` for each of its dictionaries. */
    method StartSelectAt(slot: nat) returns (ok: bool)
      requires Valid() && Unsubscribed() && fields.None? && slot < |additions|
      modifies this
      ensures Valid() && Unsubscribed()
      ensures requests == old(requests) + StartSelect(slot, old(additions[slot].dataFrom)).0
      ensures ok == StartSelect(slot, old(additions[slot].dataFrom)).1
      ensures additions == old(additions) && listeners == old(listeners)
      ensures fields == old(fields) && loading == old(loading)
    {
      ok := true;
      match additions[slot].dataFrom {
        case None =>
        case Some(UrlString(url)) =>
          if url != "" {
            requests := requests + [Request(slot, Get(url, None), None, false)];
          }
        case Some(Stream(s)) =>
          requests := requests + [Request(slot, Watch(s), None, false)];
        case Some(d) =>
          if d.query.None? && d.param.None? {
            LoadSelectData(slot);
          } else {
            if d.query.Some? {
              ScanWithoutFields(d.query.value, |d.query.value|);
              ok := InitSelect(slot, Query);
            }
            if ok && d.param.Some? {
              ScanWithoutFields(d.param.value, |d.param.value|);
              ok := InitSelect(slot, Param);
            }
          }
      }
    }

    /** `loadSelectData(addition)` for slot `slot`. */
    method LoadSelectData(slot: nat)
      requires Valid()
      requires slot < |additions| && additions[slot].dataFrom.Some? && additions[slot].dataFrom.value.Descriptor?
      modifies this
      ensures Valid()
      ensures requests == old(requests) + LoadRequests(slot, old(additions[slot].dataFrom.value))
      ensures additions == old(additions) && listeners == old(listeners)
      ensures fields == old(fields) && loading == old(loading)
    {
      var d := additions[slot].dataFrom.value;
      if d.url != "" {
        var url := d.url;
        if d.param.Some? {
          url := SubstituteParams(d.url, d.param.value);
        }
        requests := requests + [Request(slot, Get(url, d.query), if d.observe.None? then d.parse else None, true)];
      }
    }

    /** `initSelect(addition, which)` for slot `slot`: each entry is read
        in order; a `#name` marker subscribes the select to field `name`'s
        channel when `state.fields` has such a field, and any marker cancels
        the eager load; a load follows when no entry was a marker. `ok` is
        false where it throws: an entry `path[0]` cannot be read from, or
        any marker while `state.fields` is not assigned. */
    method InitSelect(slot: nat, which: Which) returns (ok: bool)
      requires Valid() && HasDict(additions, slot, which)
      modifies this
      ensures Valid()
      ensures var s := ScanDict(old(additions[slot].dataFrom.value), which, old(fields));
        && ok == s.ok
        && listeners == AddListeners(old(listeners), s.subscriptions, slot, which)
        && (s.ok && s.load ==> requests == old(requests) + LoadRequests(slot, old(additions[slot].dataFrom.value)))
        && (!(s.ok && s.load) ==> requests == old(requests))
      ensures additions == old(additions) && fields == old(fields) && loading == old(loading)
    {
      var params := DictOf(additions[slot].dataFrom.value, which).value;
      ghost var channel := Channels(fields);
      var load := true;
      ok := true;
      var i := 0;
      while i < |params|
        invariant 0 <= i <= |params|
        invariant Valid() && HasDict(additions, slot, which)
        invariant ok && ScanParams(params, i, channel).ok && load == ScanParams(params, i, channel).load
        invariant listeners == AddListeners(old(listeners), ScanParams(params, i, channel).subscriptions, slot, which)
        invariant additions == old(additions) && requests == old(requests)
        invariant fields == old(fields) && loading == old(loading)
      {
        ok, load := ScanEntry(slot, which, params, i, load, channel, old(listeners));
        if !ok {
          ScanStops(params, i + 1, |params|, channel);
          return;
        }
        i := i + 1;
      }
      if load {
        LoadSelectData(slot);
      }
    }

    /** The body of the scan of `initSelect` for entry `i` of `params`. */
    method ScanEntry(slot: nat, which: Which, params: Params, i: nat, load: bool, ghost channel: string -> Channel,
                     ghost ls0: seq<seq<Listener>>)
      returns (ok: bool, load': bool)
      requires Valid() && HasDict(additions, slot, which)
      requires i < |params| && channel == Channels(fields)
      requires ScanParams(params, i, channel).ok && load == ScanParams(params, i, channel).load
      requires listeners == AddListeners(ls0, ScanParams(params, i, channel).subscriptions, slot, which)
      modifies this
      ensures Valid()
      ensures ok == ScanParams(params, i + 1, channel).ok && load' == ScanParams(params, i + 1, channel).load
      ensures listeners == AddListeners(ls0, ScanParams(params, i + 1, channel).subscriptions, slot, which)
      ensures additions == old(additions) && requests == old(requests)
      ensures fields == old(fields) && loading == old(loading)
    {
      var key := params[i].0;
      ok, load' := true, load;
      match Classify(params[i].1) {
        case PathThrows =>
          ok := false;
        case Plain =>
        case Marker(name) =>
          match ChannelOf(fields, name) {
            case NoField =>
              load' := false;
            case NoChannel =>
              ok := false;
            case Emits(id) =>
              AddListenersStep(ls0, ScanParams(params, i, channel).subscriptions, id, key, slot, which);
              if id < |listeners| {
                Subscribe(id, Listener(slot, which, key));
              }
              load' := false;
          }
      }
    }

    /** `field.afterChange.subscribe(...)`: subscription `l` is added to
        channel `id`. */
    method Subscribe(id: nat, l: Listener)
      requires Valid() && id < |listeners| && HasDict(additions, l.target, l.which)
      modifies this
      ensures Valid()
      ensures listeners == old(listeners)[id := old(listeners[id]) + [l]]
      ensures additions == old(additions) && requests == old(requests)
      ensures fields == old(fields) && loading == old(loading)
    {
      listeners := listeners[id := listeners[id] + [l]];
    }

    /** What subscription `l` does when its channel emits `value`. */
    method React(l: Listener, value: Value)
      requires Valid() && HasDict(additions, l.target, l.which)
      modifies this
      ensures Valid()
      ensures additions == Notified(old(additions), old(requests), l, value).0
      ensures requests == Notified(old(additions), old(requests), l, value).1
      ensures listeners == old(listeners) && fields == old(fields) && loading == old(loading)
    {
      var a := additions[l.target];
      var d := WriteParam(a.dataFrom.value, l.which, l.key, value);
      additions := additions[l.target := a.(dataFrom := Some(d))];
      if Truthy(value) {
        LoadSelectData(l.target);
      } else {
        additions := additions[l.target := additions[l.target].(data := Arr([]))];
      }
    }

    /** `afterChange.next(value)` on channel `id`: its subscriptions react
        in the order they were made. */
    method Emit(id: nat, value: Value)
      requires Valid() && id < |listeners|
      modifies this
      ensures Valid()
      ensures additions == Notify(old(additions), old(requests), old(listeners[id]), value).0
      ensures requests == Notify(old(additions), old(requests), old(listeners[id]), value).1
      ensures listeners == old(listeners) && fields == old(fields) && loading == old(loading)
    {
      var ls := listeners[id];
      assert forall l :: l in ls ==> HasDict(additions, l.target, l.which) by {
        forall l | l in ls
          ensures HasDict(additions, l.target, l.which)
        {
          var j :| 0 <= j < |ls| && ls[j] == l;
        }
      }
      NotifyAll(ls, value);
    }

    /** Subscriptions `ls` react to `value`, in order. */
    method NotifyAll(ls: seq<Listener>, value: Value)
      requires Valid() && forall l :: l in ls ==> HasDict(additions, l.target, l.which)
      modifies this
      ensures Valid()
      ensures additions == Notify(old(additions), old(requests), ls, value).0
      ensures requests == Notify(old(additions), old(requests), ls, value).1
      ensures listeners == old(listeners) && fields == old(fields) && loading == old(loading)
    {
      for i := 0 to |ls|
        invariant Valid()
        invariant forall l :: l in ls ==> HasDict(additions, l.target, l.which)
        invariant Notify(additions, requests, ls[i..], value) == Notify(old(additions), old(requests), ls, value)
        invariant listeners == old(listeners) && fields == old(fields) && loading == old(loading)
      {
        assert ls[i..][0] == ls[i] && ls[i..][1..] == ls[i + 1..];
        React(ls[i], value);
      }
    }

    /** The `onChange` handler of compiled field `f`: `event.target.value`
        is emitted on the field's channel. */
    method OnChange(f: FormField, targetValue: Value)
      requires Valid() && f.addition < |listeners|
      modifies this
      ensures Valid()
      ensures additions == Notify(old(additions), old(requests), old(listeners[f.addition]), targetValue).0
      ensures requests == Notify(old(additions), old(requests), old(listeners[f.addition]), targetValue).1
      ensures listeners == old(listeners) && fields == old(fields) && loading == old(loading)
    {
      Emit(f.addition, targetValue);
    }

    /** An emission `payload` of request `k`: the select's `data` becomes
        the items (`parsed` being what the request's `parse` function
        returns for `payload`), and the component re-renders when the
        request says so. */
    method Deliver(k: nat, payload: Value, parsed: Value)
      requires Valid() && k < |requests|
      modifies this, host
      ensures Valid()
      ensures var r := old(requests[k]);
        additions == old(additions)[r.target := old(additions[r.target]).(data := (if r.parse.Some? then parsed else payload))]
      ensures host.updates == old(host.updates) + if old(requests[k]).refresh then 1 else 0
      ensures listeners == old(listeners) && requests == old(requests)
      ensures fields == old(fields) && loading == old(loading)
    {
      var r := requests[k];
      additions := additions[r.target := additions[r.target].(data := (if r.parse.Some? then parsed else payload))];
      if r.refresh {
        host.TriggerUpdate();
      }
    }

    /** `formInit`: a container passed in is bound to this component. */
    method FormInit(container: FormComponentContainer?)
      modifies container
      ensures container != null ==> container.bound == this
    {
      if container != null {
        container.bound := this;
      }
    }
  }

  /** `FormComponentContainer`, the handle a parent passes as `container`:
      once `formInit` has bound it, its calls go to the component; until
      then each does nothing, `isLoading` answers `undefined` and
      `setLoading` returns `never()`. */
  class FormComponentContainer {
    var bound: FormComponent?

    constructor()
      ensures bound == null
    {
      bound := null;
    }

    /** What the bound component's calls may change. */
    ghost function FormObjects(): set<object>
      reads this
    {
      if bound == null then {} else {bound.form}
    }

    /** `submitForm`: the bound form's `submitForm`. */
    method Submit(outcome: Form.Validation) returns (ok: bool)
      modifies FormObjects()
      ensures bound == old(bound)
      ensures bound != null && outcome.Passed? ==>
        ok && bound.form.errors == Form.ClearAll(old(bound.form.errors), Keys(bound.form.fields))
        && bound.form.submissions == old(bound.form.submissions) + [outcome.values]
      ensures bound != null && outcome.Failed? ==>
        (bound.form.errors, ok) == Form.RecordAll(old(bound.form.errors), Keys(bound.form.fields), outcome.err)
        && bound.form.submissions == old(bound.form.submissions)
      ensures bound == null ==> ok
    {
      ok := true;
      if bound != null {
        ok := bound.form.SubmitForm(outcome);
      }
    }

    /** `isLoading()`: `this._isLoading && this._isLoading()`. */
    function IsLoading(): (v: Value)
      reads this, bound
      ensures bound == null ==> v == Undefined
      ensures bound != null ==> v == bound.loading
    {
      if bound == null then Undefined else bound.loading
    }

    /** `setLoading(loading)`: the bound component's `state.loading`
        becomes `loading`. */
    method SetLoading(loading: Value) returns (r: Host.LoadingResult)
      modifies if bound == null then {} else {bound}
      ensures bound == old(bound)
      ensures bound == null <==> r == Host.Never
      ensures bound != null ==> bound.loading == loading
      ensures bound != null ==> bound.fields == old(bound.fields) && bound.additions == old(bound.additions)
    {
      if bound != null {
        bound.loading := loading;
        r := Host.StateUpdate;
      } else {
        r := Host.Never;
      }
    }
  }
}
