/** The field compiler and option sources of the `FormComponent` of
    `src/form-component.tsx`, on values: the flat variant of the engine.
    Specs are not nested, every field gets an `afterChange` channel, only
    selects load options, and `initForm` runs inside the constructor, before
    `state.fields` exists. */
module FormComponentSpec {
  import opened Js
  import opened Dict
  import Entries = Dict
  import opened Resolver
  import Form
  import SimpleForm

  /** `addition.dataFrom`: a URL, an observable (by identity), or a
      descriptor. A descriptor's `url` is `""` when it has none; `observe`
      and `parse` identify its functions. */
  datatype DataFrom =
    | UrlString(url: string)
    | Stream(stream: nat)
    | Descriptor(url: string, query: Option<Params>, param: Option<Params>, observe: Option<nat>,
                 parse: Option<nat>)

  /** `addition` as written in a spec (a missing `addition` is the one with
      every part absent): `showLabel` is `addition.label`, then the three
      entries of `addition.class`. */
  datatype AdditionSpec = AdditionSpec(showLabel: Value, itemClass: Value, labelClass: Value, controlClass: Value,
                                       dataFrom: Option<DataFrom>, data: Value)

  /** One entry of `states`. `caption` is `label` and `kind` is `type`. */
  datatype FormState = FormState(
    caption: string,
    value: Value,
    placeholder: Option<string>,
    kind: Option<string>,
    subtype: Option<string>,
    rules: Value,
    addition: AdditionSpec,
    hidden: Provided,
    extraText: Provided,
    helpText: Dict<Provided>,
    render: SimpleForm.RenderSpec)

  /** `states`, in the order `Object.entries` lists them. */
  datatype FormStates = FormStates(entries: seq<(string, FormState)>)

  // ---------------------------------------------------------------------
  // Decorator options (`getFormFields`)

  /** The decorator options of a spec: its value and rules, validating
      first; no `preserve` and no `valuePropName`. */
  function OptionsOf(st: FormState): (o: Form.FieldOptions)
    ensures o.initialValue == st.value && o.rules == st.rules && o.validateFirst
    ensures !o.preserve && o.valuePropName.None?
  {
    Form.FieldOptions(st.value, st.rules, true, false, None)
  }

  /** The options `getFormFields` collects from the first `n` entries. */
  function FieldsUpTo(sts: FormStates, n: nat): Dict<Form.FieldOptions>
    requires n <= |sts.entries|
  {
    if n == 0 then []
    else Assign(FieldsUpTo(sts, n - 1), sts.entries[n - 1].0, OptionsOf(sts.entries[n - 1].1))
  }

  /** The loop of `getFormFields`. */
  method GetFormFields(sts: FormStates) returns (fields: Dict<Form.FieldOptions>)
    ensures fields == FieldsUpTo(sts, |sts.entries|)
  {
    fields := [];
    for i := 0 to |sts.entries|
      invariant fields == FieldsUpTo(sts, i)
    {
      fields := Assign(fields, sts.entries[i].0, OptionsOf(sts.entries[i].1));
    }
  }

  /** `getFormFields` gives one entry per spec name and no other, with
      distinct keys. Specs are not nested: every key is a spec's own
      name. */
  lemma {:induction false} FieldsUpToKeys(sts: FormStates, n: nat)
    requires n <= |sts.entries|
    ensures DistinctKeys(FieldsUpTo(sts, n))
    ensures forall i :: 0 <= i < n ==> sts.entries[i].0 in KeySet(FieldsUpTo(sts, n))
    ensures forall k :: k in KeySet(FieldsUpTo(sts, n)) ==> exists i :: 0 <= i < n && sts.entries[i].0 == k
  {
    if n > 0 {
      var prev := FieldsUpTo(sts, n - 1);
      var name := sts.entries[n - 1].0;
      FieldsUpToKeys(sts, n - 1);
      AssignFacts(prev, name, OptionsOf(sts.entries[n - 1].1));
      AssignDistinct(prev, name, OptionsOf(sts.entries[n - 1].1));
      forall k | k in KeySet(FieldsUpTo(sts, n))
        ensures exists i :: 0 <= i < n && sts.entries[i].0 == k
      {
        if k != name {
          var i :| 0 <= i < n - 1 && sts.entries[i].0 == k;
        }
      }
    }
  }

  /** A name holds the options of the last spec with that name. */
  lemma {:induction false} FieldsUpToOptions(sts: FormStates, n: nat, i: nat)
    requires i < n <= |sts.entries|
    requires forall j :: i < j < n ==> sts.entries[j].0 != sts.entries[i].0
    ensures Entries.Get(FieldsUpTo(sts, n), sts.entries[i].0) == Some(OptionsOf(sts.entries[i].1))
  {
    AssignFacts(FieldsUpTo(sts, n - 1), sts.entries[n - 1].0, OptionsOf(sts.entries[n - 1].1));
    if i < n - 1 {
      FieldsUpToOptions(sts, n - 1, i);
    }
  }

  // ---------------------------------------------------------------------
  // Compiled records (`initForm`)

  /** `addition` after `initForm`: `addition.label` defaults to `true`
      and a missing class entry becomes `''`. */
  datatype AdditionState = AdditionState(showLabel: Value, itemClass: Value, labelClass: Value, controlClass: Value,
                                         dataFrom: Option<DataFrom>, data: Value)

  /** `x || ''` for a class entry. */
  function ClassOrEmpty(v: Value): (r: Value)
    ensures Truthy(v) ==> r == v
    ensures !Truthy(v) ==> r == Str("")
  {
    if Truthy(v) then v else Str("")
  }

  function NormalizeAddition(a: AdditionSpec): AdditionState
  {
    AdditionState(if a.showLabel != Undefined then a.showLabel else Bool(true),
                  ClassOrEmpty(a.itemClass), ClassOrEmpty(a.labelClass), ClassOrEmpty(a.controlClass),
                  a.dataFrom, a.data)
  }

  /** A missing label flag shows the label; every class entry is kept when
      given (an array stays an array: nothing is joined) and is `''`
      otherwise; the data source and the data are kept. */
  lemma NormalizeAdditionKeeps(a: AdditionSpec)
    ensures var r := NormalizeAddition(a);
      && (a.showLabel == Undefined ==> r.showLabel == Bool(true))
      && (a.showLabel != Undefined ==> r.showLabel == a.showLabel)
      && (Truthy(a.itemClass) ==> r.itemClass == a.itemClass) && (!Truthy(a.itemClass) ==> r.itemClass == Str(""))
      && (Truthy(a.labelClass) ==> r.labelClass == a.labelClass) && (!Truthy(a.labelClass) ==> r.labelClass == Str(""))
      && (Truthy(a.controlClass) ==> r.controlClass == a.controlClass)
      && (!Truthy(a.controlClass) ==> r.controlClass == Str(""))
      && r.dataFrom == a.dataFrom && r.data == a.data
  {
  }

  /** A compiled field. `addition` is its slot in the component's additions
      and listener lists (its `afterChange` channel); `extraText` is
      `None` for `null`. */
  datatype FormField = FormField(caption: string, kind: string, subtype: string, placeholder: string, addition: nat,
                                 hidden: Provided, extraText: Option<Provided>, helpText: Dict<Provided>,
                                 render: SimpleForm.ItemRender)

  /** `!extraText ? null : (a function, or a function returning it)`. */
  function ExtraOf(p: Provided): Option<Provided>
  {
    if p.Given? && !Truthy(p.v) then None else Some(AsThunk(p))
  }

  /** The record `initForm` builds for a spec whose addition is slot
      `id`. */
  function CompileField(st: FormState, id: nat): FormField
  {
    FormField(
      if st.kind == Some("checkbox") && st.subtype != Some("group") then "" else st.caption,
      SimpleForm.OrDefault(st.kind, "input"), SimpleForm.OrDefault(st.subtype, "text"),
      if st.placeholder.None? then st.caption else st.placeholder.value,
      id, AsThunk(st.hidden), ExtraOf(st.extraText), SimpleForm.Thunks(st.helpText),
      SimpleForm.CompileRender(st.render))
  }

  /** A compiled field keeps its slot; its label is empty for a checkbox
      that is not a group and the spec's label otherwise (the label flag
      plays no part); the placeholder is the label when none is given and
      as given otherwise; type and subtype default to a text input;
      `hidden` and each help text become functions returning what the spec
      gives; `extraText` is `null` exactly when the spec gives a falsy
      value, and otherwise a function returning it; renderers are as in
      `SimpleForm`. */
  lemma CompileFieldRules(st: FormState, id: nat)
    ensures var f := CompileField(st, id);
      && f.addition == id
      && (st.kind == Some("checkbox") && st.subtype != Some("group") ==> f.caption == "")
      && (!(st.kind == Some("checkbox") && st.subtype != Some("group")) ==> f.caption == st.caption)
      && (st.placeholder.None? ==> f.placeholder == st.caption)
      && (st.placeholder.Some? ==> f.placeholder == st.placeholder.value)
      && (st.kind.None? || st.kind == Some("") ==> f.kind == "input")
      && (st.kind.Some? && st.kind.value != "" ==> f.kind == st.kind.value)
      && (st.subtype.None? || st.subtype == Some("") ==> f.subtype == "text")
      && (st.subtype.Some? && st.subtype.value != "" ==> f.subtype == st.subtype.value)
    ensures var f := CompileField(st, id);
      && f.hidden.Computed? && Resolve(f.hidden) == Resolve(st.hidden)
      && (f.extraText.None? <==> st.extraText.Given? && !Truthy(st.extraText.v))
      && (f.extraText.Some? ==> f.extraText.value.Computed? && Resolve(f.extraText.value) == Resolve(st.extraText))
    ensures var f := CompileField(st, id);
      |f.helpText| == |st.helpText| &&
      forall i :: 0 <= i < |st.helpText| ==>
        f.helpText[i].0 == st.helpText[i].0 && f.helpText[i].1.Computed? && Resolve(f.helpText[i].1) == Resolve(st.helpText[i].1)
    ensures var ir := CompileField(st, id).render;
      && Resolve(ir.help) == Resolve(st.render.help) && Resolve(ir.extra) == Resolve(st.render.extra)
  {
    SimpleForm.ThunksResolve(st.helpText);
    SimpleForm.NormalizeRenderResolves(st.render.help);
    SimpleForm.NormalizeRenderResolves(st.render.extra);
  }

  /** The records `initForm` stores for the first `n` entries, the first
      taking slot `base`. */
  function RecordsUpTo(sts: FormStates, base: nat, n: nat): Dict<FormField>
    requires n <= |sts.entries|
  {
    if n == 0 then []
    else Assign(RecordsUpTo(sts, base, n - 1), sts.entries[n - 1].0, CompileField(sts.entries[n - 1].1, base + n - 1))
  }

  // ---------------------------------------------------------------------
  // Option sources (`initSelect`, `loadSelectData`)

  /** The descriptor's `query` or `param` dictionary. */
  function DictOf(d: DataFrom, which: Which): (r: Option<Params>)
    requires d.Descriptor?
    ensures r == if which == Query then d.query else d.param
  {
    if which == Query then d.query else d.param
  }

  /** Dictionary `which` of the data source of slot `t` exists. */
  predicate HasDict(adds: seq<AdditionState>, t: nat, which: Which)
  {
    t < |adds| && adds[t].dataFrom.Some? && adds[t].dataFrom.value.Descriptor?
    && DictOf(adds[t].dataFrom.value, which).Some?
  }

  /** What `this.state.fields[name]` finds: before `state.fields` is
      assigned (`None`) the lookup itself throws, which the scan treats as
      it treats a field without a channel; afterwards a field, whose channel
      is its slot, or nothing. */
  function ChannelOf(fields: Option<Dict<FormField>>, name: string): (c: Channel)
    ensures fields.None? ==> c == NoChannel
    ensures fields.Some? ==> (c == NoField <==> Entries.Get(fields.value, name).None?)
    ensures fields.Some? && c.Emits? ==> c.id == Entries.Get(fields.value, name).value.addition
  {
    if fields.None? then NoChannel
    else
      var found := Entries.Get(fields.value, name);
      if found.None? then NoField else Emits(found.value.addition)
  }

  function Channels(fields: Option<Dict<FormField>>): string -> Channel
  {
    name => ChannelOf(fields, name)
  }

  /** The scan `initSelect` makes of dictionary `which` of `d`. */
  function ScanDict(d: DataFrom, which: Which, fields: Option<Dict<FormField>>): Scan
    requires d.Descriptor? && DictOf(d, which).Some?
  {
    var params := DictOf(d, which).value;
    ScanParams(params, |params|, Channels(fields))
  }

  /** Before `state.fields` exists a scan subscribes to nothing, and it
      runs to its end exactly when no entry is a marker or throws; then the
      eager load is due. */
  lemma {:induction false} ScanWithoutFields(params: Params, n: nat)
    requires n <= |params|
    ensures ScanParams(params, n, Channels(None)).subscriptions == []
    ensures ScanParams(params, n, Channels(None)).ok <==> forall i :: 0 <= i < n ==> Classify(params[i].1) == Plain
    ensures ScanParams(params, n, Channels(None)).ok ==> ScanParams(params, n, Channels(None)).load
  {
    if n > 0 {
      ScanWithoutFields(params, n - 1);
      assert ChannelOf(None, "") == NoChannel;
    }
  }

  /** `loadSelectData` for slot `id`: only with a URL, whose first `:key`
      for each `param` key is replaced by its value, a GET with the query;
      without `observe` each emission goes through `parse` (or is taken as
      it is), with `observe` it is taken as it is. Every request refreshes
      the component on emission. */
  function LoadRequests(id: nat, d: DataFrom): (rs: seq<Request>)
    requires d.Descriptor?
  {
    if d.url == "" then []
    else
      var url := if d.param.Some? then Substituted(d.url, d.param.value) else d.url;
      [Request(id, Get(url, d.query), if d.observe.None? then d.parse else None, true)]
  }

  /** A request is made exactly when there is a URL; it is a GET for slot
      `id` with the query and the substituted URL, parsed only without
      `observe`, and it refreshes. */
  lemma LoadRequestsCases(id: nat, d: DataFrom)
    requires d.Descriptor?
    ensures |LoadRequests(id, d)| <= 1
    ensures LoadRequests(id, d) != [] <==> d.url != ""
    ensures forall r :: r in LoadRequests(id, d) ==>
      && r.target == id && r.refresh
      && r.source == Get(if d.param.Some? then Substituted(d.url, d.param.value) else d.url, d.query)
      && (d.observe.None? ==> r.parse == d.parse)
      && (d.observe.Some? ==> r.parse.None?)
  {
  }

  /** `loadSelectData` as written: `dataFrom.url || addition.dataFrom`
      puts the descriptor object in place of a missing URL, so `None` (a
      `TypeError`: the object has no `replace`) when there is a `param`,
      and otherwise a GET to the object's text. */
  function LoadAsWritten(id: nat, d: DataFrom): (w: Option<seq<Request>>)
    requires d.Descriptor?
  {
    var url := if d.url != "" then d.url else SimpleForm.DescriptorText;
    if d.url == "" && d.param.Some? then None
    else
      var target := if d.param.Some? then Substituted(url, d.param.value) else url;
      Some([Request(id, Get(target, d.query), if d.observe.None? then d.parse else None, true)])
  }

  /** As written, a descriptor without a URL and without `param` sends a
      GET to `[object Object]`, and one with a `param` throws, where no
      request is evidently meant; with a URL both versions agree. */
  lemma LoadAsWrittenWithoutUrl(id: nat, d: DataFrom)
    requires d.Descriptor?
    ensures d.url == "" && d.param.None? ==>
      LoadAsWritten(id, d) == Some([Request(id, Get(SimpleForm.DescriptorText, d.query),
                                            if d.observe.None? then d.parse else None, true)])
    ensures d.url == "" && d.param.Some? ==> LoadAsWritten(id, d).None?
    ensures d.url == "" ==> LoadRequests(id, d) == []
    ensures d.url != "" ==> LoadAsWritten(id, d) == Some(LoadRequests(id, d))
  {
  }

  /** What one `initSelect(addition, which)` call inside `initForm` does
      for slot `id`: the requests it makes and whether it returns (`false`
      where it throws). */
  function DictLoad(id: nat, d: DataFrom, which: Which): (r: (seq<Request>, bool))
    requires d.Descriptor? && DictOf(d, which).Some?
  {
    var s := ScanDict(d, which, None);
    (if s.ok && s.load then LoadRequests(id, d) else [], s.ok)
  }

  /** What `initForm` does for a select in slot `id` whose data source is
      `df`, after registering its dropdown validator: the requests made and
      whether it returns. A string or an observable is read without a
      re-render; a descriptor with neither dictionary is loaded; otherwise
      `initSelect` runs for `query`, then for `param`, at once. */
  function StartSelect(id: nat, df: Option<DataFrom>): (r: (seq<Request>, bool))
  {
    match df
    case None => ([], true)
    case Some(UrlString(url)) => (if url == "" then [] else [Request(id, Get(url, None), None, false)], true)
    case Some(Stream(s)) => ([Request(id, Watch(s), None, false)], true)
    case Some(d) =>
      if d.query.None? && d.param.None? then (LoadRequests(id, d), true)
      else
        var q := if d.query.Some? then DictLoad(id, d, Query) else ([], true);
        if !q.1 then q
        else
          var p := if d.param.Some? then DictLoad(id, d, Param) else ([], true);
          (q.0 + p.0, p.1)
  }

  /** Dictionary `which` of a descriptor holds an entry that is not a plain
      value: a `#field` marker, or one whose `path[0]` throws. */
  predicate Unplain(d: DataFrom, which: Which)
    requires d.Descriptor?
  {
    DictOf(d, which).Some? && exists i :: 0 <= i < |DictOf(d, which).value| && Classify(DictOf(d, which).value[i].1) != Plain
  }

  /** `initForm` throws on a select exactly when one of its dictionaries
      has a marker or an unreadable entry: the marker's lookup reads
      `state.fields` before it is assigned. */
  predicate Throws(st: FormState)
  {
    && st.kind == Some("select")
    && st.addition.dataFrom.Some? && st.addition.dataFrom.value.Descriptor?
    && (Unplain(st.addition.dataFrom.value, Query) || Unplain(st.addition.dataFrom.value, Param))
  }

  /** The sources of a select by kind: nothing without one or with an
      empty URL; a GET without re-render for a URL; a subscription without
      re-render for an observable; a load for a descriptor with neither
      dictionary. With dictionaries it returns exactly when no entry of
      either is a marker or throws, and then loads once for each dictionary
      present; a marker is never subscribed. */
  lemma {:induction false} StartSelectCases(id: nat, df: Option<DataFrom>)
    ensures df.None? ==> StartSelect(id, df) == ([], true)
    ensures df.Some? && df.value.UrlString? ==>
      StartSelect(id, df) == (if df.value.url == "" then [] else [Request(id, Get(df.value.url, None), None, false)], true)
    ensures df.Some? && df.value.Stream? ==> StartSelect(id, df) == ([Request(id, Watch(df.value.stream), None, false)], true)
    ensures df.Some? && df.value.Descriptor? && df.value.query.None? && df.value.param.None? ==>
      StartSelect(id, df) == (LoadRequests(id, df.value), true)
    ensures df.Some? && df.value.Descriptor? ==>
      (StartSelect(id, df).1 <==> !Unplain(df.value, Query) && !Unplain(df.value, Param))
    ensures df.Some? && df.value.Descriptor? && StartSelect(id, df).1 && (df.value.query.Some? || df.value.param.Some?) ==>
      StartSelect(id, df).0 == (if df.value.query.Some? then LoadRequests(id, df.value) else [])
                               + (if df.value.param.Some? then LoadRequests(id, df.value) else [])
  {
    if df.Some? && df.value.Descriptor? {
      var d := df.value;
      if d.query.Some? {
        ScanWithoutFields(d.query.value, |d.query.value|);
      }
      if d.param.Some? {
        ScanWithoutFields(d.param.value, |d.param.value|);
      }
    }
  }

  // ---------------------------------------------------------------------
  // The walk of `initForm` as a fold

  /** The state `initForm` carries from entry to entry: the additions by
      slot, the requests made, the form's validate functions, and whether
      it is still running (`false` once it has thrown). */
  datatype Effects = Effects(adds: seq<AdditionState>, reqs: seq<Request>, validFns: map<string, Form.ValidFn>, ok: bool)

  /** What `initForm` does for entry `name`: its addition takes the next
      slot; a select registers its `_dropdown` validator, then starts its
      sources. */
  function EntryEffects(e: Effects, name: string, st: FormState): Effects
  {
    var a := NormalizeAddition(st.addition);
    if st.kind != Some("select") then Effects(e.adds + [a], e.reqs, e.validFns, true)
    else
      var r := StartSelect(|e.adds|, a.dataFrom);
      Effects(e.adds + [a], e.reqs + r.0, Form.Registered(e.validFns, [name]), r.1)
  }

  /** The state after the first `n` entries, from `e`; nothing more happens
      once an entry has thrown. */
  function Walk(sts: FormStates, n: nat, e: Effects): Effects
    requires n <= |sts.entries|
  {
    if n == 0 then e
    else
      var prev := Walk(sts, n - 1, e);
      if !prev.ok then prev else EntryEffects(prev, sts.entries[n - 1].0, sts.entries[n - 1].1)
  }

  /** One more entry of a running walk; once it throws, the rest of the
      entries change nothing. */
  lemma {:induction false} WalkStep(sts: FormStates, i: nat, e: Effects)
    requires i < |sts.entries| && Walk(sts, i, e).ok
    ensures Walk(sts, i + 1, e) == EntryEffects(Walk(sts, i, e), sts.entries[i].0, sts.entries[i].1)
    ensures !Walk(sts, i + 1, e).ok ==> Walk(sts, |sts.entries|, e) == Walk(sts, i + 1, e)
  {
    if !Walk(sts, i + 1, e).ok {
      WalkStops(sts, i + 1, |sts.entries|, e);
    }
  }

  /** The names of the selects among the first `n` entries, in order. */
  function SelectNames(sts: FormStates, n: nat): (r: seq<string>)
    requires n <= |sts.entries|
    ensures forall k :: k in r ==> exists i :: 0 <= i < n && sts.entries[i].0 == k
  {
    if n == 0 then []
    else SelectNames(sts, n - 1) + if sts.entries[n - 1].1.kind == Some("select") then [sts.entries[n - 1].0] else []
  }

  /** Once thrown, the walk stays where it stopped. */
  lemma {:induction false} WalkStops(sts: FormStates, i: nat, n: nat, e: Effects)
    requires i <= n <= |sts.entries|
    requires !Walk(sts, i, e).ok
    ensures Walk(sts, n, e) == Walk(sts, i, e)
  {
    if n > i {
      WalkStops(sts, i, n - 1, e);
    }
  }

  /** Started from a running state, the walk runs to its end exactly when
      no entry throws; then every entry has taken one slot and every select
      has registered its `_dropdown` validator, under its own name. */
  lemma {:induction false} WalkRuns(sts: FormStates, n: nat, e: Effects)
    requires n <= |sts.entries| && e.ok
    ensures Walk(sts, n, e).ok <==> forall i :: 0 <= i < n ==> !Throws(sts.entries[i].1)
    ensures Walk(sts, n, e).ok ==> |Walk(sts, n, e).adds| == |e.adds| + n
    ensures Walk(sts, n, e).ok ==> Walk(sts, n, e).validFns == Form.Registered(e.validFns, SelectNames(sts, n))
  {
    if n > 0 {
      WalkRuns(sts, n - 1, e);
      var prev := Walk(sts, n - 1, e);
      var st := sts.entries[n - 1].1;
      if prev.ok {
        StartSelectCases(|prev.adds|, st.addition.dataFrom);
        if st.kind == Some("select") {
          Form.RegisteredAppend(e.validFns, SelectNames(sts, n - 1), [sts.entries[n - 1].0]);
        } else {
          assert SelectNames(sts, n) == SelectNames(sts, n - 1) + [] == SelectNames(sts, n - 1);
        }
      } else {
        assert !Walk(sts, n, e).ok;
        var j :| 0 <= j < n - 1 && Throws(sts.entries[j].1);
      }
    }
  }

  /** The requests made only grow, each is for a slot taken by then, and a
      walk that has thrown requests nothing more. */
  lemma {:induction false} WalkRequests(sts: FormStates, n: nat, e: Effects)
    requires n <= |sts.entries|
    requires forall r :: r in e.reqs ==> r.target < |e.adds|
    ensures var w := Walk(sts, n, e);
      |e.adds| <= |w.adds| && w.adds[..|e.adds|] == e.adds
      && |e.reqs| <= |w.reqs| && w.reqs[..|e.reqs|] == e.reqs
      && forall r :: r in w.reqs ==> r.target < |w.adds|
  {
    if n > 0 {
      WalkRequests(sts, n - 1, e);
      var prev := Walk(sts, n - 1, e);
      if prev.ok {
        var st := sts.entries[n - 1].1;
        StartSelectCases(|prev.adds|, st.addition.dataFrom);
        var w := Walk(sts, n, e);
        assert w.adds[..|prev.adds|] == prev.adds;
        assert w.adds[..|e.adds|] == prev.adds[..|e.adds|];
        assert w.reqs[..|prev.reqs|] == prev.reqs;
        assert w.reqs[..|e.reqs|] == prev.reqs[..|e.reqs|];
      }
    }
  }

  // ---------------------------------------------------------------------
  // Emissions after construction

  /** `params[key] = value` on dictionary `which` of descriptor `d`. */
  function WriteParam(d: DataFrom, which: Which, key: string, value: Value): (r: DataFrom)
    requires d.Descriptor? && DictOf(d, which).Some?
    ensures r.Descriptor? && r.url == d.url && r.observe == d.observe && r.parse == d.parse
    ensures DictOf(r, which) == Some(Assign(DictOf(d, which).value, key, value))
    ensures DictOf(r, if which == Query then Param else Query) == DictOf(d, if which == Query then Param else Query)
  {
    if which == Query then d.(query := Some(Assign(d.query.value, key, value)))
    else d.(param := Some(Assign(d.param.value, key, value)))
  }

  /** What subscription `l` does with an emitted `value`: the value is
      written into its entry; then a truthy value reloads the select and a
      falsy one sets its `data` to an empty list. */
  function Notified(adds: seq<AdditionState>, reqs: seq<Request>, l: Listener, value: Value)
    : (r: (seq<AdditionState>, seq<Request>))
    requires HasDict(adds, l.target, l.which)
    ensures |r.0| == |adds|
    ensures forall t, w :: HasDict(adds, t, w) ==> HasDict(r.0, t, w)
  {
    var a := adds[l.target];
    var d := WriteParam(a.dataFrom.value, l.which, l.key, value);
    if Truthy(value) then (adds[l.target := a.(dataFrom := Some(d))], reqs + LoadRequests(l.target, d))
    else (adds[l.target := a.(dataFrom := Some(d), data := Arr([]))], reqs)
  }

  /** An emission of `value` passed to subscriptions `ls`, in order. */
  function Notify(adds: seq<AdditionState>, reqs: seq<Request>, ls: seq<Listener>, value: Value)
    : (r: (seq<AdditionState>, seq<Request>))
    requires forall l :: l in ls ==> HasDict(adds, l.target, l.which)
    ensures |r.0| == |adds|
    ensures forall t, w :: HasDict(adds, t, w) ==> HasDict(r.0, t, w)
    decreases |ls|
  {
    if ls == [] then (adds, reqs)
    else
      var r1 := Notified(adds, reqs, ls[0], value);
      Notify(r1.0, r1.1, ls[1..], value)
  }

  /** A falsy value empties the options of the select it was written for
      and requests nothing; a truthy value keeps every option list and
      requests at most one reload. */
  lemma NotifiedEffects(adds: seq<AdditionState>, reqs: seq<Request>, l: Listener, value: Value)
    requires HasDict(adds, l.target, l.which)
    ensures forall t :: 0 <= t < |adds| && t != l.target ==> Notified(adds, reqs, l, value).0[t] == adds[t]
    ensures !Truthy(value) ==>
      Notified(adds, reqs, l, value).1 == reqs && Notified(adds, reqs, l, value).0[l.target].data == Arr([])
    ensures Truthy(value) ==> Notified(adds, reqs, l, value).0[l.target].data == adds[l.target].data
    ensures var r := Notified(adds, reqs, l, value).1;
      |reqs| <= |r| <= |reqs| + 1 && r[..|reqs|] == reqs
  {
    var d := WriteParam(adds[l.target].dataFrom.value, l.which, l.key, value);
    LoadRequestsCases(l.target, d);
  }

  /** A falsy value requests nothing and leaves an emptied option list
      empty; a truthy value leaves every option list as it was. */
  lemma {:induction false} NotifyKeepsData(adds: seq<AdditionState>, reqs: seq<Request>, ls: seq<Listener>, value: Value,
                                           t: nat)
    requires forall l :: l in ls ==> HasDict(adds, l.target, l.which)
    requires t < |adds|
    ensures !Truthy(value) ==> Notify(adds, reqs, ls, value).1 == reqs
    ensures !Truthy(value) && adds[t].data == Arr([]) ==> Notify(adds, reqs, ls, value).0[t].data == Arr([])
    ensures Truthy(value) ==> Notify(adds, reqs, ls, value).0[t].data == adds[t].data
    decreases |ls|
  {
    if ls != [] {
      var r1 := Notified(adds, reqs, ls[0], value);
      NotifiedEffects(adds, reqs, ls[0], value);
      NotifyKeepsData(r1.0, r1.1, ls[1..], value, t);
    }
  }

  /** A falsy value empties the options of every select a subscription
      targets and requests nothing; a truthy value changes no option list
      (its reloads replace them when they emit). */
  lemma {:induction false} NotifyData(adds: seq<AdditionState>, reqs: seq<Request>, ls: seq<Listener>, value: Value)
    requires forall l :: l in ls ==> HasDict(adds, l.target, l.which)
    ensures !Truthy(value) ==> Notify(adds, reqs, ls, value).1 == reqs
    ensures !Truthy(value) ==> forall l :: l in ls ==> Notify(adds, reqs, ls, value).0[l.target].data == Arr([])
    ensures Truthy(value) ==> forall t :: 0 <= t < |adds| ==> Notify(adds, reqs, ls, value).0[t].data == adds[t].data
    decreases |ls|
  {
    if ls != [] {
      var r1 := Notified(adds, reqs, ls[0], value);
      NotifiedEffects(adds, reqs, ls[0], value);
      NotifyData(r1.0, r1.1, ls[1..], value);
      NotifyKeepsData(r1.0, r1.1, ls[1..], value, ls[0].target);
      assert forall l :: l in ls ==> l == ls[0] || l in ls[1..];
      forall t | 0 <= t < |adds|
        ensures Truthy(value) ==> Notify(adds, reqs, ls, value).0[t].data == adds[t].data
      {
        NotifyKeepsData(r1.0, r1.1, ls[1..], value, t);
      }
    }
  }

  /** The request log only grows, by at most one reload per
      subscription. */
  lemma {:induction false} NotifyRequestLog(adds: seq<AdditionState>, reqs: seq<Request>, ls: seq<Listener>, value: Value)
    requires forall l :: l in ls ==> HasDict(adds, l.target, l.which)
    ensures var r := Notify(adds, reqs, ls, value).1;
      |reqs| <= |r| <= |reqs| + |ls| && r[..|reqs|] == reqs
    decreases |ls|
  {
    if ls != [] {
      var r1 := Notified(adds, reqs, ls[0], value);
      NotifiedEffects(adds, reqs, ls[0], value);
      NotifyRequestLog(r1.0, r1.1, ls[1..], value);
      var r := Notify(adds, reqs, ls, value).1;
      assert r[..|r1.1|][..|reqs|] == r[..|reqs|];
    }
  }
}
