/** The configuration-driven form of `src/simple-form.tsx`: a dictionary of
    field specifications is compiled into decorator options for rc-form and
    into field records; selects, checkbox groups and radios load their
    options from a URL, an observable or a descriptor whose `query` and
    `param` entries may follow other fields (`#field` markers). Fetches are
    a request log, emissions are explicit calls, `setTimeout` is a task
    queue run by an explicit step. */
module SimpleForm {
  import opened Js
  import opened Text
  import opened Dict
  import opened Resolver
  import opened Seqs
  import Form
  import Host

  // ---------------------------------------------------------------------
  // Field specifications (`FormState`)

  /** One of `addition.class.item/label/control`: absent, a class string, or
      a list of class names. */
  datatype ClassName = Missing | Names(s: string) | NameList(names: seq<string>)

  datatype ClassSpec = ClassSpec(forItem: ClassName, forLabel: ClassName, forControl: ClassName)

  /** `addition.dataFrom`: a URL, an observable (by identity), or a
      descriptor. A descriptor's `url` is `""` when it has none (both are
      falsy); `from` and `parse` identify the descriptor's own loading and
      parsing functions. */
  datatype DataFrom =
    | UrlString(url: string)
    | Stream(stream: nat)
    | Descriptor(url: string, query: Option<Params>, param: Option<Params>, from: Option<nat>,
                 parse: Option<nat>)

  /** `addition` as written in a spec (a missing `addition` is the one with
      every part absent). `showLabel` is `addition.label`. */
  datatype AdditionSpec = AdditionSpec(showLabel: Value, classes: ClassSpec, decorator: Value,
                                       dataFrom: Option<DataFrom>, data: Value)

  /** `render` as written in a spec: the item and control renderers (by
      identity, when given) and the help and extra, each a node or a
      function. */
  datatype RenderSpec = RenderSpec(item: Option<nat>, control: Option<nat>, help: Provided, extra: Provided)

  /** One entry of `states`. `caption` is `label`, `kind` is `type`,
      `onChange` identifies the user's change callback, and `children` makes
      the entry a group. */
  datatype FormState = FormState(
    caption: string,
    value: Value,
    kind: Option<string>,
    subtype: Option<string>,
    placeholder: Option<string>,
    rules: Value,
    addition: AdditionSpec,
    disabled: Provided,
    hidden: Provided,
    helpText: Dict<Provided>,
    extraText: Provided,
    render: RenderSpec,
    onChange: Option<nat>,
    children: Option<FormStates>)

  /** `FormStates`: the specs in the order `Object.entries` lists them. */
  datatype FormStates = FormStates(entries: seq<(string, FormState)>)

  // ---------------------------------------------------------------------
  // Decorator options (`getFormFields`)

  /** The decorator options of a leaf spec. */
  function LeafOptions(st: FormState): (o: Form.FieldOptions)
    ensures o.initialValue == st.value && o.rules == st.rules
    ensures o.validateFirst && o.preserve
    ensures o.valuePropName.Some? ==> o.valuePropName.value == "checked"
    ensures o.valuePropName.Some? <==>
      st.kind == Some("switch") || (st.kind == Some("checkbox") && st.subtype != Some("group"))
  {
    var valuePropName :=
      if st.kind == Some("switch") then Some("checked")
      else if st.kind == Some("checkbox") && st.subtype != Some("group") then Some("checked")
      else None;
    Form.FieldOptions(st.value, st.rules, true, true, valuePropName)
  }

  /** The options `getFormFields(states, prefix)` collects from the first `n`
      entries: a leaf under `prefix + name`, a group's leaves under
      `name + "."` (the group's own name only, not the prefix). */
  function FieldsUpTo(sts: FormStates, prefix: string, n: nat): (d: Dict<Form.FieldOptions>)
    requires n <= |sts.entries|
    decreases sts, n
  {
    if n == 0 then []
    else
      var prev := FieldsUpTo(sts, prefix, n - 1);
      var name := sts.entries[n - 1].0;
      var st := sts.entries[n - 1].1;
      match st.children
      case None => Assign(prev, prefix + name, LeafOptions(st))
      case Some(kids) => AssignAll(prev, FieldsUpTo(kids, name + ".", |kids.entries|))
  }

  function FormFieldsOf(sts: FormStates, prefix: string): Dict<Form.FieldOptions>
  {
    FieldsUpTo(sts, prefix, |sts.entries|)
  }

  /** Every leaf of the first `n` entries with the key it is collected under
      and its options: an independent description of the decorator keys. */
  ghost function LeafEntries(sts: FormStates, prefix: string, n: nat): set<(string, Form.FieldOptions)>
    requires n <= |sts.entries|
    decreases sts, n
  {
    if n == 0 then {}
    else
      var name := sts.entries[n - 1].0;
      var st := sts.entries[n - 1].1;
      LeafEntries(sts, prefix, n - 1) +
        match st.children
        case None => {(prefix + name, LeafOptions(st))}
        case Some(kids) => LeafEntries(kids, name + ".", |kids.entries|)
  }

  /** One more leaf entry of `LeafEntries`. */
  lemma LeafEntriesLeaf(sts: FormStates, prefix: string, i: nat)
    requires i < |sts.entries| && sts.entries[i].1.children.None?
    ensures LeafEntries(sts, prefix, i + 1) == LeafEntries(sts, prefix, i) + {(prefix + sts.entries[i].0, LeafOptions(sts.entries[i].1))}
  {
  }

  /** One more group entry of `LeafEntries`. */
  lemma LeafEntriesGroup(sts: FormStates, prefix: string, i: nat)
    requires i < |sts.entries| && sts.entries[i].1.children.Some?
    ensures LeafEntries(sts, prefix, i + 1) == LeafEntries(sts, prefix, i)
      + LeafEntries(sts.entries[i].1.children.value, sts.entries[i].0 + ".", |sts.entries[i].1.children.value.entries|)
  {
  }

  /** Every entry `getFormFields` collects is a leaf's key with that leaf's
      options. */
  lemma {:induction false} FieldsUpToLeaves(sts: FormStates, prefix: string, n: nat)
    requires n <= |sts.entries|
    ensures EntrySet(FieldsUpTo(sts, prefix, n)) <= LeafEntries(sts, prefix, n)
    decreases sts, n
  {
    if n > 0 {
      FieldsUpToLeaves(sts, prefix, n - 1);
      var prev := FieldsUpTo(sts, prefix, n - 1);
      var name := sts.entries[n - 1].0;
      var st := sts.entries[n - 1].1;
      if st.children.None? {
        FieldsStepLeaf(sts, prefix, n - 1);
        LeafEntriesLeaf(sts, prefix, n - 1);
        var x := (prefix + name, LeafOptions(st));
        AssignEntries(prev, x.0, x.1);
        SubsetJoin(EntrySet(prev), LeafEntries(sts, prefix, n - 1), EntrySet(Assign(prev, x.0, x.1)), {x}, {x});
      } else {
        FieldsStepGroup(sts, prefix, n - 1);
        LeafEntriesGroup(sts, prefix, n - 1);
        var kids := st.children.value;
        FieldsUpToLeaves(kids, name + ".", |kids.entries|);
        var sub := FieldsUpTo(kids, name + ".", |kids.entries|);
        AssignAllEntries(prev, sub);
        SubsetJoin(EntrySet(prev), LeafEntries(sts, prefix, n - 1), EntrySet(AssignAll(prev, sub)),
                   EntrySet(sub), LeafEntries(kids, name + ".", |kids.entries|));
      }
    }
  }

  /** Subset steps chain: what grows from a part of `l` by a part of `g` is
      part of `l + g`. */
  lemma SubsetJoin<T>(e: set<T>, l: set<T>, e2: set<T>, f: set<T>, g: set<T>)
    requires e <= l && e2 <= e + f && f <= g
    ensures e2 <= l + g
  {
  }

  /** Keys covering two sets of entries cover their union. */
  lemma CoverJoin<U>(l: set<(string, U)>, k: set<string>, g: set<(string, U)>, kg: set<string>)
    requires forall e :: e in l ==> e.0 in k
    requires forall e :: e in g ==> e.0 in kg
    ensures forall e :: e in l + g ==> e.0 in k + kg
  {
  }

  /** Every leaf's key is among the keys `getFormFields` collects. */
  lemma {:induction false} LeavesInFields(sts: FormStates, prefix: string, n: nat)
    requires n <= |sts.entries|
    ensures forall e :: e in LeafEntries(sts, prefix, n) ==> e.0 in KeySet(FieldsUpTo(sts, prefix, n))
    decreases sts, n
  {
    if n > 0 {
      LeavesInFields(sts, prefix, n - 1);
      var st := sts.entries[n - 1].1;
      if st.children.Some? {
        FieldsStepGroup(sts, prefix, n - 1);
        LeafEntriesGroup(sts, prefix, n - 1);
        var kids := st.children.value;
        LeavesInFields(kids, sts.entries[n - 1].0 + ".", |kids.entries|);
        var prev := FieldsUpTo(sts, prefix, n - 1);
        var sub := FieldsUpTo(kids, sts.entries[n - 1].0 + ".", |kids.entries|);
        assert KeySet(AssignAll(prev, sub)) == KeySet(prev) + KeySet(sub);
        CoverJoin(LeafEntries(sts, prefix, n - 1), KeySet(prev),
                  LeafEntries(kids, sts.entries[n - 1].0 + ".", |kids.entries|), KeySet(sub));
      } else {
        FieldsStepLeaf(sts, prefix, n - 1);
        LeafEntriesLeaf(sts, prefix, n - 1);
        var prev := FieldsUpTo(sts, prefix, n - 1);
        AssignFacts(prev, prefix + sts.entries[n - 1].0, LeafOptions(st));
        assert KeySet(Assign(prev, prefix + sts.entries[n - 1].0, LeafOptions(st))) == KeySet(prev) + {prefix + sts.entries[n - 1].0};
        CoverJoin(LeafEntries(sts, prefix, n - 1), KeySet(prev),
                  {(prefix + sts.entries[n - 1].0, LeafOptions(st))}, {prefix + sts.entries[n - 1].0});
      }
    }
  }

  /** The keys `getFormFields` collects are distinct. */
  lemma {:induction false} FieldsUpToDistinct(sts: FormStates, prefix: string, n: nat)
    requires n <= |sts.entries|
    ensures DistinctKeys(FieldsUpTo(sts, prefix, n))
    decreases sts, n
  {
    if n > 0 {
      FieldsUpToDistinct(sts, prefix, n - 1);
      var prev := FieldsUpTo(sts, prefix, n - 1);
      var name := sts.entries[n - 1].0;
      var st := sts.entries[n - 1].1;
      if st.children.None? {
        FieldsStepLeaf(sts, prefix, n - 1);
        AssignDistinct(prev, prefix + name, LeafOptions(st));
      } else {
        FieldsStepGroup(sts, prefix, n - 1);
        AssignAllDistinct(prev, FormFieldsOf(st.children.value, name + "."));
      }
    }
  }

  /** With no groups and distinct names, there is exactly one entry per spec,
      in spec order, under `prefix + name`. */
  lemma FlatFields(sts: FormStates, prefix: string)
    requires DistinctKeys(sts.entries)
    requires forall i :: 0 <= i < |sts.entries| ==> sts.entries[i].1.children.None?
    ensures |FormFieldsOf(sts, prefix)| == |sts.entries|
    ensures forall i :: 0 <= i < |sts.entries| ==>
      FormFieldsOf(sts, prefix)[i] == (prefix + sts.entries[i].0, LeafOptions(sts.entries[i].1))
  {
    NewNamesOfDistinct(sts, |sts.entries|);
    FlatFieldsUpTo(sts, prefix, |sts.entries|);
  }

  /** Each of the first `n` names differs from the names before it. */
  ghost predicate NewNames(sts: FormStates, n: nat)
    requires n <= |sts.entries|
  {
    n == 0 || (NewNames(sts, n - 1) && forall i :: 0 <= i < n - 1 ==> sts.entries[i].0 != sts.entries[n - 1].0)
  }

  lemma {:induction false} NewNamesOfDistinct(sts: FormStates, n: nat)
    requires n <= |sts.entries| && DistinctKeys(sts.entries)
    ensures NewNames(sts, n)
  {
    if n > 0 {
      NewNamesOfDistinct(sts, n - 1);
      DistinctKeysPairwise(sts.entries);
    }
  }

  lemma {:induction false} FlatFieldsUpTo(sts: FormStates, prefix: string, n: nat)
    requires n <= |sts.entries| && NewNames(sts, n)
    requires forall i :: 0 <= i < |sts.entries| ==> sts.entries[i].1.children.None?
    ensures |FieldsUpTo(sts, prefix, n)| == n
    ensures forall i :: 0 <= i < n ==>
      FieldsUpTo(sts, prefix, n)[i] == (prefix + sts.entries[i].0, LeafOptions(sts.entries[i].1))
  {
    if n > 0 {
      FlatFieldsUpTo(sts, prefix, n - 1);
      FlatFieldsStep(sts, prefix, n);
    }
  }

  /** One more ungrouped entry whose name is new is appended at the end. */
  lemma FlatFieldsStep(sts: FormStates, prefix: string, n: nat)
    requires 0 < n <= |sts.entries|
    requires sts.entries[n - 1].1.children.None?
    requires forall i :: 0 <= i < n - 1 ==> sts.entries[i].0 != sts.entries[n - 1].0
    requires |FieldsUpTo(sts, prefix, n - 1)| == n - 1
    requires forall i :: 0 <= i < n - 1 ==>
      FieldsUpTo(sts, prefix, n - 1)[i] == (prefix + sts.entries[i].0, LeafOptions(sts.entries[i].1))
    ensures |FieldsUpTo(sts, prefix, n)| == n
    ensures forall i :: 0 <= i < n ==>
      FieldsUpTo(sts, prefix, n)[i] == (prefix + sts.entries[i].0, LeafOptions(sts.entries[i].1))
  {
    FieldsStepLeaf(sts, prefix, n - 1);
    var prev := FieldsUpTo(sts, prefix, n - 1);
    var name := sts.entries[n - 1].0;
    var st := sts.entries[n - 1].1;
    forall i | 0 <= i < n - 1 ensures prev[i].0 != prefix + name {
      PrefixedNamesDiffer(prefix, sts.entries[i].0, name);
    }
    KeyAbsent(prev, prefix + name);
    AssignFacts(prev, prefix + name, LeafOptions(st));
    var x := (prefix + name, LeafOptions(st));
    var r := FieldsUpTo(sts, prefix, n);
    assert r == prev + [x];
    forall i | 0 <= i < n ensures r[i] == (prefix + sts.entries[i].0, LeafOptions(sts.entries[i].1)) {
      if i < n - 1 {
        assert r[i] == prev[i];
      }
    }
  }

  /** Different names stay different under the same prefix. */
  lemma PrefixedNamesDiffer(prefix: string, a: string, b: string)
    requires a != b
    ensures prefix + a != prefix + b
  {
    assert (prefix + a)[|prefix|..] == a;
    assert (prefix + b)[|prefix|..] == b;
  }

  /** One more leaf entry of `getFormFields`. */
  lemma FieldsStepLeaf(sts: FormStates, prefix: string, i: nat)
    requires i < |sts.entries| && sts.entries[i].1.children.None?
    ensures FieldsUpTo(sts, prefix, i + 1)
      == Assign(FieldsUpTo(sts, prefix, i), prefix + sts.entries[i].0, LeafOptions(sts.entries[i].1))
  {
  }

  /** One more group entry of `getFormFields`. */
  lemma FieldsStepGroup(sts: FormStates, prefix: string, i: nat)
    requires i < |sts.entries| && sts.entries[i].1.children.Some?
    ensures FieldsUpTo(sts, prefix, i + 1)
      == AssignAll(FieldsUpTo(sts, prefix, i), FormFieldsOf(sts.entries[i].1.children.value, sts.entries[i].0 + "."))
  {
  }

  /** `getFormFields(states, prefix)`: the entries are visited in order. */
  method GetFormFields(sts: FormStates, prefix: string) returns (fields: Dict<Form.FieldOptions>)
    ensures fields == FormFieldsOf(sts, prefix)
    decreases sts, 1
  {
    fields := [];
    for i := 0 to |sts.entries|
      invariant fields == FieldsUpTo(sts, prefix, i)
    {
      fields := CollectEntry(sts, prefix, i, fields);
    }
  }

  /** One entry of `getFormFields`: a leaf's options under `prefix + name`,
      or a group's fields collected by a nested call. */
  method CollectEntry(sts: FormStates, prefix: string, i: nat, fields: Dict<Form.FieldOptions>)
    returns (fields': Dict<Form.FieldOptions>)
    requires i < |sts.entries| && fields == FieldsUpTo(sts, prefix, i)
    ensures fields' == FieldsUpTo(sts, prefix, i + 1)
    decreases sts, 0
  {
    var name := sts.entries[i].0;
    var st := sts.entries[i].1;
    if st.children.None? {
      FieldsStepLeaf(sts, prefix, i);
      fields' := Assign(fields, prefix + name, LeafOptions(st));
    } else {
      var kids := st.children.value;
      assert kids < st;
      var sub := GetFormFields(kids, name + ".");
      FieldsStepGroup(sts, prefix, i);
      fields' := AssignAll(fields, sub);
    }
  }

  // ---------------------------------------------------------------------
  // Field records (`initForm`)

  /** `(!Array.isArray(c) ? c : c.join(' ')) || ''`. */
  function ClassString(c: ClassName): string
  {
    match c
    case Missing => ""
    case Names(s) => s
    case NameList(names) => if names == [] then "" else Join(names, ' ')
  }

  /** A list of class names is kept word for word: splitting the class
      string at spaces gives the list back. */
  lemma ClassListKept(names: seq<string>)
    requires names != []
    requires forall k :: 0 <= k < |names| ==> ' ' !in names[k]
    ensures Split(ClassString(NameList(names)), ' ') == names
  {
    SplitJoin(names, ' ');
  }

  /** `addition` after `initForm` has filled in its defaults. */
  datatype AdditionState = AdditionState(
    showLabel: Value,
    itemClass: string,
    labelClass: string,
    controlClass: string,
    decorator: Value,
    dataFrom: Option<DataFrom>,
    data: Value)

  /** `addition.label` defaults to `true`, and each class becomes a string. */
  function NormalizeAddition(a: AdditionSpec): AdditionState
  {
    AdditionState(
      if a.showLabel != Undefined then a.showLabel else Bool(true),
      ClassString(a.classes.forItem), ClassString(a.classes.forLabel), ClassString(a.classes.forControl),
      a.decorator, a.dataFrom, a.data)
  }

  /** A missing label flag shows the label; the data source, the decorator
      and the initial data are kept; a missing class becomes empty. */
  lemma NormalizeAdditionKeeps(a: AdditionSpec)
    ensures var r := NormalizeAddition(a);
      && (a.showLabel == Undefined ==> r.showLabel == Bool(true))
      && (a.showLabel != Undefined ==> r.showLabel == a.showLabel)
      && r.decorator == a.decorator && r.dataFrom == a.dataFrom && r.data == a.data
      && (a.classes.forItem.Missing? ==> r.itemClass == "")
      && (a.classes.forLabel.Missing? ==> r.labelClass == "")
      && (a.classes.forControl.Missing? ==> r.controlClass == "")
  {
  }

  /** A help or extra render after `initForm`: a function or a truthy node
      becomes a function returning it; a falsy node is left as it was. */
  function NormalizeRender(p: Provided): Provided
  {
    if p.Computed? || Truthy(p.v) then AsThunk(p) else p
  }

  /** Normalising never changes what the render gives. */
  lemma NormalizeRenderResolves(p: Provided)
    ensures Resolve(NormalizeRender(p)) == Resolve(p)
    ensures p.Computed? || Truthy(p.v) ==> NormalizeRender(p).Computed?
    ensures p.Given? && !Truthy(p.v) ==> NormalizeRender(p) == p
  {
  }

  /** Each `helpText` entry as a zero-argument function. */
  function Thunks(d: Dict<Provided>): (r: Dict<Provided>)
    ensures |r| == |d|
  {
    if d == [] then [] else [(d[0].0, AsThunk(d[0].1))] + Thunks(d[1..])
  }

  /** Each thunk keeps its key and is the entry as a function. */
  lemma {:induction false} ThunksResolve(d: Dict<Provided>)
    ensures forall i :: 0 <= i < |d| ==> Thunks(d)[i].0 == d[i].0 && Thunks(d)[i].1 == AsThunk(d[i].1)
  {
    if d != [] {
      ThunksResolve(d[1..]);
      forall i | 1 <= i < |d| ensures Thunks(d)[i].0 == d[i].0 && Thunks(d)[i].1 == AsThunk(d[i].1) {
        assert Thunks(d)[i] == Thunks(d[1..])[i - 1];
        assert d[i] == d[1..][i - 1];
      }
    }
  }

  /** A render slot: the user's function, or the component's own. */
  datatype Renderer = Builtin | UserRenderer(id: nat)

  datatype ItemRender = ItemRender(item: Renderer, control: Renderer, help: Provided, extra: Provided)

  /** A compiled field. A leaf's `addition` is its index in the component's
      additions and listener lists (its `afterChange` channel). */
  datatype FormField =
    | Leaf(caption: string, kind: string, subtype: string, placeholder: string, addition: nat,
           disabled: Provided, hidden: Provided, extraText: Provided,
           helpText: Dict<Provided>, render: ItemRender, onChange: Option<nat>)
    | Group(caption: string, children: Dict<FormField>)

  /** The label a leaf shows: none when `addition.label` is falsy, a single
      space for a checkbox that is not a group, otherwise the spec's label. */
  function LeafCaption(st: FormState): string
  {
    if !Truthy(NormalizeAddition(st.addition).showLabel) then ""
    else if st.kind != Some("checkbox") || st.subtype == Some("group") then st.caption
    else " "
  }

  /** `x || fallback` for an optional string. */
  function OrDefault(x: Option<string>, fallback: string): string
  {
    if x.Some? && x.value != "" then x.value else fallback
  }

  /** `placeholder === undefined ? label : (placeholder || '')`. */
  function LeafPlaceholder(st: FormState): string
  {
    if st.placeholder.None? then st.caption else st.placeholder.value
  }

  /** `render` after `initForm`: missing item and control renderers become
      the component's own, help and extra are normalised. */
  function CompileRender(r: RenderSpec): ItemRender
  {
    ItemRender(
      if r.item.Some? then UserRenderer(r.item.value) else Builtin,
      if r.control.Some? then UserRenderer(r.control.value) else Builtin,
      NormalizeRender(r.help), NormalizeRender(r.extra))
  }

  /** The record `initForm` builds for a leaf spec whose addition is slot
      `id`: every value that may be a literal or a function is stored as a
      function returning what the spec gives. */
  function CompileLeaf(st: FormState, id: nat): FormField
  {
    Leaf(LeafCaption(st), OrDefault(st.kind, "input"), OrDefault(st.subtype, "text"), LeafPlaceholder(st), id,
         AsThunk(st.disabled), AsThunk(st.hidden), AsThunk(st.extraText), Thunks(st.helpText),
         CompileRender(st.render), st.onChange)
  }

  /** A compiled leaf keeps its slot and its `onChange`; its label is
      empty when `addition.label` is falsy and a single space for a
      checkbox that is not a group; its type defaults to a text input;
      its functions return what the spec gives, literal or computed; a
      missing item or control renderer is the component's own, and help
      and extra render what the spec gives. */
  lemma CompileLeafThunks(st: FormState, id: nat)
    ensures var f := CompileLeaf(st, id);
      f.Leaf? && f.addition == id && f.onChange == st.onChange
    ensures var f := CompileLeaf(st, id);
      && (!Truthy(NormalizeAddition(st.addition).showLabel) ==> f.caption == "")
      && (Truthy(NormalizeAddition(st.addition).showLabel) && st.kind == Some("checkbox") && st.subtype != Some("group") ==>
            f.caption == " ")
      && (Truthy(NormalizeAddition(st.addition).showLabel) && !(st.kind == Some("checkbox") && st.subtype != Some("group")) ==>
            f.caption == st.caption)
    ensures var f := CompileLeaf(st, id);
      && (st.placeholder.None? ==> f.placeholder == st.caption)
      && (st.placeholder.Some? ==> f.placeholder == st.placeholder.value)
      && (st.kind.None? || st.kind == Some("") ==> f.kind == "input")
      && (st.subtype.None? || st.subtype == Some("") ==> f.subtype == "text")
      && (st.kind.Some? && st.kind.value != "" ==> f.kind == st.kind.value)
    ensures var f := CompileLeaf(st, id);
      f.disabled.Computed? && f.hidden.Computed? && f.extraText.Computed?
      && Resolve(f.disabled) == Resolve(st.disabled) && Resolve(f.hidden) == Resolve(st.hidden)
      && Resolve(f.extraText) == Resolve(st.extraText)
    ensures var f := CompileLeaf(st, id);
      |f.helpText| == |st.helpText| &&
      forall i :: 0 <= i < |st.helpText| ==>
        f.helpText[i].0 == st.helpText[i].0 && f.helpText[i].1.Computed? && Resolve(f.helpText[i].1) == Resolve(st.helpText[i].1)
    ensures var ir := CompileLeaf(st, id).render;
      && ir.item == (if st.render.item.Some? then UserRenderer(st.render.item.value) else Builtin)
      && ir.control == (if st.render.control.Some? then UserRenderer(st.render.control.value) else Builtin)
      && Resolve(ir.help) == Resolve(st.render.help) && Resolve(ir.extra) == Resolve(st.render.extra)
  {
    ThunksResolve(st.helpText);
    NormalizeRenderResolves(st.render.help);
    NormalizeRenderResolves(st.render.extra);
  }

  // ---------------------------------------------------------------------
  // Option sources (`initSelect`, `loadSelectData`)

  /** A `setTimeout(() => this.observeSelect(addition, which))` waiting to run
      for addition slot `target`. */
  datatype Task = Observe(target: nat, which: Which)

  /** The descriptor's `query` or `param` dictionary. */
  function DictOf(d: DataFrom, which: Which): (r: Option<Params>)
    requires d.Descriptor?
    ensures r == if which == Query then d.query else d.param
  {
    if which == Query then d.query else d.param
  }

  /** The addition's `dataFrom` is a descriptor with dictionary `which`. */
  predicate Observable(df: Option<DataFrom>, which: Which)
  {
    df.Some? && df.value.Descriptor? && DictOf(df.value, which).Some?
  }

  /** Whether `loadSelectData` issues a request for a descriptor. */
  predicate Loadable(d: DataFrom)
    requires d.Descriptor?
  {
    d.url != "" || d.from.Some?
  }

  /** `loadSelectData` for slot `id`: with a URL, the first `:key` of each
      `param` key is replaced by its value and the request goes through
      `from` (with the query and the URL) or a GET with the query; without a
      URL, `from` is called with the query alone; with neither, nothing is
      requested. Every request refreshes the component on emission. */
  function LoadRequests(id: nat, d: DataFrom): (rs: seq<Request>)
    requires d.Descriptor?
  {
    if d.url != "" then
      var url := if d.param.Some? then Substituted(d.url, d.param.value) else d.url;
      [Request(id, if d.from.Some? then Custom(d.from.value, d.query, Some(url)) else Get(url, d.query), d.parse, true)]
    else if d.from.Some? then [Request(id, Custom(d.from.value, d.query, None), d.parse, true)]
    else []
  }

  /** What `loadSelectData` requests, by case. */
  lemma LoadRequestsCases(id: nat, d: DataFrom)
    requires d.Descriptor?
    ensures |LoadRequests(id, d)| <= 1
    ensures LoadRequests(id, d) != [] <==> Loadable(d)
    ensures forall r :: r in LoadRequests(id, d) ==> r.target == id && r.parse == d.parse && r.refresh
    ensures LoadRequests(id, d) != [] && d.url != "" && d.from.None? ==>
      LoadRequests(id, d)[0].source == Get(if d.param.Some? then Substituted(d.url, d.param.value) else d.url, d.query)
    ensures LoadRequests(id, d) != [] && d.url != "" && d.from.Some? ==>
      LoadRequests(id, d)[0].source == Custom(d.from.value, d.query,
                             Some(if d.param.Some? then Substituted(d.url, d.param.value) else d.url))
    ensures LoadRequests(id, d) != [] && d.url == "" ==> LoadRequests(id, d)[0].source == Custom(d.from.value, d.query, None)
  {
  }

  /** The URL `String(addition.dataFrom)` gives for a descriptor object. */
  const DescriptorText: string := "[object Object]"

  /** `loadSelectData` as written: `dataFrom.url || addition.dataFrom` puts
      the descriptor object itself in place of a missing URL, so `None` (a
      `TypeError`, the object has no `replace`) when there is a `param`, and
      otherwise a request to the object's text. */
  function LoadAsWritten(id: nat, d: DataFrom): (w: Option<seq<Request>>)
    requires d.Descriptor?
  {
    var url := if d.url != "" then d.url else DescriptorText;
    if d.url == "" && d.param.Some? then None
    else
      var target := if d.param.Some? then Substituted(url, d.param.value) else url;
      Some([Request(id, if d.from.Some? then Custom(d.from.value, d.query, Some(target)) else Get(target, d.query),
                    d.parse, true)])
  }

  /** As written, a descriptor without a URL and without `from` still sends a
      GET, to `[object Object]`; it should send nothing. */
  lemma DescriptorWithoutUrlRequestsItself(id: nat, query: Option<Params>)
    ensures LoadAsWritten(id, Descriptor("", query, None, None, None))
      == Some([Request(id, Get(DescriptorText, query), None, true)])
    ensures LoadRequests(id, Descriptor("", query, None, None, None)) == []
  {
  }

  /** As written, a descriptor without a URL but with a `param` throws. */
  lemma DescriptorWithoutUrlThrows(id: nat, d: DataFrom)
    requires d.Descriptor? && d.url == "" && d.param.Some?
    ensures LoadAsWritten(id, d).None?
    ensures |LoadRequests(id, d)| <= 1
  {
  }

  /** As written, `from` is never called without a URL: the `else if (from)`
      branch is unreachable. With a URL both versions agree. */
  lemma {:induction false} LoadAsWrittenAgreesWithUrl(id: nat, d: DataFrom)
    requires d.Descriptor?
    ensures LoadAsWritten(id, d).Some? ==>
      forall r :: r in LoadAsWritten(id, d).value ==> !(r.source.Custom? && r.source.withUrl.None?)
    ensures d.url != "" ==> LoadAsWritten(id, d) == Some(LoadRequests(id, d))
  {
  }

  /** What `initSelect` does for slot `id` whose addition has data source
      `df`: the requests it makes at once and the observation tasks it
      schedules. */
  function SelectEffects(id: nat, df: Option<DataFrom>): (r: (seq<Request>, seq<Task>))
  {
    match df
    case None => ([], [])
    case Some(UrlString(url)) => (if url == "" then [] else [Request(id, Get(url, None), None, true)], [])
    case Some(Stream(s)) => ([Request(id, Watch(s), None, true)], [])
    case Some(d) =>
      if d.query.None? && d.param.None? then (LoadRequests(id, d), [])
      else ([], (if d.query.Some? then [Observe(id, Query)] else []) + (if d.param.Some? then [Observe(id, Param)] else []))
  }

  /** The effects by kind of source: nothing without one, a GET for a
      non-empty URL, a subscription for an observable, a load for a
      descriptor with neither dictionary, and otherwise one task per
      dictionary present; everything is for slot `id`. */
  lemma SelectEffectsCases(id: nat, df: Option<DataFrom>)
    ensures df.None? ==> SelectEffects(id, df) == ([], [])
    ensures df.Some? && df.value.UrlString? ==>
      SelectEffects(id, df) == (if df.value.url == "" then [] else [Request(id, Get(df.value.url, None), None, true)], [])
    ensures df.Some? && df.value.Stream? ==> SelectEffects(id, df) == ([Request(id, Watch(df.value.stream), None, true)], [])
    ensures df.Some? && df.value.Descriptor? && !Observable(df, Query) && !Observable(df, Param) ==>
      SelectEffects(id, df) == (LoadRequests(id, df.value), [])
    ensures (Observable(df, Query) || Observable(df, Param)) ==>
      SelectEffects(id, df).0 == [] && |SelectEffects(id, df).1| == (if Observable(df, Query) then 1 else 0) + (if Observable(df, Param) then 1 else 0)
    ensures forall r' :: r' in SelectEffects(id, df).0 ==> r'.target == id
    ensures forall t :: t in SelectEffects(id, df).1 ==> t.target == id && Observable(df, t.which)
  {
  }

  /** Whether `initForm` calls `initSelect` for a leaf: selects, checkbox
      groups and radios. */
  predicate HasOptions(st: FormState)
  {
    st.kind == Some("select") || (st.kind == Some("checkbox") && st.subtype == Some("group")) || st.kind == Some("radio")
  }

  /** The number of leaves in the first `n` entries, groups counted by
      their own leaves: the number of addition slots they take. */
  function LeafCount(sts: FormStates, n: nat): nat
    requires n <= |sts.entries|
    decreases sts, n
  {
    if n == 0 then 0
    else
      var st := sts.entries[n - 1].1;
      LeafCount(sts, n - 1) +
        match st.children
        case None => 1
        case Some(kids) => LeafCount(kids, |kids.entries|)
  }

  /** The records `initForm` stores in `state.fields` for the first `n`
      entries, the first leaf taking slot `base`: a leaf gets its compiled
      record, a group a record holding its children's. */
  function RecordsUpTo(sts: FormStates, base: nat, n: nat): Dict<FormField>
    requires n <= |sts.entries|
    decreases sts, n
  {
    if n == 0 then []
    else
      var prev := RecordsUpTo(sts, base, n - 1);
      var name := sts.entries[n - 1].0;
      var st := sts.entries[n - 1].1;
      var id := base + LeafCount(sts, n - 1);
      match st.children
      case None => Assign(prev, name, CompileLeaf(st, id))
      case Some(kids) => Assign(prev, name, Group(st.caption, RecordsUpTo(kids, id, |kids.entries|)))
  }

  function Records(sts: FormStates, base: nat): Dict<FormField>
  {
    RecordsUpTo(sts, base, |sts.entries|)
  }

  /** The additions `initForm` stores for the first `n` entries: one per
      leaf, normalised, in spec order (a group's leaves in place). */
  function AdditionsUpTo(sts: FormStates, n: nat): seq<AdditionState>
    requires n <= |sts.entries|
    decreases sts, n
  {
    if n == 0 then []
    else
      var st := sts.entries[n - 1].1;
      AdditionsUpTo(sts, n - 1) +
        match st.children
        case None => [NormalizeAddition(st.addition)]
        case Some(kids) => AdditionsUpTo(kids, |kids.entries|)
  }

  /** One slot per leaf, and each slot keeps its leaf's data source. */
  lemma {:induction false} AdditionsCount(sts: FormStates, n: nat)
    requires n <= |sts.entries|
    ensures |AdditionsUpTo(sts, n)| == LeafCount(sts, n)
    decreases sts, n
  {
    if n > 0 {
      AdditionsCount(sts, n - 1);
      var st := sts.entries[n - 1].1;
      if st.children.Some? {
        AdditionsCount(st.children.value, |st.children.value.entries|);
      }
    }
  }

  /** The name `prefix + name` a leaf's `_dropdown` validator is registered
      under: one for a select, none for any other leaf. */
  function LeafSelects(prefix: string, name: string, st: FormState): (r: seq<string>)
    ensures r == [] || r == [prefix + name]
  {
    if st.kind == Some("select") then [prefix + name] else []
  }

  /** The corrected names for the `_dropdown` validators: each select's full
      name, a group's selects under the group's name and a dot, the keys
      `getFormFields` gives them. `initForm` as written registers
      `SelectsAsWritten` instead. */
  function SelectsUpTo(sts: FormStates, prefix: string, n: nat): seq<string>
    requires n <= |sts.entries|
    decreases sts, n
  {
    if n == 0 then []
    else
      var st := sts.entries[n - 1].1;
      SelectsUpTo(sts, prefix, n - 1) +
        match st.children
        case None => LeafSelects(prefix, sts.entries[n - 1].0, st)
        case Some(kids) => SelectsUpTo(kids, sts.entries[n - 1].0 + ".", |kids.entries|)
  }

  /** The names `initForm` as written registers: its nested call for a
      group passes no prefix, so a grouped select is registered under its
      bare name. */
  function SelectsAsWritten(sts: FormStates, prefix: string, n: nat): seq<string>
    requires n <= |sts.entries|
    decreases sts, n
  {
    if n == 0 then []
    else
      var st := sts.entries[n - 1].1;
      SelectsAsWritten(sts, prefix, n - 1) +
        match st.children
        case None => LeafSelects(prefix, sts.entries[n - 1].0, st)
        case Some(kids) => SelectsAsWritten(kids, "", |kids.entries|)
  }

  /** The requests the `initSelect` call `initForm` makes for a leaf whose
      addition has slot `slot` makes at once: a select, a checkbox group or
      a radio is initialised, any other leaf is not. */
  function LeafRequests(st: FormState, slot: nat): seq<Request>
  {
    if HasOptions(st) then SelectEffects(slot, st.addition.dataFrom).0 else []
  }

  /** The `observeSelect` tasks that call schedules. */
  function LeafTasks(st: FormState, slot: nat): seq<Task>
  {
    if HasOptions(st) then SelectEffects(slot, st.addition.dataFrom).1 else []
  }

  /** The requests the `initSelect` calls of the first `n` entries make at
      once, in order, the first leaf taking slot `base`. */
  function RequestsUpTo(sts: FormStates, base: nat, n: nat): seq<Request>
    requires n <= |sts.entries|
    decreases sts, n
  {
    if n == 0 then []
    else
      var st := sts.entries[n - 1].1;
      var id := base + LeafCount(sts, n - 1);
      RequestsUpTo(sts, base, n - 1) +
        match st.children
        case None => LeafRequests(st, id)
        case Some(kids) => RequestsUpTo(kids, id, |kids.entries|)
  }

  /** The `observeSelect` tasks those calls schedule, in order. */
  function TasksUpTo(sts: FormStates, base: nat, n: nat): seq<Task>
    requires n <= |sts.entries|
    decreases sts, n
  {
    if n == 0 then []
    else
      var st := sts.entries[n - 1].1;
      var id := base + LeafCount(sts, n - 1);
      TasksUpTo(sts, base, n - 1) +
        match st.children
        case None => LeafTasks(st, id)
        case Some(kids) => TasksUpTo(kids, id, |kids.entries|)
  }

  lemma AdditionsStepLeaf(sts: FormStates, n: nat)
    requires 0 < n <= |sts.entries| && sts.entries[n - 1].1.children.None?
    ensures AdditionsUpTo(sts, n) == AdditionsUpTo(sts, n - 1) + [NormalizeAddition(sts.entries[n - 1].1.addition)]
  {
  }

  lemma AdditionsStepGroup(sts: FormStates, n: nat)
    requires 0 < n <= |sts.entries| && sts.entries[n - 1].1.children.Some?
    ensures var kids := sts.entries[n - 1].1.children.value;
      AdditionsUpTo(sts, n) == AdditionsUpTo(sts, n - 1) + AdditionsUpTo(kids, |kids.entries|)
  {
  }

  lemma RequestsStepLeaf(sts: FormStates, base: nat, n: nat, id: nat)
    requires 0 < n <= |sts.entries| && sts.entries[n - 1].1.children.None?
    requires id == base + LeafCount(sts, n - 1)
    ensures RequestsUpTo(sts, base, n) == RequestsUpTo(sts, base, n - 1) + LeafRequests(sts.entries[n - 1].1, id)
  {
  }

  lemma RequestsStepGroup(sts: FormStates, base: nat, n: nat, id: nat)
    requires 0 < n <= |sts.entries| && sts.entries[n - 1].1.children.Some?
    requires id == base + LeafCount(sts, n - 1)
    ensures var kids := sts.entries[n - 1].1.children.value;
      RequestsUpTo(sts, base, n) == RequestsUpTo(sts, base, n - 1) + RequestsUpTo(kids, id, |kids.entries|)
  {
    var kids := sts.entries[n - 1].1.children.value;
    assert sts.entries[n - 1].1.children == Some(kids);
  }

  lemma TasksStepLeaf(sts: FormStates, base: nat, n: nat, id: nat)
    requires 0 < n <= |sts.entries| && sts.entries[n - 1].1.children.None?
    requires id == base + LeafCount(sts, n - 1)
    ensures TasksUpTo(sts, base, n) == TasksUpTo(sts, base, n - 1) + LeafTasks(sts.entries[n - 1].1, id)
  {
  }

  lemma TasksStepGroup(sts: FormStates, base: nat, n: nat, id: nat)
    requires 0 < n <= |sts.entries| && sts.entries[n - 1].1.children.Some?
    requires id == base + LeafCount(sts, n - 1)
    ensures var kids := sts.entries[n - 1].1.children.value;
      TasksUpTo(sts, base, n) == TasksUpTo(sts, base, n - 1) + TasksUpTo(kids, id, |kids.entries|)
  {
    var kids := sts.entries[n - 1].1.children.value;
    assert sts.entries[n - 1].1.children == Some(kids);
  }

  lemma SelectsStepLeaf(sts: FormStates, prefix: string, n: nat)
    requires 0 < n <= |sts.entries| && sts.entries[n - 1].1.children.None?
    ensures var st := sts.entries[n - 1].1;
      SelectsUpTo(sts, prefix, n)
        == SelectsUpTo(sts, prefix, n - 1) + LeafSelects(prefix, sts.entries[n - 1].0, st)
  {
  }

  lemma SelectsStepGroup(sts: FormStates, prefix: string, n: nat)
    requires 0 < n <= |sts.entries| && sts.entries[n - 1].1.children.Some?
    ensures var kids := sts.entries[n - 1].1.children.value;
      SelectsUpTo(sts, prefix, n) == SelectsUpTo(sts, prefix, n - 1) + SelectsUpTo(kids, sts.entries[n - 1].0 + ".", |kids.entries|)
  {
  }

  lemma SelectsAsWrittenStepLeaf(sts: FormStates, prefix: string, n: nat)
    requires 0 < n <= |sts.entries| && sts.entries[n - 1].1.children.None?
    ensures var st := sts.entries[n - 1].1;
      SelectsAsWritten(sts, prefix, n)
        == SelectsAsWritten(sts, prefix, n - 1) + LeafSelects(prefix, sts.entries[n - 1].0, st)
  {
  }

  lemma SelectsAsWrittenStepGroup(sts: FormStates, prefix: string, n: nat)
    requires 0 < n <= |sts.entries| && sts.entries[n - 1].1.children.Some?
    ensures var kids := sts.entries[n - 1].1.children.value;
      SelectsAsWritten(sts, prefix, n) == SelectsAsWritten(sts, prefix, n - 1) + SelectsAsWritten(kids, "", |kids.entries|)
  {
  }

  lemma RecordsStepLeaf(sts: FormStates, base: nat, n: nat, id: nat)
    requires 0 < n <= |sts.entries| && sts.entries[n - 1].1.children.None?
    requires id == base + LeafCount(sts, n - 1)
    ensures RecordsUpTo(sts, base, n)
      == Assign(RecordsUpTo(sts, base, n - 1), sts.entries[n - 1].0, CompileLeaf(sts.entries[n - 1].1, id))
  {
  }

  lemma RecordsStepGroup(sts: FormStates, base: nat, n: nat, id: nat)
    requires 0 < n <= |sts.entries| && sts.entries[n - 1].1.children.Some?
    requires id == base + LeafCount(sts, n - 1)
    ensures var st := sts.entries[n - 1].1;
      var kids := st.children.value;
      RecordsUpTo(sts, base, n)
        == Assign(RecordsUpTo(sts, base, n - 1), sts.entries[n - 1].0, Group(st.caption, Records(kids, id)))
  {
  }

  // ---------------------------------------------------------------------
  // The walk of `initForm` as a fold

  /** `k` channels with no subscriber yet. */
  function Empties(k: nat): (r: seq<seq<Listener>>)
    ensures |r| == k && forall i :: 0 <= i < k ==> r[i] == []
  {
    seq(k, _ => [])
  }

  lemma EmptiesAppend(a: nat, b: nat)
    ensures Empties(a + b) == Empties(a) + Empties(b)
  {
    assert forall i :: 0 <= i < a + b ==> Empties(a + b)[i] == (Empties(a) + Empties(b))[i];
  }

  /** The state `initForm` carries from entry to entry besides the records
      of the level it compiles: the additions by slot, the subscriptions on
      each slot's channel, the requests made, the tasks scheduled and the
      form's validate functions. */
  datatype Effects = Effects(adds: seq<AdditionState>, lis: seq<seq<Listener>>, reqs: seq<Request>, tasks: seq<Task>,
                             validFns: map<string, Form.ValidFn>)

  /** What `initForm` does to that state for the leaf `name` with spec `st`:
      the addition takes the next slot and a channel nobody listens to yet,
      `initSelect` runs for a select, a checkbox group or a radio, and a
      select registers its `_dropdown` validator under `prefix + name`. */
  function LeafEffects(e: Effects, prefix: string, name: string, st: FormState): Effects
  {
    Effects(e.adds + [NormalizeAddition(st.addition)], e.lis + [[]],
            e.reqs + LeafRequests(st, |e.adds|), e.tasks + LeafTasks(st, |e.adds|),
            Form.Registered(e.validFns, LeafSelects(prefix, name, st)))
  }

  /** The state `initForm(sts, prefix)` leaves after the first `n`
      entries, starting from state `e`; the records it compiles are
      `RecordsUpTo(sts, |e.adds|, n)`. A group's children are compiled by a
      nested call that carries the same state on; as in the source, that
      call passes no prefix. */
  function Walk(sts: FormStates, prefix: string, n: nat, e: Effects): Effects
    requires n <= |sts.entries|
    decreases sts, n
  {
    if n == 0 then e
    else
      var prev := Walk(sts, prefix, n - 1, e);
      var st := sts.entries[n - 1].1;
      match st.children
      case None => LeafEffects(prev, prefix, sts.entries[n - 1].0, st)
      case Some(kids) => Walk(kids, "", |kids.entries|, prev)
  }

  /** The walk gives each leaf one slot. */
  lemma {:induction false} WalkSlots(sts: FormStates, prefix: string, n: nat, e: Effects)
    requires n <= |sts.entries|
    ensures |Walk(sts, prefix, n, e).adds| == |e.adds| + LeafCount(sts, n)
    decreases sts, n
  {
    if n > 0 {
      var prev := Walk(sts, prefix, n - 1, e);
      WalkSlots(sts, prefix, n - 1, e);
      var st := sts.entries[n - 1].1;
      if st.children.Some? {
        var kids := st.children.value;
        WalkSlots(kids, "", |kids.entries|, prev);
      }
    }
  }

  /** The walk appends one addition per leaf, in spec order, a group's
      leaves in place. */
  lemma {:induction false} WalkAdditions(sts: FormStates, prefix: string, n: nat, e: Effects)
    requires n <= |sts.entries|
    ensures Walk(sts, prefix, n, e).adds == e.adds + AdditionsUpTo(sts, n)
    decreases sts, n
  {
    if n > 0 {
      var prev := Walk(sts, prefix, n - 1, e);
      WalkAdditions(sts, prefix, n - 1, e);
      var st := sts.entries[n - 1].1;
      if st.children.None? {
        AdditionsStepLeaf(sts, n);
        Extend(prev.adds + [NormalizeAddition(st.addition)], prev.adds, e.adds, AdditionsUpTo(sts, n - 1),
               [NormalizeAddition(st.addition)], AdditionsUpTo(sts, n));
      } else {
        var kids := st.children.value;
        WalkAdditions(kids, "", |kids.entries|, prev);
        AdditionsStepGroup(sts, n);
        Extend(Walk(kids, "", |kids.entries|, prev).adds, prev.adds, e.adds, AdditionsUpTo(sts, n - 1),
               AdditionsUpTo(kids, |kids.entries|), AdditionsUpTo(sts, n));
      }
    }
  }

  /** Every slot gets a channel with no subscriber. */
  lemma {:induction false} WalkListeners(sts: FormStates, prefix: string, n: nat, e: Effects)
    requires n <= |sts.entries|
    ensures Walk(sts, prefix, n, e).lis == e.lis + Empties(LeafCount(sts, n))
    decreases sts, n
  {
    if n > 0 {
      var prev := Walk(sts, prefix, n - 1, e);
      WalkListeners(sts, prefix, n - 1, e);
      var st := sts.entries[n - 1].1;
      if st.children.None? {
        EmptiesAppend(LeafCount(sts, n - 1), 1);
        assert Empties(1) == [[]];
        Extend(prev.lis + [[]], prev.lis, e.lis, Empties(LeafCount(sts, n - 1)), [[]], Empties(LeafCount(sts, n)));
      } else {
        var kids := st.children.value;
        WalkListeners(kids, "", |kids.entries|, prev);
        EmptiesAppend(LeafCount(sts, n - 1), LeafCount(kids, |kids.entries|));
        Extend(Walk(kids, "", |kids.entries|, prev).lis, prev.lis, e.lis, Empties(LeafCount(sts, n - 1)),
               Empties(LeafCount(kids, |kids.entries|)), Empties(LeafCount(sts, n)));
      }
    }
  }

  /** The requests made are those of the `initSelect` calls, in order. */
  lemma {:induction false} WalkRequests(sts: FormStates, prefix: string, n: nat, e: Effects)
    requires n <= |sts.entries|
    ensures Walk(sts, prefix, n, e).reqs == e.reqs + RequestsUpTo(sts, |e.adds|, n)
    decreases sts, n
  {
    if n > 0 {
      var prev := Walk(sts, prefix, n - 1, e);
      WalkRequests(sts, prefix, n - 1, e);
      WalkSlots(sts, prefix, n - 1, e);
      var st := sts.entries[n - 1].1;
      if st.children.None? {
        RequestsStepLeaf(sts, |e.adds|, n, |prev.adds|);
        Extend(prev.reqs + LeafRequests(st, |prev.adds|), prev.reqs, e.reqs, RequestsUpTo(sts, |e.adds|, n - 1),
               LeafRequests(st, |prev.adds|), RequestsUpTo(sts, |e.adds|, n));
      } else {
        var kids := st.children.value;
        WalkRequests(kids, "", |kids.entries|, prev);
        RequestsStepGroup(sts, |e.adds|, n, |prev.adds|);
        Extend(Walk(kids, "", |kids.entries|, prev).reqs, prev.reqs, e.reqs, RequestsUpTo(sts, |e.adds|, n - 1),
               RequestsUpTo(kids, |prev.adds|, |kids.entries|), RequestsUpTo(sts, |e.adds|, n));
      }
    }
  }

  /** The tasks scheduled are those of the `initSelect` calls, in order. */
  lemma {:induction false} WalkTasks(sts: FormStates, prefix: string, n: nat, e: Effects)
    requires n <= |sts.entries|
    ensures Walk(sts, prefix, n, e).tasks == e.tasks + TasksUpTo(sts, |e.adds|, n)
    decreases sts, n
  {
    if n > 0 {
      var prev := Walk(sts, prefix, n - 1, e);
      WalkTasks(sts, prefix, n - 1, e);
      WalkSlots(sts, prefix, n - 1, e);
      var st := sts.entries[n - 1].1;
      if st.children.None? {
        TasksStepLeaf(sts, |e.adds|, n, |prev.adds|);
        Extend(prev.tasks + LeafTasks(st, |prev.adds|), prev.tasks, e.tasks, TasksUpTo(sts, |e.adds|, n - 1),
               LeafTasks(st, |prev.adds|), TasksUpTo(sts, |e.adds|, n));
      } else {
        var kids := st.children.value;
        WalkTasks(kids, "", |kids.entries|, prev);
        TasksStepGroup(sts, |e.adds|, n, |prev.adds|);
        Extend(Walk(kids, "", |kids.entries|, prev).tasks, prev.tasks, e.tasks, TasksUpTo(sts, |e.adds|, n - 1),
               TasksUpTo(kids, |prev.adds|, |kids.entries|), TasksUpTo(sts, |e.adds|, n));
      }
    }
  }

  /** The `_dropdown` validators registered are those of the selects under
      the names `initForm` as written gives them: a top-level select under
      its prefixed name, a grouped one under its bare name. */
  lemma {:induction false} WalkValidFns(sts: FormStates, prefix: string, n: nat, e: Effects)
    requires n <= |sts.entries|
    ensures Walk(sts, prefix, n, e).validFns == Form.Registered(e.validFns, SelectsAsWritten(sts, prefix, n))
    decreases sts, n
  {
    if n > 0 {
      var prev := Walk(sts, prefix, n - 1, e);
      WalkValidFns(sts, prefix, n - 1, e);
      var st := sts.entries[n - 1].1;
      if st.children.None? {
        SelectsAsWrittenStepLeaf(sts, prefix, n);
        Form.RegisteredAppend(e.validFns, SelectsAsWritten(sts, prefix, n - 1),
                              LeafSelects(prefix, sts.entries[n - 1].0, st));
      } else {
        var kids := st.children.value;
        WalkValidFns(kids, "", |kids.entries|, prev);
        SelectsAsWrittenStepGroup(sts, prefix, n);
        Form.RegisteredAppend(e.validFns, SelectsAsWritten(sts, prefix, n - 1), SelectsAsWritten(kids, "", |kids.entries|));
      }
    }
  }

  /** Started from no additions, channels, requests or tasks, as the
      constructor starts it, the walk leaves one normalised addition per
      leaf in spec order, an empty channel per slot, the requests and tasks
      of the `initSelect` calls in order, and a `_dropdown` validator per
      select, a grouped one under its bare name. */
  lemma WalkFromStart(sts: FormStates, fns: map<string, Form.ValidFn>)
    ensures var w := Walk(sts, "", |sts.entries|, Effects([], [], [], [], fns));
      && w.adds == AdditionsUpTo(sts, |sts.entries|)
      && w.lis == Empties(LeafCount(sts, |sts.entries|))
      && w.reqs == RequestsUpTo(sts, 0, |sts.entries|)
      && w.tasks == TasksUpTo(sts, 0, |sts.entries|)
      && w.validFns == Form.Registered(fns, SelectsAsWritten(sts, "", |sts.entries|))
  {
    var n := |sts.entries|;
    var e := Effects([], [], [], [], fns);
    WalkAdditions(sts, "", n, e);
    WalkListeners(sts, "", n, e);
    WalkRequests(sts, "", n, e);
    WalkTasks(sts, "", n, e);
    WalkValidFns(sts, "", n, e);
    assert [] + AdditionsUpTo(sts, n) == AdditionsUpTo(sts, n);
    assert [] + Empties(LeafCount(sts, n)) == Empties(LeafCount(sts, n));
    assert [] + RequestsUpTo(sts, 0, n) == RequestsUpTo(sts, 0, n);
    assert [] + TasksUpTo(sts, 0, n) == TasksUpTo(sts, 0, n);
  }
}
