/** How a `SimpleForm` draws its records: the order and names of the items
    `render` draws, and the props `renderItem` passes to `FormItem`. The
    antd controls themselves are not modelled beyond the class name
    `renderItem` adds to them. */
module SimpleFormRender {
  import opened Js
  import opened Text
  import opened Dict
  import opened SimpleForm

  /** `useNodeOrCallFunction(x)`: a function is called, a truthy node is
      used as it is, and a falsy node gives `undefined`. */
  function UseNodeOrCall(p: Provided): (v: Value)
    ensures Truthy(v) <==> Truthy(Resolve(p))
    ensures Truthy(v) ==> v == Resolve(p)
    ensures p.Computed? ==> v == Resolve(p)
    ensures p.Given? && !Truthy(p.v) ==> v == Undefined
  {
    match p
    case Computed(r) => r
    case Given(x) => if Truthy(x) then x else Undefined
  }

  /** The class of the control after `renderItem`: with a control class in
      the addition, it is appended to the control's own class, separated by
      a space, or used alone when the control has none. */
  function MergeClass(existing: string, added: string): string
  {
    if added == "" then existing
    else if existing != "" then existing + " " + added
    else added
  }

  /** The merged class holds the control's own class names followed by the
      addition's, and loses none. */
  lemma MergeClassSplits(existing: string, added: string)
    ensures added == "" ==> MergeClass(existing, added) == existing
    ensures existing == "" ==> MergeClass(existing, added) == added
    ensures existing != "" && added != "" ==>
      Split(MergeClass(existing, added), ' ') == Split(existing, ' ') + Split(added, ' ')
  {
    if existing != "" && added != "" {
      SplitAround(existing, added, ' ');
    }
  }

  /** The label of an item: the field's label, or that label in a `div` of
      the addition's label class. */
  datatype LabelView = Caption(text: string) | LabelDiv(className: string, text: string)

  /** The props `renderItem` passes to `FormItem`, and the class of the
      control it wraps. */
  datatype ItemProps = ItemProps(
    name: string,
    caption: LabelView,
    help: Provided,
    extra: Provided,
    className: string,
    decorator: Value,
    controlClass: string)

  /** `render.extra || extraText`: the item's own extra when it has one,
      the field's `extraText` function otherwise. */
  function ShownExtra(f: FormField): Provided
    requires f.Leaf?
  {
    if f.render.extra.Computed? || Truthy(f.render.extra.v) then f.render.extra else f.extraText
  }

  /** `renderItem` for leaf `f` drawn under `name` with addition `a`, the
      control `render.control` returns having class `controlClass`: nothing
      once `formInit` has run and `hidden()` is truthy, otherwise a
      `FormItem`. */
  function RenderItem(hideFields: bool, name: string, f: FormField, a: AdditionState, controlClass: string)
    : (r: Option<ItemProps>)
    requires f.Leaf?
  {
    if hideFields && Truthy(Resolve(f.hidden)) then None
    else
      Some(ItemProps(name, if a.labelClass == "" then Caption(f.caption) else LabelDiv(a.labelClass, f.caption),
                     f.render.help, ShownExtra(f), a.itemClass, a.decorator, MergeClass(controlClass, a.controlClass)))
  }

  /** For the record `initForm` compiles from spec `st`: the item is left
      out exactly when the fields are hidden and the spec's `hidden` gives
      a truthy value; otherwise it shows the spec's help, the spec's own
      extra when it gives one and its `extraText` otherwise, the addition's
      item class and decorator flag, and the control keeps its classes and
      gains the addition's. */
  lemma {:induction false} RenderItemOfSpec(hideFields: bool, name: string, st: FormState, id: nat,
                                            a: AdditionState, controlClass: string)
    ensures var r := RenderItem(hideFields, name, CompileLeaf(st, id), a, controlClass);
      r.None? <==> hideFields && Truthy(Resolve(st.hidden))
    ensures var r := RenderItem(hideFields, name, CompileLeaf(st, id), a, controlClass);
      r.Some? ==>
        && r.value.name == name
        && Resolve(r.value.help) == Resolve(st.render.help)
        && Resolve(r.value.extra) ==
             (if st.render.extra.Computed? || Truthy(st.render.extra.v) then Resolve(st.render.extra)
              else Resolve(st.extraText))
        && r.value.className == a.itemClass && r.value.decorator == a.decorator
        && (a.controlClass != "" && controlClass != "" ==>
              Split(r.value.controlClass, ' ') == Split(controlClass, ' ') + Split(a.controlClass, ' '))
        && (a.controlClass == "" ==> r.value.controlClass == controlClass)
  {
    CompileLeafThunks(st, id);
    MergeClassSplits(controlClass, a.controlClass);
    NormalizeRenderResolves(st.render.extra);
  }

  // ---------------------------------------------------------------------
  // The items `render` draws

  /** The items drawn for the children of group `g`: each child under
      `g + "." + childName`; a child that is itself a group has no `render`,
      so drawing it throws (`None`). */
  function GroupItems(g: string, kids: Dict<FormField>): Option<seq<(string, FormField)>>
    decreases kids
  {
    if kids == [] then Some([])
    else
      var rest := GroupItems(g, kids[1..]);
      if kids[0].1.Group? || rest.None? then None
      else Some([(g + "." + kids[0].0, kids[0].1)] + rest.value)
  }

  /** The items `render` draws from `state.fields`, in order: a leaf under
      its own name, a group's leaves under their full names (`None` where
      drawing throws). The `FormX` wrapper, the group captions and the
      values read from rc-form are not modelled. */
  function RenderPlan(fs: Dict<FormField>): Option<seq<(string, FormField)>>
    decreases fs
  {
    if fs == [] then Some([])
    else
      var rest := RenderPlan(fs[1..]);
      var here := if fs[0].1.Leaf? then Some([fs[0]]) else GroupItems(fs[0].0, fs[0].1.children);
      if here.None? || rest.None? then None else Some(here.value + rest.value)
  }

  /** `name` is a name `render` can draw from records `fs`: a leaf's own
      name, or a group's name, a dot and the name of one of its leaves. */
  ghost predicate Drawable(fs: Dict<FormField>, name: string)
  {
    || (exists f :: (name, f) in EntrySet(fs) && f.Leaf?)
    || (exists g: string, caption: string, kids: Dict<FormField>, s: string, f: FormField ::
          (g, Group(caption, kids)) in EntrySet(fs) && (s, f) in EntrySet(kids)
          && f.Leaf? && name == g + "." + s)
  }

  /** Every item a group draws is one of its leaves under its full name. */
  lemma {:induction false} GroupItemsDrawable(g: string, kids: Dict<FormField>)
    requires GroupItems(g, kids).Some?
    ensures forall it :: it in GroupItems(g, kids).value ==>
      it.1.Leaf? && exists s :: (s, it.1) in EntrySet(kids) && it.0 == g + "." + s
    decreases kids
  {
    if kids != [] {
      GroupItemsDrawable(g, kids[1..]);
    }
  }

  /** Every item `render` draws is a leaf, under a drawable name. */
  lemma {:induction false} RenderPlanDrawable(fs: Dict<FormField>)
    requires RenderPlan(fs).Some?
    ensures forall it :: it in RenderPlan(fs).value ==> it.1.Leaf? && Drawable(fs, it.0)
    decreases fs
  {
    if fs != [] {
      RenderPlanDrawable(fs[1..]);
      if fs[0].1.Group? {
        GroupItemsDrawable(fs[0].0, fs[0].1.children);
      }
    }
  }

  // ---------------------------------------------------------------------
  // Drawn names are decorator names

  /** The names of the leaves among the first `n` entries. */
  ghost function TopLeafNames(sts: FormStates, n: nat): set<string>
    requires n <= |sts.entries|
  {
    if n == 0 then {}
    else TopLeafNames(sts, n - 1) + if sts.entries[n - 1].1.children.None? then {sts.entries[n - 1].0} else {}
  }

  /** The full names of the leaves of the groups among the first `n`
      entries: the group's name, a dot and the leaf's name. */
  ghost function GroupedNames(sts: FormStates, n: nat): set<string>
    requires n <= |sts.entries|
  {
    if n == 0 then {}
    else
      var name := sts.entries[n - 1].0;
      GroupedNames(sts, n - 1) +
        match sts.entries[n - 1].1.children
        case None => {}
        case Some(kids) => set s | s in TopLeafNames(kids, |kids.entries|) :: name + "." + s
  }

  /** The keys `getFormFields(sts, prefix)` gives the leaves of the first
      `n` entries, as `LeafEntries` does without the options. */
  ghost function LeafKeys(sts: FormStates, prefix: string, n: nat): set<string>
    requires n <= |sts.entries|
    decreases sts, n
  {
    if n == 0 then {}
    else
      var name := sts.entries[n - 1].0;
      LeafKeys(sts, prefix, n - 1) +
        match sts.entries[n - 1].1.children
        case None => {prefix + name}
        case Some(kids) => LeafKeys(kids, name + ".", |kids.entries|)
  }

  /** Every leaf key is a key `getFormFields` collects. */
  lemma {:induction false} LeafKeysCollected(sts: FormStates, prefix: string, n: nat)
    requires n <= |sts.entries|
    ensures LeafKeys(sts, prefix, n) <= KeySet(FieldsUpTo(sts, prefix, n))
    decreases sts, n
  {
    if n > 0 {
      LeafKeysCollected(sts, prefix, n - 1);
      var name := sts.entries[n - 1].0;
      var st := sts.entries[n - 1].1;
      var prev := FieldsUpTo(sts, prefix, n - 1);
      match st.children {
        case None =>
          FieldsStepLeaf(sts, prefix, n - 1);
          AssignFacts(prev, prefix + name, LeafOptions(st));
        case Some(kids) =>
          FieldsStepGroup(sts, prefix, n - 1);
          LeafKeysCollected(kids, name + ".", |kids.entries|);
      }
    }
  }

  /** A top-level leaf's name under the prefix, and a grouped leaf's full
      name, are leaf keys. */
  lemma {:induction false} DrawnNamesAreLeafKeys(sts: FormStates, prefix: string, n: nat)
    requires n <= |sts.entries|
    ensures forall k :: k in TopLeafNames(sts, n) ==> prefix + k in LeafKeys(sts, prefix, n)
    ensures GroupedNames(sts, n) <= LeafKeys(sts, prefix, n)
  {
    if n > 0 {
      DrawnNamesAreLeafKeys(sts, prefix, n - 1);
      var name := sts.entries[n - 1].0;
      match sts.entries[n - 1].1.children {
        case None =>
        case Some(kids) =>
          DrawnNamesAreLeafKeys(kids, name + ".", |kids.entries|);
      }
    }
  }

  /** Every name a `_dropdown` validator is registered under is a leaf key,
      so the handler `renderSelect` looks up for a drawn select is there and
      captures that select's own validator. */
  lemma {:induction false} SelectsAreLeafKeys(sts: FormStates, prefix: string, n: nat)
    requires n <= |sts.entries|
    ensures forall k :: k in SelectsUpTo(sts, prefix, n) ==> k in LeafKeys(sts, prefix, n)
    decreases sts, n
  {
    if n > 0 {
      SelectsAreLeafKeys(sts, prefix, n - 1);
      var name := sts.entries[n - 1].0;
      match sts.entries[n - 1].1.children {
        case None =>
          SelectsStepLeaf(sts, prefix, n);
        case Some(kids) =>
          SelectsStepGroup(sts, prefix, n);
          SelectsAreLeafKeys(kids, name + ".", |kids.entries|);
      }
    }
  }

  /** As written, a select `s` inside a group `g` gets its `_dropdown`
      handler under `s`, a name no field is decorated or drawn under, while
      `render` draws it as `g.s` and looks the handler up there. */
  lemma GroupedSelectAsWritten(g: string, s: string, st: FormState, gst: FormState)
    requires st.kind == Some("select") && st.children.None?
    requires gst.children == Some(FormStates([(s, st)]))
    ensures SelectsAsWritten(FormStates([(g, gst)]), "", 1) == [s]
    ensures SelectsUpTo(FormStates([(g, gst)]), "", 1) == [g + "." + s]
    ensures LeafKeys(FormStates([(g, gst)]), "", 1) == {g + "." + s}
    ensures s !in LeafKeys(FormStates([(g, gst)]), "", 1)
  {
    var top := FormStates([(g, gst)]);
    var kids := FormStates([(s, st)]);
    assert SelectsAsWritten(kids, "", 1) == [] + ["" + s];
    assert "" + s == s;
    assert SelectsAsWritten(top, "", 1) == [] + SelectsAsWritten(kids, "", 1);
    assert SelectsUpTo(kids, g + ".", 1) == [] + [g + "." + s];
    assert SelectsUpTo(top, "", 1) == [] + SelectsUpTo(kids, g + ".", 1);
    assert LeafKeys(kids, g + ".", 1) == {} + {g + "." + s};
    assert LeafKeys(top, "", 1) == {} + LeafKeys(kids, g + ".", 1);
    assert |g + "." + s| > |s|;
  }

  /** `a` is a suffix of `b`. */
  predicate EndsWith(b: string, a: string)
  {
    |a| <= |b| && b[|b| - |a|..] == a
  }

  /** The names in `a` are, one by one, suffixes of the names in `b`. */
  predicate SuffixWise(a: seq<string>, b: seq<string>)
  {
    |a| == |b| && forall i :: 0 <= i < |a| ==> EndsWith(b[i], a[i])
  }

  lemma SuffixWiseAppend(a: seq<string>, b: seq<string>, c: seq<string>, d: seq<string>)
    requires SuffixWise(a, b) && SuffixWise(c, d)
    ensures SuffixWise(a + c, b + d)
  {
    forall i | 0 <= i < |a + c| ensures EndsWith((b + d)[i], (a + c)[i]) {
      if i < |a| {
        assert (a + c)[i] == a[i] && (b + d)[i] == b[i];
      } else {
        assert (a + c)[i] == c[i - |a|] && (b + d)[i] == d[i - |a|];
      }
    }
  }

  lemma EndsWithPrefixed(p: string, q: string, name: string)
    requires EndsWith(p, q)
    ensures EndsWith(p + name, q + name)
  {
    assert (p + name)[|p + name| - |q + name|..] == p[|p| - |q|..] + name;
  }

  /** No entry among the first `n` is a group. */
  predicate NoGroups(sts: FormStates, n: nat)
    requires n <= |sts.entries|
  {
    forall i :: 0 <= i < n ==> sts.entries[i].1.children.None?
  }

  /** For every spec, `initForm` as written registers one `_dropdown`
      validator per select, as the corrected walk does, but under a name
      that is a suffix of the corrected one: the group's name and dot are
      dropped (`prefix` standing for any prefix the corrected walk ends
      with). Without groups, both register the same names. */
  lemma {:induction false} AsWrittenDropsGroupNames(sts: FormStates, prefix: string, prefix': string, n: nat)
    requires n <= |sts.entries|
    requires EndsWith(prefix', prefix)
    ensures SuffixWise(SelectsAsWritten(sts, prefix, n), SelectsUpTo(sts, prefix', n))
    ensures prefix == prefix' && NoGroups(sts, n) ==> SelectsAsWritten(sts, prefix, n) == SelectsUpTo(sts, prefix', n)
    decreases sts, n
  {
    if n > 0 {
      AsWrittenDropsGroupNames(sts, prefix, prefix', n - 1);
      var name := sts.entries[n - 1].0;
      var st := sts.entries[n - 1].1;
      match st.children {
        case None =>
          SelectsStepLeaf(sts, prefix', n);
          SelectsAsWrittenStepLeaf(sts, prefix, n);
          if st.kind == Some("select") {
            EndsWithPrefixed(prefix', prefix, name);
          }
          SuffixWiseAppend(SelectsAsWritten(sts, prefix, n - 1), SelectsUpTo(sts, prefix', n - 1),
                           LeafSelects(prefix, name, st), LeafSelects(prefix', name, st));
        case Some(kids) =>
          SelectsStepGroup(sts, prefix', n);
          SelectsAsWrittenStepGroup(sts, prefix, n);
          AsWrittenDropsGroupNames(kids, "", name + ".", |kids.entries|);
          SuffixWiseAppend(SelectsAsWritten(sts, prefix, n - 1), SelectsUpTo(sts, prefix', n - 1),
                           SelectsAsWritten(kids, "", |kids.entries|), SelectsUpTo(kids, name + ".", |kids.entries|));
      }
    }
  }

  /** A leaf record of `initForm` is stored under the name of a leaf spec,
      and a group record's leaves under names whose full names are the
      group's grouped names. */
  lemma {:induction false} RecordsDrawn(sts: FormStates, base: nat, n: nat)
    requires n <= |sts.entries|
    ensures forall k, f :: (k, f) in EntrySet(RecordsUpTo(sts, base, n)) && f.Leaf? ==> k in TopLeafNames(sts, n)
    ensures forall k: string, caption: string, kids: Dict<FormField>, s: string, f: FormField ::
      (k, Group(caption, kids)) in EntrySet(RecordsUpTo(sts, base, n)) && (s, f) in EntrySet(kids) && f.Leaf? ==>
        k + "." + s in GroupedNames(sts, n)
    decreases sts, n
  {
    if n > 0 {
      RecordsDrawn(sts, base, n - 1);
      var prev := RecordsUpTo(sts, base, n - 1);
      var name := sts.entries[n - 1].0;
      var st := sts.entries[n - 1].1;
      var id := base + LeafCount(sts, n - 1);
      match st.children {
        case None =>
          RecordsStepLeaf(sts, base, n, id);
          AssignEntries(prev, name, CompileLeaf(st, id));
        case Some(kids) =>
          RecordsStepGroup(sts, base, n, id);
          AssignEntries(prev, name, Group(st.caption, Records(kids, id)));
          RecordsDrawn(kids, id, |kids.entries|);
      }
    }
  }

  /** Every name `render` can draw from the records `initForm` compiles is
      a name `getFormFields` registered a decorator (and, at construction,
      a validate function) under. */
  lemma DrawableNamesRegistered(sts: FormStates, name: string)
    requires Drawable(Records(sts, 0), name)
    ensures name in KeySet(FormFieldsOf(sts, ""))
  {
    var n := |sts.entries|;
    RecordsDrawn(sts, 0, n);
    DrawnNamesAreLeafKeys(sts, "", n);
    LeafKeysCollected(sts, "", n);
    assert "" + name == name;
  }

  /** Every item `render` draws from the compiled records carries a name
      `getFormFields` registered. */
  lemma RenderPlanRegistered(sts: FormStates)
    requires RenderPlan(Records(sts, 0)).Some?
    ensures forall it :: it in RenderPlan(Records(sts, 0)).value ==> it.0 in KeySet(FormFieldsOf(sts, ""))
  {
    RenderPlanDrawable(Records(sts, 0));
    forall it | it in RenderPlan(Records(sts, 0)).value
      ensures it.0 in KeySet(FormFieldsOf(sts, ""))
    {
      DrawableNamesRegistered(sts, it.0);
    }
  }
}
