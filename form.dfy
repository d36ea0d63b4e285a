/** `FormX`, the object every form component shares: the decorator and
    validate-function registries, the error map filled from rc-form's error
    tree, the submit handler and the deferred dropdown-close validators; and
    the `FormComponent` lifecycle that creates it. */
module Form {
  import opened Js
  import opened Text
  import opened Dict
  import Host

  /** The options passed to `getFieldDecorator` for one field. */
  datatype FieldOptions = FieldOptions(
    initialValue: Value,
    rules: Value,
    validateFirst: bool,
    preserve: bool,
    valuePropName: Option<string>)

  /** The error object a validation callback receives: the node of a field
      carries its messages (`{ errors: [{ message }, ...] }`); above it, one
      object level per segment of a dotted field name. */
  datatype ErrorTree =
    | Messages(messages: seq<string>)
    | Nested(children: map<string, ErrorTree>)

  /** `err = err && err[x]` for one segment `x`. */
  function Step(err: Option<ErrorTree>, seg: string): Option<ErrorTree>
  {
    match err
    case None => None
    case Some(Nested(children)) => if seg in children then Some(children[seg]) else None
    case Some(Messages(_)) => None
  }

  /** `err` after stepping through every segment in turn. */
  function Walk(err: Option<ErrorTree>, segs: seq<string>): Option<ErrorTree>
    decreases |segs|
  {
    if segs == [] then err else Walk(Step(err, segs[0]), segs[1..])
  }

  /** An entry of the error map: no entry (`undefined`), cleared (`null`),
      or the list of messages. */
  datatype Entry = Absent | Cleared | Listed(messages: seq<string>)

  /** The `errors` argument of `setErrors`: rc-form's callback passes `null`
      when the field validates and an error tree when it does not; a caller
      of a form handle may also pass `undefined`. */
  datatype ErrorArg = UndefinedArg | NullArg | TreeArg(tree: ErrorTree)

  /** The entry `setErrors(name, err)` stores. A falsy argument survives every
      `err && err[x]` step and is stored as it is; a tree is walked along the
      segments. `None` where it throws, because the walk stops at an
      intermediate object, which has no `errors` list. */
  function ErrorEntry(err: ErrorArg, name: string): (r: Option<Entry>)
    ensures r == Some(Cleared) <==> err == NullArg
    ensures r == Some(Absent) <==> err == UndefinedArg || (err.TreeArg? && Walk(Some(err.tree), Split(name, '.')).None?)
    ensures r.Some? && r.value.Listed? ==> err.TreeArg? && Walk(Some(err.tree), Split(name, '.')) == Some(Messages(r.value.messages))
  {
    match err
    case UndefinedArg => Some(Absent)
    case NullArg => Some(Cleared)
    case TreeArg(t) =>
      match Walk(Some(t), Split(name, '.'))
      case None => Some(Absent)
      case Some(Messages(m)) => Some(Listed(m))
      case Some(Nested(_)) => None
  }

  lemma {:induction false} WalkAppend(err: Option<ErrorTree>, a: seq<string>, b: seq<string>)
    ensures Walk(err, a + b) == Walk(Walk(err, a), b)
    decreases |a|
  {
    if a != [] {
      assert (a + b)[0] == a[0] && (a + b)[1..] == a[1..] + b;
      WalkAppend(Step(err, a[0]), a[1..], b);
      assert Walk(err, a + b) == Walk(Step(err, a[0]), a[1..] + b);
    } else {
      assert a + b == b;
    }
  }

  lemma {:induction false} WalkNothing(segs: seq<string>)
    ensures Walk(None, segs) == None
    decreases |segs|
  {
    if segs != [] {
      WalkNothing(segs[1..]);
    }
  }

  /** The tree that holds `messages` under the path `segs`. */
  function Nest(segs: seq<string>, messages: seq<string>): ErrorTree
    decreases |segs|
  {
    if segs == [] then Messages(messages)
    else Nested(map[segs[0] := Nest(segs[1..], messages)])
  }

  lemma {:induction false} WalkNest(segs: seq<string>, messages: seq<string>)
    ensures Walk(Some(Nest(segs, messages)), segs) == Some(Messages(messages))
    decreases |segs|
  {
    if segs != [] {
      WalkNest(segs[1..], messages);
    }
  }

  /** A field's messages are found again under its dotted name, in their
      original order. */
  lemma {:induction false} ErrorEntryOfNest(segs: seq<string>, messages: seq<string>)
    requires |segs| >= 1
    requires forall k :: 0 <= k < |segs| ==> '.' !in segs[k]
    ensures ErrorEntry(TreeArg(Nest(segs, messages)), Join(segs, '.')) == Some(Listed(messages))
  {
    SplitJoin(segs, '.');
    WalkNest(segs, messages);
  }

  /** When some segment of the name is missing from the tree, the field's
      entry becomes `undefined` (falsy). */
  lemma {:induction false} MissingSegmentClears(err: ErrorTree, name: string, k: nat)
    requires k < |Split(name, '.')|
    requires Step(Walk(Some(err), Split(name, '.')[..k]), Split(name, '.')[k]).None?
    ensures ErrorEntry(TreeArg(err), name) == Some(Absent)
  {
    var segs := Split(name, '.');
    assert segs == segs[..k] + ([segs[k]] + segs[k + 1..]);
    WalkAppend(Some(err), segs[..k], [segs[k]] + segs[k + 1..]);
    WalkNothing(segs[k + 1..]);
  }

  /** What a function stored in `validFns` does: a field's own validator runs
      `validateFields([name], ...)`; a `<name>_dropdown` handler holds the
      function `validFns[name]` held when it was registered (`None` when there
      was none). */
  datatype ValidFn =
    | FieldValidator(name: string)
    | DropdownHandler(captured: Option<ValidFn>)

  function Lookup(fns: map<string, ValidFn>, key: string): (r: Option<ValidFn>)
    ensures r.Some? <==> key in fns
    ensures r.Some? ==> r.value == fns[key]
  {
    if key in fns then Some(fns[key]) else None
  }

  /** `validFns` after `setSelectValidFn(...names)`. */
  function Registered(fns: map<string, ValidFn>, names: seq<string>): map<string, ValidFn>
    decreases |names|
  {
    if names == [] then fns
    else Registered(fns[names[0] + "_dropdown" := DropdownHandler(Lookup(fns, names[0]))], names[1..])
  }

  /** Registering dropdown handlers adds a `<name>_dropdown` key per name and
      leaves every other key as it was. */
  lemma {:induction false} RegisteredKeys(fns: map<string, ValidFn>, names: seq<string>)
    ensures Registered(fns, names).Keys == fns.Keys + set n | n in names :: n + "_dropdown"
    ensures forall k :: k in fns && (forall n :: n in names ==> k != n + "_dropdown") ==>
      Registered(fns, names)[k] == fns[k]
    decreases |names|
  {
    if names != [] {
      var next := fns[names[0] + "_dropdown" := DropdownHandler(Lookup(fns, names[0]))];
      RegisteredKeys(next, names[1..]);
      assert names == [names[0]] + names[1..];
    }
  }

  /** Registering two lists of names one after the other is registering
      their concatenation. */
  lemma {:induction false} RegisteredAppend(fns: map<string, ValidFn>, a: seq<string>, b: seq<string>)
    ensures Registered(fns, a + b) == Registered(Registered(fns, a), b)
    decreases |a|
  {
    if a != [] {
      var next := fns[a[0] + "_dropdown" := DropdownHandler(Lookup(fns, a[0]))];
      RegisteredAppend(next, a[1..], b);
      assert (a + b)[0] == a[0] && (a + b)[1..] == a[1..] + b;
    } else {
      assert a + b == b;
    }
  }

  /** A handler registered for a field that already has a validator captures
      exactly that validator. */
  lemma RegisteredCaptures(fns: map<string, ValidFn>, x: string)
    requires x in fns
    ensures x + "_dropdown" in Registered(fns, [x])
    ensures Registered(fns, [x])[x + "_dropdown"] == DropdownHandler(Some(fns[x]))
  {
    assert [x][1..] == [];
  }

  /** The outcome of whole-form validation, as rc-form reports it. */
  datatype Validation = Passed(values: Value) | Failed(err: ErrorTree)

  /** The error map after the success branch of `submitForm`. */
  function ClearAll(errors: map<string, Entry>, names: seq<string>): map<string, Entry>
    decreases |names|
  {
    if names == [] then errors else ClearAll(errors[names[0] := Cleared], names[1..])
  }

  /** The error map after the failure branch of `submitForm`, and whether
      every `setErrors` call returned (`false` at the first one that throws,
      which ends the loop). */
  function RecordAll(errors: map<string, Entry>, names: seq<string>, err: ErrorTree): (map<string, Entry>, bool)
    decreases |names|
  {
    if names == [] then (errors, true)
    else
      match ErrorEntry(TreeArg(err), names[0])
      case None => (errors, false)
      case Some(e) => RecordAll(errors[names[0] := e], names[1..], err)
  }

  /** On success every field's entry is `null`, and nothing else changes. */
  lemma {:induction false} ClearAllEntries(errors: map<string, Entry>, names: seq<string>)
    ensures ClearAll(errors, names).Keys == errors.Keys + set n | n in names
    ensures forall n :: n in names ==> ClearAll(errors, names)[n] == Cleared
    ensures forall k :: k in errors && k !in names ==> ClearAll(errors, names)[k] == errors[k]
    decreases |names|
  {
    if names != [] {
      ClearAllEntries(errors[names[0] := Cleared], names[1..]);
      assert names == [names[0]] + names[1..];
    }
  }

  /** On failure, if no `setErrors` throws, every field's entry is the one its
      own walk of the error tree yields (so a field the tree does not mention
      becomes falsy), and nothing else changes. */
  lemma {:induction false} RecordAllEntries(errors: map<string, Entry>, names: seq<string>, err: ErrorTree)
    ensures RecordAll(errors, names, err).1 <==> forall n :: n in names ==> ErrorEntry(TreeArg(err), n).Some?
    ensures RecordAll(errors, names, err).1 ==>
      RecordAll(errors, names, err).0.Keys == errors.Keys + (set n | n in names)
      && (forall n :: n in names ==> RecordAll(errors, names, err).0[n] == ErrorEntry(TreeArg(err), n).value)
      && (forall k :: k in errors && k !in names ==> RecordAll(errors, names, err).0[k] == errors[k])
    decreases |names|
  {
    if names != [] {
      assert names == [names[0]] + names[1..];
      match ErrorEntry(TreeArg(err), names[0])
      case None =>
      case Some(e) =>
        RecordAllEntries(errors[names[0] := e], names[1..], err);
    }
  }

  /** What a decorated form item wraps its child with. */
  datatype Control = Decorated(name: string, options: FieldOptions, child: Value) | Undecorated(child: Value)

  /** What `FormItem` renders: the falsy children themselves, a form item, or
      a `TypeError` when a decorated item names no registered field. */
  datatype ItemView =
    | NoItem(children: Value)
    | Item(caption: Value, status: Value, help: Value, extra: Value, control: Control)
    | ItemThrows

  class FormX {
    var fields: Dict<FieldOptions>
    var errors: map<string, Entry>
    var validFns: map<string, ValidFn>
    /** Dropdown validations scheduled with `setTimeout`, oldest first: each
        holds the function its handler captured. */
    var timers: seq<Option<ValidFn>>
    /** The values handed to `submitCallback`, in order. */
    var submissions: seq<Value>
    /** The owner's `triggerUpdate`, when one was passed. */
    const host: Host.Host?

    /** Registers a decorator and a single-field validate function for every
        field `getFormFields` returns. */
    constructor(formFields: Dict<FieldOptions>, host: Host.Host?)
      requires DistinctKeys(formFields)
      ensures fields == formFields
      ensures validFns == map n | n in KeySet(formFields) :: FieldValidator(n)
      ensures errors == map[] && timers == [] && submissions == []
      ensures this.host == host
    {
      var fs: Dict<FieldOptions> := [];
      var fns: map<string, ValidFn> := map[];
      DistinctKeysPairwise(formFields);
      for i := 0 to |formFields|
        invariant fs == formFields[..i]
        invariant fns == map n | n in KeySet(formFields[..i]) :: FieldValidator(n)
      {
        var name := formFields[i].0;
        assert forall j :: 0 <= j < i ==> formFields[..i][j].0 != name;
        KeyAbsent(formFields[..i], name);
        AssignFacts(fs, name, formFields[i].1);
        fs := Assign(fs, name, formFields[i].1);
        fns := fns[name := FieldValidator(name)];
        assert formFields[..i + 1] == formFields[..i] + [formFields[i]];
        KeySetAppend(formFields[..i], [formFields[i]]);
      }
      assert formFields[..|formFields|] == formFields;
      fields := fs;
      validFns := fns;
      errors := map[];
      timers := [];
      submissions := [];
      this.host := host;
    }

    /** The error entry of a field (no key reads as `undefined`). */
    function ErrorOf(name: string): (e: Entry)
      reads this
      ensures name !in errors ==> e == Absent
    {
      if name in errors then errors[name] else Absent
    }

    /** `getItemHelp(name)`: the first stored message, or a falsy value when
        the field has no messages. */
    function GetItemHelp(name: string): (r: Value)
      reads this
      ensures ErrorOf(name).Listed? && ErrorOf(name).messages != [] ==> r == Str(ErrorOf(name).messages[0])
      ensures ErrorOf(name) == Absent ==> r == Undefined
      ensures ErrorOf(name) == Cleared ==> r == Null
      ensures !(ErrorOf(name).Listed? && ErrorOf(name).messages != []) ==> !Truthy(r)
    {
      match ErrorOf(name)
      case Absent => Undefined
      case Cleared => Null
      case Listed(m) => if m == [] then Undefined else Str(m[0])
    }

    /** `setErrors(name, err)`: walks `err` along the dot-separated segments
        of `name` and stores what it finds; `ok` is false where the source
        throws, and then nothing is stored. */
    method SetErrors(name: string, err: ErrorArg) returns (ok: bool)
      modifies this
      ensures ok <==> ErrorEntry(err, name).Some?
      ensures ok ==> errors == old(errors)[name := ErrorEntry(err, name).value]
      ensures !ok ==> errors == old(errors)
      ensures fields == old(fields) && validFns == old(validFns)
      ensures timers == old(timers) && submissions == old(submissions)
    {
      if err == UndefinedArg || err == NullArg {
        // `err && err[x]` leaves a falsy argument as it is.
        errors := errors[name := if err == NullArg then Cleared else Absent];
        return true;
      }
      var segs := Split(name, '.');
      var node := Some(err.tree);
      var i := 0;
      while i < |segs|
        invariant 0 <= i <= |segs|
        invariant Walk(node, segs[i..]) == Walk(Some(err.tree), segs)
      {
        assert segs[i..][0] == segs[i] && segs[i..][1..] == segs[i + 1..];
        node := Step(node, segs[i]);
        i := i + 1;
      }
      match node {
        case None =>
          errors := errors[name := Absent];
          ok := true;
        case Some(Messages(m)) =>
          errors := errors[name := Listed(m)];
          ok := true;
        case Some(Nested(_)) =>
          ok := false;
      }
    }

    /** The callback `submitForm` hands to `validateFields`: on success every
        field's entry is set to `null` and `submitCallback` gets the values
        once; on failure every field's entry is recomputed from the error
        tree, in field order, and `submitCallback` is not called. */
    method SubmitForm(outcome: Validation) returns (ok: bool)
      modifies this
      ensures outcome.Passed? ==>
        ok && errors == ClearAll(old(errors), Keys(fields)) && submissions == old(submissions) + [outcome.values]
      ensures outcome.Failed? ==>
        (errors, ok) == RecordAll(old(errors), Keys(fields), outcome.err) && submissions == old(submissions)
      ensures fields == old(fields) && validFns == old(validFns) && timers == old(timers)
    {
      var names := Keys(fields);
      ok := true;
      match outcome {
        case Passed(values) =>
          var i := 0;
          while i < |names|
            invariant 0 <= i <= |names|
            invariant ClearAll(errors, names[i..]) == ClearAll(old(errors), names)
            invariant fields == old(fields) && validFns == old(validFns) && timers == old(timers)
            invariant submissions == old(submissions)
          {
            assert names[i..][0] == names[i] && names[i..][1..] == names[i + 1..];
            errors := errors[names[i] := Cleared];
            i := i + 1;
          }
          submissions := submissions + [values];
        case Failed(err) =>
          var i := 0;
          while i < |names|
            invariant 0 <= i <= |names|
            invariant RecordAll(errors, names[i..], err) == RecordAll(old(errors), names, err)
            invariant fields == old(fields) && validFns == old(validFns) && timers == old(timers)
            invariant submissions == old(submissions)
          {
            assert names[i..][0] == names[i] && names[i..][1..] == names[i + 1..];
            ok := SetErrors(names[i], TreeArg(err));
            if !ok {
              break;
            }
            i := i + 1;
          }
      }
    }

    /** `setSelectValidFn(...names)`: registers a `<name>_dropdown` handler
        per name, capturing the function `validFns[name]` holds now. */
    method SetSelectValidFn(names: seq<string>)
      modifies this
      ensures validFns == Registered(old(validFns), names)
      ensures fields == old(fields) && errors == old(errors)
      ensures timers == old(timers) && submissions == old(submissions)
    {
      var i := 0;
      while i < |names|
        invariant 0 <= i <= |names|
        invariant Registered(validFns, names[i..]) == Registered(old(validFns), names)
        invariant fields == old(fields) && errors == old(errors)
        invariant timers == old(timers) && submissions == old(submissions)
      {
        assert names[i..][0] == names[i] && names[i..][1..] == names[i + 1..];
        var captured := Lookup(validFns, names[i]);
        validFns := validFns[names[i] + "_dropdown" := DropdownHandler(captured)];
        i := i + 1;
      }
    }

    /** Calls `validFns[key](arg)` as a control's event handler does; a key
        with no function is a missing handler and does nothing. A field
        validator validates its field and `err` is what rc-form reports for
        it; a dropdown handler schedules its captured function when `arg` is
        falsy (the dropdown closed) and does nothing when it is truthy. */
    method Invoke(key: string, arg: Value, err: ErrorArg) returns (ok: bool)
      modifies this
      ensures key !in old(validFns) ==> ok && errors == old(errors) && timers == old(timers)
      ensures key in old(validFns) && old(validFns)[key].FieldValidator? ==>
        var name := old(validFns)[key].name;
        ok == ErrorEntry(err, name).Some?
        && (ok ==> errors == old(errors)[name := ErrorEntry(err, name).value])
        && (!ok ==> errors == old(errors))
        && timers == old(timers)
      ensures key in old(validFns) && old(validFns)[key].DropdownHandler? ==>
        ok && errors == old(errors)
        && timers == old(timers) + (if Truthy(arg) then [] else [old(validFns)[key].captured])
      ensures fields == old(fields) && validFns == old(validFns) && submissions == old(submissions)
    {
      ok := true;
      if key in validFns {
        match validFns[key] {
          case FieldValidator(name) =>
            ok := SetErrors(name, err);
          case DropdownHandler(captured) =>
            if !Truthy(arg) {
              timers := timers + [captured];
            }
        }
      }
    }

    /** Runs the oldest scheduled dropdown validation: calls the captured
        function with no argument, then `triggerUpdate` when the form has
        one. With nothing captured, the call throws before the update. */
    method RunTimer(err: ErrorArg) returns (ok: bool)
      requires timers != []
      modifies this, host
      ensures old(timers[0]).None? ==> !ok && errors == old(errors) && timers == old(timers[1..])
      ensures old(timers[0]).Some? && old(timers[0]).value.FieldValidator? ==>
        var name := old(timers[0]).value.name;
        ok == ErrorEntry(err, name).Some?
        && (ok ==> errors == old(errors)[name := ErrorEntry(err, name).value])
        && (!ok ==> errors == old(errors))
        && timers == old(timers[1..])
      ensures old(timers[0]).Some? && old(timers[0]).value.DropdownHandler? ==>
        ok && errors == old(errors) && timers == old(timers[1..]) + [old(timers[0]).value.captured]
      ensures host != null ==> host.updates == old(host.updates) + (if ok then 1 else 0)
      ensures fields == old(fields) && validFns == old(validFns) && submissions == old(submissions)
    {
      var task := timers[0];
      timers := timers[1..];
      match task {
        case None =>
          ok := false;
        case Some(FieldValidator(name)) =>
          ok := SetErrors(name, err);
        case Some(DropdownHandler(captured)) =>
          timers := timers + [captured];
          ok := true;
      }
      if ok && host != null {
        host.TriggerUpdate();
      }
    }

    /** `FormItem`: resolves the help (a missing help falls back to the
        field's first error message, a function help is called) and the
        extra, marks the item as an error iff the field has an error entry,
        and wraps the child in the field's decorator unless `decorator` is
        `false`. */
    function FormItem(name: string, caption: Value, help: Provided, extra: Provided, decorator: Value, children: Value): (v: ItemView)
      reads this
      ensures !Truthy(children) <==> v.NoItem?
      ensures Truthy(children) && decorator != Bool(false) ==> (v.ItemThrows? <==> name !in KeySet(fields))
      ensures v.Item? ==> (v.status == Str("error") <==> ErrorOf(name).Listed?)
      ensures v.Item? ==> (Truthy(v.status) <==> ErrorOf(name).Listed?)
      ensures v.Item? && help.Given? && !Truthy(help.v) ==> v.help == GetItemHelp(name)
      ensures v.Item? && !(help.Given? && !Truthy(help.v)) ==> v.help == Resolve(help)
      ensures v.Item? ==> v.extra == Resolve(extra) && v.caption == caption
      ensures v.Item? && decorator != Bool(false) ==> v.control == Decorated(name, Get(fields, name).value, children)
      ensures v.Item? && decorator == Bool(false) ==> v.control == Undecorated(children)
    {
      var shownHelp := match help
        case Given(h) => if Truthy(h) then h else GetItemHelp(name)
        case Computed(r) => r;
      var shownExtra := Resolve(extra);
      if !Truthy(children) then NoItem(children)
      else
        var status := match ErrorOf(name)
          case Absent => Undefined
          case Cleared => Null
          case Listed(_) => Str("error");
        if decorator == Bool(false) then Item(caption, status, shownHelp, shownExtra, Undecorated(children))
        else match Get(fields, name)
          case None => ItemThrows
          case Some(options) => Item(caption, status, shownHelp, shownExtra, Decorated(name, options, children))
    }
  }

  /** The steps of a form component's start-up, in the order they happen. */
  datatype LifecycleEvent = FormCreated | UpdateTriggered | FormInitRan

  /** The lifecycle `FormComponent` gives every form: the form is created in
      the constructor, or in `componentDidMount` when `lazyInit` is set (then
      followed by a re-render); `formInit` runs in `componentDidMount` in both
      cases. */
  class FormComponent {
    const lazyInit: bool
    const formFields: Dict<FieldOptions>
    const host: Host.Host
    var form: FormX?
    var events: seq<LifecycleEvent>

    constructor(lazyInit: bool, formFields: Dict<FieldOptions>, host: Host.Host)
      requires DistinctKeys(formFields)
      ensures this.lazyInit == lazyInit && this.formFields == formFields && this.host == host
      ensures lazyInit ==> form == null && events == []
      ensures !lazyInit ==>
        form != null && fresh(form) && form.fields == formFields && form.host == host && events == [FormCreated]
    {
      this.lazyInit := lazyInit;
      this.formFields := formFields;
      this.host := host;
      if !lazyInit {
        form := new FormX(formFields, host);
        events := [FormCreated];
      } else {
        form := null;
        events := [];
      }
    }

    method ComponentDidMount()
      requires DistinctKeys(formFields)
      requires form == null <==> lazyInit
      modifies this, host
      ensures form != null
      ensures lazyInit ==>
        fresh(form) && form.fields == formFields && form.host == host
        && events == old(events) + [FormCreated, UpdateTriggered, FormInitRan]
        && host.updates == old(host.updates) + 1
      ensures !lazyInit ==>
        form == old(form) && events == old(events) + [FormInitRan] && host.updates == old(host.updates)
    {
      if lazyInit {
        form := new FormX(formFields, host);
        events := events + [FormCreated];
        host.TriggerUpdate();
        events := events + [UpdateTriggered];
      }
      events := events + [FormInitRan];
    }
  }

  /** Constructing and mounting a form component creates its form exactly
      once, before `formInit` runs, with or without `lazyInit`. */
  method StartUp(lazyInit: bool, formFields: Dict<FieldOptions>, host: Host.Host) returns (c: FormComponent)
    requires DistinctKeys(formFields)
    modifies host
    ensures c.form != null && c.form.fields == formFields
    ensures c.events == if lazyInit then [FormCreated, UpdateTriggered, FormInitRan] else [FormCreated, FormInitRan]
    ensures host.updates == old(host.updates) + (if lazyInit then 1 else 0)
  {
    c := new FormComponent(lazyInit, formFields, host);
    c.ComponentDidMount();
  }
}
