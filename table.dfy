/** `src/table.tsx`: the column render overrides `TableX` takes from its
    `column-<index or key>` props, and the paging and loading state of
    `TableComponent`. */
module Tables {
  import opened Js
  import opened Text
  import opened Dict

  /** What a column draws its cells with: antd's default (no `render`), a
      function given as the prop, or `() => value` for a string prop. */
  datatype Render = Default | Function(f: Value) | Constant(text: string)

  /** An antd column: its `key` (a string or a number) and its `render`. Its
      other options are never touched by `TableX`. */
  datatype Column = Column(key: Value, render: Render)

  /** The prefix of the props that override a column's `render`. */
  const Prefix: string := "column-"

  /** `typeof value === 'string' ? () => value : value`: a string becomes a
      constant render, anything else is used as the render itself. */
  function RenderOf(value: Value): (r: Render)
    ensures r.Constant? <==> value.Str?
    ensures r.Constant? ==> r.text == value.s
    ensures r.Function? ==> r.f == value
  {
    match value
    case Str(s) => Constant(s)
    case _ => Function(value)
  }

  /** `columns.findIndex((column) => column.key === key)`: the first column
      whose key is the string `key`, or -1 when there is none. */
  function FindKey(cols: seq<Column>, key: string): (r: int)
    ensures -1 <= r < |cols|
    ensures r >= 0 ==> StrictEquals(cols[r].key, Str(key))
    ensures r >= 0 ==> forall j :: 0 <= j < r ==> !StrictEquals(cols[j].key, Str(key))
    ensures r == -1 <==> forall j :: 0 <= j < |cols| ==> !StrictEquals(cols[j].key, Str(key))
  {
    if cols == [] then -1
    else if StrictEquals(cols[0].key, Str(key)) then 0
    else
      var r := FindKey(cols[1..], key);
      assert forall j :: 1 <= j < |cols| ==> cols[j] == cols[1..][j - 1];
      if r == -1 then -1 else r + 1
  }

  /** The column a `column-<suffix>` prop names: `parseInt(suffix, 10)` when
      that is a number (which may lie outside the columns), otherwise the
      first column keyed `suffix`, or -1. */
  function ResolveIndex(suffix: string, cols: seq<Column>): int
  {
    match ParseInt(suffix)
    case Some(n) => n
    case None => FindKey(cols, suffix)
  }

  /** The prop `key` names column `j` of `cols`. */
  predicate Names(key: string, cols: seq<Column>, j: int)
  {
    StartsWith(key, Prefix) && ResolveIndex(key[|Prefix|..], cols) == j
  }

  /** The prop `key` names a column past the last one: `props.columns[index]`
      is `undefined` and assigning its `render` throws a `TypeError`. */
  predicate OutOfRange(key: string, cols: seq<Column>)
  {
    StartsWith(key, Prefix) && ResolveIndex(key[|Prefix|..], cols) >= |cols|
  }

  /** The columns after the overrides, and whether the `forEach` ran to its
      end (false where it threw). */
  datatype Outcome = Outcome(cols: seq<Column>, ok: bool)

  /** One prop `key: value` of the `forEach`. */
  function Override(cols: seq<Column>, key: string, value: Value): (r: Outcome)
    ensures |r.cols| == |cols|
  {
    if !StartsWith(key, Prefix) then Outcome(cols, true)
    else
      var index := ResolveIndex(key[|Prefix|..], cols);
      if index < 0 then Outcome(cols, true)
      else if index >= |cols| then Outcome(cols, false)
      else Outcome(cols[index := cols[index].(render := RenderOf(value))], true)
  }

  /** The `forEach` over the first `n` entries of `props`; it stops at the
      first entry that throws. */
  function OverridesUpTo(props: Dict<Value>, cols: seq<Column>, n: nat): (r: Outcome)
    requires n <= |props|
    ensures |r.cols| == |cols|
  {
    if n == 0 then Outcome(cols, true)
    else
      var prev := OverridesUpTo(props, cols, n - 1);
      if !prev.ok then prev else Override(prev.cols, props[n - 1].0, props[n - 1].1)
  }

  /** Once the `forEach` has thrown, the later entries change nothing. */
  lemma {:induction false} OverridesStop(props: Dict<Value>, cols: seq<Column>, i: nat, n: nat)
    requires i <= n <= |props|
    requires !OverridesUpTo(props, cols, i).ok
    ensures OverridesUpTo(props, cols, n) == OverridesUpTo(props, cols, i)
  {
    if n > i {
      OverridesStop(props, cols, i, n - 1);
    }
  }

  /** The overrides only ever replace renders: the columns keep their number,
      order and keys. */
  lemma {:induction false} OverridesKeepKeys(props: Dict<Value>, cols: seq<Column>, n: nat)
    requires n <= |props|
    ensures forall j :: 0 <= j < |cols| ==> OverridesUpTo(props, cols, n).cols[j].key == cols[j].key
  {
    if n > 0 {
      OverridesKeepKeys(props, cols, n - 1);
    }
  }

  /** Which column a prop names depends only on the columns' keys. */
  lemma ResolveIndexByKeys(suffix: string, a: seq<Column>, b: seq<Column>)
    requires |a| == |b| && forall j :: 0 <= j < |a| ==> a[j].key == b[j].key
    ensures ResolveIndex(suffix, a) == ResolveIndex(suffix, b)
  {
    assert forall j :: 0 <= j < |a| ==> StrictEquals(a[j].key, Str(suffix)) == StrictEquals(b[j].key, Str(suffix));
  }

  /** Whether a prop throws depends only on the columns' keys. */
  lemma OutOfRangeByKeys(key: string, a: seq<Column>, b: seq<Column>)
    requires |a| == |b| && forall j :: 0 <= j < |a| ==> a[j].key == b[j].key
    ensures OutOfRange(key, a) == OutOfRange(key, b)
    ensures forall j :: Names(key, a, j) == Names(key, b, j)
  {
    if StartsWith(key, Prefix) {
      ResolveIndexByKeys(key[|Prefix|..], a, b);
    }
  }

  /** One prop throws exactly when it names a column past the last one. */
  lemma OverrideOk(cols: seq<Column>, key: string, value: Value)
    ensures Override(cols, key, value).ok <==> !OutOfRange(key, cols)
  {
  }

  /** The `forEach` runs to its end exactly when no prop names a column past
      the last one. */
  lemma {:induction false} OverridesOk(props: Dict<Value>, cols: seq<Column>, n: nat)
    requires n <= |props|
    ensures OverridesUpTo(props, cols, n).ok <==> forall k :: 0 <= k < n ==> !OutOfRange(props[k].0, cols)
  {
    if n > 0 {
      OverridesOk(props, cols, n - 1);
      OverridesKeepKeys(props, cols, n - 1);
      var prev := OverridesUpTo(props, cols, n - 1);
      OutOfRangeByKeys(props[n - 1].0, prev.cols, cols);
      OverrideOk(prev.cols, props[n - 1].0, props[n - 1].1);
    }
  }

  /** The value of the last of the first `n` props that names column `j`,
      if any does. */
  function LastOverride(props: Dict<Value>, cols: seq<Column>, j: int, n: nat): Option<Value>
    requires n <= |props|
  {
    if n == 0 then None
    else if Names(props[n - 1].0, cols, j) then Some(props[n - 1].1)
    else LastOverride(props, cols, j, n - 1)
  }

  /** When the `forEach` runs to its end, every column draws with the value
      of the last prop naming it, and a column no prop names keeps its
      render. */
  lemma {:induction false} OverridesLastWins(props: Dict<Value>, cols: seq<Column>, j: nat, n: nat)
    requires n <= |props| && j < |cols|
    requires OverridesUpTo(props, cols, n).ok
    ensures LastOverride(props, cols, j, n).None? ==> OverridesUpTo(props, cols, n).cols[j] == cols[j]
    ensures LastOverride(props, cols, j, n).Some? ==>
      OverridesUpTo(props, cols, n).cols[j] == cols[j].(render := RenderOf(LastOverride(props, cols, j, n).value))
  {
    if n > 0 {
      OverridesLastWins(props, cols, j, n - 1);
      OverridesKeepKeys(props, cols, n - 1);
      var prev := OverridesUpTo(props, cols, n - 1);
      OutOfRangeByKeys(props[n - 1].0, prev.cols, cols);
    }
  }

  /** Props none of whose keys starts with `column-` leave the columns as
      they are. */
  lemma {:induction false} OverridesWithoutColumnProps(props: Dict<Value>, cols: seq<Column>, n: nat)
    requires n <= |props|
    requires forall k :: 0 <= k < n ==> !StartsWith(props[k].0, Prefix)
    ensures OverridesUpTo(props, cols, n) == Outcome(cols, true)
  {
    if n > 0 {
      OverridesWithoutColumnProps(props, cols, n - 1);
    }
  }

  /** `TableX(props)` before it draws: each `column-` prop, in the order of
      `Object.entries(props)`, replaces the `render` of the column it names
      in `props.columns`. Without columns nothing happens; `ok` is false
      where a numeric suffix past the last column throws. */
  method TableX(props: Dict<Value>, columns: Option<array<Column>>) returns (ok: bool)
    modifies if columns.Some? then {columns.value} else {}
    ensures columns.None? ==> ok
    ensures columns.Some? ==> OverridesUpTo(props, old(columns.value[..]), |props|) == Outcome(columns.value[..], ok)
  {
    ok := true;
    if columns.Some? {
      var a := columns.value;
      ghost var cols := a[..];
      var i := 0;
      while i < |props|
        invariant 0 <= i <= |props|
        invariant OverridesUpTo(props, cols, i) == Outcome(a[..], true)
      {
        ok := OverrideAt(a, props[i].0, props[i].1);
        if !ok {
          OverridesStop(props, cols, i + 1, |props|);
          return;
        }
        i := i + 1;
      }
    }
  }

  /** The body of the `forEach` for the prop `key: value`. */
  method OverrideAt(a: array<Column>, key: string, value: Value) returns (ok: bool)
    modifies a
    ensures Outcome(a[..], ok) == Override(old(a[..]), key, value)
  {
    ok := true;
    if StartsWith(key, Prefix) {
      var suffix := key[|Prefix|..];
      var index: int;
      match ParseInt(suffix) {
        case Some(n) => index := n;
        case None => index := FindKeyIn(a, suffix);
      }
      if index >= 0 {
        if index >= a.Length {
          ok := false;
        } else {
          a[index] := a[index].(render := RenderOf(value));
        }
      }
    }
  }

  /** `columns.findIndex(...)` as a search over the array. */
  method FindKeyIn(a: array<Column>, key: string) returns (r: int)
    ensures r == FindKey(a[..], key)
  {
    var i := 0;
    while i < a.Length
      invariant 0 <= i <= a.Length
      invariant forall j :: 0 <= j < i ==> !StrictEquals(a[j].key, Str(key))
    {
      if StrictEquals(a[i].key, Str(key)) {
        return i;
      }
      i := i + 1;
    }
    return -1;
  }

  /** The `pagination` prop: the current page, the page size, the total, and
      `changePage` as its `onChange`. */
  datatype Pagination = Pagination(current: int, pageSize: int, total: int)

  /** What the wrapped `TableX` is given besides the caller's props. */
  datatype TableView = TableView(dataSource: Value, loading: bool, pagination: Pagination)

  /** The `TableX` member of `TableComponent`: the caller's `dataSource` when
      it is truthy, otherwise `state.items`; loading exactly when neither is
      there. */
  function View(dataSource: Value, items: Value, pagination: Pagination): (v: TableView)
    ensures Truthy(dataSource) ==> v.dataSource == dataSource
    ensures !Truthy(dataSource) ==> v.dataSource == items
    ensures v.loading <==> !Truthy(dataSource) && !Truthy(items)
    ensures v.pagination == pagination
  {
    var ds := if Truthy(dataSource) then dataSource else items;
    TableView(ds, !Truthy(ds), pagination)
  }

  /** Once a page of items has arrived, the table is never drawn as loading,
      even when the page is empty; before that, it is drawn as loading unless
      the caller gives the data. */
  lemma ItemsStopLoading(dataSource: Value, page: seq<Value>, pagination: Pagination)
    ensures !View(dataSource, Arr(page), pagination).loading
    ensures View(Undefined, Undefined, pagination).loading
    ensures Truthy(dataSource) ==> !View(dataSource, Undefined, pagination).loading
  {
  }

  /** `TableComponent`: its paging fields, its `state.items` and
      `state.loading`, and the subscriptions made to `onLoadItems()`. What
      `onLoadItems` returns is the subclass's; its emissions are delivered
      by `Receive`. */
  class TableComponent {
    var pageNumber: int
    var pageSize: int
    var totalCount: int
    /** `state.items`. */
    var items: Value
    /** `state.loading`. */
    var loading: bool
    /** How many times `onLoadItems()` has been subscribed to. */
    var loads: nat

    /** The field initialisers: page 1 of size 10, nothing counted yet; the
        state is the subclass's. */
    constructor(items: Value, loading: bool)
      ensures pageNumber == 1 && pageSize == 10 && totalCount == 0
      ensures this.items == items && this.loading == loading && loads == 0
    {
      pageNumber := 1;
      pageSize := 10;
      totalCount := 0;
      this.items := items;
      this.loading := loading;
      loads := 0;
    }

    /** The props the member `TableX` passes on. */
    function Drawn(dataSource: Value): TableView
      reads this
    {
      View(dataSource, items, Pagination(pageNumber, pageSize, totalCount))
    }

    /** `componentDidMount()`: the first load. */
    method ComponentDidMount()
      modifies this
      ensures loading && loads == old(loads) + 1
      ensures items == old(items) && pageNumber == old(pageNumber)
      ensures pageSize == old(pageSize) && totalCount == old(totalCount)
    {
      LoadItems();
    }

    /** `loadItems()`: `state.loading` is set, then `onLoadItems()` is
        subscribed to. */
    method LoadItems()
      modifies this
      ensures loading && loads == old(loads) + 1
      ensures items == old(items) && pageNumber == old(pageNumber)
      ensures pageSize == old(pageSize) && totalCount == old(totalCount)
    {
      loading := true;
      loads := loads + 1;
    }

    /** `changePage(page)`, the pagination's `onChange`: the page number is
        set before the reload, so `onLoadItems` sees the new page. */
    method ChangePage(page: int)
      modifies this
      ensures pageNumber == page && loading && loads == old(loads) + 1
      ensures items == old(items) && pageSize == old(pageSize) && totalCount == old(totalCount)
    {
      pageNumber := page;
      LoadItems();
    }

    /** An emission of a subscription to `onLoadItems()`: the items are
        stored and loading ends; the table then shows them. */
    method Receive(page: seq<Value>)
      requires loads > 0
      modifies this
      ensures items == Arr(page) && !loading && loads == old(loads)
      ensures pageNumber == old(pageNumber) && pageSize == old(pageSize) && totalCount == old(totalCount)
      ensures !Drawn(Undefined).loading && Drawn(Undefined).dataSource == Arr(page)
    {
      items := Arr(page);
      loading := false;
    }
  }
}
