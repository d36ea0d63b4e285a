/** `src/dragable-table.tsx`: rows that can be dragged onto other rows. The
    drag source records the dragged row's index, in the module-level
    `dragingIndex` and in the drag item; a drop onto another row calls the
    table's `onMoveRow` and moves the item; a hovered row is marked with the
    direction of the move. */
module DragableTables {
  import opened Js
  import opened Dict

  /** The table's `onMoveRow(dragIndex, hoverIndex)`; the model records its
      calls, in order. */
  class MoveHandler {
    var calls: seq<(int, int)>

    constructor()
      ensures calls == []
    {
      calls := [];
    }

    method MoveRow(dragIndex: int, hoverIndex: int)
      modifies this
      ensures calls == old(calls) + [(dragIndex, hoverIndex)]
    {
      calls := calls + [(dragIndex, hoverIndex)];
    }
  }

  /** The module-level `let dragingIndex`, shared by every row. */
  class DragState {
    var dragingIndex: int

    /** The module is loaded: no row has been dragged yet. */
    constructor()
      ensures dragingIndex == -1
    {
      dragingIndex := -1;
    }
  }

  /** The item `beginDrag` returns, which the monitor hands to every drop of
      the same drag. */
  class DragItem {
    var index: int

    constructor(index: int)
      ensures this.index == index
    {
      this.index := index;
    }
  }

  /** What `onRow` gives each row: its index and the table's handler. */
  datatype DragDropProps = DragDropProps(index: int, handler: MoveHandler)

  /** `beginDrag(props)`: the dragged row's index is recorded, for the
      hover classes of the rows, and returned as the drag item. */
  method BeginDrag(drag: DragState, props: DragDropProps) returns (item: DragItem)
    modifies drag
    ensures drag.dragingIndex == props.index
    ensures fresh(item) && item.index == props.index
  {
    drag.dragingIndex := props.index;
    item := new DragItem(props.index);
  }

  /** `drop(props, monitor)` on the row `props`: unless the item is already
      at that row, `moveRow` is called once, from the item's index to the
      row's, and the item takes the row's index. */
  method Drop(props: DragDropProps, item: DragItem)
    modifies props.handler, item
    ensures props.handler.calls == old(props.handler.calls) + DropMoves(old(item.index), [props.index])
    ensures item.index == props.index
  {
    var dragIndex := item.index;
    var hoverIndex := props.index;
    if dragIndex == hoverIndex {
      return;
    }
    props.handler.MoveRow(dragIndex, hoverIndex);
    item.index := hoverIndex;
  }

  /** The `moveRow` calls made by drops onto the rows `hovers`, in order, of
      an item that starts at row `from`. */
  function DropMoves(from: int, hovers: seq<int>): seq<(int, int)>
    decreases |hovers|
  {
    if hovers == [] then []
    else (if hovers[0] == from then [] else [(from, hovers[0])]) + DropMoves(hovers[0], hovers[1..])
  }

  /** The row the item ends at: the last row dropped onto, if any. */
  function LastRow(from: int, hovers: seq<int>): int
  {
    if hovers == [] then from else hovers[|hovers| - 1]
  }

  /** The moves of successive drops form a chain: none moves a row onto
      itself, and each starts where the one before ended. */
  lemma {:induction false} DropMovesChain(from: int, hovers: seq<int>)
    ensures forall k :: 0 <= k < |DropMoves(from, hovers)| ==> DropMoves(from, hovers)[k].0 != DropMoves(from, hovers)[k].1
    ensures forall k :: 0 < k < |DropMoves(from, hovers)| ==> DropMoves(from, hovers)[k].0 == DropMoves(from, hovers)[k - 1].1
    decreases |hovers|
  {
    if hovers != [] {
      var h := hovers[0];
      var rest := DropMoves(h, hovers[1..]);
      DropMovesChain(h, hovers[1..]);
      DropMovesEnds(h, hovers[1..]);
      if h != from {
        var m := DropMoves(from, hovers);
        assert m == [(from, h)] + rest;
        assert forall k :: 1 <= k < |m| ==> m[k] == rest[k - 1];
      }
    }
  }

  /** The chain of moves runs from the starting row to the last row dropped
      onto; without a move, the two are the same row. */
  lemma {:induction false} DropMovesEnds(from: int, hovers: seq<int>)
    ensures |DropMoves(from, hovers)| > 0 ==> DropMoves(from, hovers)[0].0 == from
    ensures |DropMoves(from, hovers)| > 0 ==> DropMoves(from, hovers)[|DropMoves(from, hovers)| - 1].1 == LastRow(from, hovers)
    ensures |DropMoves(from, hovers)| == 0 ==> LastRow(from, hovers) == from
    decreases |hovers|
  {
    if hovers != [] {
      var h := hovers[0];
      var rest := DropMoves(h, hovers[1..]);
      DropMovesEnds(h, hovers[1..]);
      assert LastRow(h, hovers[1..]) == LastRow(from, hovers);
      if h != from {
        assert DropMoves(from, hovers) == [(from, h)] + rest;
      }
    }
  }

  /** The props a row is drawn from besides the drag and drop ones. */
  datatype RowProps = RowProps(index: int, isOver: bool, className: string, style: Dict<Value>)

  /** The `className` and `style` the `<tr>` is drawn with. */
  datatype RowView = RowView(className: string, style: Dict<Value>)

  const Downward: string := "drop-over-downward"
  const Upward: string := "drop-over-upward"

  /** The class a hovered row gets: downward when it lies after the dragged
      row, upward when before it, none (empty) when it is the dragged row. */
  function AppendClass(index: int, dragingIndex: int): string
  {
    if index > dragingIndex then Downward
    else if index < dragingIndex then Upward
    else ""
  }

  /** The row's class name: the appended class goes after the existing one,
      separated by a space when there is an existing one. */
  function RowClass(index: int, isOver: bool, dragingIndex: int, className: string): string
  {
    var app := if isOver then AppendClass(index, dragingIndex) else "";
    if app == "" then className
    else if className == "" then app
    else className + " " + app
  }

  /** The row's style: the given style with `cursor: 'move'`. */
  function RowStyle(style: Dict<Value>): Dict<Value>
  {
    Assign(style, "cursor", Str("move"))
  }

  /** `DragableTableRow.render()`, reading the module-level `dragingIndex`. */
  method RenderRow(drag: DragState, props: RowProps) returns (view: RowView)
    ensures view.className == RowClass(props.index, props.isOver, drag.dragingIndex, props.className)
    ensures view.style == RowStyle(props.style)
  {
    var style := Assign(props.style, "cursor", Str("move"));
    var className := props.className;
    AssignAgain(props.style, "cursor", Str("move"));
    style := Assign(style, "cursor", Str("move"));
    if props.isOver {
      var appendClass := "";
      if props.index > drag.dragingIndex {
        appendClass := Downward;
      } else if props.index < drag.dragingIndex {
        appendClass := Upward;
      }
      if appendClass != "" {
        if className != "" {
          className := className + " ";
        }
        className := className + appendClass;
      }
    }
    view := RowView(className, style);
  }

  /** The row's class name only changes while it is hovered during a drag
      onto another row; then it ends with the direction of the move, after
      a single space when the row had a class name. */
  lemma RowClassFacts(index: int, isOver: bool, dragingIndex: int, className: string)
    ensures RowClass(index, isOver, dragingIndex, className) == className <==> !isOver || index == dragingIndex
    ensures isOver && index != dragingIndex ==>
      RowClass(index, isOver, dragingIndex, className)
        == className + (if className == "" then "" else " ") + (if index > dragingIndex then Downward else Upward)
  {
    var r := RowClass(index, isOver, dragingIndex, className);
    if isOver && index != dragingIndex {
      assert |r| > |className|;
    }
  }

  /** The row's style always moves the cursor, and every other key of the
      given style keeps its value and its place. */
  lemma RowStyleFacts(style: Dict<Value>)
    ensures Get(RowStyle(style), "cursor") == Some(Str("move"))
    ensures forall k :: k != "cursor" ==> Get(RowStyle(style), k) == Get(style, k)
    ensures KeySet(RowStyle(style)) == KeySet(style) + {"cursor"}
    ensures |RowStyle(style)| >= |style|
    ensures forall i :: 0 <= i < |style| ==> RowStyle(style)[i].0 == style[i].0
  {
    AssignFacts(style, "cursor", Str("move"));
  }

  /** `DragableTable`: its `onMoveRow` prop is handed to every row. */
  class DragableTable {
    const onMoveRow: MoveHandler

    constructor(onMoveRow: MoveHandler)
      ensures this.onMoveRow == onMoveRow
    {
      this.onMoveRow := onMoveRow;
    }

    /** `onRow(record, index)`: the row's index and the table's handler, so
        that a drop onto the row calls the table's `onMoveRow`. */
    function OnRow(index: int): (r: DragDropProps)
      ensures r.index == index && r.handler == onMoveRow
    {
      DragDropProps(index, onMoveRow)
    }
  }
}
