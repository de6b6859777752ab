/**
 * The 3x3 grid of cells and the choice of the cell a new item goes to:
 * the first empty cell of a shuffled order, or the first cell of that order
 * when none is empty.
 */
module Grid {
  import opened Wrappers
  import opened GameRules

  /** What a grid cell shows: nothing, or one item. */
  datatype Cell = Empty | Holds(item: ItemType)

  /** The number of cells that show an item. */
  function Occupied(cells: seq<Cell>): (n: nat)
    ensures n <= |cells|
    ensures n == 0 <==> forall k :: 0 <= k < |cells| ==> cells[k] == Empty
    ensures n == |cells| <==> forall k :: 0 <= k < |cells| ==> cells[k].Holds?
    decreases |cells|
  {
    if cells == [] then 0
    else (if cells[0].Holds? then 1 else 0) + Occupied(cells[1..])
  }

  lemma {:induction false} OccupiedUpdate(cells: seq<Cell>, t: nat, c: Cell)
    requires t < |cells|
    ensures Occupied(cells[t := c]) ==
      Occupied(cells) - (if cells[t].Holds? then 1 else 0) + (if c.Holds? then 1 else 0)
    decreases |cells|
  {
    if t > 0 {
      assert cells[t := c][1..] == cells[1..][t - 1 := c];
      OccupiedUpdate(cells[1..], t - 1, c);
    } else {
      assert cells[t := c][1..] == cells[1..];
    }
  }

  /** n empty cells, as createGrid makes them and as a clear leaves them. */
  function Cleared(n: nat): (cells: seq<Cell>)
    ensures |cells| == n && Occupied(cells) == 0
  {
    seq(n, _ => Empty)
  }

  /** n cells of which only cell t shows x: the grid right after a spawn. */
  function Placed(n: nat, t: nat, x: ItemType): (cells: seq<Cell>)
    requires t < n
    ensures |cells| == n && Occupied(cells) == 1 && cells[t] == Holds(x)
  {
    OccupiedUpdate(Cleared(n), t, Holds(x));
    Cleared(n)[t := Holds(x)]
  }

  /** The position in `order` of the first empty cell, as Array.prototype.find looks for it. */
  function FirstEmptyAt(order: seq<nat>, cells: seq<Cell>): (r: Option<nat>)
    requires forall k :: 0 <= k < |order| ==> order[k] < |cells|
    ensures r.Some? ==> r.value < |order| && cells[order[r.value]] == Empty
    ensures r.Some? ==> forall q :: 0 <= q < r.value ==> cells[order[q]] != Empty
    ensures r.None? ==> forall q :: 0 <= q < |order| ==> cells[order[q]] != Empty
    decreases |order|
  {
    if order == [] then None
    else if cells[order[0]] == Empty then Some(0)
    else match FirstEmptyAt(order[1..], cells)
      case Some(p) => Some(p + 1)
      case None => None
  }

  /** The target cell of a spawn: the first empty cell of `order`, else order[0]. */
  function Target(order: seq<nat>, cells: seq<Cell>): (t: nat)
    requires |order| > 0
    requires forall k :: 0 <= k < |order| ==> order[k] < |cells|
    ensures t < |cells| && t in order
    ensures (exists q :: 0 <= q < |order| && cells[order[q]] == Empty) ==> cells[t] == Empty
  {
    match FirstEmptyAt(order, cells)
    case Some(p) => order[p]
    case None => order[0]
  }

  /** When `order` lists every cell and some cell is empty, the target is an empty cell. */
  lemma TargetIsEmpty(order: seq<nat>, cells: seq<Cell>)
    requires |order| > 0
    requires forall k :: 0 <= k < |order| ==> order[k] < |cells|
    requires forall c :: 0 <= c < |cells| ==> c in order
    requires Occupied(cells) < |cells|
    ensures cells[Target(order, cells)] == Empty
  {
    var c :| 0 <= c < |cells| && cells[c] == Empty;
    assert c in order;
    var q :| 0 <= q < |order| && order[q] == c;
  }

  /** The search of spawnWaterCan over the shuffled cells. */
  method PickTarget(order: array<nat>, cells: array<Cell>) returns (t: nat)
    requires order.Length > 0
    requires forall k :: 0 <= k < order.Length ==> order[k] < cells.Length
    ensures t == Target(order[..], cells[..])
  {
    var p := 0;
    while p < order.Length && cells[order[p]] != Empty
      invariant 0 <= p <= order.Length
      invariant forall q :: 0 <= q < p ==> cells[order[q]] != Empty
    {
      p := p + 1;
    }
    t := if p < order.Length then order[p] else order[0];
  }
}
