/**
 * The early Greenfoot world (greenfoot/GreenfootWorld.java): a grid of cells,
 * each mapping a class to the list of objects of that class standing there,
 * plus a list of every object in the world.
 *
 * A cell's map is a list of (class, objects) buckets in the order the classes
 * first arrived; an empty list stands for a cell whose map was never created.
 * A thrown ArrayIndexOutOfBoundsException or NegativeArraySizeException is a
 * false status with the state as the throw left it.  The image an object
 * covers is the `covers` function given to GetObjectsAt, and the largest
 * object size is its `maxSize` argument.
 */
module GreenfootWorld {
  import opened Strings

  /** Names the class of an object. */
  type ClassId = string

  class Thing {
    const cls: ClassId
    var x: int
    var y: int
    var world: GreenfootWorld?

    constructor (cls: ClassId, x: int, y: int)
      ensures this.cls == cls && this.x == x && this.y == y && world == null
    {
      this.cls := cls;
      this.x := x;
      this.y := y;
      world := null;
    }
  }

  /** The objects of one class in one cell. */
  datatype Bucket = Bucket(cls: ClassId, things: seq<Thing>)

  /** The position of the bucket of a class in a cell, or -1. */
  function BucketIndex(cell: seq<Bucket>, cls: ClassId): (r: int)
    ensures -1 <= r < |cell|
    ensures r >= 0 ==> cell[r].cls == cls
    ensures r == -1 <==> forall i :: 0 <= i < |cell| ==> cell[i].cls != cls
    decreases |cell|
  {
    if |cell| == 0 then -1
    else if cell[|cell| - 1].cls == cls then |cell| - 1
    else BucketIndex(cell[..|cell| - 1], cls)
  }

  /** The objects of a class in a cell (none when the class has no bucket). */
  function ClassList(cell: seq<Bucket>, cls: ClassId): seq<Thing>
  {
    var i := BucketIndex(cell, cls);
    if i == -1 then [] else cell[i].things
  }

  /** Every class has at most one bucket in a cell. */
  ghost predicate DistinctClasses(cell: seq<Bucket>)
  {
    forall i, j :: 0 <= i < j < |cell| ==> cell[i].cls != cell[j].cls
  }

  /** The list with its first occurrence of t removed (List.remove(Object)). */
  function RemoveFirst(s: seq<Thing>, t: Thing): (r: seq<Thing>)
    ensures t !in s ==> r == s
    ensures t in s ==> |r| == |s| - 1
    ensures multiset(r) == multiset(s) - multiset{t}
    decreases |s|
  {
    if |s| == 0 then []
    else
      assert s == [s[0]] + s[1..];
      if s[0] == t then s[1..]
      else [s[0]] + RemoveFirst(s[1..], t)
  }

  /** The cell with t appended to the list of its class, creating the bucket when needed. */
  function AddToCell(cell: seq<Bucket>, t: Thing): (r: seq<Bucket>)
    requires DistinctClasses(cell)
    ensures DistinctClasses(r)
    ensures ClassList(r, t.cls) == ClassList(cell, t.cls) + [t]
    ensures forall c :: c != t.cls ==> ClassList(r, c) == ClassList(cell, c)
  {
    var i := BucketIndex(cell, t.cls);
    if i == -1 then
      var r := cell + [Bucket(t.cls, [t])];
      assert r[..|r| - 1] == cell;
      r
    else
      var r := cell[i := Bucket(t.cls, cell[i].things + [t])];
      BucketsKeepClasses(cell, r);
      r
  }

  /** The cell with the first t removed from the list of its class; buckets are kept even when emptied. */
  function RemoveFromCell(cell: seq<Bucket>, t: Thing): (r: seq<Bucket>)
    requires DistinctClasses(cell)
    ensures DistinctClasses(r)
    ensures ClassList(r, t.cls) == RemoveFirst(ClassList(cell, t.cls), t)
    ensures forall c :: c != t.cls ==> ClassList(r, c) == ClassList(cell, c)
  {
    var i := BucketIndex(cell, t.cls);
    if i == -1 then cell
    else
      var r := cell[i := Bucket(t.cls, RemoveFirst(cell[i].things, t))];
      BucketsKeepClasses(cell, r);
      assert forall c :: c != t.cls ==> BucketIndex(r, c) == -1 || r[BucketIndex(r, c)] == cell[BucketIndex(cell, c)];
      r
  }

  /** Replacing the objects of buckets leaves every class's bucket where it was. */
  lemma {:induction false} BucketsKeepClasses(cell: seq<Bucket>, r: seq<Bucket>)
    requires |r| == |cell|
    requires forall i :: 0 <= i < |cell| ==> r[i].cls == cell[i].cls
    ensures forall c :: BucketIndex(r, c) == BucketIndex(cell, c)
    decreases |cell|
  {
    if |cell| > 0 {
      BucketsKeepClasses(cell[..|cell| - 1], r[..|r| - 1]);
    }
  }

  /** All objects standing in a cell, bucket after bucket. */
  function CellObjects(cell: seq<Bucket>): (r: seq<Thing>)
    ensures |r| == SumSizes(cell)
    decreases |cell|
  {
    if |cell| == 0 then []
    else CellObjects(cell[..|cell| - 1]) + cell[|cell| - 1].things
  }

  /** The number of objects in the buckets. */
  function SumSizes(cell: seq<Bucket>): nat
    decreases |cell|
  {
    if |cell| == 0 then 0 else SumSizes(cell[..|cell| - 1]) + |cell[|cell| - 1].things|
  }

  /** An object stands in a cell exactly when it is in the list of one of the cell's classes. */
  lemma {:induction false} CellObjectsMembers(cell: seq<Bucket>, t: Thing)
    ensures t in CellObjects(cell) <==> exists i :: 0 <= i < |cell| && t in cell[i].things
    decreases |cell|
  {
    if |cell| > 0 {
      var front := cell[..|cell| - 1];
      CellObjectsMembers(front, t);
      if t in CellObjects(cell) && t !in cell[|cell| - 1].things {
        var i :| 0 <= i < |front| && t in front[i].things;
        assert cell[i] == front[i];
      }
      if exists i :: 0 <= i < |cell| && t in cell[i].things {
        var i :| 0 <= i < |cell| && t in cell[i].things;
        if i < |front| {
          assert front[i] == cell[i];
        }
      }
    }
  }

  /** The objects of s that cover the point the given offset away, in order. */
  function Filter(s: seq<Thing>, dx: int, dy: int, covers: (Thing, int, int) -> bool): (r: seq<Thing>)
    ensures |r| <= |s|
    ensures forall k :: 0 <= k < |r| ==> r[k] in s && covers(r[k], dx, dy)
    decreases |s|
  {
    if |s| == 0 then []
    else
      var rest := Filter(s[..|s| - 1], dx, dy, covers);
      if covers(s[|s| - 1], dx, dy) then rest + [s[|s| - 1]] else rest
  }

  lemma {:induction false} FilterMembers(s: seq<Thing>, dx: int, dy: int, covers: (Thing, int, int) -> bool, t: Thing)
    ensures t in Filter(s, dx, dy, covers) <==> t in s && covers(t, dx, dy)
    decreases |s|
  {
    if |s| > 0 {
      FilterMembers(s[..|s| - 1], dx, dy, covers, t);
      assert s == s[..|s| - 1] + [s[|s| - 1]];
    }
  }

  /** The objects of a cell whose image covers the point the given offset away. */
  function Hits(cell: seq<Bucket>, dx: int, dy: int, covers: (Thing, int, int) -> bool): (r: seq<Thing>)
    ensures forall k :: 0 <= k < |r| ==> covers(r[k], dx, dy)
  {
    Filter(CellObjects(cell), dx, dy, covers)
  }

  class GreenfootWorld {
    var world: array2<seq<Bucket>>
    var objects: seq<Thing>

    ghost predicate Valid()
      reads this`world, world
    {
      forall i, j :: 0 <= i < world.Length0 && 0 <= j < world.Length1 ==> DistinctClasses(world[i, j])
    }

    constructor (worldWidth: int, worldHeight: int)
      requires worldWidth >= 0 && worldHeight >= 0
      ensures Valid()
      ensures world.Length0 == worldWidth && world.Length1 == worldHeight && objects == []
      ensures forall i, j :: 0 <= i < worldWidth && 0 <= j < worldHeight ==> world[i, j] == []
    {
      world := new seq<Bucket>[worldWidth, worldHeight]((i, j) => []);
      objects := [];
    }

    /** The number of columns. */
    function GetWidth(): (r: int)
      reads this
      ensures r >= 0 && r == world.Length0
    {
      world.Length0
    }

    /** The number of rows; reading it fails in a world without columns. */
    function GetHeight(): (r: Option<int>)
      reads this
      ensures r.Some? <==> world.Length0 > 0
      ensures r.Some? ==> r.value == world.Length1
    {
      if world.Length0 == 0 then None else Some(world.Length1)
    }

    /**
     * Replaces the grid by an empty one of the given size; fails on a negative
     * size.  The object list is kept, although nothing stands in the new grid.
     */
    method SetSize(width: int, height: int) returns (ok: bool)
      modifies this
      ensures Valid()
      ensures ok <==> width >= 0 && height >= 0
      ensures objects == old(objects)
      ensures !ok ==> world == old(world)
      ensures ok ==> fresh(world) && world.Length0 == width && world.Length1 == height
      ensures ok ==> forall i, j :: 0 <= i < width && 0 <= j < height ==> world[i, j] == []
      requires Valid()
    {
      if width < 0 || height < 0 {
        return false;
      }
      world := new seq<Bucket>[width, height]((i, j) => []);
      return true;
    }

    /** The cell exists in the grid. */
    predicate InGrid(x: int, y: int)
      reads this
    {
      0 <= x < world.Length0 && 0 <= y < world.Length1
    }

    /**
     * Adds an object at its own location.  Fails when the location is outside
     * the grid; does nothing for an object already in the world.
     */
    method AddObject(t: Thing) returns (ok: bool)
      requires Valid()
      modifies this, world, t
      ensures Valid() && world == old(world)
      ensures t.x == old(t.x) && t.y == old(t.y)
      ensures ok <==> InGrid(t.x, t.y)
      ensures !ok || old(t in objects) ==>
        objects == old(objects) && t.world == old(t.world)
        && forall i, j :: InGrid(i, j) ==> world[i, j] == old(world[i, j])
      ensures ok && old(t !in objects) ==>
        && objects == old(objects) + [t] && t.world == this
        && ClassList(world[t.x, t.y], t.cls) == old(ClassList(world[t.x, t.y], t.cls)) + [t]
        && (forall c :: c != t.cls ==> ClassList(world[t.x, t.y], c) == old(ClassList(world[t.x, t.y], c)))
        && forall i, j :: InGrid(i, j) && (i != t.x || j != t.y) ==> world[i, j] == old(world[i, j])
    {
      if t.x >= world.Length0 {
        return false;
      }
      if world.Length0 == 0 || t.y >= world.Length1 {
        return false;
      }
      if t.x < 0 || t.y < 0 {
        return false;
      }
      if t !in objects {
        world[t.x, t.y] := AddToCell(world[t.x, t.y], t);
        t.world := this;
        objects := objects + [t];
      }
      return true;
    }

    /** Every object standing in a cell, whatever its class. */
    function GetObjectsWithLocation(x: int, y: int): (r: seq<Thing>)
      requires InGrid(x, y)
      reads this, world
      ensures |r| == SumSizes(world[x, y])
    {
      CellObjects(world[x, y])
    }

    /** Every object in a class list of a cell is among the cell's objects. */
    lemma ClassListInCell(x: int, y: int, c: ClassId, t: Thing)
      requires InGrid(x, y)
      requires t in ClassList(world[x, y], c)
      ensures t in GetObjectsWithLocation(x, y)
    {
      var cell := world[x, y];
      CellObjectsMembers(cell, t);
      var i := BucketIndex(cell, c);
      assert i >= 0 && t in cell[i].things;
    }

    /**
     * Removes an object: from the list of its class in the cell of its
     * location, and from the object list.  Fails when that location is outside
     * the grid.  The object forgets its world only when its class had a list
     * in that cell.
     */
    method RemoveObject(t: Thing) returns (ok: bool)
      requires Valid()
      modifies this, world, t
      ensures Valid() && world == old(world)
      ensures t.x == old(t.x) && t.y == old(t.y)
      ensures ok <==> InGrid(t.x, t.y)
      ensures !ok ==> (objects == old(objects) && t.world == old(t.world)
                       && forall i, j :: InGrid(i, j) ==> world[i, j] == old(world[i, j]))
      ensures ok ==>
        && objects == RemoveFirst(old(objects), t)
        && ClassList(world[t.x, t.y], t.cls) == RemoveFirst(ClassList(old(world[t.x, t.y]), t.cls), t)
        && (forall c :: c != t.cls ==> ClassList(world[t.x, t.y], c) == ClassList(old(world[t.x, t.y]), c))
        && forall i, j :: InGrid(i, j) && (i != t.x || j != t.y) ==> world[i, j] == old(world[i, j])
      ensures ok ==> t.world == (if BucketIndex(old(world[t.x, t.y]), t.cls) >= 0 then null else old(t.world))
    {
      var x, y := t.x, t.y;
      if !(0 <= x < world.Length0 && 0 <= y < world.Length1) {
        return false;
      }
      objects := RemoveFirst(objects, t);
      // A cell without a list for the class is left as it is by RemoveFromCell.
      if BucketIndex(world[x, y], t.cls) >= 0 {
        t.world := null;
      }
      TakeFromCell(x, y, t);
      return true;
    }

    /** Takes the first entry of t out of its class's list in cell (x, y). */
    method TakeFromCell(x: int, y: int, t: Thing)
      requires Valid() && InGrid(x, y)
      modifies world
      ensures Valid()
      ensures ClassList(world[x, y], t.cls) == RemoveFirst(ClassList(old(world[x, y]), t.cls), t)
      ensures forall c :: c != t.cls ==> ClassList(world[x, y], c) == ClassList(old(world[x, y]), c)
      ensures forall i, j :: InGrid(i, j) && (i != x || j != y) ==> world[i, j] == old(world[i, j])
    {
      SetCell(x, y, RemoveFromCell(world[x, y], t));
    }

    /** A copy of the object list. */
    method GetObjects() returns (r: seq<Thing>)
      ensures r == objects
    {
      r := objects;
    }

    /**
     * Moves an object's entry from the cell it stood in to the cell of its
     * current location, at the end of its class's list there.  Fails when the
     * old cell is outside the grid (nothing changes) or when the new one is
     * (after the entry has left the old cell).
     */
    method UpdateLocation(t: Thing, oldX: int, oldY: int) returns (ok: bool)
      requires Valid()
      modifies world
      ensures Valid()
      ensures ok <==> InGrid(oldX, oldY) && InGrid(t.x, t.y)
      ensures !InGrid(oldX, oldY) ==> forall i, j :: InGrid(i, j) ==> world[i, j] == old(world[i, j])
      ensures InGrid(oldX, oldY) && !ok ==> forall i, j :: InGrid(i, j) ==>
        world[i, j] == old(if (i, j) == (oldX, oldY) then RemoveFromCell(world[i, j], t) else world[i, j])
      ensures ok ==> forall i, j :: InGrid(i, j) ==> world[i, j] == old(CellAfterMove(i, j, t, oldX, oldY))
    {
      if !(0 <= oldX < world.Length0 && 0 <= oldY < world.Length1) {
        return false;
      }
      SetCell(oldX, oldY, RemoveFromCell(world[oldX, oldY], t));
      if !(0 <= t.x < world.Length0 && 0 <= t.y < world.Length1) {
        return false;
      }
      SetCell(t.x, t.y, AddToCell(world[t.x, t.y], t));
      return true;
    }

    /** Stores a cell map in the grid. */
    method SetCell(i: int, j: int, cell: seq<Bucket>)
      requires Valid() && InGrid(i, j) && DistinctClasses(cell)
      modifies world
      ensures Valid()
      ensures world[i, j] == cell
      ensures forall i', j' :: InGrid(i', j') && (i', j') != (i, j) ==> world[i', j'] == old(world[i', j'])
    {
      world[i, j] := cell;
    }

    /** Cell (i, j) once t's entry has left (oldX, oldY) and joined the cell of its location. */
    ghost function CellAfterMove(i: int, j: int, t: Thing, oldX: int, oldY: int): seq<Bucket>
      requires Valid() && InGrid(i, j)
      reads this, world, t
    {
      var taken := if (i, j) == (oldX, oldY) then RemoveFromCell(world[i, j], t) else world[i, j];
      if (i, j) == (t.x, t.y) then AddToCell(taken, t) else taken
    }

    /**
     * After a move the old cell's list of t's class has lost its first t and the
     * new cell's list has t at its end; other classes and other cells are as before.
     */
    lemma MoveMovesEntry(t: Thing, oldX: int, oldY: int)
      requires Valid() && InGrid(oldX, oldY) && InGrid(t.x, t.y)
      ensures (oldX, oldY) != (t.x, t.y) ==>
        && ClassList(CellAfterMove(oldX, oldY, t, oldX, oldY), t.cls) == RemoveFirst(ClassList(world[oldX, oldY], t.cls), t)
        && ClassList(CellAfterMove(t.x, t.y, t, oldX, oldY), t.cls) == ClassList(world[t.x, t.y], t.cls) + [t]
      ensures (oldX, oldY) == (t.x, t.y) ==>
        ClassList(CellAfterMove(t.x, t.y, t, oldX, oldY), t.cls) == RemoveFirst(ClassList(world[t.x, t.y], t.cls), t) + [t]
      ensures forall i, j, c :: InGrid(i, j) && c != t.cls ==> ClassList(CellAfterMove(i, j, t, oldX, oldY), c) == ClassList(world[i, j], c)
      ensures forall i, j :: InGrid(i, j) && (i, j) != (oldX, oldY) && (i, j) != (t.x, t.y) ==> CellAfterMove(i, j, t, oldX, oldY) == world[i, j]
    {
      forall i, j, c | InGrid(i, j) && c != t.cls
        ensures ClassList(CellAfterMove(i, j, t, oldX, oldY), c) == ClassList(world[i, j], c)
      {
        var cell := world[i, j];
        assert DistinctClasses(cell);
        var taken := if (i, j) == (oldX, oldY) then RemoveFromCell(cell, t) else cell;
        assert ClassList(taken, c) == ClassList(cell, c);
        assert CellAfterMove(i, j, t, oldX, oldY) == if (i, j) == (t.x, t.y) then AddToCell(taken, t) else taken;
      }
    }

    /** The cells of column xi scanned by GetObjectsAt are those of rows ys up to and including ye. */
    predicate ColumnInGrid(xi: int, ys: int, ye: int)
      reads this
    {
      0 <= xi < world.Length0 && (ye < ys || (0 <= ys && ye < world.Length1))
    }

    predicate WindowInGrid(xs: int, xe: int, ys: int, ye: int)
      reads this
    {
      (xe < xs || (0 <= xs && xe < world.Length0)) && (ye < ys || (0 <= ys && ye < world.Length1))
    }

    /** The objects the scan finds in column xi, rows ys up to and including ye. */
    ghost function ColumnHits(xi: int, ys: int, ye: int, x: int, y: int, covers: (Thing, int, int) -> bool): seq<Thing>
      requires ColumnInGrid(xi, ys, ye)
      reads this, world
      decreases ye - ys
    {
      if ye < ys then []
      else ColumnHits(xi, ys, ye - 1, x, y, covers) + Hits(world[xi, ye], x - xi, y - ye, covers)
    }

    /** The objects the scan finds in columns xs up to and including xe. */
    ghost function WindowHits(xs: int, xe: int, ys: int, ye: int, x: int, y: int, covers: (Thing, int, int) -> bool): seq<Thing>
      requires WindowInGrid(xs, xe, ys, ye)
      reads this, world
      decreases xe - xs
    {
      if xe < xs then []
      else WindowHits(xs, xe - 1, ys, ye, x, y, covers) + ColumnHits(xe, ys, ye, x, y, covers)
    }

    /** The scanned cells of a column and what they contribute. */
    ghost predicate InColumn(xi: int, ys: int, ye: int, x: int, y: int, covers: (Thing, int, int) -> bool, t: Thing)
      requires ColumnInGrid(xi, ys, ye)
      reads this, world
    {
      exists yi :: ys <= yi <= ye && CoversFrom(xi, yi, x, y, covers, t)
    }

    /** t stands in cell (xi, yi) and its image reaches the cell (x, y). */
    ghost predicate CoversFrom(xi: int, yi: int, x: int, y: int, covers: (Thing, int, int) -> bool, t: Thing)
      requires InGrid(xi, yi)
      reads this, world
    {
      t in CellObjects(world[xi, yi]) && covers(t, x - xi, y - yi)
    }

    lemma {:induction false} ColumnHitsMembers(xi: int, ys: int, ye: int, x: int, y: int, covers: (Thing, int, int) -> bool, t: Thing)
      requires ColumnInGrid(xi, ys, ye)
      ensures t in ColumnHits(xi, ys, ye, x, y, covers) <==> InColumn(xi, ys, ye, x, y, covers, t)
      decreases ye - ys
    {
      if ye >= ys {
        ColumnHitsMembers(xi, ys, ye - 1, x, y, covers, t);
        FilterMembers(CellObjects(world[xi, ye]), x - xi, y - ye, covers, t);
        assert t in Hits(world[xi, ye], x - xi, y - ye, covers) <==> CoversFrom(xi, ye, x, y, covers, t);
        if InColumn(xi, ys, ye, x, y, covers, t) {
          var yi :| ys <= yi <= ye && CoversFrom(xi, yi, x, y, covers, t);
          if yi < ye {
            assert InColumn(xi, ys, ye - 1, x, y, covers, t);
          }
        }
      }
    }

    lemma {:induction false} WindowHitsMembers(xs: int, xe: int, ys: int, ye: int, x: int, y: int, covers: (Thing, int, int) -> bool, t: Thing)
      requires WindowInGrid(xs, xe, ys, ye)
      ensures t in WindowHits(xs, xe, ys, ye, x, y, covers) <==>
        exists xi :: xs <= xi <= xe && InColumn(xi, ys, ye, x, y, covers, t)
      decreases xe - xs
    {
      if xe >= xs {
        var before := WindowHits(xs, xe - 1, ys, ye, x, y, covers);
        var column := ColumnHits(xe, ys, ye, x, y, covers);
        assert WindowHits(xs, xe, ys, ye, x, y, covers) == before + column;
        WindowHitsMembers(xs, xe - 1, ys, ye, x, y, covers, t);
        ColumnHitsMembers(xe, ys, ye, x, y, covers, t);
        if t in before {
          var xi :| xs <= xi <= xe - 1 && InColumn(xi, ys, ye, x, y, covers, t);
        }
        if exists xi :: xs <= xi <= xe && InColumn(xi, ys, ye, x, y, covers, t) {
          var xi :| xs <= xi <= xe && InColumn(xi, ys, ye, x, y, covers, t);
          if xi < xe {
            assert exists xi' :: xs <= xi' <= xe - 1 && InColumn(xi', ys, ye, x, y, covers, t);
          }
        }
      }
    }

    /**
     * The objects whose image covers cell (x, y): every cell up to maxSize - 1
     * columns to the left and rows above is scanned, the window clipped to the
     * grid; an (x, y) beyond the grid is first moved onto its last column or
     * row.  Fails in a world without columns, where the height cannot be read.
     */
    method GetObjectsAt(x: int, y: int, maxSize: nat, covers: (Thing, int, int) -> bool) returns (r: Option<seq<Thing>>)
      ensures r.None? <==> world.Length0 == 0
      ensures r.Some? ==>
        var cx := if x >= world.Length0 then world.Length0 - 1 else x;
        var cy := if y >= world.Length1 then world.Length1 - 1 else y;
        var xs := if x - maxSize + 1 < 0 then 0 else x - maxSize + 1;
        var ys := if y - maxSize + 1 < 0 then 0 else y - maxSize + 1;
        && WindowInGrid(xs, cx, ys, cy)
        && r.value == WindowHits(xs, cx, ys, cy, cx, cy, covers)
    {
      var xStart := x - maxSize + 1;
      var yStart := y - maxSize + 1;
      if xStart < 0 {
        xStart := 0;
      }
      if yStart < 0 {
        yStart := 0;
      }
      var cx := x;
      var cy := y;
      if cx >= world.Length0 {
        cx := world.Length0 - 1;
      }
      if world.Length0 == 0 {
        return None;
      }
      if cy >= world.Length1 {
        cy := world.Length1 - 1;
      }
      var found := ScanWindow(xStart, cx, yStart, cy, covers);
      return Some(found);
    }

    /** The outer loop of GetObjectsAt: columns xs up to and including xe, each scanned from row ys to ye. */
    method ScanWindow(xs: int, xe: int, ys: int, ye: int, covers: (Thing, int, int) -> bool) returns (found: seq<Thing>)
      requires WindowInGrid(xs, xe, ys, ye)
      ensures found == WindowHits(xs, xe, ys, ye, xe, ye, covers)
    {
      found := [];
      var xi := xs;
      while xi <= xe
        invariant xi == xs || xs <= xi <= xe + 1
        invariant WindowInGrid(xs, xi - 1, ys, ye)
        invariant found == WindowHits(xs, xi - 1, ys, ye, xe, ye, covers)
      {
        var column := ScanColumn(xi, ys, ye, xe, ye, covers);
        assert WindowHits(xs, xi, ys, ye, xe, ye, covers)
          == WindowHits(xs, xi - 1, ys, ye, xe, ye, covers) + ColumnHits(xi, ys, ye, xe, ye, covers);
        found := found + column;
        xi := xi + 1;
      }
    }

    /** The inner loops of GetObjectsAt: rows ys up to and including ye of column xi. */
    method ScanColumn(xi: int, ys: int, ye: int, x: int, y: int, covers: (Thing, int, int) -> bool) returns (found: seq<Thing>)
      requires ColumnInGrid(xi, ys, ye)
      ensures found == ColumnHits(xi, ys, ye, x, y, covers)
    {
      found := [];
      var yi := ys;
      while yi <= ye
        invariant yi == ys || ys <= yi <= ye + 1
        invariant found == ColumnHits(xi, ys, yi - 1, x, y, covers)
      {
        var cell := world[xi, yi];
        assert ColumnHits(xi, ys, yi, x, y, covers) == ColumnHits(xi, ys, yi - 1, x, y, covers) + Hits(cell, x - xi, y - yi, covers);
        if cell != [] {
          var list := GetObjectsWithLocation(xi, yi);
          var k := 0;
          ghost var before := found;
          while k < |list|
            invariant 0 <= k <= |list|
            invariant found == before + Filter(list[..k], x - xi, y - yi, covers)
          {
            assert list[..k + 1][..k] == list[..k];
            if covers(list[k], x - xi, y - yi) {
              found := found + [list[k]];
            }
            k := k + 1;
          }
          assert list[..k] == list;
        }
        yi := yi + 1;
      }
    }

    /** What GetObjectsAt finds is exactly the objects of the scanned cells that cover the query point. */
    lemma GetObjectsAtMembers(xs: int, cx: int, ys: int, cy: int, covers: (Thing, int, int) -> bool, t: Thing)
      requires WindowInGrid(xs, cx, ys, cy)
      ensures t in WindowHits(xs, cx, ys, cy, cx, cy, covers) <==>
        exists xi, yi :: xs <= xi <= cx && ys <= yi <= cy && t in CellObjects(world[xi, yi]) && covers(t, cx - xi, cy - yi)
    {
      WindowHitsMembers(xs, cx, ys, cy, cx, cy, covers, t);
      if t in WindowHits(xs, cx, ys, cy, cx, cy, covers) {
        var xi :| xs <= xi <= cx && InColumn(xi, ys, cy, cx, cy, covers, t);
        var yi :| ys <= yi <= cy && CoversFrom(xi, yi, cx, cy, covers, t);
      }
      if exists xi, yi :: xs <= xi <= cx && ys <= yi <= cy && t in CellObjects(world[xi, yi]) && covers(t, cx - xi, cy - yi) {
        var xi, yi :| xs <= xi <= cx && ys <= yi <= cy && t in CellObjects(world[xi, yi]) && covers(t, cx - xi, cy - yi);
        assert CoversFrom(xi, yi, cx, cy, covers, t);
        assert InColumn(xi, ys, cy, cx, cy, covers, t);
      }
    }
  }
}
