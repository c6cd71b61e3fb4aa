/**
 * The object bookkeeping of a Greenfoot world (greenfoot/World.java): one set
 * holding every actor, and optional paint-order and act-order sets, either of
 * which may be the very same object as the membership set.  Also the
 * pixel/cell conversions and the coordinate bounds checks.
 *
 * TreeActorSet is represented by its members and the class order last given
 * to it; the order in which it iterates is not modelled.  The collision
 * checker and the addedToWorld callback are outside the model.
 */
module World {
  import opened Strings

  /** Names a class of actors. */
  type ClassId = string

  /** The class order last given to a TreeActorSet: paint order is kept reversed. */
  datatype ClassOrder = Unordered | Ordered(reverse: bool, classes: seq<ClassId>)

  class Actor {
    var x: int
    var y: int
    var world: World?

    constructor ()
      ensures world == null
    {
      world := null;
    }

    /** Places the actor in a world at a cell. */
    method AddToWorld(x: int, y: int, w: World)
      modifies this
      ensures this.x == x && this.y == y && world == w
    {
      this.x := x;
      this.y := y;
      world := w;
    }

    method SetWorld(w: World?)
      modifies this
      ensures world == w && x == old(x) && y == old(y)
    {
      world := w;
    }
  }

  /** A set of actors that can be told a class order. */
  class TreeActorSet {
    var members: set<Actor>
    var order: ClassOrder

    constructor ()
      ensures members == {} && order == Unordered
    {
      members := {};
      order := Unordered;
    }

    /** Adds an actor; tells whether it was new. */
    method Add(a: Actor) returns (added: bool)
      modifies this
      ensures added <==> a !in old(members)
      ensures members == old(members) + {a} && order == old(order)
    {
      added := a !in members;
      members := members + {a};
    }

    /** Removes an actor; tells whether it was there. */
    method Remove(a: Actor) returns (removed: bool)
      modifies this
      ensures removed <==> a in old(members)
      ensures members == old(members) - {a} && order == old(order)
    {
      removed := a in members;
      members := members - {a};
    }

    method AddAll(other: TreeActorSet)
      modifies this
      ensures members == old(members) + other.members && order == old(order)
    {
      members := members + other.members;
    }

    method SetClassOrder(reverse: bool, classes: seq<ClassId>)
      modifies this
      ensures order == Ordered(reverse, classes) && members == old(members)
    {
      order := Ordered(reverse, classes);
    }
  }

  /** The coordinate that failed a bounds check, as the exception message reports it. */
  datatype OutOfBounds =
    | NotSmallerThan(axis: char, coordinate: int, limit: int)
    | NotLargerThanZero(axis: char, coordinate: int)

  class World {
    const objectsDisordered: TreeActorSet
    var objectsInPaintOrder: TreeActorSet?
    var objectsInActOrder: TreeActorSet?
    const width: int
    const height: int
    const cellSize: int

    /** The distinct set objects the world uses. */
    ghost function Sets(): set<TreeActorSet>
      reads this
    {
      {objectsDisordered}
        + (if objectsInPaintOrder != null then {objectsInPaintOrder} else {})
        + (if objectsInActOrder != null then {objectsInActOrder} else {})
    }

    /**
     * The two orderings never share one set (so never both use the membership
     * set), and every ordering set present holds exactly the world's actors.
     */
    ghost predicate Valid()
      reads this, Sets()
    {
      && cellSize >= 1
      && (objectsInPaintOrder != null && objectsInActOrder != null ==> objectsInPaintOrder != objectsInActOrder)
      && (objectsInPaintOrder != null ==> objectsInPaintOrder.members == objectsDisordered.members)
      && (objectsInActOrder != null ==> objectsInActOrder.members == objectsDisordered.members)
    }

    /** The two ordered sets are never the same object, here for the membership set. */
    lemma NeverBothOnMembershipSet()
      requires Valid()
      ensures !(objectsInPaintOrder == objectsDisordered && objectsInActOrder == objectsDisordered)
    {
    }

    constructor (worldWidth: int, worldHeight: int, cellSize: int)
      requires cellSize >= 1
      ensures Valid()
      ensures width == worldWidth && height == worldHeight && this.cellSize == cellSize
      ensures objectsDisordered.members == {} && objectsInPaintOrder == null && objectsInActOrder == null
      ensures fresh(objectsDisordered)
    {
      objectsDisordered := new TreeActorSet();
      objectsInPaintOrder := null;
      objectsInActOrder := null;
      width := worldWidth;
      height := worldHeight;
      this.cellSize := cellSize;
    }

    method AddInPaintOrder(a: Actor)
      modifies objectsInPaintOrder
      ensures objectsInPaintOrder != null ==> objectsInPaintOrder.members == old(objectsInPaintOrder.members) + {a}
      ensures objectsInPaintOrder != null ==> objectsInPaintOrder.order == old(objectsInPaintOrder.order)
    {
      if objectsInPaintOrder != null {
        var _ := objectsInPaintOrder.Add(a);
      }
    }

    method AddInActOrder(a: Actor)
      modifies objectsInActOrder
      ensures objectsInActOrder != null ==> objectsInActOrder.members == old(objectsInActOrder.members) + {a}
      ensures objectsInActOrder != null ==> objectsInActOrder.order == old(objectsInActOrder.order)
    {
      if objectsInActOrder != null {
        var _ := objectsInActOrder.Add(a);
      }
    }

    method RemoveInPaintOrder(a: Actor)
      modifies objectsInPaintOrder
      ensures objectsInPaintOrder != null ==> objectsInPaintOrder.members == old(objectsInPaintOrder.members) - {a}
      ensures objectsInPaintOrder != null ==> objectsInPaintOrder.order == old(objectsInPaintOrder.order)
    {
      if objectsInPaintOrder != null {
        var _ := objectsInPaintOrder.Remove(a);
      }
    }

    method RemoveInActOrder(a: Actor)
      modifies objectsInActOrder
      ensures objectsInActOrder != null ==> objectsInActOrder.members == old(objectsInActOrder.members) - {a}
      ensures objectsInActOrder != null ==> objectsInActOrder.order == old(objectsInActOrder.order)
    {
      if objectsInActOrder != null {
        var _ := objectsInActOrder.Remove(a);
      }
    }

    /** Adds an actor at a cell, unless it is already in this world. */
    method AddObject(a: Actor, x: int, y: int)
      requires Valid()
      modifies Sets(), a
      ensures Valid()
      ensures objectsInPaintOrder == old(objectsInPaintOrder) && objectsInActOrder == old(objectsInActOrder)
      ensures forall s :: s in Sets() ==> s.order == old(s.order)
      ensures a in old(objectsDisordered.members) ==>
        objectsDisordered.members == old(objectsDisordered.members) && a.x == old(a.x) && a.y == old(a.y) && a.world == old(a.world)
      ensures a !in old(objectsDisordered.members) ==>
        objectsDisordered.members == old(objectsDisordered.members) + {a} && a.x == x && a.y == y && a.world == this
    {
      var added := objectsDisordered.Add(a);
      if !added {
        return;
      }
      a.AddToWorld(x, y, this);
      AddInPaintOrder(a);
      AddInActOrder(a);
    }

    /** Removes an actor from every set it is in, and detaches it from its world. */
    method RemoveObject(a: Actor)
      requires Valid()
      modifies Sets(), a
      ensures Valid()
      ensures objectsInPaintOrder == old(objectsInPaintOrder) && objectsInActOrder == old(objectsInActOrder)
      ensures forall s :: s in Sets() ==> s.order == old(s.order)
      ensures objectsDisordered.members == old(objectsDisordered.members) - {a}
      ensures a.world == null && a.x == old(a.x) && a.y == old(a.y)
    {
      var removed := objectsDisordered.Remove(a);
      if removed {
        RemoveInActOrder(a);
        RemoveInPaintOrder(a);
      }
      a.SetWorld(null);
    }

    /**
     * Sets the paint order (None stands for a null argument, which drops the
     * paint ordering).  A new set is made only when the act ordering already
     * uses the membership set.
     */
    method SetPaintOrder(classes: Option<seq<ClassId>>)
      requires Valid()
      modifies this, Sets()
      ensures Valid()
      ensures objectsDisordered.members == old(objectsDisordered.members)
      ensures objectsInActOrder == old(objectsInActOrder)
      ensures objectsInActOrder != null ==> objectsInActOrder.order == old(objectsInActOrder.order)
      ensures classes.None? ==> objectsInPaintOrder == null
      ensures classes.None? && old(objectsInPaintOrder) != null ==> old(objectsInPaintOrder).order == Ordered(true, [])
      ensures classes.None? && old(objectsInPaintOrder) == objectsDisordered ==> objectsDisordered.order == Ordered(true, [])
      ensures objectsDisordered != old(objectsInPaintOrder) && objectsDisordered != objectsInPaintOrder ==>
        objectsDisordered.order == old(objectsDisordered.order)
      ensures classes.Some? ==> objectsInPaintOrder != null && objectsInPaintOrder.order == Ordered(true, classes.value)
      ensures classes.Some? && old(objectsInPaintOrder) != null ==> objectsInPaintOrder == old(objectsInPaintOrder)
      ensures classes.Some? && old(objectsInPaintOrder) == null && old(objectsInActOrder) != objectsDisordered ==>
        objectsInPaintOrder == objectsDisordered
      ensures classes.Some? && old(objectsInPaintOrder) == null && old(objectsInActOrder) == objectsDisordered ==>
        fresh(objectsInPaintOrder)
    {
      if classes.None? {
        if objectsInPaintOrder != null {
          objectsInPaintOrder.SetClassOrder(true, []);
          objectsInPaintOrder := null;
        }
        return;
      }
      if objectsInPaintOrder != null {
        // the existing set is reused
      } else if objectsInActOrder == objectsDisordered {
        var s := new TreeActorSet();
        s.AddAll(objectsDisordered);
        objectsInPaintOrder := s;
      } else {
        objectsInPaintOrder := objectsDisordered;
      }
      objectsInPaintOrder.SetClassOrder(true, classes.value);
    }

    /** The act-order counterpart of SetPaintOrder. */
    method SetActOrder(classes: Option<seq<ClassId>>)
      requires Valid()
      modifies this, Sets()
      ensures Valid()
      ensures objectsDisordered.members == old(objectsDisordered.members)
      ensures objectsInPaintOrder == old(objectsInPaintOrder)
      ensures objectsInPaintOrder != null ==> objectsInPaintOrder.order == old(objectsInPaintOrder.order)
      ensures classes.None? ==> objectsInActOrder == null
      ensures classes.None? && old(objectsInActOrder) != null ==> old(objectsInActOrder).order == Ordered(false, [])
      ensures classes.None? && old(objectsInActOrder) == objectsDisordered ==> objectsDisordered.order == Ordered(false, [])
      ensures objectsDisordered != old(objectsInActOrder) && objectsDisordered != objectsInActOrder ==>
        objectsDisordered.order == old(objectsDisordered.order)
      ensures classes.Some? ==> objectsInActOrder != null && objectsInActOrder.order == Ordered(false, classes.value)
      ensures classes.Some? && old(objectsInActOrder) != null ==> objectsInActOrder == old(objectsInActOrder)
      ensures classes.Some? && old(objectsInActOrder) == null && old(objectsInPaintOrder) != objectsDisordered ==>
        objectsInActOrder == objectsDisordered
      ensures classes.Some? && old(objectsInActOrder) == null && old(objectsInPaintOrder) == objectsDisordered ==>
        fresh(objectsInActOrder)
    {
      if classes.None? {
        if objectsInActOrder != null {
          objectsInActOrder.SetClassOrder(false, []);
          objectsInActOrder := null;
        }
        return;
      }
      if objectsInActOrder != null {
        // the existing set is reused
      } else if objectsInPaintOrder == objectsDisordered {
        var s := new TreeActorSet();
        s.AddAll(objectsDisordered);
        objectsInActOrder := s;
      } else {
        objectsInActOrder := objectsDisordered;
      }
      objectsInActOrder.SetClassOrder(false, classes.value);
    }

    function NumberOfObjects(): (r: int)
      requires Valid()
      reads this, Sets()
      ensures r == |GetObjectsListInPaintOrder().members| == |GetObjectsListInActOrder().members|
    {
      |objectsDisordered.members|
    }

    /** The set to paint from: the paint ordering when there is one. */
    function GetObjectsListInPaintOrder(): (r: TreeActorSet)
      requires Valid()
      reads this, Sets()
      ensures r in Sets() && r.members == objectsDisordered.members
      ensures objectsInPaintOrder != null ==> r == objectsInPaintOrder
    {
      if objectsInPaintOrder != null then objectsInPaintOrder else objectsDisordered
    }

    /** The set to act from: the act ordering when there is one. */
    function GetObjectsListInActOrder(): (r: TreeActorSet)
      requires Valid()
      reads this, Sets()
      ensures r in Sets() && r.members == objectsDisordered.members
      ensures objectsInActOrder != null ==> r == objectsInActOrder
    {
      if objectsInActOrder != null then objectsInActOrder else objectsDisordered
    }

    function GetWidthInPixels(): (r: int)
      requires cellSize >= 1
      reads this
      ensures width >= 1 ==> ToCellFloor(r - 1) == width - 1 && ToCellCeil(r) == width
    {
      if width >= 1 then CellOfLastPixel(width); width * cellSize
      else width * cellSize
    }

    function GetHeightInPixels(): (r: int)
      requires cellSize >= 1
      reads this
      ensures height >= 1 ==> ToCellFloor(r - 1) == height - 1 && ToCellCeil(r) == height
    {
      if height >= 1 then CellOfLastPixel(height); height * cellSize
      else height * cellSize
    }

    /** The cell containing a pixel: pixel / cellSize rounded down. */
    function ToCellFloor(pixel: int): (r: int)
      requires cellSize >= 1
      reads this
      ensures r * cellSize <= pixel < (r + 1) * cellSize
    {
      pixel / cellSize
    }

    /** pixel / cellSize rounded up. */
    function ToCellCeil(pixel: int): (r: int)
      requires cellSize >= 1
      reads this
      ensures (r - 1) * cellSize < pixel <= r * cellSize
    {
      -((-pixel) / cellSize)
    }

    /** The two roundings agree exactly on the pixels where cells begin. */
    lemma FloorCeilAgreeOnCellEdges(pixel: int)
      requires cellSize >= 1
      ensures ToCellFloor(pixel) == ToCellCeil(pixel) <==> pixel % cellSize == 0
    {
      if pixel % cellSize == 0 {
        assert pixel == (pixel / cellSize) * cellSize;
      }
    }

    lemma CellOfLastPixel(cells: int)
      requires cellSize >= 1
      requires cells >= 1
      ensures ToCellFloor(cells * cellSize - 1) == cells - 1
      ensures ToCellCeil(cells * cellSize) == cells
    {
      FloorDivUnique(cells * cellSize - 1, cellSize, cells - 1);
      FloorDivUnique(-(cells * cellSize), cellSize, -cells);

    }

    /** The quotient is the only q with q * c <= p < (q + 1) * c. */
    static lemma FloorDivUnique(p: int, c: int, q: int)
      requires c >= 1
      requires q * c <= p < (q + 1) * c
      ensures p / c == q
    {
      var r := p / c;
      assert r * c <= p < (r + 1) * c;
      MulMonotone(r, q + 1, c);
      MulMonotone(q, r + 1, c);
    }

    /** For a positive factor, a smaller product means a smaller multiplicand. */
    static lemma MulMonotone(a: int, b: int, c: int)
      requires c >= 1
      requires a * c < b * c
      ensures a < b
    {
    }

    /** None when x is a column of the world, else why it is not. */
    function EnsureWithinXBounds(x: int): (r: Option<OutOfBounds>)
      reads this
      ensures r.None? <==> 0 <= x < width
      ensures x >= width ==> r == Some(NotSmallerThan('x', x, width))
      ensures x < 0 && x < width ==> r == Some(NotLargerThanZero('x', x))
    {
      if x >= width then Some(NotSmallerThan('x', x, width))
      else if x < 0 then Some(NotLargerThanZero('x', x))
      else None
    }

    /** The y check as written: a negative y is reported as an x-coordinate. */
    function EnsureWithinYBoundsAsWritten(y: int): (r: Option<OutOfBounds>)
      reads this
      ensures r.None? <==> 0 <= y < height
    {
      if y >= height then Some(NotSmallerThan('y', y, height))
      else if y < 0 then Some(NotLargerThanZero('x', y))
      else None
    }

    /** None when y is a row of the world, else why it is not. */
    function EnsureWithinYBounds(y: int): (r: Option<OutOfBounds>)
      reads this
      ensures r.None? <==> 0 <= y < height
      ensures y >= height ==> r == Some(NotSmallerThan('y', y, height))
      ensures y < 0 && y < height ==> r == Some(NotLargerThanZero('y', y))
    {
      if y >= height then Some(NotSmallerThan('y', y, height))
      else if y < 0 then Some(NotLargerThanZero('y', y))
      else None
    }

    /** A row of -1 in a non-empty world is reported against the wrong axis. */
    lemma NegativeYReportedAsX()
      requires height >= 1
      ensures EnsureWithinYBoundsAsWritten(-1) == Some(NotLargerThanZero('x', -1))
      ensures EnsureWithinYBoundsAsWritten(-1) != EnsureWithinYBounds(-1)
    {
    }
  }
}
