/**
 * The lifts scenario: the call button of a floor (scenarios/lifts/Button.java)
 * and the floor layout of the building world (scenarios/lifts/Building.java).
 * Images are named by which of the four pictures is shown; the Floor and Lift
 * actors are represented by the y coordinate each floor is placed at.
 */
module Lifts {

  /** Direction codes of Button.UP and Button.DOWN. */
  const Up: int := 0
  const Down: int := 1

  /** The four button pictures. */
  datatype ButtonImage = ImageNone | ImageUp | ImageDown | ImageUpDown

  /** The picture that shows which call flags are set. */
  function ImageFor(up: bool, down: bool): (r: ButtonImage)
    ensures r == ImageUpDown <==> up && down
    ensures r == ImageUp <==> up && !down
    ensures r == ImageDown <==> !up && down
    ensures r == ImageNone <==> !up && !down
  {
    if up && down then ImageUpDown
    else if up then ImageUp
    else if down then ImageDown
    else ImageNone
  }

  /** The picture tells both flags back. */
  lemma ImageDeterminesFlags(up1: bool, down1: bool, up2: bool, down2: bool)
    requires ImageFor(up1, down1) == ImageFor(up2, down2)
    ensures up1 == up2 && down1 == down2
  {
  }

  class Button {
    var up: bool
    var down: bool
    var image: ButtonImage

    /** The image always shows the flags. */
    ghost predicate Valid()
      reads this
    {
      image == ImageFor(up, down)
    }

    constructor ()
      ensures Valid()
      ensures !up && !down && image == ImageNone
    {
      image := ImageNone;
      up := false;
      down := false;
    }

    /** Sets the flag of one direction and refreshes the picture. */
    method Change(direction: int, onOff: bool)
      modifies this
      ensures Valid()
      ensures up == (if direction == Up then onOff else old(up))
      ensures down == (if direction == Down then onOff else old(down))
    {
      if direction == Up {
        up := onOff;
      } else if direction == Down {
        down := onOff;
      }
      UpdateImage();
    }

    method Press(direction: int)
      modifies this
      ensures Valid()
      ensures up == (direction == Up || old(up))
      ensures down == (direction == Down || old(down))
    {
      Change(direction, true);
    }

    method Clear(direction: int)
      modifies this
      ensures Valid()
      ensures up == (direction != Up && old(up))
      ensures down == (direction != Down && old(down))
    {
      Change(direction, false);
    }

    method UpdateImage()
      modifies this
      ensures Valid()
      ensures up == old(up) && down == old(down)
    {
      if up && down {
        image := ImageUpDown;
      } else if up {
        image := ImageUp;
      } else if down {
        image := ImageDown;
      } else {
        image := ImageNone;
      }
    }
  }

  /** Pressing the same direction twice leaves the button as pressing once did. */
  method PressTwice(b: Button, direction: int)
    modifies b
    ensures b.Valid()
    ensures b.up == (direction == Up || old(b.up)) && b.down == (direction == Down || old(b.down))
  {
    b.Press(direction);
    ghost var upOnce, downOnce := b.up, b.down;
    b.Press(direction);
    assert b.up == upOnce && b.down == downOnce;
  }

  /** Building constants. */
  const Resolution: int := 1
  const DefaultLifts: int := 3
  const DefaultStories: int := 6
  /** Vertical distance between two floors, in cells. */
  const StoryHeight: int := 72
  /** Cell row of the top floor. */
  const TopMargin: int := 40
  /** Cell column at which every floor is placed. */
  const FloorX: int := 100

  /** The row at which floor i of a building with n floors stands. */
  function FloorRow(n: int, i: int): (y: int)
    ensures 0 <= i < n ==> TopMargin <= y <= (n - 1) * StoryHeight + TopMargin
  {
    (n - 1 - i) * StoryHeight + TopMargin
  }

  /** Higher floors stand at smaller rows. */
  lemma FloorRowsDecrease(n: int, i: int, j: int)
    requires i < j
    ensures FloorRow(n, j) < FloorRow(n, i)
  {
  }

  /** Width and height in cells of a building world. */
  function WorldWidth(lifts: int): (w: int)
    ensures lifts >= 0 ==> w >= 240
  {
    240 + lifts * 56
  }

  function WorldHeight(stories: int): (h: int)
    ensures stories >= 0 ==> h >= TopMargin
  {
    stories * StoryHeight + TopMargin
  }

  /** Every floor row lies inside the world that belongs to the same number of stories. */
  lemma FloorsInsideWorld(stories: int, i: int)
    requires 0 <= i < stories
    ensures 0 <= FloorRow(stories, i) < WorldHeight(stories)
  {
  }

  /** The least index at which y occurs, or -1. */
  function IndexOfRow(rows: seq<int>, y: int): (r: int)
    ensures -1 <= r < |rows|
    ensures r == -1 <==> y !in rows
    ensures r >= 0 ==> rows[r] == y && y !in rows[..r]
    decreases |rows|
  {
    if |rows| == 0 then -1
    else if rows[0] == y then 0
    else
      var k := IndexOfRow(rows[1..], y);
      if k == -1 then -1
      else
        assert rows[..k + 1] == [rows[0]] + rows[1..][..k];
        k + 1
  }

  class Building {
    /** Width and height of the world in cells. */
    const width: int
    const height: int
    /** The row of each floor, indexed by floor number. */
    const floors: array<int>

    ghost predicate Valid()
      reads this, floors
    {
      forall i :: 0 <= i < floors.Length ==> floors[i] == FloorRow(floors.Length, i)
    }

    /** A building of the given number of stories and lifts. */
    constructor (stories: int, lifts: int)
      requires stories >= 0
      ensures Valid()
      ensures width == WorldWidth(lifts) && height == WorldHeight(stories)
      ensures floors.Length == stories && fresh(floors)
    {
      width := WorldWidth(lifts);
      height := WorldHeight(stories);
      var a := new int[stories];
      CreateFloors(a);
      floors := a;
    }

    /** The building with the default numbers of stories and lifts. */
    static method Default() returns (b: Building)
      ensures b.Valid() && b.floors.Length == DefaultStories
      ensures b.width == 408 && b.height == 472
    {
      b := new Building(DefaultStories, DefaultLifts);
    }

    /** Places floor i at its row, for every floor. */
    static method CreateFloors(a: array<int>)
      modifies a
      ensures forall i :: 0 <= i < a.Length ==> a[i] == FloorRow(a.Length, i)
    {
      var i := 0;
      while i < a.Length
        invariant 0 <= i <= a.Length
        invariant forall k :: 0 <= k < i ==> a[k] == FloorRow(a.Length, k)
      {
        a[i] := (a.Length - 1 - i) * StoryHeight + TopMargin;
        i := i + 1;
      }
    }

    /** The floor standing exactly at row y, or -1. */
    method GetFloorAt(y: int) returns (r: int)
      ensures r == IndexOfRow(floors[..], y)
    {
      var i := 0;
      while i < floors.Length
        invariant 0 <= i <= floors.Length
        invariant y !in floors[..i]
      {
        if floors[i] == y {
          assert floors[..i] == floors[..][..i];
          return i;
        }
        i := i + 1;
        assert floors[..i] == floors[..i - 1] + [floors[i - 1]];
      }
      assert floors[..i] == floors[..];
      return -1;
    }

    function GetTopFloor(): (r: int)
      reads this
      ensures r + 1 == floors.Length
    {
      floors.Length - 1
    }

    /** Each floor's row leads back to that floor. */
    lemma FloorAtOwnRow(i: int)
      requires Valid()
      requires 0 <= i < floors.Length
      ensures IndexOfRow(floors[..], floors[i]) == i
    {
      var k := IndexOfRow(floors[..], floors[i]);
      if k < i {
        FloorRowsDecrease(floors.Length, k, i);
      }
    }

    /** A row between floors, or outside the building, belongs to no floor. */
    lemma NoFloorOffRows(y: int)
      requires Valid()
      requires (y - TopMargin) % StoryHeight != 0
      ensures IndexOfRow(floors[..], y) == -1
    {
    }
  }
}
