/**
 * The parameter list of a Stride method header
 * (bluej/stride/slots/FormalParameters.java): a list of formal parameters,
 * each a type slot and a name slot, edited in place by insertion and
 * deletion, plus the sequence of header items the list is shown as.
 *
 * A slot is represented by what the list consults about it: whether it is
 * empty, almost blank, or focused.  Building the JavaFX slots, focus
 * movement and listeners are outside the model; a new parameter is passed in
 * already built.  Each call of the editor's modifiedFrame is counted.
 */
module FormalParameters {

  /** An editable text slot, as far as the parameter list looks at it. */
  class Slot {
    var empty: bool
    var almostBlank: bool
    var focused: bool

    constructor (empty: bool, almostBlank: bool, focused: bool)
      ensures this.empty == empty && this.almostBlank == almostBlank && this.focused == focused
    {
      this.empty := empty;
      this.almostBlank := almostBlank;
      this.focused := focused;
    }
  }

  /** One parameter: its type slot and its name slot. */
  class Formal {
    const typeSlot: Slot
    const nameSlot: Slot

    constructor (typeSlot: Slot, nameSlot: Slot)
      ensures this.typeSlot == typeSlot && this.nameSlot == nameSlot
    {
      this.typeSlot := typeSlot;
      this.nameSlot := nameSlot;
    }

    /** Both slots are empty. */
    predicate IsEmpty()
      reads typeSlot, nameSlot
    {
      typeSlot.empty && nameSlot.empty
    }

    /** Either slot has the focus. */
    predicate IsFocused()
      reads typeSlot, nameSlot
    {
      typeSlot.focused || nameSlot.focused
    }
  }

  /** List.indexOf: the first position of x in s, or -1. */
  function Position<T(==)>(s: seq<T>, x: T): (r: int)
    ensures -1 <= r < |s|
    ensures r == -1 <==> x !in s
    ensures r >= 0 ==> s[r] == x && forall j :: 0 <= j < r ==> s[j] != x
    decreases |s|
  {
    if |s| == 0 then -1
    else if s[0] == x then 0
    else
      var p := Position(s[1..], x);
      if p == -1 then -1 else p + 1
  }

  /** List.add(int, E) */
  function InsertAt<T>(s: seq<T>, k: int, x: T): (r: seq<T>)
    requires 0 <= k <= |s|
    ensures |r| == |s| + 1 && r[k] == x
    ensures forall j :: 0 <= j < k ==> r[j] == s[j]
    ensures forall j :: k < j < |r| ==> r[j] == s[j - 1]
  {
    s[..k] + [x] + s[k..]
  }

  /** List.remove(int) */
  function RemoveAt<T>(s: seq<T>, k: int): (r: seq<T>)
    requires 0 <= k < |s|
    ensures |r| == |s| - 1
    ensures forall j :: 0 <= j < k ==> r[j] == s[j]
    ensures forall j :: k <= j < |r| ==> r[j] == s[j + 1]
  {
    s[..k] + s[k + 1..]
  }

  /** Inserting at a position and removing at the same position gives the list back. */
  lemma RemoveUndoesInsert<T>(s: seq<T>, k: int, x: T)
    requires 0 <= k <= |s|
    ensures RemoveAt(InsertAt(s, k, x), k) == s
  {
    var r := RemoveAt(InsertAt(s, k, x), k);
    assert forall j :: 0 <= j < |s| ==> r[j] == s[j];
  }

  /** Insertion adds exactly one copy of the new element. */
  lemma InsertAddsOne<T>(s: seq<T>, k: int, x: T)
    requires 0 <= k <= |s|
    ensures multiset(InsertAt(s, k, x)) == multiset(s) + multiset{x}
  {
    assert s == s[..k] + s[k..];
    assert InsertAt(s, k, x) == s[..k] + [x] + s[k..];
  }

  /** List.remove(Object): the first occurrence of x removed, if there is one. */
  function Remove<T(==)>(s: seq<T>, x: T): (r: seq<T>)
    ensures x !in s ==> r == s
    ensures x in s ==> r == RemoveAt(s, Position(s, x))
  {
    var p := Position(s, x);
    if p == -1 then s else RemoveAt(s, p)
  }

  /** Removing an element drops exactly one copy of it and keeps the rest. */
  lemma RemoveDropsOne<T>(s: seq<T>, x: T)
    requires x in s
    ensures multiset(Remove(s, x)) == multiset(s) - multiset{x}
  {
    var p := Position(s, x);
    assert s == s[..p] + [x] + s[p + 1..];
    assert Remove(s, x) == s[..p] + s[p + 1..];
  }

  /** The first parameter with the given slot as its type or its name, or -1 (findFormal). */
  function FindFormal(params: seq<Formal>, slot: Slot): (r: int)
    ensures -1 <= r < |params|
    ensures r >= 0 ==> params[r].typeSlot == slot || params[r].nameSlot == slot
    ensures r >= 0 ==> forall j :: 0 <= j < r ==> params[j].typeSlot != slot && params[j].nameSlot != slot
    ensures r == -1 <==> forall j :: 0 <= j < |params| ==> params[j].typeSlot != slot && params[j].nameSlot != slot
    decreases |params|
  {
    if |params| == 0 then -1
    else if params[0].typeSlot == slot || params[0].nameSlot == slot then 0
    else
      var p := FindFormal(params[1..], slot);
      if p == -1 then -1 else p + 1
  }

  /** The parameter found for a slot is at its own first position in the list. */
  lemma FoundFormalIsFirstOccurrence(params: seq<Formal>, slot: Slot)
    requires FindFormal(params, slot) >= 0
    ensures Position(params, params[FindFormal(params, slot)]) == FindFormal(params, slot)
  {
    var i := FindFormal(params, slot);
    var p := Position(params, params[i]);
    assert params[p] == params[i];
  }

  /** An item of the method header: a fixed label or one of the parameters' slots. */
  datatype HeaderItem = Label(text: string) | Field(slot: Slot)

  const Open: HeaderItem := Label("(")
  const Close: HeaderItem := Label(")")
  const Spacer: HeaderItem := Label(" ")
  const Comma: HeaderItem := Label(", ")

  /** The parameters' slots, type then name, with a comma between parameters. */
  function Interleaved(params: seq<Formal>): (r: seq<HeaderItem>)
    ensures |params| == 0 ==> r == []
    ensures |params| > 0 ==> |r| == 3 * |params| - 1
    decreases |params|
  {
    if |params| == 0 then []
    else if |params| == 1 then [Field(params[0].typeSlot), Field(params[0].nameSlot)]
    else
      var last := params[|params| - 1];
      Interleaved(params[..|params| - 1]) + [Comma, Field(last.typeSlot), Field(last.nameSlot)]
  }

  /**
   * The header items (calculateValues): "(", a spacer only when there is no
   * parameter, the interleaved slots, ")".
   */
  function HeaderSlots(params: seq<Formal>): (r: seq<HeaderItem>)
    ensures |params| == 0 ==> r == [Open, Spacer, Close]
    ensures |params| > 0 ==> |r| == 3 * |params| + 1
    ensures r[0] == Open && r[|r| - 1] == Close
  {
    if |params| == 0 then [Open, Spacer, Close]
    else [Open] + Interleaved(params) + [Close]
  }

  /** Where each parameter's slots and each comma sit among the interleaved items. */
  lemma {:induction false} InterleavedLayout(params: seq<Formal>)
    ensures forall i :: 0 <= i < |params| ==>
      Interleaved(params)[3 * i] == Field(params[i].typeSlot) && Interleaved(params)[3 * i + 1] == Field(params[i].nameSlot)
    ensures forall i :: 0 <= i < |params| - 1 ==> Interleaved(params)[3 * i + 2] == Comma
    decreases |params|
  {
    if |params| > 1 {
      var front := params[..|params| - 1];
      InterleavedLayout(front);
      forall i | 0 <= i < |front|
        ensures Interleaved(params)[3 * i] == Field(params[i].typeSlot)
        ensures Interleaved(params)[3 * i + 1] == Field(params[i].nameSlot)
      {
        assert front[i] == params[i];
      }
    }
  }

  /** In the header, parameter i's type is item 3i+1 and its name item 3i+2; commas sit at 3i+3. */
  lemma HeaderLayout(params: seq<Formal>)
    requires |params| > 0
    ensures forall i :: 0 <= i < |params| ==>
      HeaderSlots(params)[3 * i + 1] == Field(params[i].typeSlot) && HeaderSlots(params)[3 * i + 2] == Field(params[i].nameSlot)
    ensures forall i :: 0 <= i < |params| - 1 ==> HeaderSlots(params)[3 * i + 3] == Comma
  {
    InterleavedLayout(params);
    var r := HeaderSlots(params);
    assert forall k :: 0 <= k < |Interleaved(params)| ==> r[k + 1] == Interleaved(params)[k];
  }

  class FormalParameters {
    var params: seq<Formal>
    /** How many times the editor has been told the frame was modified. */
    var modifications: nat

    constructor ()
      ensures params == [] && modifications == 0
    {
      params := [];
      modifications := 0;
    }

    /** Appends a parameter without telling the editor. */
    method AddFormal(f: Formal)
      modifies this
      ensures params == old(params) + [f] && modifications == old(modifications)
    {
      params := params + [f];
    }

    /**
     * Inserts a parameter before another one, or at the front when there is
     * none.  Fails, changing nothing, when the other one is not in the list
     * (its index -1 is rejected by the list).
     */
    method InsertBefore(before: Formal?, f: Formal) returns (ok: bool)
      modifies this
      ensures ok <==> before == null || before in old(params)
      ensures !ok ==> params == old(params) && modifications == old(modifications)
      ensures ok ==> modifications == old(modifications) + 1
      ensures ok && before == null ==> params == InsertAt(old(params), 0, f)
      ensures ok && before != null ==> params == InsertAt(old(params), Position(old(params), before), f)
    {
      var index := if before == null then 0 else Position(params, before);
      if index < 0 {
        return false;
      }
      params := InsertAt(params, index, f);
      modifications := modifications + 1;
      return true;
    }

    /**
     * Inserts a parameter after another one.  With no other parameter, and
     * equally when the other one is not in the list, the new one goes first.
     */
    method InsertAfter(after: Formal?, f: Formal)
      modifies this
      ensures modifications == old(modifications) + 1
      ensures after == null || after !in old(params) ==> params == InsertAt(old(params), 0, f)
      ensures after != null && after in old(params) ==> params == InsertAt(old(params), Position(old(params), after) + 1, f)
    {
      var index := if after == null then 0 else Position(params, after) + 1;
      params := InsertAt(params, index, f);
      modifications := modifications + 1;
    }

    /** Adds the given new parameter when the list is empty; tells whether it did. */
    method EnsureAtLeastOneParameter(f: Formal) returns (added: bool)
      modifies this
      ensures added <==> old(params) == []
      ensures added ==> params == [f] && modifications == old(modifications) + 1
      ensures !added ==> params == old(params) && modifications == old(modifications)
    {
      if params == [] {
        InsertAfter(null, f);
        return true;
      }
      return false;
    }

    /** Removes the first occurrence of a parameter. */
    method DeleteFormal(f: Formal)
      modifies this
      ensures params == Remove(old(params), f)
      ensures modifications == old(modifications) + 1
    {
      params := Remove(params, f);
      modifications := modifications + 1;
    }

    /**
     * Backspace at the start of a slot.  At the first parameter's type, or at
     * any name, nothing is deleted.  At a later parameter's type, that
     * parameter goes when both its slots are almost blank, and otherwise the
     * parameter before it goes.  Fails, changing nothing, for a slot of no
     * parameter.
     */
    method BackSpacePressedAtStart(slot: Slot) returns (ok: bool)
      modifies this
      ensures ok <==> FindFormal(old(params), slot) >= 0
      ensures
        var i := FindFormal(old(params), slot);
        var f := if i >= 0 then old(params)[i] else null;
        if i < 0 || f.typeSlot != slot || i == 0 then
          params == old(params) && modifications == old(modifications)
        else if f.nameSlot.almostBlank && f.typeSlot.almostBlank then
          params == RemoveAt(old(params), i) && modifications == old(modifications) + 1
        else
          params == Remove(old(params), old(params)[i - 1]) && modifications == old(modifications) + 1
    {
      var i := FindFormal(params, slot);
      if i < 0 {
        return false;
      }
      var formal := params[i];
      if formal.typeSlot == slot {
        if i != 0 {
          if formal.nameSlot.almostBlank && formal.typeSlot.almostBlank {
            FoundFormalIsFirstOccurrence(params, slot);
            DeleteFormal(formal);
          } else {
            DeleteFormal(params[i - 1]);
          }
        }
      }
      return true;
    }

    /**
     * Delete at the end of a slot: at a name, the following parameter goes
     * when there is one; at a type nothing happens.  Fails, changing nothing,
     * for a slot of no parameter.
     */
    method DeletePressedAtEnd(slot: Slot) returns (ok: bool)
      modifies this
      ensures ok <==> FindFormal(old(params), slot) >= 0
      ensures
        var i := FindFormal(old(params), slot);
        if i >= 0 && old(params)[i].typeSlot != slot && i < |old(params)| - 1 then
          params == Remove(old(params), old(params)[i + 1]) && modifications == old(modifications) + 1
        else
          params == old(params) && modifications == old(modifications)
    {
      var i := FindFormal(params, slot);
      if i < 0 {
        return false;
      }
      var formal := params[i];
      if formal.typeSlot != slot {
        FoundFormalIsFirstOccurrence(params, slot);
        if i < |params| - 1 {
          DeleteFormal(params[i + 1]);
        }
      }
      return true;
    }

    /** Removes the only parameter when it is empty and not focused. */
    method CheckForEmptySlot()
      modifies this
      ensures
        if |old(params)| == 1 && old(params[0].IsEmpty()) && !old(params[0].IsFocused()) then
          params == [] && modifications == old(modifications) + 1
        else
          params == old(params) && modifications == old(modifications)
    {
      if |params| == 1 && params[0].IsEmpty() && !params[0].IsFocused() {
        DeleteFormal(params[0]);
      }
    }

    /** Removes the parameter at index 0, if any, without telling the editor. */
    method DeleteFirstParam()
      modifies this
      ensures |old(params)| > 0 ==> params == old(params)[1..]
      ensures |old(params)| == 0 ==> params == []
      ensures modifications == old(modifications)
    {
      if |params| > 0 {
        params := RemoveAt(params, 0);
      }
    }

    /** There is no parameter. */
    function IsEmpty(): (r: bool)
      reads this
      ensures r <==> |params| == 0
    {
      params == []
    }
  }

  /**
   * Backspace at a later parameter's type deletes exactly one parameter: the
   * blank one itself, or the one before it; the others keep their order.
   */
  lemma BackspaceDeletesOne(params: seq<Formal>, i: int)
    requires 0 < i < |params|
    ensures multiset(RemoveAt(params, i)) == multiset(params) - multiset{params[i]}
    ensures multiset(Remove(params, params[i - 1])) == multiset(params) - multiset{params[i - 1]}
  {
    assert params == params[..i] + [params[i]] + params[i + 1..];
    assert RemoveAt(params, i) == params[..i] + params[i + 1..];
    RemoveDropsOne(params, params[i - 1]);
  }
}
