/** The user-input dialog: six numbered slots for one output row, edited in a working
    copy and handed back on save. */
module UserInput {
  import opened JsValues

  datatype OutputData = OutputData(id: int, name: string, inputs: seq<Cell>)

  /** The arguments of `onSave`. */
  datatype SaveCall = SaveCall(mainUserId: int, outputId: int, inputs: seq<Cell>)

  /** The number of slots the dialog shows. */
  const SlotCount: nat := 6

  /** JavaScript `a[i] = v` on an array value: inside the array one slot changes; past
      the end the array grows to `i + 1`, with holes between. */
  function SetSlot(s: seq<Cell>, i: nat, v: Cell): (r: seq<Cell>)
    ensures |r| == if i < |s| then |s| else i + 1
    ensures r[i] == v
    ensures forall k :: 0 <= k < |s| && k != i ==> r[k] == s[k]
    ensures forall k :: |s| <= k < i ==> r[k] == Hole
  {
    if i < |s| then s[i := v] else s + seq(i - |s|, _ => Hole) + [v]
  }

  /** `[...s]`: the spread reads every slot through the array iterator, so a hole
      becomes an explicit `undefined` and every other slot is copied as it is. */
  function Spread(s: seq<Cell>): (r: seq<Cell>)
    ensures |r| == |s|
    ensures forall k :: 0 <= k < |r| ==> r[k] == if s[k] == Hole then Undefined else s[k]
  {
    seq(|s|, k requires 0 <= k < |s| => if s[k] == Hole then Undefined else s[k])
  }

  /** A spread copy has no hole, and spreading it again changes nothing. */
  lemma SpreadHasNoHoles(s: seq<Cell>)
    ensures Hole !in Spread(s)
    ensures Spread(Spread(s)) == Spread(s)
  {
  }

  /** Of two edits to the same slot, the later one wins. */
  lemma SetSlotLastWins(s: seq<Cell>, i: nat, a: Cell, b: Cell)
    ensures SetSlot(SetSlot(s, i, a), i, b) == SetSlot(s, i, b)
  {
  }

  /** Two edits in the dialog to one slot inside the row, each spreading the working
      copy first: the row is as if only the second edit had been made. */
  lemma EditTwiceLastWins(s: seq<Cell>, i: nat, a: string, b: string)
    requires i < |s|
    ensures SetSlot(Spread(SetSlot(Spread(s), i, Str(a))), i, Str(b)) == SetSlot(Spread(s), i, Str(b))
  {
  }

  /** Edits to two different slots of a loaded row do not interfere. */
  lemma SetSlotCommutes(s: seq<Cell>, i: nat, j: nat, a: Cell, b: Cell)
    requires i < |s| && j < |s| && i != j
    ensures SetSlot(SetSlot(s, i, a), j, b) == SetSlot(SetSlot(s, j, b), i, a)
  {
  }

  class UserInputDialog {
    var inputs: seq<Cell>

    constructor ()
      ensures inputs == []
    {
      inputs := [];
    }

    /** Opening the dialog loads the row's inputs into the working copy. */
    method Open(output: OutputData)
      modifies this
      ensures inputs == output.inputs
    {
      inputs := output.inputs;
    }

    /** `handleInputChange`: spread the array into a copy, assign one slot, store the
        copy. The spread turns earlier holes into `undefined`; only the slots between
        the old end and a slot assigned past it are holes afterwards. */
    method InputChange(index: nat, value: string)
      requires index < SlotCount
      modifies this
      ensures inputs == SetSlot(Spread(old(inputs)), index, Str(value))
      ensures index < |old(inputs)| ==> |inputs| == |old(inputs)|
      ensures forall k :: 0 <= k < |inputs| && inputs[k] == Hole ==> |old(inputs)| <= k < index
    {
      var current := inputs;
      var length := if index < |current| then |current| else index + 1;
      var copy := new Cell[length](k =>
        if 0 <= k < |current| then (if current[k] == Hole then Undefined else current[k]) else Hole);
      copy[index] := Str(value);
      inputs := copy[..];
      assert inputs == SetSlot(Spread(current), index, Str(value));
    }

    /** `handleSave`: `onSave` receives the main user, the row's id and the working copy. */
    method Save(mainUserId: int, output: OutputData) returns (call: SaveCall)
      ensures call.mainUserId == mainUserId && call.outputId == output.id
      ensures call.inputs == inputs
    {
      call := SaveCall(mainUserId, output.id, inputs);
    }
  }

  /** Opening the dialog on a six-slot row, editing one slot and saving: the saved
      row differs from the loaded one in that slot only. */
  method EditLoadedRow(mainUserId: int, output: OutputData, index: nat, value: string)
    returns (call: SaveCall)
    requires index < SlotCount && |output.inputs| == SlotCount
    ensures call.mainUserId == mainUserId && call.outputId == output.id
    ensures |call.inputs| == SlotCount && call.inputs[index] == Str(value)
    ensures forall k :: 0 <= k < SlotCount && k != index ==>
      call.inputs[k] == if output.inputs[k] == Hole then Undefined else output.inputs[k]
  {
    var dialog := new UserInputDialog();
    dialog.Open(output);
    dialog.InputChange(index, value);
    call := dialog.Save(mainUserId, output);
  }
}
