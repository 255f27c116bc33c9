/** The seat-change dialog: players are reordered by dragging one row over another
    (mouse or touch). Each hover moves the dragged player from its current row to
    the hovered row; save hands the new order back to the page. */
module SeatChange {
  import opened JsValues

  datatype SeatUser = SeatUser(id: int, name: string, winValues: map<int, int>)

  /** `list.splice(i, 1)`: remove the element at `i`. */
  function RemoveAt<T>(s: seq<T>, i: nat): (r: seq<T>)
    requires i < |s|
    ensures |r| == |s| - 1
    ensures forall k :: 0 <= k < i ==> r[k] == s[k]
    ensures forall k :: i <= k < |r| ==> r[k] == s[k + 1]
  {
    s[..i] + s[i + 1..]
  }

  /** `list.splice(j, 0, x)`: insert `x` so that it sits at index `j`. */
  function InsertAt<T>(s: seq<T>, j: nat, x: T): (r: seq<T>)
    requires j <= |s|
    ensures |r| == |s| + 1 && r[j] == x
    ensures forall k :: 0 <= k < j ==> r[k] == s[k]
    ensures forall k :: j < k < |r| ==> r[k] == s[k - 1]
  {
    s[..j] + [x] + s[j..]
  }

  /** Take the element at `from` out and put it back at `to`. */
  function Move<T>(s: seq<T>, from: nat, to: nat): (r: seq<T>)
    requires from < |s| && to < |s|
    ensures |r| == |s| && r[to] == s[from]
  {
    InsertAt(RemoveAt(s, from), to, s[from])
  }

  /** Element by element: the dragged element lands at `to`, the elements between
      the two positions shift by one towards `from`, and the rest stay put. */
  lemma MoveAt<T>(s: seq<T>, from: nat, to: nat, k: nat)
    requires from < |s| && to < |s| && k < |s|
    ensures |Move(s, from, to)| == |s|
    ensures Move(s, from, to)[k] ==
      if k == to then s[from]
      else if from <= k < to then s[k + 1]
      else if to < k <= from then s[k - 1]
      else s[k]
  {
  }

  /** A move is a permutation of the list. */
  lemma MovePermutes<T>(s: seq<T>, from: nat, to: nat)
    requires from < |s| && to < |s|
    ensures |Move(s, from, to)| == |s|
    ensures multiset(Move(s, from, to)) == multiset(s)
  {
    var w := RemoveAt(s, from);
    assert s == s[..from] + [s[from]] + s[from + 1..];
    assert w[..to] + w[to..] == w;
    calc {
      multiset(Move(s, from, to));
      multiset(w[..to] + [s[from]] + w[to..]);
      multiset(w[..to]) + multiset([s[from]]) + multiset(w[to..]);
      multiset(w) + multiset([s[from]]);
      multiset(s[..from]) + multiset(s[from + 1..]) + multiset([s[from]]);
      multiset(s);
    }
  }

  /** The dragged element sits at the target, and removing it again gives the
      list with it removed at its old place: all others keep their relative order. */
  lemma MoveKeepsOthersInOrder<T>(s: seq<T>, from: nat, to: nat)
    requires from < |s| && to < |s|
    ensures Move(s, from, to)[to] == s[from]
    ensures RemoveAt(Move(s, from, to), to) == RemoveAt(s, from)
  {
  }

  lemma MoveToSelf<T>(s: seq<T>, i: nat)
    requires i < |s|
    ensures Move(s, i, i) == s
  {
    assert s == s[..i] + [s[i]] + s[i + 1..];
  }

  /** A second move that picks the element up where the first one left it adds up
      to a single move from the original place. */
  lemma MoveCompose<T>(s: seq<T>, i: nat, j: nat, k: nat)
    requires i < |s| && j < |s| && k < |s|
    ensures Move(Move(s, i, j), j, k) == Move(s, i, k)
  {
    MoveKeepsOthersInOrder(s, i, j);
  }

  /** Dragging the element back to where it came from restores the list. */
  lemma MoveUndo<T>(s: seq<T>, i: nat, j: nat)
    requires i < |s| && j < |s|
    ensures Move(Move(s, i, j), j, i) == s
  {
    MoveCompose(s, i, j, i);
    MoveToSelf(s, i);
  }

  /** One hover during a drag, seen from the drag start: if the list is one move away
      from `origin`, moving on from `from` to `to` leaves it one move away still, with
      the same users and the dragged user at `to`. */
  lemma DragStep<T>(origin: seq<T>, start: nat, current: seq<T>, from: nat, to: nat)
    requires start < |origin| && from < |origin| && to < |origin|
    requires current == Move(origin, start, from)
    ensures |current| == |origin|
    ensures Move(current, from, to) == Move(origin, start, to)
    ensures multiset(Move(current, from, to)) == multiset(current)
    ensures Move(origin, start, to)[to] == origin[start]
  {
    MovePermutes(current, from, to);
    MoveCompose(origin, start, from, to);
    MoveKeepsOthersInOrder(origin, start, to);
  }

  class SeatChangeDialog {
    var orderedUsers: seq<SeatUser>
    /** The row drawn as being dragged (`draggingItem`). */
    var draggingItem: Option<nat>
    /** `dragItem.current`: the row the dragged player currently occupies. */
    var dragItem: Option<nat>
    /** `dragOverItem.current`: the row last hovered. */
    var dragOverItem: Option<nat>

    /** The order and the row of the dragged player when the drag began. */
    ghost var dragOrigin: seq<SeatUser>
    ghost var dragOriginIndex: nat

    /** While a drag is on, the current order is one move away from the order at
        drag start, and the dragged player sits at `dragItem`. */
    ghost predicate Valid()
      reads this
    {
      dragItem.Some? ==>
        && dragItem.value < |orderedUsers|
        && |dragOrigin| == |orderedUsers|
        && dragOriginIndex < |dragOrigin|
        && orderedUsers == Move(dragOrigin, dragOriginIndex, dragItem.value)
    }

    constructor ()
      ensures Valid()
      ensures orderedUsers == [] && draggingItem == None && dragItem == None && dragOverItem == None
    {
      orderedUsers := [];
      draggingItem := None;
      dragItem := None;
      dragOverItem := None;
      dragOrigin := [];
      dragOriginIndex := 0;
    }

    /** Opening the dialog (or new `users` while open) resets the working order. */
    method Open(users: seq<SeatUser>)
      requires dragItem.Some? ==> dragItem.value < |users|
      modifies this
      ensures Valid()
      ensures orderedUsers == users
      ensures draggingItem == old(draggingItem) && dragItem == old(dragItem)
      ensures dragOverItem == old(dragOverItem)
    {
      orderedUsers := users;
      if dragItem.Some? {
        dragOrigin, dragOriginIndex := users, dragItem.value;
        MoveToSelf(users, dragItem.value);
      }
    }

    /** `handleDragStart` and `handleTouchStart`: pick up the player at `index`. */
    method DragStart(index: nat)
      requires index < |orderedUsers|
      modifies this
      ensures Valid()
      ensures dragItem == Some(index) && draggingItem == Some(index)
      ensures orderedUsers == old(orderedUsers) && dragOverItem == old(dragOverItem)
      ensures dragOrigin == orderedUsers && dragOriginIndex == index
    {
      dragItem := Some(index);
      draggingItem := Some(index);
      dragOrigin, dragOriginIndex := orderedUsers, index;
      MoveToSelf(orderedUsers, index);
    }

    method TouchStart(index: nat)
      requires index < |orderedUsers|
      modifies this
      ensures Valid()
      ensures dragItem == Some(index) && draggingItem == Some(index)
      ensures orderedUsers == old(orderedUsers) && dragOverItem == old(dragOverItem)
    {
      DragStart(index);
    }

    /** `handleDragEnter`: hovering row `index` records it; with a drag on from
        another row, the dragged player moves to `index`. The highlighted row is
        not updated. */
    method DragEnter(index: nat)
      requires Valid() && index < |orderedUsers|
      modifies this
      ensures Valid()
      ensures dragOverItem == Some(index) && draggingItem == old(draggingItem)
      ensures old(dragItem).None? || old(dragItem) == Some(index) ==>
        orderedUsers == old(orderedUsers) && dragItem == old(dragItem)
      ensures old(dragItem).Some? && old(dragItem) != Some(index) ==>
        orderedUsers == Move(old(orderedUsers), old(dragItem).value, index) && dragItem == Some(index)
      ensures multiset(orderedUsers) == multiset(old(orderedUsers))
      ensures dragOrigin == old(dragOrigin) && dragOriginIndex == old(dragOriginIndex)
      ensures dragItem.Some? ==> orderedUsers[dragItem.value] == dragOrigin[dragOriginIndex]
    {
      dragOverItem := Some(index);
      var list := orderedUsers;
      if dragItem.None? || dragItem == Some(index) {
        if dragItem.Some? {
          MoveKeepsOthersInOrder(dragOrigin, dragOriginIndex, index);
        }
        return;
      }
      var from := dragItem.value;
      var content := list[from];
      list := RemoveAt(list, from);
      list := InsertAt(list, index, content);
      DragStep(dragOrigin, dragOriginIndex, orderedUsers, from, index);
      dragItem := Some(index);
      orderedUsers := list;
    }

    /** `handleTouchMove`: `overIndex` is the row under the finger, `None` when no
        row is hit. Without a drag nothing happens; a row other than the one last
        hovered records it and moves the dragged player there. */
    method TouchMove(overIndex: Option<nat>)
      requires Valid()
      requires overIndex.Some? ==> overIndex.value < |orderedUsers|
      modifies this
      ensures Valid()
      ensures draggingItem == old(draggingItem)
      ensures old(dragItem).None? || overIndex.None? || old(dragOverItem) == overIndex ==>
        orderedUsers == old(orderedUsers) && dragItem == old(dragItem) && dragOverItem == old(dragOverItem)
      ensures old(dragItem).Some? && overIndex.Some? && old(dragOverItem) != overIndex ==>
        && orderedUsers == Move(old(orderedUsers), old(dragItem).value, overIndex.value)
        && dragItem == overIndex && dragOverItem == overIndex
      ensures multiset(orderedUsers) == multiset(old(orderedUsers))
      ensures dragOrigin == old(dragOrigin) && dragOriginIndex == old(dragOriginIndex)
    {
      if dragItem.None? || overIndex.None? {
        return;
      }
      var over := overIndex.value;
      if dragOverItem != Some(over) {
        dragOverItem := Some(over);
        var list := orderedUsers;
        var from := dragItem.value;
        var content := list[from];
        list := RemoveAt(list, from);
        list := InsertAt(list, over, content);
        DragStep(dragOrigin, dragOriginIndex, orderedUsers, from, over);
        dragItem := Some(over);
        orderedUsers := list;
      }
    }

    /** `handleDragEnd` and `handleTouchEnd`: forget the drag. */
    method DragEnd()
      modifies this
      ensures Valid()
      ensures dragItem == None && dragOverItem == None && draggingItem == None
      ensures orderedUsers == old(orderedUsers)
    {
      dragItem := None;
      dragOverItem := None;
      draggingItem := None;
    }

    /** `handleSave`: the working order, as it stands, is what the page receives. */
    method Save() returns (saved: seq<SeatUser>)
      ensures saved == orderedUsers
    {
      saved := orderedUsers;
    }
  }

  /** Picking up a player and hovering two rows in a row leaves them on the second
      row, with every player still present. */
  method DragTwiceExample(users: seq<SeatUser>, start: nat, first: nat, second: nat)
    returns (result: seq<SeatUser>)
    requires start < |users| && first < |users| && second < |users|
    ensures result == Move(users, start, second)
    ensures result[second] == users[start]
    ensures multiset(result) == multiset(users)
  {
    var dialog := new SeatChangeDialog();
    dialog.Open(users);
    dialog.DragStart(start);
    dialog.DragEnter(first);
    dialog.DragEnter(second);
    MoveToSelf(users, start);
    MoveCompose(users, start, start, second);
    MoveCompose(users, start, first, second);
    MoveKeepsOthersInOrder(users, start, second);
    MovePermutes(users, start, second);
    result := dialog.Save();
    dialog.DragEnd();
  }
}
