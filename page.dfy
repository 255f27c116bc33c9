/** The home page: four users, each with six input slots and the sum of those
    slots, a reset, and the shape check made before asking for suggestions. */
module Page {
  import opened JsValues
  import UserInput

  datatype UserData = UserData(id: int, name: string, inputs: seq<Cell>, userSum: int)

  /** `Array(6).fill('')`. */
  function BlankInputs(): (r: seq<Cell>)
    ensures |r| == 6
  {
    [Str(""), Str(""), Str(""), Str(""), Str(""), Str("")]
  }

  /** `initialUsers`: ids 1 to 4, names "User 1" to "User 4", blank inputs, sum 0. */
  function InitialUsers(): (r: seq<UserData>)
    ensures |r| == 4
  {
    seq(4, i requires 0 <= i < 4 => UserData(i + 1, "User " + IntToString(i + 1), BlankInputs(), 0))
  }

  /** The `reduce` in the sums effect: `acc + (Number(val) || 0)`, left to right from 0. */
  function InputSum(inputs: seq<Cell>): (r: int)
    ensures (forall j :: 0 <= j < |inputs| ==> NumberOrZero(inputs[j]) >= 0) ==> r >= 0
  {
    if inputs == [] then 0 else InputSum(inputs[..|inputs| - 1]) + NumberOrZero(inputs[|inputs| - 1])
  }

  lemma {:induction false} InputSumConcat(a: seq<Cell>, b: seq<Cell>)
    ensures InputSum(a + b) == InputSum(a) + InputSum(b)
  {
    if b == [] {
      assert a + b == a;
    } else {
      assert (a + b)[..|a + b| - 1] == a + b[..|b| - 1];
      InputSumConcat(a, b[..|b| - 1]);
    }
  }

  /** Slots that read as 0 (empty, non-numeric, holes) add nothing. */
  lemma {:induction false} InputSumOfZeros(inputs: seq<Cell>)
    requires forall i :: 0 <= i < |inputs| ==> NumberOrZero(inputs[i]) == 0
    ensures InputSum(inputs) == 0
  {
    if inputs != [] {
      InputSumOfZeros(inputs[..|inputs| - 1]);
    }
  }

  /** Changing one slot changes the sum by exactly the difference of the two values. */
  lemma InputSumUpdate(inputs: seq<Cell>, i: nat, v: Cell)
    requires i < |inputs|
    ensures InputSum(inputs[i := v]) == InputSum(inputs) - NumberOrZero(inputs[i]) + NumberOrZero(v)
  {
    var before, after := inputs[..i], inputs[i + 1..];
    assert inputs == before + [inputs[i]] + after;
    assert inputs[i := v] == before + [v] + after;
    InputSumConcat(before + [inputs[i]], after);
    InputSumConcat(before + [v], after);
    InputSumConcat(before, [inputs[i]]);
    InputSumConcat(before, [v]);
    assert InputSum([v]) == NumberOrZero(v) by {
      assert [v][..0] == [];
    }
    assert InputSum([inputs[i]]) == NumberOrZero(inputs[i]) by {
      assert [inputs[i]][..0] == [];
    }
  }

  lemma BlankInputsSumToZero()
    ensures InputSum(BlankInputs()) == 0
  {
    var blank := BlankInputs();
    forall i | 0 <= i < 6 ensures NumberOrZero(blank[i]) == 0 {
      assert blank[i] == Str("");
    }
    InputSumOfZeros(blank);
  }

  /** The initial users have ids 1 to 4 (so no id twice), six blank inputs each, and a
      displayed sum of 0 that agrees with their inputs. */
  lemma InitialUsersShape()
    ensures forall i :: 0 <= i < 4 ==> InitialUsers()[i].id == i + 1
    ensures forall i, j :: 0 <= i < j < 4 ==> InitialUsers()[i].id != InitialUsers()[j].id
    ensures forall u :: u in InitialUsers() ==>
      u.inputs == BlankInputs() && u.userSum == 0 && u.userSum == InputSum(u.inputs)
  {
    BlankInputsSumToZero();
  }

  /** `handleSaveInputs`: the user with the given id gets the new inputs; nothing else
      changes. */
  function WithInputs(users: seq<UserData>, userId: int, newInputs: seq<Cell>): (r: seq<UserData>)
    ensures |r| == |users|
    ensures forall i :: 0 <= i < |r| ==>
      && r[i].id == users[i].id && r[i].name == users[i].name && r[i].userSum == users[i].userSum
      && r[i].inputs == (if users[i].id == userId then newInputs else users[i].inputs)
  {
    seq(|users|, i requires 0 <= i < |users| =>
      if users[i].id == userId then users[i].(inputs := newInputs) else users[i])
  }

  /** Saving for an id nobody has changes nothing. */
  lemma WithInputsUnknownId(users: seq<UserData>, userId: int, newInputs: seq<Cell>)
    requires forall u :: u in users ==> u.id != userId
    ensures WithInputs(users, userId, newInputs) == users
  {
  }

  /** Saving twice for the same user keeps the second inputs only. */
  lemma WithInputsLastWins(users: seq<UserData>, userId: int, first: seq<Cell>, second: seq<Cell>)
    ensures WithInputs(WithInputs(users, userId, first), userId, second) == WithInputs(users, userId, second)
  {
  }

  /** `handleReset`: every user's inputs become six blank slots; ids, names and the
      order stay. */
  function ResetInputs(users: seq<UserData>): (r: seq<UserData>)
    ensures |r| == |users|
    ensures forall i :: 0 <= i < |r| ==>
      && r[i].id == users[i].id && r[i].name == users[i].name && r[i].userSum == users[i].userSum
      && r[i].inputs == BlankInputs()
  {
    seq(|users|, i requires 0 <= i < |users| => users[i].(inputs := BlankInputs()))
  }

  /** A reset wipes out any input saved before it. */
  lemma ResetForgetsSaves(users: seq<UserData>, userId: int, newInputs: seq<Cell>)
    ensures ResetInputs(WithInputs(users, userId, newInputs)) == ResetInputs(users)
  {
  }

  /** The sums effect: each user's `userSum` becomes the sum of their inputs. */
  function WithSums(users: seq<UserData>): (r: seq<UserData>)
    ensures |r| == |users|
    ensures forall i :: 0 <= i < |r| ==>
      r[i] == users[i].(userSum := InputSum(users[i].inputs))
  {
    seq(|users|, i requires 0 <= i < |users| => users[i].(userSum := InputSum(users[i].inputs)))
  }

  /** After a reset every sum is 0. */
  lemma SumsAfterResetAreZero(users: seq<UserData>)
    ensures forall u :: u in WithSums(ResetInputs(users)) ==> u.userSum == 0
  {
    BlankInputsSumToZero();
  }

  /** One row handed to the suggestion flow: `inputs.map(val => Number(val) || 0)`.
      `map` skips a hole and leaves it a hole (`None`); every other slot, an explicit
      `undefined` included, is read with `Number(val) || 0`. */
  function NumericRow(inputs: seq<Cell>): (row: seq<Option<int>>)
    ensures |row| == |inputs|
    ensures forall j :: 0 <= j < |row| ==> (row[j] == None <==> inputs[j] == Hole)
    ensures forall j :: 0 <= j < |row| && inputs[j] != Hole ==>
      row[j] == Some(NumberOrZero(inputs[j]))
  {
    seq(|inputs|, j requires 0 <= j < |inputs| =>
      if inputs[j] == Hole then None else Some(NumberOrZero(inputs[j])))
  }

  /** The total of a row as the flow would read it, a hole adding nothing. */
  function RowTotal(row: seq<Option<int>>): int
  {
    if row == [] then 0 else RowTotal(row[..|row| - 1]) + row[|row| - 1].GetOr(0)
  }

  /** The values sent for a user add up to that user's sum: `reduce` skips holes as
      `map` does, and a hole adds nothing to either. */
  lemma {:induction false} RowTotalIsInputSum(inputs: seq<Cell>)
    ensures RowTotal(NumericRow(inputs)) == InputSum(inputs)
  {
    if inputs != [] {
      var init := inputs[..|inputs| - 1];
      assert NumericRow(inputs)[..|inputs| - 1] == NumericRow(init);
      RowTotalIsInputSum(init);
    }
  }

  /** The rows handed to the suggestion flow, one per user, in order. */
  function NumericRows(users: seq<UserData>): (rows: seq<seq<Option<int>>>)
    ensures |rows| == |users|
    ensures forall i :: 0 <= i < |rows| ==> rows[i] == NumericRow(users[i].inputs)
  {
    seq(|users|, i requires 0 <= i < |users| => NumericRow(users[i].inputs))
  }

  /** The check in `handleSuggest`: refused (`None`) when there is no row or a row
      does not hold exactly six values (holes included in the length). */
  function SuggestionInput(users: seq<UserData>): (r: Option<seq<seq<Option<int>>>>)
    ensures r.Some? <==> |users| > 0 && forall u :: u in users ==> |u.inputs| == 6
    ensures r.Some? ==> r.value == NumericRows(users)
  {
    var rows := NumericRows(users);
    if |rows| == 0 || exists i :: 0 <= i < |rows| && |rows[i]| != 6 then None else Some(rows)
  }

  /** A blank row reads as six zeros. */
  lemma BlankRowIsZeros()
    ensures NumericRow(BlankInputs()) == [Some(0), Some(0), Some(0), Some(0), Some(0), Some(0)]
  {
    var blank: Cell := Str("");
    assert NumberOrZero(blank) == 0 by {
      assert StringToNumber("") == Some(0);
    }
    var row := NumericRow(BlankInputs());
    assert row == [row[0], row[1], row[2], row[3], row[4], row[5]];
  }

  /** After a reset, a non-empty list of users always passes the check, every value
      being 0 and none a hole. */
  lemma SuggestionAfterReset(users: seq<UserData>)
    requires users != []
    ensures SuggestionInput(ResetInputs(users)).Some?
    ensures forall row :: row in SuggestionInput(ResetInputs(users)).value ==>
      row == [Some(0), Some(0), Some(0), Some(0), Some(0), Some(0)]
  {
    BlankRowIsZeros();
  }

  /** Two edits in the user-input dialog, the second one inside the row the first
      left, then the row sent to the suggestion flow: the spread in the second edit
      turns every hole into `undefined`, so no value is sent as a hole. */
  method EditTwiceThenSend(output: UserInput.OutputData, first: nat, a: string, second: nat, b: string)
    returns (row: seq<Option<int>>)
    requires first < UserInput.SlotCount && second < UserInput.SlotCount
    requires second <= first || second < |output.inputs|
    ensures None !in row
    ensures |row| == if first < |output.inputs| then |output.inputs| else first + 1
    ensures row[second] == Some(NumberOrZero(Str(b)))
  {
    var dialog := new UserInput.UserInputDialog();
    dialog.Open(output);
    dialog.InputChange(first, a);
    dialog.InputChange(second, b);
    var call := dialog.Save(0, output);
    row := NumericRow(call.inputs);
  }

  class Home {
    var users: seq<UserData>
    var suggestions: seq<string>
    var isSheetOpen: bool
    var isDialogOpen: bool
    var currentUser: Option<UserData>

    constructor ()
      ensures users == InitialUsers() && suggestions == []
      ensures !isSheetOpen && !isDialogOpen && currentUser == None
    {
      users := InitialUsers();
      suggestions := [];
      isSheetOpen := false;
      isDialogOpen := false;
      currentUser := None;
    }

    /** `handleOpenDialog`. */
    method OpenDialog(user: UserData)
      modifies this`currentUser, this`isDialogOpen
      ensures currentUser == Some(user) && isDialogOpen
    {
      currentUser := Some(user);
      isDialogOpen := true;
    }

    /** `handleSaveInputs`: store the inputs and close the dialog. */
    method SaveInputs(userId: int, newInputs: seq<Cell>)
      modifies this`users, this`isDialogOpen
      ensures users == WithInputs(old(users), userId, newInputs) && !isDialogOpen
    {
      users := WithInputs(users, userId, newInputs);
      isDialogOpen := false;
    }

    /** `handleReset`: blank every input and drop the suggestions. */
    method Reset()
      modifies this`users, this`suggestions
      ensures users == ResetInputs(old(users)) && suggestions == []
    {
      users := ResetInputs(users);
      suggestions := [];
    }

    /** The effect that runs whenever some user's inputs change. */
    method RefreshSums()
      modifies this`users
      ensures users == WithSums(old(users))
      ensures forall u :: u in users ==> u.userSum == InputSum(u.inputs)
    {
      users := WithSums(users);
    }

    /** `handleSuggest` up to the call into the suggestion flow: the sheet opens, and
        the rows are sent only if they pass the check. */
    method Suggest() returns (request: Option<seq<seq<Option<int>>>>)
      modifies this`isSheetOpen
      ensures isSheetOpen
      ensures request == SuggestionInput(users)
    {
      isSheetOpen := true;
      request := SuggestionInput(users);
    }
  }
}
