# Mahjong score-sheet dialogs, modelled in Dafny

This project models the state handlers of a small Next.js/React score sheet for a
mahjong-style game. Each handler sits behind a page or a dialog:

- **Seat change** (`SeatChange`, `seat_change.dfy`): a player is dragged from row to
  row, by mouse or by touch. Each hover removes the dragged player and re-inserts them
  at the hovered row. A save hands the new order back.
- **Special action** (`SpecialAction`, `special_action.dfy`):
  - a numpad text buffer (press a digit, backspace, clear);
  - "collect"/"pay", which goes through only for an amount that `parseInt` reads as
    above zero;
  - a false win (炸胡), which goes through only when every opponent has a payout of at
    least 0.
- **Home page** (`Page`, `page.dfy`):
  - four initial users, each with six input slots;
  - saving one user's inputs by id;
  - a reset;
  - each user's sum, where a slot that is empty or not a number counts as 0;
  - the six-values-per-row check made before asking for suggestions.
- **User input** (`UserInput`, `user_input.dfy`): one of the six slots is edited in a
  working copy, and the copy is handed back on save.
- **Rename** (`Rename`, `rename.dfy`): names are edited by id in a copy of the user
  list.
- **Discard win (食胡) and self-draw (自摸)** (`WinAction`, `ZimoAction`): a save goes
  through only when its text fields are non-empty.

`JsValues` (`jsvalues.dfy`) models the JavaScript conversions these handlers use:
- `parseInt(s, 10)` skips leading white space, reads one optional sign, then the longest
  run of decimal digits. NaN is `None`.
- `Number(v) || 0` is modelled on integers only.
- `n.toString()` is modelled on integers.

The model also proves that `parseInt` reads back what `toString` writes. The
discard-win dialog depends on this: it selects a user by their id rendered as text and
sends that text through `parseInt`.

Each dialog is a class. Its fields are the component's `useState` and `useRef` values,
with one method per handler. A callback such as `onSave` or `onSaveZhaHu` becomes an
out-parameter holding the call's arguments, or `None` when nothing is emitted. A
request to close (`onClose`) becomes a boolean out-parameter. The pure updaters
(`map`, `filter`, `every`, `reduce`, `slice`, spread) are functions, and lemmas state
what they guarantee.

Notes on the code as it stands:
- The modelled page (`src/app/page.tsx`) and dialogs hold no scoring engine: there is no
  pairwise ledger, no dealer rotation, no carry-over bonus, no streak counter and no
  undo. The model has none either.
- The page checks for 6 values per row before calling the suggestion flow. The
  flow's input schema asks for 18 values (`src/ai/flows/suggest-calculations.ts:16`).
- `src/app/page.tsx:184-189` passes a `user` property to the user-input dialog.
  `src/app/components/user-input-dialog.tsx:25-26` expects `mainUserId` and `output`.
  The dialog calls `onSave` with three arguments (mainUserId, outputId, inputs), but
  the page's `handleSaveInputs` takes two (userId, inputs). Each file is modelled on
  its own interface.
- While a player is being dragged, `handleDragEnter` and `handleTouchMove` never
  update `draggingItem`. The highlight therefore stays on the row where the drag began
  (`SeatChange.SeatChangeDialog.DragEnter` states this).

## Model

| member | source | states |
|---|---|---|
| `JsValues.ParseInt` | src/app/components/special-action-dialog.tsx:53 | `parseInt` gives a number only if the text holds a digit somewhere |
| `JsValues.ParseDigits` | src/app/components/special-action-dialog.tsx:53-54 | a non-empty digit string reads as its decimal value under both `parseInt` and `Number` |
| `JsValues.ParseIntOfIntToString` | src/app/components/win-action-dialog.tsx:62 | `parseInt(n.toString())` is `n` for every integer, negatives included |
| `JsValues.ParseIntIgnoresSuffix` | src/app/components/special-action-dialog.tsx:89 | `parseInt` reads the leading digits and ignores whatever follows the first non-digit |
| `JsValues.DigitsValuePositive` | src/app/components/special-action-dialog.tsx:54 | a digit string is worth more than 0 exactly when one of its digits is not '0' |
| `JsValues.IntToString` | src/app/components/win-action-dialog.tsx:61-62 | `user.id.toString()`: non-empty text starting with a minus sign or a digit; `ParseIntOfIntToString` proves that `parseInt` reads it back |
| `JsValues.NatToStringValue` | src/app/components/win-action-dialog.tsx:62 | the decimal rendering of `n` reads back as `n` |
| `JsValues.StringToNumber` | src/app/page.tsx:101 | `Number` of blank text is 0 |
| `JsValues.NumberOrZero` | src/app/page.tsx:101 | an undefined slot counts as 0 |
| `SeatChange.MovePermutes` | src/app/components/seat-change-dialog.tsx:52-57 | a move keeps the length and the multiset of users |
| `SeatChange.MoveKeepsOthersInOrder` | src/app/components/seat-change-dialog.tsx:55-57 | the dragged user lands at the target row; removing them again gives the old list without them, so every other user keeps its relative order |
| `SeatChange.RemoveAt` | src/app/components/seat-change-dialog.tsx:56 | `splice(i, 1)`: one element shorter, the elements before `i` stay and those after it shift down by one |
| `SeatChange.InsertAt` | src/app/components/seat-change-dialog.tsx:57 | `splice(j, 0, x)`: one element longer, `x` at `j`, the elements before stay and those from `j` on shift up by one |
| `SeatChange.Move` | src/app/components/seat-change-dialog.tsx:55-57 | the two splices of a hover (also at lines 91-93): same length, with the dragged user at the target row; `MoveAt`, `MovePermutes`, `MoveKeepsOthersInOrder`, `MoveCompose` and `MoveUndo` state the rest |
| `SeatChange.MoveAt` | src/app/components/seat-change-dialog.tsx:55-57 | position by position: the dragged user is at the target, the users in between shift by one towards the old row, and all others stay |
| `SeatChange.MoveToSelf` | src/app/components/seat-change-dialog.tsx:88-93 | a move onto the row the user already occupies changes nothing |
| `SeatChange.MoveCompose` | src/app/components/seat-change-dialog.tsx:58 | because the drag source becomes the target, two hovers in a row add up to one move from the first row |
| `SeatChange.MoveUndo` | src/app/components/seat-change-dialog.tsx:50-59 | dragging a user back to the row they came from restores the order |
| `SeatChange.SeatChangeDialog.constructor` | src/app/components/seat-change-dialog.tsx:29-33 | the dialog starts with an empty order, no highlighted row and both drag refs empty, so the drag invariant holds |
| `SeatChange.SeatChangeDialog.Open` | src/app/components/seat-change-dialog.tsx:37-41 | opening resets the working order to the incoming users and leaves the drag refs alone |
| `SeatChange.SeatChangeDialog.DragStart` | src/app/components/seat-change-dialog.tsx:43-48 | the drag source and the highlighted row become the picked row, and the order is untouched |
| `SeatChange.SeatChangeDialog.TouchStart` | src/app/components/seat-change-dialog.tsx:68-71 | the same as a drag start |
| `SeatChange.SeatChangeDialog.DragEnter` | src/app/components/seat-change-dialog.tsx:50-60 | the over-row is always recorded; without a drag, or over the source row, the order is unchanged; otherwise the order becomes the move from source to target and the source becomes the target; the users are a permutation of before; the user picked up at drag start sits at the source; the highlight is not updated |
| `SeatChange.SeatChangeDialog.TouchMove` | src/app/components/seat-change-dialog.tsx:73-98 | without a drag, without a hit row, or over the last over-row, nothing changes; otherwise over-row and source become the hit row and the order becomes the move; the users are a permutation of before |
| `SeatChange.SeatChangeDialog.DragEnd` | src/app/components/seat-change-dialog.tsx:62-66 | ending a drag clears the drag source, the over-row and the highlight |
| `SeatChange.SeatChangeDialog.Save` | src/app/components/seat-change-dialog.tsx:105-107 | the working order is handed back unchanged |
| `SeatChange.DragTwiceExample` | src/app/components/seat-change-dialog.tsx:43-66 | open, pick up at one row, hover any two rows (the start row or the same row twice included) and save: the saved order is one move from the first row to the last, with the dragged user there and every user present |
| `SpecialAction.Opponents` | src/app/components/special-action-dialog.tsx:50 | the opponents are exactly the users whose id differs from the main user's |
| `SpecialAction.OpponentsOfConcat` | src/app/components/special-action-dialog.tsx:50 | the filter keeps the list's order: it distributes over concatenation |
| `SpecialAction.CollectOrPay` | src/app/components/special-action-dialog.tsx:52-58 | a call is emitted exactly when the amount parses to an integer above 0, and it carries the main user, the action and that integer |
| `SpecialAction.AllPayoutsValid` | src/app/components/special-action-dialog.tsx:61-64 | true exactly when every opponent has a payout and none is negative |
| `SpecialAction.ZhaHu` | src/app/components/special-action-dialog.tsx:60-73 | the payout map is forwarded exactly when every opponent has a payout of at least 0 |
| `SpecialAction.WithPayout` | src/app/components/special-action-dialog.tsx:88-94 | the edited opponent's entry becomes the parsed value, or 0 when the text does not parse; every other entry is unchanged and no key is lost |
| `SpecialAction.PayoutEditKeepsValid` | src/app/components/special-action-dialog.tsx:60-94 | editing one payout to a value that is not negative keeps a valid payout map valid |
| `SpecialAction.DropLast` | src/app/components/special-action-dialog.tsx:84-86 | backspace on an empty buffer leaves it empty; otherwise it removes exactly the last character |
| `SpecialAction.BackspaceUndoesPress` | src/app/components/special-action-dialog.tsx:76-86 | backspace takes back exactly the last numpad press |
| `SpecialAction.NumpadAfterOpenSaves` | src/app/components/special-action-dialog.tsx:52-58 | an amount of "5" followed by any digits always passes the collect-or-pay gate, with its decimal value |
| `SpecialAction.NumpadThenSave` | src/app/components/special-action-dialog.tsx:40-78 | open, press numpad digits one by one and save: the amount is "5" followed by those digits, and collect or pay goes through with its decimal value and closes the dialog |
| `SpecialAction.NumpadAmountGate` | src/app/components/special-action-dialog.tsx:52-58 | a digit-only amount is refused exactly when it is empty or all zeros |
| `SpecialAction.SpecialActionDialog.constructor` | src/app/components/special-action-dialog.tsx:36-38 | the dialog starts with the amount "5", false-win mode off and no payouts |
| `SpecialAction.SpecialActionDialog.Open` | src/app/components/special-action-dialog.tsx:40-46 | opening leaves false-win mode, sets the amount to "5" and empties the payouts |
| `SpecialAction.SpecialActionDialog.NumpadClick` | src/app/components/special-action-dialog.tsx:76-78 | a key press appends exactly that one digit at the end |
| `SpecialAction.SpecialActionDialog.Clear` | src/app/components/special-action-dialog.tsx:80-82 | clear empties the amount |
| `SpecialAction.SpecialActionDialog.Backspace` | src/app/components/special-action-dialog.tsx:84-86 | backspace removes exactly the last character and keeps the rest as a prefix |
| `SpecialAction.SpecialActionDialog.TypeAmount` | src/app/components/special-action-dialog.tsx:147 | typing replaces the amount |
| `SpecialAction.SpecialActionDialog.SetZhaHuMode` | src/app/components/special-action-dialog.tsx:129-175 | the false-win button (line 175) turns the mode on and the Back button (line 129) turns it off |
| `SpecialAction.SpecialActionDialog.PayoutChange` | src/app/components/special-action-dialog.tsx:88-94 | the payout map becomes the updated map |
| `SpecialAction.SpecialActionDialog.Save` | src/app/components/special-action-dialog.tsx:52-58 | `onSave` is emitted, and close requested, exactly when the amount parses to an integer above 0; otherwise nothing is emitted |
| `SpecialAction.SpecialActionDialog.ZhaHuSave` | src/app/components/special-action-dialog.tsx:60-73 | the payouts are forwarded, and close requested, exactly when every user other than the main user has a payout of at least 0 |
| `Page.BlankInputs` | src/app/page.tsx:31 | six slots |
| `Page.InitialUsers` | src/app/page.tsx:28-33 | four users |
| `Page.InitialUsersShape` | src/app/page.tsx:28-33 | ids 1 to 4, so all distinct, six blank inputs each, and a sum of 0 that agrees with the inputs |
| `Page.InputSum` | src/app/page.tsx:100-103 | the `reduce` of `Number(val) || 0` from 0: slots that all read as non-negative give a non-negative sum; `InputSumConcat`, `InputSumOfZeros` and `InputSumUpdate` state the rest |
| `Page.InputSumConcat` | src/app/page.tsx:100-103 | the sum of two runs of slots is the sum of their sums |
| `Page.InputSumOfZeros` | src/app/page.tsx:100-103 | slots that are empty, not numeric or undefined add nothing |
| `Page.InputSumUpdate` | src/app/page.tsx:100-103 | changing one slot changes the sum by exactly the difference of the old and new values |
| `Page.BlankInputsSumToZero` | src/app/page.tsx:61 | six blank slots sum to 0 |
| `Page.WithInputs` | src/app/page.tsx:50-53 | only the user with the matching id gets the new inputs; ids, names, sums, order and length are unchanged |
| `Page.WithInputsUnknownId` | src/app/page.tsx:52 | saving for an id nobody has changes nothing |
| `Page.WithInputsLastWins` | src/app/page.tsx:52 | of two saves for the same user, only the second remains |
| `Page.ResetInputs` | src/app/page.tsx:57-63 | every user gets six blank slots; ids, names, order and length are kept |
| `Page.ResetForgetsSaves` | src/app/page.tsx:50-63 | a reset wipes out an earlier save |
| `Page.WithSums` | src/app/page.tsx:98-106 | each user's sum becomes the sum of their inputs; nothing else changes |
| `Page.SumsAfterResetAreZero` | src/app/page.tsx:57-63 | after a reset and the sums effect, every sum is 0 |
| `Page.NumericRow` | src/app/page.tsx:72 | one value per slot, the length kept: a hole (a slot never assigned) stays a hole (`None`); every other slot, an explicit `undefined` included, is read as its number, or 0 when it is not one |
| `Page.RowTotalIsInputSum` | src/app/page.tsx:71-73 | the values sent for a user, holes adding nothing, total that user's sum as computed at lines 100-103 |
| `Page.NumericRows` | src/app/page.tsx:71-73 | one row per user, in order, each that user's `NumericRow` |
| `Page.SuggestionInput` | src/app/page.tsx:71-82 | the request is refused exactly when there are no rows or a row does not hold six values, holes counted in the length |
| `Page.BlankRowIsZeros` | src/app/page.tsx:72 | six blank slots are sent as six zeros, with no hole |
| `Page.SuggestionAfterReset` | src/app/page.tsx:57-82 | after a reset, a non-empty user list always passes the check, with rows of six zeros and no hole |
| `Page.Home.constructor` | src/app/page.tsx:36-43 | the page starts with the initial users, no suggestions and both panels closed |
| `Page.Home.OpenDialog` | src/app/page.tsx:45-48 | the chosen user becomes current and the dialog opens |
| `Page.Home.SaveInputs` | src/app/page.tsx:50-55 | the users become the updated list and the dialog closes |
| `Page.Home.Reset` | src/app/page.tsx:57-65 | the users are reset and the suggestions cleared |
| `Page.Home.RefreshSums` | src/app/page.tsx:98-108 | afterwards every user's sum equals the sum of their inputs |
| `Page.Home.Suggest` | src/app/page.tsx:67-82 | the sheet opens, and the request is the checked rows, or none |
| `Page.EditTwiceThenSend` | src/app/components/user-input-dialog.tsx:39-43 | two edits, the second inside the row the first left, then the row sent as at page.tsx:72: no value is sent as a hole, the length is the first edit's, and the second slot carries its number |
| `UserInput.SetSlot` | src/app/components/user-input-dialog.tsx:39-42 | the edited slot holds the value and every other slot is unchanged; within the array the length is kept; past the end the array grows, with holes between the old end and the slot |
| `UserInput.Spread` | src/app/components/user-input-dialog.tsx:40 | `[...inputs]`: same length, each hole becomes `undefined` and every other slot is copied |
| `UserInput.SpreadHasNoHoles` | src/app/components/user-input-dialog.tsx:40 | a spread copy holds no hole, and spreading it again changes nothing |
| `UserInput.SetSlotLastWins` | src/app/components/user-input-dialog.tsx:41 | of two assignments to one slot of the same array, only the second remains |
| `UserInput.EditTwiceLastWins` | src/app/components/user-input-dialog.tsx:39-43 | two edits in the dialog to one slot inside the row, each spreading the copy first, leave the row as the second edit alone would |
| `UserInput.SetSlotCommutes` | src/app/components/user-input-dialog.tsx:39-42 | edits to two different slots of a loaded row do not interfere |
| `UserInput.UserInputDialog.constructor` | src/app/components/user-input-dialog.tsx:31 | the dialog starts with no working inputs |
| `UserInput.UserInputDialog.Open` | src/app/components/user-input-dialog.tsx:33-37 | opening loads the working inputs from the row |
| `UserInput.UserInputDialog.InputChange` | src/app/components/user-input-dialog.tsx:39-43 | the spread copy with one slot set replaces the working inputs; the length is kept for a slot inside the array; a hole remains only between the old end and a slot assigned past it; only the six shown slots are edited |
| `UserInput.UserInputDialog.Save` | src/app/components/user-input-dialog.tsx:45-47 | `onSave` receives the main user id, the row's id and the working inputs |
| `UserInput.EditLoadedRow` | src/app/components/user-input-dialog.tsx:33-47 | open on a six-slot row, edit one slot, save: the edited slot holds the text, and every other slot is the loaded one, with a hole read as `undefined` |
| `Rename.Renamed` | src/app/components/rename-dialog.tsx:37-39 | length, order and every id are kept; the name changes exactly in the entries whose id matches |
| `Rename.NameOfRenamed` | src/app/components/rename-dialog.tsx:38 | after a rename the id reads the new name, if present at all, and every other id reads what it read before |
| `Rename.RenamedUnknownId` | src/app/components/rename-dialog.tsx:38 | renaming an absent id leaves the list unchanged |
| `Rename.RenamedLastWins` | src/app/components/rename-dialog.tsx:38 | renaming the same id twice keeps only the second name |
| `Rename.RenameDialog.constructor` | src/app/components/rename-dialog.tsx:29 | the dialog starts with an empty working list |
| `Rename.RenameDialog.Open` | src/app/components/rename-dialog.tsx:31-35 | opening copies the id and name of each user, in order |
| `Rename.RenameDialog.NameChange` | src/app/components/rename-dialog.tsx:37-39 | the working list becomes the renamed list |
| `Rename.RenameDialog.Save` | src/app/components/rename-dialog.tsx:41-43 | the working list is handed back unchanged |
| `WinAction.WinSave` | src/app/components/win-action-dialog.tsx:39-44 | a call is emitted exactly when the selection and the value are both non-empty, and it carries the main user's id and the two parsed fields; nothing else is checked |
| `WinAction.IsSelected` | src/app/components/win-action-dialog.tsx:61 | a button is highlighted when the selection is its user's id as text, and `parseInt` of that selection is then the user's id |
| `WinAction.IntToStringInjective` | src/app/components/win-action-dialog.tsx:61 | two ids with the same text are equal |
| `WinAction.SelectionIsSingle` | src/app/components/win-action-dialog.tsx:61-62 | after a user button is pressed, a user is highlighted exactly when they have that id |
| `WinAction.SaveAfterSelection` | src/app/components/win-action-dialog.tsx:39-62 | selecting a user and typing any integer (zero and negatives included) emits that user's id and that integer |
| `WinAction.WinActionDialog.constructor` | src/app/components/win-action-dialog.tsx:29-30 | the dialog starts with no selected user and an empty value |
| `WinAction.WinActionDialog.Open` | src/app/components/win-action-dialog.tsx:32-37 | opening empties the selection and the value |
| `WinAction.WinActionDialog.SelectUser` | src/app/components/win-action-dialog.tsx:62 | the selection becomes the user's id as text, replacing any earlier one |
| `WinAction.WinActionDialog.TypeValue` | src/app/components/win-action-dialog.tsx:77 | typing replaces the value |
| `WinAction.WinActionDialog.Save` | src/app/components/win-action-dialog.tsx:39-44 | `onSave` is emitted, and close requested, exactly when both fields are non-empty, with the main user's id and the parsed target and value |
| `ZimoAction.ZimoSave` | src/app/components/zimo-action-dialog.tsx:36-41 | a call is emitted exactly when the value is non-empty, with the main user's id and the parsed value |
| `ZimoAction.SaveAnyInteger` | src/app/components/zimo-action-dialog.tsx:36-38 | any integer typed in, zero and negatives included, is emitted as it is |
| `ZimoAction.SaveWithoutDigits` | src/app/components/zimo-action-dialog.tsx:37-38 | non-empty text without a digit is still emitted, carrying NaN |
| `ZimoAction.ZimoActionDialog.constructor` | src/app/components/zimo-action-dialog.tsx:28 | the dialog starts with an empty value |
| `ZimoAction.ZimoActionDialog.Open` | src/app/components/zimo-action-dialog.tsx:30-34 | opening empties the value |
| `ZimoAction.ZimoActionDialog.TypeValue` | src/app/components/zimo-action-dialog.tsx:60 | typing replaces the value |
| `ZimoAction.ZimoActionDialog.Save` | src/app/components/zimo-action-dialog.tsx:36-41 | `onSave` is emitted, and close requested, exactly when the value is non-empty |

## Left out

- A scoring engine (a pairwise ledger, dealer rotation, carry-over bonus, streak
  counter, surrender, undo) is not part of the modelled page and dialogs, so it is not
  modelled.
- `src/ai/flows/suggest-calculations.ts` is not part of this model. It calls a
  language model through a foreign library. The suggestions it returns and its error
  path (`src/app/page.tsx:84-94`) are left out.
- `src/app/components/history-dialog.tsx` and `src/app/components/reset-scores-dialog.tsx`
  only display data.
- Left out as well: JSX rendering, styling, toasts, `console.error`, `useTransition`,
  `useMemo`, and when React runs its effects. Each effect is a method, and the host
  calls it after the change it depends on.
- The seat-change handlers read `orderedUsers` from the last render. The model
  assumes React re-renders between two drag or touch events, so each handler sees the
  order the previous one wrote. Two events handled within one render are not modelled.
- DOM geometry is left out: touch hit-testing with `getBoundingClientRect` and
  `dataTransfer`. `TouchMove` receives the hit row as a parameter (`None` when no row
  is hit or the list element is missing).
- JavaScript numbers are doubles, but the model uses unbounded integers. Precision lost
  on very long digit strings is not modelled, nor are `-0` or fractional values.
- JsValues.NumberOrZero: `Number` is modelled only for optionally signed decimal
  integers with surrounding white space. Decimals, exponents, hexadecimal and
  `Infinity` read as 0 in the model, while the page would add their value.
- JsValues.ParseInt: the white space it skips is the common ASCII set plus
  U+00A0, U+2028, U+2029 and U+FEFF. Other Unicode space separators are not included.
- SeatChange.SeatChangeDialog.Open: it requires that an active drag's source row still
  exists in the new list. A drag only happens inside the open dialog, on a list of
  unchanging length. Out-of-range splices, which would insert `undefined`, are not
  modelled.
- SeatChange.SeatChangeDialog.DragEnter: it requires the hovered row to be a row of the
  list, as every rendered row is. `TouchMove` and `DragStart` require the same.
- SpecialAction.SpecialActionDialog.NumpadClick: it takes one digit, because every
  numpad key carries one. The handler itself would append any string.
- UserInput.UserInputDialog.InputChange: it requires a slot index below six, because
  the dialog renders six slots.
- The `userSum` field is typed `number | null` in the source. The model uses an
  integer, because only numbers are ever stored in it.
