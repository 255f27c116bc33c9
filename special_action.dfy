/** The special-action dialog: a flat "collect" or "pay" of an amount typed on a
    numpad, or a false win (炸胡) where the player pays each opponent a typed sum. */
module SpecialAction {
  import opened JsValues

  datatype UserData = UserData(id: int, name: string)

  datatype Action = Collect | Pay

  /** The arguments of `onSave`. */
  datatype SaveCall = SaveCall(mainUserId: int, action: Action, amount: int)

  /** The arguments of `onSaveZhaHu`. */
  datatype ZhaHuCall = ZhaHuCall(mainUserId: int, payouts: map<int, int>)

  /** `users.filter(u => u.id !== mainUser.id)`. */
  function Opponents(users: seq<UserData>, mainUserId: int): (r: seq<UserData>)
    ensures |r| <= |users|
    ensures forall u :: u in r <==> u in users && u.id != mainUserId
  {
    if users == [] then []
    else (if users[0].id != mainUserId then [users[0]] else []) + Opponents(users[1..], mainUserId)
  }

  /** Filtering keeps the order of the list: it distributes over concatenation. */
  lemma {:induction false} OpponentsOfConcat(a: seq<UserData>, b: seq<UserData>, mainUserId: int)
    ensures Opponents(a + b, mainUserId) == Opponents(a, mainUserId) + Opponents(b, mainUserId)
  {
    if a == [] {
      assert a + b == b;
    } else {
      assert (a + b)[0] == a[0] && (a + b)[1..] == a[1..] + b;
      OpponentsOfConcat(a[1..], b, mainUserId);
      var head := if a[0].id != mainUserId then [a[0]] else [];
      assert Opponents(a + b, mainUserId) == head + Opponents(a[1..] + b, mainUserId);
    }
  }

  /** `handleSave`: the amount must parse to an integer above zero. */
  function CollectOrPay(mainUserId: int, action: Action, amount: string): (r: Option<SaveCall>)
    ensures r.Some? <==> ParseInt(amount).Some? && ParseInt(amount).value > 0
    ensures r.Some? ==> r.value.mainUserId == mainUserId && r.value.action == action
    ensures r.Some? ==> r.value.amount == ParseInt(amount).value
  {
    var parsed := ParseInt(amount);
    if parsed.Some? && parsed.value > 0 then Some(SaveCall(mainUserId, action, parsed.value)) else None
  }

  /** The `every` in `handleZhaHuSave`: each opponent has a payout, and it is not negative. */
  function AllPayoutsValid(opponents: seq<UserData>, payouts: map<int, int>): (r: bool)
    ensures r <==> forall u :: u in opponents ==> u.id in payouts && payouts[u.id] >= 0
  {
    if opponents == [] then true
    else
      opponents[0].id in payouts && payouts[opponents[0].id] >= 0
      && AllPayoutsValid(opponents[1..], payouts)
  }

  /** `handleZhaHuSave`: the whole payout map is forwarded once every opponent has a
      valid payout. */
  function ZhaHu(mainUserId: int, opponents: seq<UserData>, payouts: map<int, int>): (r: Option<ZhaHuCall>)
    ensures r.Some? <==> forall u :: u in opponents ==> u.id in payouts && payouts[u.id] >= 0
    ensures r.Some? ==> r.value == ZhaHuCall(mainUserId, payouts)
  {
    if AllPayoutsValid(opponents, payouts) then Some(ZhaHuCall(mainUserId, payouts)) else None
  }

  /** The updater in `handlePayoutChange`: the opponent's entry becomes the parsed
      text, or 0 when it does not parse; every other entry is kept. */
  function WithPayout(payouts: map<int, int>, opponentId: int, text: string): (r: map<int, int>)
    ensures r.Keys == payouts.Keys + {opponentId}
    ensures r[opponentId] == (if ParseInt(text).None? then 0 else ParseInt(text).value)
    ensures forall id :: id in payouts && id != opponentId ==> r[id] == payouts[id]
  {
    payouts[opponentId := ParseInt(text).GetOr(0)]
  }

  /** The updater in `handleBackspace`: `prev.slice(0, -1)`. */
  function DropLast(s: string): (r: string)
    ensures s == [] ==> r == []
    ensures s != [] ==> r + [s[|s| - 1]] == s
  {
    if s == [] then [] else s[..|s| - 1]
  }

  /** Backspace takes back exactly the last numpad press. */
  lemma BackspaceUndoesPress(s: string, c: char)
    ensures DropLast(s + [c]) == s
  {
    assert (s + [c])[..|s|] == s;
  }

  /** Once the dialog is open, the numpad can only append digits to the "5" it
      starts with, so the amount is always accepted and is read as a whole number. */
  lemma NumpadAfterOpenSaves(mainUserId: int, action: Action, pressed: string)
    requires AllDigits(pressed)
    ensures CollectOrPay(mainUserId, action, "5" + pressed)
      == Some(SaveCall(mainUserId, action, DigitsValue("5" + pressed)))
  {
    var amount := "5" + pressed;
    assert AllDigits(amount);
    ParseDigits(amount);
    DigitsValuePositive(amount);
    assert amount[0] != '0';
  }

  /** A numpad-typed amount is refused exactly when it is empty or all zeros. */
  lemma NumpadAmountGate(mainUserId: int, action: Action, amount: string)
    requires AllDigits(amount)
    ensures CollectOrPay(mainUserId, action, amount).Some?
      <==> exists i :: 0 <= i < |amount| && amount[i] != '0'
  {
    if amount != [] {
      ParseDigits(amount);
      DigitsValuePositive(amount);
    }
  }

  /** Editing a payout to a value that is not negative keeps every payout valid. */
  lemma PayoutEditKeepsValid(opponents: seq<UserData>, payouts: map<int, int>, opponentId: int, text: string)
    requires AllPayoutsValid(opponents, payouts)
    requires ParseInt(text).GetOr(0) >= 0
    ensures AllPayoutsValid(opponents, WithPayout(payouts, opponentId, text))
  {
  }

  class SpecialActionDialog {
    var amount: string
    var isZhaHuMode: bool
    var payouts: map<int, int>

    constructor ()
      ensures amount == "5" && !isZhaHuMode && payouts == map[]
    {
      amount := "5";
      isZhaHuMode := false;
      payouts := map[];
    }

    /** Opening the dialog leaves false-win mode, resets the amount to "5" and forgets
        all payouts. */
    method Open()
      modifies this
      ensures amount == "5" && !isZhaHuMode && payouts == map[]
    {
      isZhaHuMode := false;
      amount := "5";
      payouts := map[];
    }

    /** `handleNumpadClick` with the digit on the pressed key. */
    method NumpadClick(digit: char)
      requires IsDigit(digit)
      modifies this`amount
      ensures amount == old(amount) + [digit]
    {
      amount := amount + [digit];
    }

    /** `handleClear`. */
    method Clear()
      modifies this`amount
      ensures amount == []
    {
      amount := [];
    }

    /** `handleBackspace`. */
    method Backspace()
      modifies this`amount
      ensures amount == DropLast(old(amount))
      ensures |old(amount)| > 0 ==> |amount| == |old(amount)| - 1 && amount == old(amount)[..|amount|]
    {
      amount := DropLast(amount);
    }

    /** Typing into the amount field replaces it. */
    method TypeAmount(text: string)
      modifies this`amount
      ensures amount == text
    {
      amount := text;
    }

    /** The false-win button and the Back button. */
    method SetZhaHuMode(on: bool)
      modifies this`isZhaHuMode
      ensures isZhaHuMode == on
    {
      isZhaHuMode := on;
    }

    /** `handlePayoutChange`. */
    method PayoutChange(opponentId: int, text: string)
      modifies this`payouts
      ensures payouts == WithPayout(old(payouts), opponentId, text)
    {
      payouts := WithPayout(payouts, opponentId, text);
    }

    /** `handleSave`: on a positive amount `onSave` is called and the dialog asks to
        close; otherwise nothing happens. */
    method Save(mainUser: UserData, action: Action) returns (call: Option<SaveCall>, close: bool)
      ensures call.Some? <==> ParseInt(amount).Some? && ParseInt(amount).value > 0
      ensures call.Some? ==> call.value == SaveCall(mainUser.id, action, ParseInt(amount).value)
      ensures close == call.Some?
    {
      call := CollectOrPay(mainUser.id, action, amount);
      close := call.Some?;
    }

    /** `handleZhaHuSave`: with a valid payout for every opponent `onSaveZhaHu`
        receives the payout map and the dialog asks to close; otherwise the dialog
        stays as it is. */
    method ZhaHuSave(mainUser: UserData, users: seq<UserData>) returns (call: Option<ZhaHuCall>, close: bool)
      ensures call.Some? <==>
        forall u :: u in users && u.id != mainUser.id ==> u.id in payouts && payouts[u.id] >= 0
      ensures call.Some? ==> call.value == ZhaHuCall(mainUser.id, payouts)
      ensures close == call.Some?
    {
      var opponents := Opponents(users, mainUser.id);
      call := ZhaHu(mainUser.id, opponents, payouts);
      close := call.Some?;
    }
  }

  /** Opening the dialog, pressing the numpad keys `pressed` one by one and saving:
      the amount is "5" followed by those digits, and collect or pay goes through with
      its decimal value. */
  method NumpadThenSave(mainUser: UserData, action: Action, pressed: string)
    returns (amount: string, call: Option<SaveCall>, close: bool)
    requires AllDigits(pressed)
    ensures amount == "5" + pressed
    ensures call == Some(SaveCall(mainUser.id, action, DigitsValue("5" + pressed)))
    ensures close
  {
    var dialog := new SpecialActionDialog();
    dialog.Open();
    var k := 0;
    while k < |pressed|
      invariant 0 <= k <= |pressed|
      invariant dialog.amount == "5" + pressed[..k]
    {
      dialog.NumpadClick(pressed[k]);
      assert pressed[..k + 1] == pressed[..k] + [pressed[k]];
      k := k + 1;
    }
    assert pressed[..k] == pressed;
    amount := dialog.amount;
    NumpadAfterOpenSaves(mainUser.id, action, pressed);
    call, close := dialog.Save(mainUser, action);
  }
}
