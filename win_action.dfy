/** The discard-win dialog (食胡): pick the player who discarded, type a number, save. */
module WinAction {
  import opened JsValues

  datatype UserData = UserData(id: int, name: string)

  /** The arguments of `onSave`; `None` stands for a `parseInt` that gave NaN. */
  datatype WinCall = WinCall(mainUserId: int, targetUserId: Option<int>, value: Option<int>)

  /** `handleSave`: both text fields must be non-empty; both are then read with
      `parseInt`, with no further check. */
  function WinSave(mainUserId: int, targetUserId: string, value: string): (r: Option<WinCall>)
    ensures r.Some? <==> targetUserId != [] && value != []
    ensures r.Some? ==> r.value == WinCall(mainUserId, ParseInt(targetUserId), ParseInt(value))
  {
    if targetUserId != [] && value != [] then
      Some(WinCall(mainUserId, ParseInt(targetUserId), ParseInt(value)))
    else None
  }

  /** A user button is highlighted when its id, as text, is the selection; the
      highlighted user's id is then what `parseInt` reads from the selection. */
  predicate IsSelected(targetUserId: string, user: UserData): (b: bool)
    ensures b ==> ParseInt(targetUserId) == Some(user.id)
  {
    ParseIntOfIntToString(user.id);
    targetUserId == IntToString(user.id)
  }

  /** Different ids render differently, so at most one user is highlighted. */
  lemma IntToStringInjective(a: int, b: int)
    requires IntToString(a) == IntToString(b)
    ensures a == b
  {
    ParseIntOfIntToString(a);
    ParseIntOfIntToString(b);
  }

  /** After a user button is pressed, that user, and only users with the same id, are
      highlighted: a new selection replaces the previous one. */
  lemma SelectionIsSingle(pressed: UserData, users: seq<UserData>)
    ensures forall u :: u in users ==> (IsSelected(IntToString(pressed.id), u) <==> u.id == pressed.id)
  {
    forall u | u in users && IsSelected(IntToString(pressed.id), u) ensures u.id == pressed.id {
      IntToStringInjective(u.id, pressed.id);
    }
  }

  /** Selecting a user and typing any integer, zero and negatives included, saves that
      user's id and that number: the value is not checked to be positive. */
  lemma SaveAfterSelection(mainUserId: int, target: UserData, n: int)
    ensures WinSave(mainUserId, IntToString(target.id), IntToString(n))
      == Some(WinCall(mainUserId, Some(target.id), Some(n)))
  {
    ParseIntOfIntToString(target.id);
    ParseIntOfIntToString(n);
  }

  class WinActionDialog {
    var targetUserId: string
    var value: string

    constructor ()
      ensures targetUserId == [] && value == []
    {
      targetUserId := [];
      value := [];
    }

    /** Opening the dialog clears the selection and the number. */
    method Open()
      modifies this
      ensures targetUserId == [] && value == []
    {
      targetUserId := [];
      value := [];
    }

    /** Pressing a user button selects that user, replacing any earlier selection. */
    method SelectUser(user: UserData)
      modifies this`targetUserId
      ensures targetUserId == IntToString(user.id)
    {
      targetUserId := IntToString(user.id);
    }

    /** Typing into the number field. */
    method TypeValue(text: string)
      modifies this`value
      ensures value == text
    {
      value := text;
    }

    /** `handleSave`: with both fields filled `onSave` is called and the dialog asks to
        close; otherwise nothing happens. */
    method Save(mainUser: UserData) returns (call: Option<WinCall>, close: bool)
      ensures call.Some? <==> targetUserId != [] && value != []
      ensures call.Some? ==> call.value == WinCall(mainUser.id, ParseInt(targetUserId), ParseInt(value))
      ensures close == call.Some?
    {
      call := WinSave(mainUser.id, targetUserId, value);
      close := call.Some?;
    }
  }
}
