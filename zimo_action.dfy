/** The self-draw dialog (自摸): type a number, save. */
module ZimoAction {
  import opened JsValues

  datatype UserData = UserData(id: int, name: string)

  /** The arguments of `onSave`; `None` stands for a `parseInt` that gave NaN. */
  datatype ZimoCall = ZimoCall(mainUserId: int, value: Option<int>)

  /** `handleSave`: the text must be non-empty; it is then read with `parseInt`, with
      no further check. */
  function ZimoSave(mainUserId: int, value: string): (r: Option<ZimoCall>)
    ensures r.Some? <==> value != []
    ensures r.Some? ==> r.value == ZimoCall(mainUserId, ParseInt(value))
  {
    if value != [] then Some(ZimoCall(mainUserId, ParseInt(value))) else None
  }

  /** Any integer typed in, zero and negatives included, is saved as it is: the value
      is not checked to be positive. */
  lemma SaveAnyInteger(mainUserId: int, n: int)
    ensures ZimoSave(mainUserId, IntToString(n)) == Some(ZimoCall(mainUserId, Some(n)))
  {
    ParseIntOfIntToString(n);
  }

  /** Text with no digit at all is still saved, carrying NaN. */
  lemma SaveWithoutDigits(mainUserId: int, value: string)
    requires value != []
    requires forall i :: 0 <= i < |value| ==> !IsDigit(value[i])
    ensures ZimoSave(mainUserId, value) == Some(ZimoCall(mainUserId, None))
  {
  }

  class ZimoActionDialog {
    var value: string

    constructor ()
      ensures value == []
    {
      value := [];
    }

    /** Opening the dialog clears the number. */
    method Open()
      modifies this
      ensures value == []
    {
      value := [];
    }

    /** Typing into the number field. */
    method TypeValue(text: string)
      modifies this
      ensures value == text
    {
      value := text;
    }

    /** `handleSave`: with the field filled `onSave` is called and the dialog asks to
        close; otherwise nothing happens. */
    method Save(mainUser: UserData) returns (call: Option<ZimoCall>, close: bool)
      ensures call.Some? <==> value != []
      ensures call.Some? ==> call.value == ZimoCall(mainUser.id, ParseInt(value))
      ensures close == call.Some?
    {
      call := ZimoSave(mainUser.id, value);
      close := call.Some?;
    }
  }
}
