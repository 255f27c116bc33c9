/** The rename dialog: a working copy of every user's id and name, edited by id and
    handed back on save. */
module Rename {
  import opened JsValues

  datatype UserName = UserName(id: int, name: string)

  /** The updater in `handleNameChange`: every entry with the id takes the new name. */
  function Renamed(userNames: seq<UserName>, id: int, name: string): (r: seq<UserName>)
    ensures |r| == |userNames|
    ensures forall i :: 0 <= i < |r| ==> r[i].id == userNames[i].id
    ensures forall i :: 0 <= i < |r| ==>
      r[i].name == if userNames[i].id == id then name else userNames[i].name
  {
    seq(|userNames|, i requires 0 <= i < |userNames| =>
      if userNames[i].id == id then userNames[i].(name := name) else userNames[i])
  }

  /** The name shown for an id: that of the first entry carrying it. */
  function NameOf(userNames: seq<UserName>, id: int): Option<string>
  {
    if userNames == [] then None
    else if userNames[0].id == id then Some(userNames[0].name)
    else NameOf(userNames[1..], id)
  }

  /** After a rename the id reads the new name, if it is in the list at all, and
      every other id reads what it read before. */
  lemma {:induction false} NameOfRenamed(userNames: seq<UserName>, id: int, name: string, other: int)
    ensures NameOf(Renamed(userNames, id, name), id)
      == if exists u :: u in userNames && u.id == id then Some(name) else None
    ensures other != id ==> NameOf(Renamed(userNames, id, name), other) == NameOf(userNames, other)
  {
    if userNames != [] {
      var r := Renamed(userNames, id, name);
      assert r[1..] == Renamed(userNames[1..], id, name);
      NameOfRenamed(userNames[1..], id, name, other);
      if userNames[0].id != id {
        assert (exists u :: u in userNames && u.id == id) <==> (exists u :: u in userNames[1..] && u.id == id) by {
          if u :| u in userNames && u.id == id {
            assert u in userNames[1..];
          }
        }
      }
    }
  }

  /** Renaming an id nobody has changes nothing. */
  lemma RenamedUnknownId(userNames: seq<UserName>, id: int, name: string)
    requires forall u :: u in userNames ==> u.id != id
    ensures Renamed(userNames, id, name) == userNames
  {
  }

  /** Renaming the same id twice keeps the second name only. */
  lemma RenamedLastWins(userNames: seq<UserName>, id: int, first: string, second: string)
    ensures Renamed(Renamed(userNames, id, first), id, second) == Renamed(userNames, id, second)
  {
  }

  class RenameDialog {
    var userNames: seq<UserName>

    constructor ()
      ensures userNames == []
    {
      userNames := [];
    }

    /** Opening copies the id and the name of each user, in order. */
    method Open(users: seq<UserName>)
      modifies this
      ensures userNames == users
    {
      userNames := seq(|users|, i requires 0 <= i < |users| => UserName(users[i].id, users[i].name));
    }

    /** `handleNameChange`. */
    method NameChange(id: int, name: string)
      modifies this
      ensures userNames == Renamed(old(userNames), id, name)
    {
      userNames := Renamed(userNames, id, name);
    }

    /** `handleSave`: `onSave` receives the working list as it stands. */
    method Save() returns (saved: seq<UserName>)
      ensures saved == userNames
    {
      saved := userNames;
    }
  }
}
