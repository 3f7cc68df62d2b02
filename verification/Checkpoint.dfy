/** The cursor file, replaced by way of a temporary file and a rename. */
module Checkpoint {
  import opened Common

  datatype Cursor = Cursor(chainId: int, lastBlock: nat)

  /** The step of a save that fails, if one does. */
  datatype SaveFault = NoFault | OpenTemp | WriteTemp | SyncTemp | CloseTemp | Rename

  /** What a file holds: a whole cursor, or bytes that do not parse. */
  datatype Content = Absent | Torn | Whole(cursor: Cursor)

  class Store {
    var file: Content
    var temp: Content

    constructor ()
      ensures file == Absent
    {
      file, temp := Absent, Absent;
    }

    /** The cursor, nothing on a first run, or an error for a file that does not parse. */
    method Load() returns (ok: bool, cursor: Option<Cursor>)
      ensures ok <==> file != Torn
      ensures ok ==> (cursor == None <==> file == Absent) && (cursor.Some? ==> file == Whole(cursor.value))
    {
      match file
      case Absent => return true, None;
      case Torn => return false, None;
      case Whole(c) => return true, Some(c);
    }

    /** Leaves the new cursor on success and exactly the old file otherwise, whichever step fails. */
    method Save(c: Cursor, fault: SaveFault) returns (ok: bool)
      modifies this
      ensures ok <==> fault == NoFault
      ensures file == if ok then Whole(c) else old(file)
    {
      if fault == OpenTemp {
        return false;
      }
      temp := Torn;
      if fault == WriteTemp || fault == SyncTemp {
        temp := Absent;
        return false;
      }
      temp := Whole(c);
      if fault == CloseTemp || fault == Rename {
        temp := Absent;
        return false;
      }
      file, temp := temp, Absent;
      return true;
    }
  }
}
