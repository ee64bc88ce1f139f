/** Shared by the modules of the project. */
module Basics {

  datatype Option<+T> = None | Some(value: T)

  /** What an operation returns, or the text of the error it fails with. */
  datatype Result<+T> = Ok(value: T) | Err(error: string)

  /** There is always a number above those used. */
  lemma {:induction false} Unused(used: set<nat>) returns (cb: nat)
    ensures cb !in used && forall x :: x in used ==> x < cb
  {
    if used == {} {
      cb := 0;
    } else {
      var x :| x in used;
      var y := Unused(used - {x});
      cb := if y <= x then x + 1 else y;
      assert used == used - {x} + {x};
    }
  }
}

/** A line of a session, as the CLI wrote or read it; stored and exported as it is. */
module SessionEvents {

  datatype Direction = In | Out | ErrorOut

  datatype RawEvent = RawEvent(timestamp: int, sessionId: string, direction: Direction, raw: string)
}
