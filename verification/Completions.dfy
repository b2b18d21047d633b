/** What a completion holds: the error and the result that `completeWith` leaves in it, and the timeout that
    `awaitReply` writes there after every poll. */
module Completions {
  import opened Ucl

  const SUCCESS := 0

  datatype Error = Error(code: int, message: string)

  const TIMEOUT := Error(-32500, "Timeout waiting for server to reply.")

  datatype Completion = Completion(err: Error, result: Option<Obj>)

  const FRESH := Completion(Error(SUCCESS, ""), None)

  /** `uclToError`. */
  function ToError(e: Option<Obj>): Error {
    var message := if e.Some? then Lookup(e.value, "message") else None;
    Error(ToInt(if e.Some? then Lookup(e.value, "code") else None),
          if message.Some? && message.value.Str? then CString(message.value.s) else "")
  }

  /** `completeWith`: an error reply leaves the result as it was. */
  function Complete(c: Completion, o: Obj): Completion {
    if Lookup(o, "result").Some? then Completion(Error(SUCCESS, ""), Lookup(o, "result"))
    else Completion(ToError(Lookup(o, "error")), c.result)
  }

  /** A new completion after one reply. */
  function CompleteWith(o: Obj): Completion { Complete(FRESH, o) }

  /** A completion after several replies in turn. */
  function CompleteEach(c: Completion, os: seq<Obj>): Completion {
    if os == [] then c else Complete(CompleteEach(c, os[..|os| - 1]), os[|os| - 1])
  }

  /** Only the result of what was there before can show through. */
  lemma {:induction false} OnlyResultShows(c: Completion, d: Completion, os: seq<Obj>)
    requires c.result == d.result
    ensures CompleteEach(c, os).result == CompleteEach(d, os).result
    ensures os != [] ==> CompleteEach(c, os) == CompleteEach(d, os)
  {
    if os != [] { OnlyResultShows(c, d, os[..|os| - 1]); }
  }

  lemma {:induction false} CompleteMore(c: Completion, a: seq<Obj>, b: seq<Obj>)
    ensures CompleteEach(c, a + b) == CompleteEach(CompleteEach(c, a), b)
  {
    if b == [] {
      assert a + b == a;
    } else {
      var n := |b| - 1;
      assert (a + b)[..|a + b| - 1] == a + b[..n];
      CompleteMore(c, a, b[..n]);
    }
  }

  /** The error is that of the last reply. */
  lemma LastErrorStands(c: Completion, os: seq<Obj>)
    requires os != []
    ensures CompleteEach(c, os).err == CompleteWith(os[|os| - 1]).err
  {
  }

  /** The result is that of the last reply that has one, even if errors came after it; and what was there before
      if none has. */
  lemma {:induction false} LastResultStands(c: Completion, os: seq<Obj>, k: int)
    requires -1 <= k < |os| && forall j :: k < j < |os| ==> Lookup(os[j], "result").None?
    requires k >= 0 ==> Lookup(os[k], "result").Some?
    ensures CompleteEach(c, os).result == if k >= 0 then Lookup(os[k], "result") else c.result
  {
    if k < |os| - 1 {
      var front := os[..|os| - 1];
      assert forall j :: 0 <= j < |front| ==> front[j] == os[j];
      LastResultStands(c, front, k);
      assert Lookup(os[|os| - 1], "result").None?;
    }
  }
}
