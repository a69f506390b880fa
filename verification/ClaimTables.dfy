/** The claim table as one worker uses it (fleet/lib/runner.py): the two calls of the class, each
    taking effect at one instant. */
module ClaimTables {
  import opened Wrappers
  import opened Claims
  import Sequences

  /** Tries to create the lock file until it is missing, or the tries run out. */
  method WaitForLock(absent: nat -> bool) returns (free: bool)
    ensures free <==> exists k: nat :: k < LOCK_TRIES && absent(k)
  {
    var k: nat := 0;
    while k < LOCK_TRIES && !absent(k)
      invariant k <= LOCK_TRIES && forall i: nat :: i < k ==> !absent(i)
    {
      k := k + 1;
    }
    free := k < LOCK_TRIES;
  }

  method FindClash(held: Table, ticketId: Id, files: seq<File>) returns (clash: bool)
    ensures clash == Clash(held, ticketId, files)
  {
    clash := false;
    for i := 0 to |files|
      invariant clash == Clash(held, ticketId, files[..i])
    {
      clash := clash || (files[i] in held && held[files[i]] != ticketId);
      assert files[..i + 1] == files[..i] + [files[i]];
    }
    assert files[..|files|] == files;
  }

  lemma TakeSnoc(held: Table, ticketId: Id, files: seq<File>, f: File)
    ensures Take(held, ticketId, files + [f]) == Take(held, ticketId, files)[f := ticketId]
  {}

  method EnterFiles(held: Table, ticketId: Id, files: seq<File>) returns (next: Table)
    ensures next == Take(held, ticketId, files)
  {
    next := held;
    for i := 0 to |files|
      invariant next == Take(held, ticketId, files[..i])
    {
      next := next[files[i] := ticketId];
      TakeSnoc(held, ticketId, files[..i], files[i]);
      Sequences.NextPrefix(files, i);
    }
    assert files[..|files|] == files;
  }

  /** `ClaimTable`. `absent(k)` says whether the lock file is missing at the k-th try of the call. */
  class ClaimTable {
    var held: Table
    var lock: bool

    constructor ()
      ensures held == map[] && !lock
    {
      held, lock := map[], false;
    }

    /** All files or none, and only if the lock was free within the allowed tries. */
    method TryAcquire(ticketId: Id, files: seq<File>, absent: nat -> bool) returns (r: Result<bool, string>)
      modifies this
      ensures r.Ok? <==> exists k: nat :: k < LOCK_TRIES && absent(k)
      ensures r.Ok? ==> r.value == !Clash(old(held), ticketId, files) && !lock
      ensures held == if r == Ok(true) then Take(old(held), ticketId, files) else old(held)
      ensures r.Err? ==> lock == old(lock)
    {
      var free := WaitForLock(absent);
      if !free {
        return Err("could not take claim lock");
      }
      lock := true;
      var clash := FindClash(held, ticketId, files);
      if clash {
        lock := false;
        return Ok(false);
      }
      held := EnterFiles(held, ticketId, files);
      lock := false;
      return Ok(true);
    }

    /** Gives back exactly the ticket's own entries, with or without the lock. */
    method Release(ticketId: Id, absent: nat -> bool)
      modifies this
      ensures held == Drop(old(held), ticketId) && !lock
    {
      var free := WaitForLock(absent);
      if free {
        lock := true;
      }
      held := map f | f in held && held[f] != ticketId :: held[f];
      lock := false;
    }
  }
}
