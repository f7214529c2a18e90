/** The lock code as one process runs it while nobody else moves: what each call does to the
    lock file and the claim files, and what a caller gets to see. */
module LockDirectory {
  import opened FileLock
  import opened Wrappers

  const LOCK_POLL_MS := 25

  datatype Reap = Removed | SomebodyElseAtIt | ClaimAbandoned

  datatype Outcome = Worked | FileBusy | TakeoverClaimAbandoned

  class Directory {
    var lock: Option<Owner>
    var claims: map<nat, Owner>
    var clock: int
    var nextToken: nat
    const gone: set<nat>

    constructor (lock: Option<Owner>, claims: map<nat, Owner>, clock: int, nextToken: nat, gone: set<nat>)
      ensures this.lock == lock && this.claims == claims && this.clock == clock
      ensures this.nextToken == nextToken && this.gone == gone
    {
      this.lock, this.claims, this.clock := lock, claims, clock;
      this.nextToken, this.gone := nextToken, gone;
    }

    method AcquireLock(me: Owner) returns (won: bool)
      modifies this`lock
      ensures won == old(lock).None?
      ensures lock == if won then Some(me) else old(lock)
    {
      won := lock.None?;
      if won {
        lock := Some(me);
      }
    }

    method ReleaseLock(token: nat)
      modifies this`lock
      ensures lock == if old(lock).Some? && old(lock).value.token == token then None else old(lock)
    {
      var owner := lock;
      if owner.Some? && owner.value.token == token {
        lock := None;
      }
    }

    method AcquireClaim(key: nat, me: Owner) returns (won: bool)
      modifies this`claims
      ensures won == (key !in old(claims))
      ensures claims == if won then old(claims)[key := me] else old(claims)
    {
      won := key !in claims;
      if won {
        claims := claims[key := me];
      }
    }

    method ReleaseClaim(key: nat, token: nat)
      modifies this`claims
      ensures claims == if key in old(claims) && old(claims)[key].token == token then old(claims) - {key}
          else old(claims)
    {
      if key in claims && claims[key].token == token {
        claims := claims - {key};
      }
    }

    method OwnedFileIsStale() returns (stale: bool)
      ensures stale == (lock.Some? && lock.value.pid in gone)
    {
      var owner := lock;
      stale := owner.Some? && owner.value.pid in gone;
    }

    /** Takes a stale lock away under a claim named for it, and gives the claim up again. */
    method ReapStaleLock(me: nat) returns (result: Reap)
      requires me !in gone
      modifies this
      ensures clock == old(clock) && claims == old(claims)
      ensures result.Removed? <==> old(lock).None? || old(lock).value.token !in old(claims)
      ensures result.ClaimAbandoned? <==>
                !result.Removed? && old(claims)[old(lock).value.token].pid in gone
      ensures lock == if result.Removed? && old(lock).Some? && old(lock).value.pid in gone then None else old(lock)
    {
      var seen := lock;
      if seen.None? {
        return Removed;
      }
      var key, claimToken := seen.value.token, nextToken;
      nextToken := nextToken + 1;
      var won := AcquireClaim(key, Owner(me, claimToken));
      if !won {
        var claim := claims[key];
        return if claim.pid in gone then ClaimAbandoned else SomebodyElseAtIt;
      }
      var stale := OwnedFileIsStale();
      if stale {
        lock := None;
      }
      ReleaseClaim(key, claimToken);
      assert claims == old(claims);
      result := Removed;
    }

    /** The lock is taken if it is free or becomes free by a takeover before the deadline, and
        is free again afterwards; in every other case the files are as they were. */
    method WithPrivateFileLock(me: nat, token: nat, timeoutMs: nat) returns (outcome: Outcome)
      requires me !in gone
      modifies this
      ensures claims == old(claims)
      ensures old(lock).None? ==> outcome == Worked && lock.None? && clock == old(clock)
      ensures old(lock).Some? && old(lock).value.pid !in gone ==>
                outcome == FileBusy && lock == old(lock)
                    && old(clock) + timeoutMs <= clock < old(clock) + timeoutMs + LOCK_POLL_MS
      ensures old(lock).Some? && old(lock).value.pid in gone ==>
                if old(lock).value.token !in old(claims) then
                  lock.None? && clock == old(clock) && outcome == if timeoutMs > 0 then Worked else FileBusy
                else if old(claims)[old(lock).value.token].pid in gone then
                  outcome == TakeoverClaimAbandoned && lock == old(lock) && clock == old(clock)
                else
                  outcome == FileBusy && lock == old(lock)
                      && old(clock) + timeoutMs <= clock < old(clock) + timeoutMs + LOCK_POLL_MS
    {
      var deadline := clock + timeoutMs;
      ghost var takenOver := false;
      var won := AcquireLock(Owner(me, token));
      while !won
        invariant claims == old(claims)
        invariant old(clock) <= clock && (clock < deadline || clock < deadline + LOCK_POLL_MS)
        invariant !won ==>
          lock == old(lock) && lock.Some? && !takenOver && (clock == old(clock) || clock - LOCK_POLL_MS < deadline)
        invariant won ==> lock == Some(Owner(me, token)) && clock == old(clock)
                          && (old(lock).None? || (takenOver && timeoutMs > 0))
        invariant takenOver ==> old(lock).Some? && old(lock).value.pid in gone && old(lock).value.token !in claims
        invariant !won && clock > old(clock) ==>
                    old(lock).value.pid !in gone
                        || (old(lock).value.token in claims && claims[old(lock).value.token].pid !in gone)
        decreases !won, deadline + LOCK_POLL_MS - clock
      {
        var stale := OwnedFileIsStale();
        var again := false;
        if stale {
          var result := ReapStaleLock(me);
          if result.ClaimAbandoned? {
            return TakeoverClaimAbandoned;
          }
          again := result.Removed? && clock < deadline;
          takenOver := result.Removed?;
        }
        if !again {
          if clock >= deadline {
            return FileBusy;
          }
          clock := clock + LOCK_POLL_MS;
        }
        won := AcquireLock(Owner(me, token));
      }
      ReleaseLock(token);
      outcome := Worked;
    }
  }
}
