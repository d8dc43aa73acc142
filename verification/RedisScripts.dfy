/** The three scripts of the distributed limiter, for the keys of one host: the
    rolling window, the next-allowed instant and the in-flight leases. Each script
    runs atomically on the server, so each is one function of the stored state and
    the server clock; the class runs the same commands in place. Milliseconds. */
module RedisScripts {
  import opened Instants

  /** A request's name: unique across replicas. */
  type Nonce(==, !new) = nat

  // ----- sorted sets -----

  datatype Scored = Scored(score: int, nonce: Nonce)

  /** A sorted set, lowest score first. No entry means no key. */
  type SortedSet = seq<Scored>

  ghost predicate ByScore(z: SortedSet) {
    forall i, j :: 0 <= i < j < |z| ==> z[i].score <= z[j].score
  }

  /** ZREMRANGEBYSCORE key -inf cutoff. */
  function Purge(z: SortedSet, cutoff: int): SortedSet {
    if z == [] then []
    else if z[0].score <= cutoff then Purge(z[1..], cutoff)
    else [z[0]] + Purge(z[1..], cutoff)
  }

  /** ZREM key member. */
  function Remove(z: SortedSet, nonce: Nonce): SortedSet {
    if z == [] then []
    else if z[0].nonce == nonce then Remove(z[1..], nonce)
    else [z[0]] + Remove(z[1..], nonce)
  }

  function Insert(z: SortedSet, e: Scored): SortedSet {
    if z == [] || e.score < z[0].score then [e] + z else [z[0]] + Insert(z[1..], e)
  }

  /** ZADD key score member. */
  function Add(z: SortedSet, score: int, nonce: Nonce): SortedSet {
    Insert(Remove(z, nonce), Scored(score, nonce))
  }

  // ----- the stored state -----

  const KEY_TTL_SLACK := 5_000

  /** One limiter scope: quota 0 turns the window off, cap 0 the leases. */
  datatype Config = Config(quota: int, window: int, delay: int, cap: int, lease: int, retry: int) {
    ghost predicate Valid() {
      0 <= quota && 0 <= delay && 0 <= cap && 0 <= lease && (0 < quota ==> 0 < window)
    }
  }

  /** The three keys with the instants their TTLs run out. An absent window or
      lease key is the empty set; an absent next-allowed key is None. */
  datatype Store = Store(win: SortedSet, winUntil: int,
                         next: Option<int>, nextUntil: int,
                         leases: SortedSet, leasesUntil: int)

  const EMPTY_STORE := Store([], 0, None, 0, [], 0)

  /** The reply is 0 when the request was admitted and booked, else the wait. */
  datatype Outcome = Outcome(store: Store, reply: int)

  /** The window after the purge every acquire makes. */
  function Swept(s: Store, c: Config, now: int): SortedSet {
    if 0 < c.quota then Purge(s.win, now - c.window) else s.win
  }

  /** The instant the next-allowed key and the window allow together. */
  function AdmitAt(s: Store, c: Config, now: int): int {
    var paced := if s.next.Some? then Max(now, s.next.value) else now;
    var win := Swept(s, c, now);
    if 0 < c.quota <= |win| then Max(paced, win[|win| - c.quota].score + c.window) else paced
  }

  /** The poll a caller is told when every lease is taken. */
  function CapWait(c: Config, leases: SortedSet, now: int): int {
    Max(1, if leases == [] then c.retry else Min(c.retry, leases[0].score - now))
  }

  function Admit(s: Store, c: Config, now: int, nonce: Nonce, win: SortedSet, leases: SortedSet): Store {
    Store(
      if 0 < c.quota then Add(win, now, nonce) else win,
      if 0 < c.quota then now + c.window + KEY_TTL_SLACK else s.winUntil,
      if 0 < c.delay then Some(now + c.delay) else s.next,
      if 0 < c.delay then now + c.delay + KEY_TTL_SLACK else s.nextUntil,
      if 0 < c.cap then Add(leases, now + c.lease, nonce) else leases,
      if 0 < c.cap then now + c.lease + KEY_TTL_SLACK else s.leasesUntil)
  }

  function Acquire(s: Store, c: Config, now: int, nonce: Nonce): Outcome {
    var win := Swept(s, c, now);
    var admit := AdmitAt(s, c, now);
    if now < admit then Outcome(s.(win := win), admit - now)
    else
      var leases := if 0 < c.cap then Purge(s.leases, now) else s.leases;
      if 0 < c.cap <= |leases| then
        Outcome(s.(win := win, leases := leases), CapWait(c, leases, now))
      else
        Outcome(Admit(s, c, now, nonce, win, leases), 0)
  }

  function FreeLease(s: Store, nonce: Nonce): Store {
    s.(leases := Remove(s.leases, nonce))
  }

  /** Pushes the next admission to at least delay from now. */
  function Bump(s: Store, delay: int, now: int): Outcome {
    if delay <= 0 then Outcome(s, 0)
    else
      var target := if s.next.Some? then Max(now + delay, s.next.value) else now + delay;
      Outcome(s.(next := Some(target), nextUntil := target + KEY_TTL_SLACK), target)
  }

  class Host {
    var win: SortedSet
    var winUntil: int
    var next: Option<int>
    var nextUntil: int
    var leases: SortedSet
    var leasesUntil: int

    constructor ()
      ensures Stored() == EMPTY_STORE
    {
      win, winUntil, next, nextUntil, leases, leasesUntil := [], 0, None, 0, [], 0;
    }

    ghost function Stored(): Store
      reads this
    {
      Store(win, winUntil, next, nextUntil, leases, leasesUntil)
    }

    method RunAcquire(c: Config, now: int, nonce: Nonce) returns (reply: int)
      modifies this
      ensures Stored() == Acquire(old(Stored()), c, now, nonce).store
      ensures reply == Acquire(old(Stored()), c, now, nonce).reply
    {
      hide Purge, Add;
      var admit := now;
      if next.Some? && admit < next.value {
        admit := next.value;
      }
      if 0 < c.quota {
        win := Purge(win, now - c.window);
        var n := |win|;
        if c.quota <= n {
          var opening := win[n - c.quota].score + c.window;
          if admit < opening {
            admit := opening;
          }
        }
      }
      assert admit == AdmitAt(old(Stored()), c, now);
      if 0 < c.cap && admit <= now {
        leases := Purge(leases, now);
        if c.cap <= |leases| {
          var wait := c.retry;
          if leases != [] {
            var untilExpiry := leases[0].score - now;
            if untilExpiry < wait {
              wait := untilExpiry;
            }
          }
          if wait < 1 {
            wait := 1;
          }
          return wait;
        }
      }
      if now < admit {
        return admit - now;
      }
      if 0 < c.quota {
        win := Add(win, now, nonce);
        winUntil := now + c.window + KEY_TTL_SLACK;
      }
      if 0 < c.delay {
        next, nextUntil := Some(now + c.delay), now + c.delay + KEY_TTL_SLACK;
      }
      if 0 < c.cap {
        leases := Add(leases, now + c.lease, nonce);
        leasesUntil := now + c.lease + KEY_TTL_SLACK;
      }
      return 0;
    }

    method RunFreeLease(nonce: Nonce)
      modifies this`leases
      ensures Stored() == FreeLease(old(Stored()), nonce)
    {
      leases := Remove(leases, nonce);
    }

    method RunRelease(delay: int, now: int) returns (reply: int)
      modifies this`next, this`nextUntil
      ensures Stored() == Bump(old(Stored()), delay, now).store
      ensures reply == Bump(old(Stored()), delay, now).reply
    {
      if delay <= 0 {
        return 0;
      }
      var target := now + delay;
      if next.Some? && target < next.value {
        target := next.value;
      }
      next, nextUntil := Some(target), target - now + KEY_TTL_SLACK + now;
      return target;
    }
  }

  // ----- sorted-set facts -----

  /** A sorted set is purged from the front only. */
  lemma {:induction false} PurgeDropsFront(z: SortedSet, cutoff: int)
    requires ByScore(z)
    ensures |Purge(z, cutoff)| <= |z| && Purge(z, cutoff) == z[|z| - |Purge(z, cutoff)|..]
    ensures forall i :: 0 <= i < |z| - |Purge(z, cutoff)| ==> z[i].score <= cutoff
    ensures forall i :: |z| - |Purge(z, cutoff)| <= i < |z| ==> cutoff < z[i].score
  {
    if z != [] {
      PurgeDropsFront(z[1..], cutoff);
      var k := |z| - |Purge(z, cutoff)|;
      if z[0].score <= cutoff {
        assert z[1..][k - 1..] == z[k..];
        assert forall i :: 0 < i < |z| ==> z[i] == z[1..][i - 1];
      } else {
        PurgeKeepsLater(z, cutoff);
      }
    }
  }

  lemma {:induction false} PurgeKeepsLater(z: SortedSet, cutoff: int)
    requires forall i :: 0 <= i < |z| ==> cutoff < z[i].score
    ensures Purge(z, cutoff) == z
  {
    if z != [] {
      PurgeKeepsLater(z[1..], cutoff);
    }
  }

  lemma {:induction false} InsertLast(z: SortedSet, e: Scored)
    requires forall i :: 0 <= i < |z| ==> z[i].score <= e.score
    ensures Insert(z, e) == z + [e]
  {
    if z != [] {
      InsertLast(z[1..], e);
    }
  }

  lemma {:induction false} RemoveAbsent(z: SortedSet, nonce: Nonce)
    requires forall i :: 0 <= i < |z| ==> z[i].nonce != nonce
    ensures Remove(z, nonce) == z
  {
    if z != [] {
      RemoveAbsent(z[1..], nonce);
    }
  }
}
