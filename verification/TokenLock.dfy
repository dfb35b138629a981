/** The token lock of gateway/cache/redis_client.py: SET NX EX with a fresh token, and a script that deletes
    the key only while it holds the caller's own token.  Revalidation and the replay worker share it. */
module TokenLock {
  datatype Lease = Lease(token: nat, expires: real)

  datatype Locks<!Key(!new)> = Locks(leases: map<Key, Lease>, nextToken: nat) {
    predicate Leased(k: Key, now: real) { k in leases && now < leases[k].expires }

    /** `acquire_lock`: `nextToken` is the token written if the key is free. */
    function Acquired(k: Key, now: real, ttl: real): (r: Locks<Key>)
      ensures k in leases && now < leases[k].expires ==> r == this
      ensures !(k in leases && now < leases[k].expires) ==>
                && k in r.leases && r.leases[k].token == nextToken < r.nextToken
                && (forall t :: r.Leased(k, t) <==> t < now + ttl)
      ensures forall other | other != k ::
                (other in r.leases <==> other in leases) && (other in leases ==> r.leases[other] == leases[other])
    {
      if Leased(k, now) then this else Locks(leases[k := Lease(nextToken, now + ttl)], nextToken + 1)
    }

    /** `release_lock`: one's own live lock is free at once, and nothing else changes. */
    function Released(k: Key, token: nat, now: real): (r: Locks<Key>)
      ensures k in leases && now < leases[k].expires && leases[k].token == token ==> k !in r.leases
      ensures k in leases && leases[k].token != token ==> r == this
      ensures r.nextToken == nextToken && forall other | other != k ::
                (other in r.leases <==> other in leases) && (other in leases ==> r.leases[other] == leases[other])
    {
      if Leased(k, now) && leases[k].token == token then this.(leases := leases - {k}) else this
    }
  }

  /** One holder at a time: between taking a free lock and its expiry nobody else takes it, until it is given
      back with the token, and then anybody may. */
  lemma OneHolder<Key(!new)>(locks: Locks<Key>, k: Key, now: real, ttl: real, later: real, ttl': real)
    requires !locks.Leased(k, now) && now <= later < now + ttl
    ensures var held := locks.Acquired(k, now, ttl);
            && held.Acquired(k, later, ttl') == held
            && var freed := held.Released(k, locks.nextToken, later);
               freed.Acquired(k, later, ttl').leases[k].token == freed.nextToken == held.nextToken
  {
  }
}
