/** The stale-while-revalidate response cache of gateway/cache/redis_client.py as gateway/routes/proxy.py
    uses it.  Hashing and JSON text are foreign: the digest is injective, and the variant text is an
    injective function of the sorted header pairs, that is, of their multiset. */
module ProxyCache {
  import opened Collections
  import opened Options

  const STALE_GRACE_SECONDS: real := 86400.0

  type Headers = seq<(string, string)>

  // ---- Cache keys ----

  function LowerChar(c: char): char {
    if 'A' <= c <= 'Z' then (c as int + 32) as char else c
  }

  function Lower(s: string): string {
    seq(|s|, i requires 0 <= i < |s| => LowerChar(s[i]))
  }

  /** Two names have the same lower case exactly when they differ in the case of ASCII letters only. */
  lemma LowerEqual(a: string, b: string)
    ensures Lower(a) == Lower(b) <==>
            && |a| == |b|
            && forall i | 0 <= i < |a| ::
                 || a[i] == b[i]
                 || ('A' <= a[i] <= 'Z' && b[i] as int == a[i] as int + 32)
                 || ('A' <= b[i] <= 'Z' && a[i] as int == b[i] as int + 32)
  {
    if Lower(a) == Lower(b) {
      assert |a| == |Lower(a)| == |b|;
      forall i | 0 <= i < |a| ensures LowerChar(a[i]) == LowerChar(b[i]) {
        assert Lower(a)[i] == Lower(b)[i];
      }
    }
  }

  /** The header pairs with their names in lower case; two dictionaries sort to the same list exactly when
      these multisets are equal. */
  function Canon(headers: Headers): multiset<(string, string)> {
    multiset(Lowered(headers))
  }

  function Lowered(headers: Headers): Headers {
    seq(|headers|, i requires 0 <= i < |headers| => (Lower(headers[i].0), headers[i].1))
  }

  /** How many of the headers have this value and, up to case, this lower-case name. */
  function Carried(headers: Headers, name: string, value: string): nat {
    |set i: nat | i < |headers| && Lower(headers[i].0) == name && headers[i].1 == value|
  }

  lemma CanonCounts(headers: Headers, name: string, value: string)
    ensures Canon(headers)[(name, value)] == Carried(headers, name, value)
  {
    var pairs, x := Lowered(headers), (name, value);
    CountPlaces(pairs, x);
    var at := Places(pairs, x);
    var carried := set i: nat | i < |headers| && Lower(headers[i].0) == name && headers[i].1 == value;
    forall i: nat | i < |headers| ensures i in at <==> i in carried {
      assert pairs[i] == (Lower(headers[i].0), headers[i].1);
    }
    assert at == carried;
    assert Canon(headers)[x] == |at|;
    assert Carried(headers, name, value) == |carried|;
  }

  /** The same pairs up to the case of names are the same number of headers for each of them. */
  lemma CanonEqual(a: Headers, b: Headers)
    ensures Canon(a) == Canon(b) <==> forall n, v :: Carried(a, n, v) == Carried(b, n, v)
  {
    forall n, v ensures Carried(a, n, v) == Canon(a)[(n, v)] && Carried(b, n, v) == Canon(b)[(n, v)] {
      CanonCounts(a, n, v);
      CanonCounts(b, n, v);
    }
    hide Canon, Carried;
    if forall n, v :: Carried(a, n, v) == Carried(b, n, v) {
      forall x ensures Canon(a)[x] == Canon(b)[x] { assert x == (x.0, x.1); }
    }
  }

  /** The text that `build_cache_key` hashes. */
  function Preimage(method_: string, path: string, query: string, variant: string): string {
    method_ + "\0" + path + "\0" + query + "\0" + variant
  }

  /** The position of the first NUL. */
  function NulAt(s: string): nat {
    if s == "" || s[0] == '\0' then 0 else 1 + NulAt(s[1..])
  }

  lemma {:induction false} NulAfter(a: string, x: string)
    requires '\0' !in a
    ensures NulAt(a + "\0" + x) == |a|
  {
    var whole := a + "\0" + x;
    if a != "" {
      assert whole[0] == a[0] && whole[1..] == a[1..] + "\0" + x;
      NulAfter(a[1..], x);
    }
  }

  lemma SplitAtNul(a: string, x: string, b: string, y: string)
    requires '\0' !in a && '\0' !in b && a + "\0" + x == b + "\0" + y
    ensures a == b && x == y
  {
    var left, right := a + "\0" + x, b + "\0" + y;
    NulAfter(a, x);
    NulAfter(b, y);
    assert a == left[..|a|] && b == right[..|b|];
    assert x == left[|a| + 1..] && y == right[|b| + 1..];
  }

  /** The hashed text determines its parts when the first three contain no NUL; the variant may be anything. */
  lemma PreimageInjective(m: string, p: string, q: string, v: string, m': string, p': string, q': string, v': string)
    requires '\0' !in m && '\0' !in p && '\0' !in q && '\0' !in m' && '\0' !in p' && '\0' !in q'
    ensures Preimage(m, p, q, v) == Preimage(m', p', q', v') <==> m == m' && p == p' && q == q' && v == v'
  {
    if Preimage(m, p, q, v) == Preimage(m', p', q', v') {
      var rest, rest' := p + "\0" + q + "\0" + v, p' + "\0" + q' + "\0" + v';
      assert Preimage(m, p, q, v) == m + "\0" + rest && Preimage(m', p', q', v') == m' + "\0" + rest';
      SplitAtNul(m, rest, m', rest');
      var end, end' := q + "\0" + v, q' + "\0" + v';
      assert rest == p + "\0" + end && rest' == p' + "\0" + end';
      SplitAtNul(p, end, p', end');
      SplitAtNul(q, v, q', v');
    }
  }

  datatype Foreign = Foreign(digest: string -> string, variant: multiset<(string, string)> -> string) {
    ghost predicate Faithful() {
      && (forall x, y :: digest(x) == digest(y) ==> x == y)
      && (forall x, y :: variant(x) == variant(y) ==> x == y)
    }
  }

  /** A read as it is forwarded upstream. */
  datatype Read = Read(target: string, headers: Headers)

  predicate Same(a: Read, b: Read) {
    a.target == b.target && Canon(a.headers) == Canon(b.headers)
  }

  /** `_cache_key`. */
  function CacheKey(f: Foreign, read: Read): string {
    "cache:v2:" + f.digest(Preimage("GET", read.target, "", f.variant(Canon(read.headers))))
  }

  /** Two reads share a key exactly when they have the same target and the same headers up to the case of
      header names. */
  lemma KeyIdentifiesRead(f: Foreign, a: Read, b: Read)
    requires f.Faithful() && '\0' !in a.target && '\0' !in b.target
    ensures CacheKey(f, a) == CacheKey(f, b) <==> Same(a, b)
    ensures CacheKey(f, a) == CacheKey(f, b) <==>
            a.target == b.target && forall n, v :: Carried(a.headers, n, v) == Carried(b.headers, n, v)
  {
    CanonEqual(a.headers, b.headers);
    hide Canon, Carried;
    var va, vb := f.variant(Canon(a.headers)), f.variant(Canon(b.headers));
    var pa, pb := Preimage("GET", a.target, "", va), Preimage("GET", b.target, "", vb);
    PreimageInjective("GET", a.target, "", va, "GET", b.target, "", vb);
    if CacheKey(f, a) == CacheKey(f, b) {
      assert f.digest(pa) == CacheKey(f, a)[9..] && f.digest(pb) == CacheKey(f, b)[9..];
    }
  }

  // ---- What may be cached ----

  /** No header has one of the names, in any case. */
  predicate NoneNamed(headers: Headers, names: set<string>) {
    forall i | 0 <= i < |headers| :: Lower(headers[i].0) !in names
  }

  predicate Contains(s: string, part: string) {
    exists i | 0 <= i <= |s| :: part <= s[i..]
  }

  /** `headers.get(name, "")`: the first header of that name, in any case. */
  function HeaderOf(headers: Headers, name: string): string {
    if headers == [] then ""
    else if Lower(headers[0].0) == name then headers[0].1
    else HeaderOf(headers[1..], name)
  }

  lemma {:induction false} HeaderOfFirst(headers: Headers, name: string, i: nat)
    requires i <= |headers| && forall j | 0 <= j < i :: Lower(headers[j].0) != name
    requires i < |headers| ==> Lower(headers[i].0) == name
    ensures HeaderOf(headers, name) == if i < |headers| then headers[i].1 else ""
  {
    if i > 0 { HeaderOfFirst(headers[1..], name, i - 1); }
  }

  /** The value mentions none of the words, in any case. */
  predicate NoneOf(value: string, words: set<string>) {
    forall word | word in words :: !Contains(Lower(value), word)
  }

  /** `_cache_allowed`, on the client's own headers: any private or conditional header rules the cache out, and
      so does a directive in the first Cache-Control header. */
  predicate CacheAllowed(headers: Headers) {
    && NoneNamed(headers, {"authorization", "x-api-key", "cookie", "range", "if-range", "if-match",
                           "if-none-match", "if-modified-since", "if-unmodified-since"})
    && NoneOf(HeaderOf(headers, "cache-control"), {"no-cache", "no-store", "max-age=0"})
  }

  /** An upstream reply. */
  datatype Reply = Reply(status: int, body: string, headers: Headers) {
    /** `_response_cacheable`: a 200 without cookies or cache directives of its own. */
    predicate Cacheable() {
      status == 200 && NoneNamed(headers, {"set-cookie", "cache-control", "vary", "expires"})
    }
  }

  // ---- The cache ----

  datatype Entry = Entry(status: int, body: string, storedAt: real, freshFor: real)

  /** An upstream reply that has arrived for a read, and whether it is offered to a cache that is up. */
  datatype Arrival = Arrival(read: Read, reply: Reply, at: real, freshFor: real, offered: bool)

  /** The cache after an arrival. */
  function Filing(f: Foreign, store: map<string, Entry>, a: Arrival): map<string, Entry> {
    if a.offered && a.reply.Cacheable()
    then store[CacheKey(f, a.read) := Entry(a.reply.status, a.reply.body, a.at, a.freshFor)]
    else store
  }

  function Filings(f: Foreign, store: map<string, Entry>, arrivals: seq<Arrival>): map<string, Entry> {
    if arrivals == [] then store
    else Filing(f, Filings(f, store, arrivals[..|arrivals| - 1]), arrivals[|arrivals| - 1])
  }

  datatype Served =
    | Hit(entry: Entry)
    | Stale(entry: Entry)
    | Forwarded(reply: Reply, bypass: bool)
    | Unavailable

  /** The reply an entry was made from. */
  ghost predicate From(entry: Entry, a: Arrival, read: Read) {
    && a.reply.Cacheable() && a.offered && Same(a.read, read)
    && entry == Entry(a.reply.status, a.reply.body, a.at, a.freshFor)
  }

  /** The entry under key `k` was made from one of the replies, to a read with that key. */
  ghost predicate Filed(foreign: Foreign, k: string, entry: Entry, fetched: seq<Arrival>) {
    exists i | 0 <= i < |fetched| ::
      CacheKey(foreign, fetched[i].read) == k && From(entry, fetched[i], fetched[i].read)
  }

  lemma FiledNow(foreign: Foreign, entry: Entry, seen: seq<Arrival>, a: Arrival)
    requires From(entry, a, a.read)
    ensures Filed(foreign, CacheKey(foreign, a.read), entry, seen + [a])
  {
    hide CacheKey, From;
    assert (seen + [a])[|seen|] == a;
  }

  lemma FiledLater(foreign: Foreign, k: string, entry: Entry, seen: seq<Arrival>, a: Arrival)
    requires Filed(foreign, k, entry, seen)
    ensures Filed(foreign, k, entry, seen + [a])
  {
    hide CacheKey, From;
    var i :| 0 <= i < |seen| && CacheKey(foreign, seen[i].read) == k && From(entry, seen[i], seen[i].read);
    assert (seen + [a])[i] == seen[i];
  }

  /** Targets contain no NUL. */
  predicate Plain(arrivals: seq<Arrival>) {
    forall i | 0 <= i < |arrivals| :: '\0' !in arrivals[i].read.target
  }

  /** An entry past its grace period has expired. */
  predicate Present(store: map<string, Entry>, key: string, now: real) {
    key in store && now < store[key].storedAt + PhysicalTtl(store[key].freshFor)
  }

  class Proxy {
    const foreign: Foreign
    var store: map<string, Entry>
    ghost var fetched: seq<Arrival>

    constructor (foreign: Foreign)
      requires foreign.Faithful()
      ensures this.foreign == foreign && store == map[] && fetched == [] && Valid()
    {
      this.foreign, this.store, this.fetched := foreign, map[], [];
    }

    /** Every stored entry is an earlier cacheable reply, filed under the key of its own read. */
    ghost predicate Valid()
      reads this
    {
      foreign.Faithful() && Plain(fetched) && forall k | k in store :: Filed(foreign, k, store[k], fetched)
    }

    /** `cache_get`: past its freshness window the entry is stale, past the grace period it is gone. */
    method CacheGet(key: string, now: real, redisUp: bool) returns (r: Option<Entry>, stale: bool)
      ensures r.Some? ==> key in store && r.value == store[key]
      ensures r.Some? ==> (stale <==> now - r.value.storedAt >= r.value.freshFor)
      ensures r.Some? <==> redisUp && Present(store, key, now)
      ensures r.Some? <==>
              && redisUp && key in store
              && (now < store[key].storedAt + store[key].freshFor + 86400.0 || now < store[key].storedAt + 1.0)
    {
      if !redisUp || key !in store || now >= store[key].storedAt + PhysicalTtl(store[key].freshFor) {
        return None, false;
      }
      r := Some(store[key]);
      stale := now - store[key].storedAt >= store[key].freshFor;
    }

    /** An upstream reply arrives and is stored when it may be.  Both the miss path and the background refresh
        end here. */
    method CacheReply(a: Arrival)
      requires Valid() && Plain([a])
      modifies this
      ensures Valid() && fetched == old(fetched) + [a] && store == Filing(foreign, old(store), a)
      ensures store ==
              if && a.offered && a.reply.status == 200
                 && NoneNamed(a.reply.headers, {"set-cookie", "cache-control", "vary", "expires"})
              then old(store)[CacheKey(foreign, a.read) := Entry(200, a.reply.body, a.at, a.freshFor)]
              else old(store)
    {
      hide CacheKey, Filed, NoneNamed;
      var key := CacheKey(foreign, a.read);
      ghost var seen := fetched;
      assert '\0' !in [a][0].read.target;
      fetched := fetched + [a];
      if a.offered && a.reply.Cacheable() {
        store := store[key := Entry(a.reply.status, a.reply.body, a.at, a.freshFor)];
      }
      forall k | k in store ensures Filed(foreign, k, store[k], fetched) {
        if a.offered && a.reply.Cacheable() && k == key {
          FiledNow(foreign, store[k], seen, a);
        } else {
          FiledLater(foreign, k, store[k], seen, a);
        }
      }
    }

    /** Other requests and background refreshes go on. */
    method Interfere(arrivals: seq<Arrival>)
      requires Valid() && Plain(arrivals)
      modifies this
      ensures Valid() && fetched == old(fetched) + arrivals && store == Filings(foreign, old(store), arrivals)
    {
      hide CacheKey, Filed, Filing;
      for i := 0 to |arrivals|
        invariant Valid() && fetched == old(fetched) + arrivals[..i]
        invariant store == Filings(foreign, old(store), arrivals[..i])
      {
        assert arrivals[..i + 1][..i] == arrivals[..i];
        assert Plain([arrivals[i]]);
        CacheReply(arrivals[i]);
      }
      assert arrivals[..|arrivals|] == arrivals;
    }

    /** `_handle_get`, with the replies of other requests and refreshes that arrive before the cache is read and
        during the upstream call.  The cache is used exactly when the route and the client's headers allow it
        and an entry is present: a HIT within its freshness window, STALE after it.  The body is then that of an
        earlier cacheable reply to the same target with the same forwarded headers.  Otherwise the
        upstream's reply is passed on, and offered to the cache under the same condition. */
    method HandleGet(client: Headers, read: Read, routeCacheable: bool, freshFor: real,
                     before: seq<Arrival>, now: real, readable: bool,
                     during: seq<Arrival>, upstream: Option<Reply>, answered: real, writable: bool)
      returns (r: Served)
      requires Valid() && '\0' !in read.target && Plain(before) && Plain(during)
      modifies this
      ensures Valid()
      ensures var key, cached := CacheKey(foreign, read), Filings(foreign, old(store), before);
              var usable :=
                && routeCacheable
                && NoneNamed(client, {"authorization", "x-api-key", "cookie", "range", "if-range", "if-match",
                                      "if-none-match", "if-modified-since", "if-unmodified-since"})
                && NoneOf(HeaderOf(client, "cache-control"), {"no-cache", "no-store", "max-age=0"});
              var found := usable && readable && Present(cached, key, now);
              && (r.Hit? <==> found && now - cached[key].storedAt < cached[key].freshFor)
              && (r.Stale? <==> found && now - cached[key].storedAt >= cached[key].freshFor)
              && (found ==> r.entry == cached[key] && store == cached && fetched == old(fetched) + before)
              && (r.Unavailable? <==> !found && upstream.None?)
              && (r.Unavailable? ==>
                    store == Filings(foreign, cached, during) && fetched == old(fetched) + before + during)
              && (r.Forwarded? ==>
                    var a := Arrival(read, r.reply, answered, freshFor, usable && writable);
                    && upstream == Some(r.reply) && (r.bypass <==> !usable)
                    && store == Filing(foreign, Filings(foreign, cached, during), a)
                    && fetched == old(fetched) + before + during + [a])
      ensures r.Hit? || r.Stale? ==> exists i | 0 <= i < |fetched| :: From(r.entry, fetched[i], read)
    {
      hide CacheKey, Filing, Filings, PhysicalTtl, NoneNamed, NoneOf, HeaderOf;
      var key := CacheKey(foreign, read);
      var cacheable := routeCacheable && CacheAllowed(client);
      Interfere(before);
      var entry: Option<Entry>, stale := None, false;
      if cacheable {
        entry, stale := CacheGet(key, now, readable);
      }
      if entry.Some? {
        FiledFrom(foreign, read, entry.value, fetched);
        return if stale then Stale(entry.value) else Hit(entry.value);
      }
      Interfere(during);
      if upstream.None? { return Unavailable; }
      CacheReply(Arrival(read, upstream.value, answered, freshFor, cacheable && writable));
      r := Forwarded(upstream.value, !cacheable);
    }
  }

  lemma FiledFrom(foreign: Foreign, read: Read, entry: Entry, fetched: seq<Arrival>)
    requires foreign.Faithful() && Plain(fetched) && '\0' !in read.target
    requires Filed(foreign, CacheKey(foreign, read), entry, fetched)
    ensures exists i | 0 <= i < |fetched| :: From(entry, fetched[i], read)
  {
    var i :| 0 <= i < |fetched| && CacheKey(foreign, fetched[i].read) == CacheKey(foreign, read)
             && From(entry, fetched[i], fetched[i].read);
    KeyIdentifiesRead(foreign, fetched[i].read, read);
    assert From(entry, fetched[i], read);
  }

  /** `max(fresh_for + STALE_GRACE_SECONDS, 1)`. */
  function PhysicalTtl(freshFor: real): real {
    if freshFor + STALE_GRACE_SECONDS < 1.0 then 1.0 else freshFor + STALE_GRACE_SECONDS
  }
}
