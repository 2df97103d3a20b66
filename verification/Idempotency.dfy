/**
 The idempotency middleware of the payment service (idempotency.middleware.ts) over its in-memory store, where a
 write replaces the entry, and its Redis store, where a write is skipped while a live entry exists (NX).
 */
module Idempotency {
  import opened Prelude

  datatype Reply = Reply(statusCode: int, body: string)

  datatype Cached = Cached(reply: Reply, expiresAt: int)

  /** `eager`: is a Redis key already gone at its expiry instant?  The in-memory store keeps an entry for that instant. */
  datatype Kind = Memory | Redis(eager: bool)

  predicate Live(store: map<string, Cached>, kind: Kind, key: string, now: int) {
    && key in store
    && now <= store[key].expiresAt
    && (kind == Redis(true) ==> now < store[key].expiresAt)
  }

  function Get(store: map<string, Cached>, kind: Kind, key: string, now: int): Option<Reply> {
    if Live(store, kind, key, now) then Some(store[key].reply) else None
  }

  /** What a get leaves: the in-memory store deletes an entry it finds expired. */
  function AfterGet(store: map<string, Cached>, kind: Kind, key: string, now: int): map<string, Cached> {
    if kind.Memory? && key in store && now > store[key].expiresAt then store - {key} else store
  }

  function AfterSet(store: map<string, Cached>, kind: Kind, key: string, entry: Cached, now: int): map<string, Cached> {
    match kind
    case Memory => store[key := entry]
    case Redis(_) => if entry.expiresAt <= now || Live(store, kind, key, now) then store else store[key := entry]
  }

  // ---- The stores and the middleware ------------------------------------------------------------

  datatype Answer = MissingKey | InvalidKey | Replayed(reply: Reply) | Next

  /** `${userId}:${idempotencyKey}` */
  function CacheKey(userId: string, key: string): string {
    userId + ":" + key
  }

  class Middleware {
    const kind: Kind
    var store: map<string, Cached>

    constructor (kind: Kind)
      ensures this.kind == kind && store == map[]
    {
      this.kind, store := kind, map[];
    }

    method StoreGet(key: string, now: int) returns (entry: Option<Cached>)
      modifies this`store
      ensures store == AfterGet(old(store), kind, key, now)
      ensures entry == if Live(old(store), kind, key, now) then Some(old(store)[key]) else None
      ensures entry.Some? <==>
                key in old(store) && (now < old(store)[key].expiresAt || (kind != Redis(true) && now == old(store)[key].expiresAt))
      ensures forall other :: other in old(store) && other != key ==> other in store && store[other] == old(store)[other]
    {
      if key !in store {
        return None;
      }
      var found := store[key];
      if kind.Redis? && kind.eager && now == found.expiresAt {
        return None;
      }
      if now > found.expiresAt {
        if kind.Memory? {
          store := store - {key};
        }
        return None;
      }
      entry := Some(found);
    }

    method StoreSet(key: string, entry: Cached, now: int)
      modifies this`store
      ensures store == AfterSet(old(store), kind, key, entry, now)
      ensures key !in old(store) && entry.expiresAt > now ==> store == old(store)[key := entry]
    {
      if kind.Memory? {
        store := store[key := entry];
      } else {
        var ttlMs := Max(entry.expiresAt - now, 0);
        if ttlMs == 0 {
          return;
        }
        if !Live(store, kind, key, now) {
          store := store[key := entry];
        }
      }
    }

    /** A request with the given Idempotency-Key header: replayed from the store, or passed on to the handler. */
    method Begin(header: Option<string>, userId: string, now: int) returns (answer: Answer)
      modifies this`store
      ensures answer.MissingKey? <==> header.None? || header == Some("")
      ensures answer.InvalidKey? <==> header.Some? && |header.value| > 255
      ensures answer.MissingKey? || answer.InvalidKey? ==> store == old(store)
      ensures answer.Replayed? || answer.Next? ==>
                && store == AfterGet(old(store), kind, CacheKey(userId, header.value), now)
                && Get(old(store), kind, CacheKey(userId, header.value), now)
                   == if answer.Replayed? then Some(answer.reply) else None
    {
      if header.None? || header == Some("") {
        return MissingKey;
      }
      if |header.value| > 255 {
        return InvalidKey;
      }
      var cached := StoreGet(CacheKey(userId, header.value), now);
      if cached.Some? {
        return Replayed(cached.value.reply);
      }
      answer := Next;
    }

    /** The wrapped res.json of a request that reached the handler. */
    method Finish(key: string, userId: string, reply: Reply, ttl: int, now: int)
      modifies this`store
      ensures store == AfterSet(old(store), kind, CacheKey(userId, key), Cached(reply, now + ttl), now)
      ensures userId + ":" + key !in old(store) && ttl > 0 ==> store == old(store)[userId + ":" + key := Cached(reply, now + ttl)]
    {
      StoreSet(CacheKey(userId, key), Cached(reply, now + ttl), now);
    }
  }

  /** A key's user id is no longer than another's: the colon that ends it would have to stand inside the other. */
  lemma UserIdNotLonger(u: string, k: string, v: string, l: string)
    requires ':' !in v && CacheKey(u, k) == CacheKey(v, l)
    ensures |v| <= |u|
  {
    var c := CacheKey(u, k);
    assert c[|u|] == ':';
    assert forall i :: 0 <= i < |v| ==> c[i] == v[i] && v[i] in v;
  }

  /** Cache keys tell users apart as long as user ids contain no colon, as UUIDs and 'anonymous' do not. */
  lemma CacheKeyInjective(u: string, k: string, v: string, l: string)
    requires ':' !in u && ':' !in v && CacheKey(u, k) == CacheKey(v, l)
    ensures u == v && k == l
  {
    UserIdNotLonger(u, k, v, l);
    UserIdNotLonger(v, l, u, k);
    var c := CacheKey(u, k);
    assert u == c[..|u|] && v == c[..|v|];
    assert k == c[|u| + 1..] && l == c[|v| + 1..];
  }

  // ---- Runs with overlapping requests -------------------------------------------------------------

  datatype Event = Begun(key: string, at: int) | Finished(key: string, reply: Reply, at: int)

  function Run(es: seq<Event>, kind: Kind, ttl: int): map<string, Cached> {
    if |es| == 0 then map[]
    else
      var store := Run(es[..|es| - 1], kind, ttl);
      match es[|es| - 1]
      case Begun(key, at) => AfterGet(store, kind, key, at)
      case Finished(key, reply, at) => AfterSet(store, kind, key, Cached(reply, at + ttl), at)
  }

  ghost predicate InOrder(es: seq<Event>) {
    forall i, j :: 0 <= i < j < |es| ==> es[i].at <= es[j].at
  }

  /** Every entry is the reply of a request for its key that finished a ttl before the entry expires. */
  ghost predicate EntriesFinished(store: map<string, Cached>, es: seq<Event>, ttl: int) {
    forall key :: key in store ==>
      exists k :: 0 <= k < |es| && es[k].Finished? && es[k].key == key && store[key] == Cached(es[k].reply, es[k].at + ttl)
  }

  lemma {:induction false} RunEntries(es: seq<Event>, kind: Kind, ttl: int)
    ensures EntriesFinished(Run(es, kind, ttl), es, ttl)
  {
    if |es| > 0 {
      var rest, e := es[..|es| - 1], es[|es| - 1];
      var before, store := Run(rest, kind, ttl), Run(es, kind, ttl);
      RunEntries(rest, kind, ttl);
      forall key | key in store
        ensures exists k :: 0 <= k < |es| && es[k].Finished? && es[k].key == key && store[key] == Cached(es[k].reply, es[k].at + ttl)
      {
        if key in before && store[key] == before[key] {
          var k :| 0 <= k < |rest| && rest[k].Finished? && rest[k].key == key && before[key] == Cached(rest[k].reply, rest[k].at + ttl);
          assert es[k] == rest[k];
        } else {
          assert e.Finished? && e.key == key && store[key] == Cached(e.reply, e.at + ttl);
        }
      }
    }
  }

  /** Whatever requests overlap, a replay is the reply of a request for that key that finished less than a ttl ago (or just a ttl ago). */
  lemma ReplayedWasStored(es: seq<Event>, kind: Kind, ttl: int, key: string, now: int)
    requires Get(Run(es, kind, ttl), kind, key, now).Some?
    ensures exists k :: 0 <= k < |es| && es[k].Finished? && es[k].key == key
                        && Get(Run(es, kind, ttl), kind, key, now) == Some(es[k].reply)
                        && (now < es[k].at + ttl || (kind != Redis(true) && now == es[k].at + ttl))
  {
    RunEntries(es, kind, ttl);
  }

  /** The k-th event stored its reply (with Redis, because no live entry was in the way). */
  predicate StoredAt(es: seq<Event>, k: nat, kind: Kind, ttl: int)
    requires k < |es|
  {
    es[k].Finished? && (kind.Redis? ==> !Live(Run(es[..k], kind, ttl), kind, es[k].key, es[k].at))
  }

  /** What the store still holds for the key of a reply stored by event k, as long as that reply has not expired. */
  lemma {:induction false} StoredStays(es: seq<Event>, k: nat, kind: Kind, ttl: int)
    requires ttl > 0 && InOrder(es) && k < |es| && StoredAt(es, k, kind, ttl)
    requires forall i :: k < i < |es| ==> es[i].at < es[k].at + ttl
    ensures var store := Run(es, kind, ttl);
            && es[k].key in store
            && store[es[k].key].expiresAt >= es[k].at + ttl
            && (kind.Redis? ==> store[es[k].key] == Cached(es[k].reply, es[k].at + ttl))
  {
    if k < |es| - 1 {
      var rest := es[..|es| - 1];
      assert rest[..k] == es[..k] && rest[k] == es[k];
      StoredStays(rest, k, kind, ttl);
      assert es[k].at <= es[|es| - 1].at;
    }
  }

  /**
   A request that begins after a reply was stored and before it expires is answered from the store and never reaches
   the handler; with the NX store the answer is that first stored reply, even if duplicates finished in between.
   */
  lemma ReplayedWhileStored(es: seq<Event>, k: nat, kind: Kind, ttl: int, now: int)
    requires ttl > 0 && InOrder(es) && k < |es| && StoredAt(es, k, kind, ttl)
    requires es[|es| - 1].at <= now < es[k].at + ttl
    ensures Get(Run(es, kind, ttl), kind, es[k].key, now).Some?
    ensures kind.Redis? ==> Get(Run(es, kind, ttl), kind, es[k].key, now) == Some(es[k].reply)
  {
    assert forall i :: k < i < |es| ==> es[i].at <= es[|es| - 1].at;
    StoredStays(es, k, kind, ttl);
  }

  /** The k-th event is the last to finish for its key. */
  ghost predicate LastToFinish(es: seq<Event>, k: nat) {
    && k < |es| && es[k].Finished?
    && forall i :: k < i < |es| && es[i].Finished? ==> es[i].key != es[k].key
  }

  lemma {:induction false} LastReplyStays(es: seq<Event>, k: nat, ttl: int)
    requires LastToFinish(es, k) && forall i :: k < i < |es| ==> es[i].at <= es[k].at + ttl
    ensures var store := Run(es, Memory, ttl);
            es[k].key in store && store[es[k].key] == Cached(es[k].reply, es[k].at + ttl)
  {
    if k < |es| - 1 {
      var rest := es[..|es| - 1];
      assert rest[k] == es[k] && forall i :: k < i < |rest| ==> rest[i] == es[i];
      LastReplyStays(rest, k, ttl);
    }
  }

  /**
   The in-memory store has no such guarantee: whatever requests overlap, it replays the reply that finished last.  So
   it replays an earlier one exactly if the two are the same.
   */
  lemma MemoryReplaysTheLast(es: seq<Event>, k: nat, ttl: int, now: int)
    requires InOrder(es) && LastToFinish(es, k) && es[|es| - 1].at <= now <= es[k].at + ttl
    ensures Get(Run(es, Memory, ttl), Memory, es[k].key, now) == Some(es[k].reply)
    ensures forall i :: 0 <= i < k && es[i].Finished? && es[i].key == es[k].key ==>
              (Get(Run(es, Memory, ttl), Memory, es[i].key, now) == Some(es[i].reply) <==> es[i].reply == es[k].reply)
  {
    assert forall i :: k < i < |es| ==> es[i].at <= es[|es| - 1].at;
    LastReplyStays(es, k, ttl);
  }

  /** Two overlapping duplicates, and what each store replays. */
  lemma OverlappingDuplicates(key: string, first: Reply, second: Reply, ttl: int)
    requires ttl > 2
    ensures var es := [Begun(key, 0), Begun(key, 0), Finished(key, first, 1), Finished(key, second, 2)];
            && Get(Run(es[..3], Memory, ttl), Memory, key, 1) == Some(first)
            && Get(Run(es, Memory, ttl), Memory, key, 2) == Some(second)
            && Get(Run(es, Redis(true), ttl), Redis(true), key, 2) == Some(first)
  {
    var es := [Begun(key, 0), Begun(key, 0), Finished(key, first, 1), Finished(key, second, 2)];
    assert es[..3][..2] == es[..2] && es[..2][..1] == es[..1] && es[..1][..0] == [];
    forall kind ensures Run(es[..2], kind, ttl) == map[] {
      assert Run(es[..1][..0], kind, ttl) == map[];
      assert Run(es[..1], kind, ttl) == map[];
    }
    forall kind ensures Run(es[..3], kind, ttl) == map[key := Cached(first, 1 + ttl)] {
      assert Run(es[..3][..2], kind, ttl) == map[];
    }
  }

  // ---- Requests one after the other -----------------------------------------------------------------

  /** A request that begins and, if it reaches the handler, finishes before the next one begins. */
  datatype Exchange = Exchange(key: string, reply: Reply, begin: int, end: int)

  function Serve(store: map<string, Cached>, kind: Kind, ttl: int, x: Exchange): map<string, Cached> {
    var looked := AfterGet(store, kind, x.key, x.begin);
    if Live(store, kind, x.key, x.begin) then looked
    else AfterSet(looked, kind, x.key, Cached(x.reply, x.end + ttl), x.end)
  }

  function ServeAll(xs: seq<Exchange>, kind: Kind, ttl: int): map<string, Cached> {
    if |xs| == 0 then map[] else Serve(ServeAll(xs[..|xs| - 1], kind, ttl), kind, ttl, xs[|xs| - 1])
  }

  /** Did the i-th request reach the handler? */
  predicate Handled(xs: seq<Exchange>, i: nat, kind: Kind, ttl: int)
    requires i < |xs|
  {
    !Live(ServeAll(xs[..i], kind, ttl), kind, xs[i].key, xs[i].begin)
  }

  ghost predicate Sequential(xs: seq<Exchange>) {
    && (forall i :: 0 <= i < |xs| ==> xs[i].begin <= xs[i].end)
    && (forall i, j :: 0 <= i < j < |xs| ==> xs[i].end <= xs[j].begin)
  }

  predicate Past(kind: Kind, expiresAt: int, now: int) {
    now > expiresAt || (kind == Redis(true) && now == expiresAt)
  }

  /** The key's entry is the reply of its last handled request. */
  lemma {:induction false} HandledIsStored(xs: seq<Exchange>, i: nat, kind: Kind, ttl: int)
    requires ttl > 0 && Sequential(xs) && i < |xs| && Handled(xs, i, kind, ttl)
    requires forall j :: i < j < |xs| ==> xs[j].key != xs[i].key || !Past(kind, xs[i].end + ttl, xs[j].begin)
    ensures var store := ServeAll(xs, kind, ttl);
            xs[i].key in store && store[xs[i].key] == Cached(xs[i].reply, xs[i].end + ttl)
  {
    var rest := xs[..|xs| - 1];
    if i < |xs| - 1 {
      assert rest[..i] == xs[..i] && rest[i] == xs[i];
      HandledIsStored(rest, i, kind, ttl);
      assert xs[i].end <= xs[|xs| - 1].begin;
    }
  }

  /** Of requests one after the other, the handler runs at most once per key and TTL window. */
  lemma HandlerOncePerWindow(xs: seq<Exchange>, i: nat, j: nat, kind: Kind, ttl: int)
    requires ttl > 0 && Sequential(xs) && i < j < |xs| && xs[i].key == xs[j].key
    requires Handled(xs, i, kind, ttl) && Handled(xs, j, kind, ttl)
    ensures xs[j].begin >= xs[i].end + ttl
  {
    if xs[j].begin < xs[i].end + ttl {
      NotPastIsReplayed(xs, i, j, kind, ttl);
    }
  }

  /** No request begins exactly when an earlier reply for its key expires. */
  ghost predicate AvoidsExpiry(xs: seq<Exchange>, ttl: int) {
    forall i, j :: 0 <= i < j < |xs| && xs[i].key == xs[j].key ==> xs[j].begin != xs[i].end + ttl
  }

  /** The i-th request was handled for the key, and its reply expires then. */
  ghost predicate Source(xs: seq<Exchange>, i: nat, kind: Kind, ttl: int, key: string, expiresAt: int) {
    i < |xs| && xs[i].key == key && Handled(xs, i, kind, ttl) && expiresAt == xs[i].end + ttl
  }

  ghost predicate EntriesFromRequests(store: map<string, Cached>, xs: seq<Exchange>, kind: Kind, ttl: int) {
    forall key :: key in store ==> exists i: nat :: Source(xs, i, kind, ttl, key, store[key].expiresAt)
  }

  lemma SourceInPrefix(xs: seq<Exchange>, j: nat, i: nat, kind: Kind, ttl: int, key: string, expiresAt: int)
    requires i < j <= |xs|
    ensures Source(xs[..j], i, kind, ttl, key, expiresAt) <==> Source(xs, i, kind, ttl, key, expiresAt)
  {
    assert xs[..j][..i] == xs[..i];
  }

  lemma {:induction false} ServeAllEntries(xs: seq<Exchange>, kind: Kind, ttl: int)
    ensures EntriesFromRequests(ServeAll(xs, kind, ttl), xs, kind, ttl)
  {
    if |xs| > 0 {
      var n := |xs| - 1;
      var before, store := ServeAll(xs[..n], kind, ttl), ServeAll(xs, kind, ttl);
      ServeAllEntries(xs[..n], kind, ttl);
      forall key | key in store ensures exists i: nat :: Source(xs, i, kind, ttl, key, store[key].expiresAt) {
        if key in before && store[key] == before[key] {
          var i: nat :| Source(xs[..n], i, kind, ttl, key, store[key].expiresAt);
          SourceInPrefix(xs, n, i, kind, ttl, key, store[key].expiresAt);
        } else {
          assert Source(xs, n, kind, ttl, key, store[key].expiresAt);
        }
      }
    }
  }

  lemma LastBeginsOffExpiry(xs: seq<Exchange>, ttl: int)
    requires |xs| > 0 && AvoidsExpiry(xs, ttl)
    ensures var store, x := ServeAll(xs[..|xs| - 1], Memory, ttl), xs[|xs| - 1];
            x.key in store ==> x.begin != store[x.key].expiresAt
  {
    var rest, x := xs[..|xs| - 1], xs[|xs| - 1];
    var store := ServeAll(rest, Memory, ttl);
    ServeAllEntries(rest, Memory, ttl);
    if x.key in store {
      var i: nat :| Source(rest, i, Memory, ttl, x.key, store[x.key].expiresAt);
      assert xs[i].key == x.key && x.begin != xs[i].end + ttl;
    }
  }

  /** A request for whose key a handled reply is not past its time is not handled. */
  lemma NotPastIsReplayed(xs: seq<Exchange>, i: nat, j: nat, kind: Kind, ttl: int)
    requires ttl > 0 && Sequential(xs) && i < j < |xs| && xs[i].key == xs[j].key && Handled(xs, i, kind, ttl)
    requires !Past(kind, xs[i].end + ttl, xs[j].begin)
    ensures !Handled(xs, j, kind, ttl)
  {
    var prefix := xs[..j];
    assert prefix[..i] == xs[..i] && prefix[i] == xs[i];
    forall k | i < k < |prefix| ensures !Past(kind, xs[i].end + ttl, prefix[k].begin) {
      assert xs[k].begin <= xs[k].end <= xs[j].begin;
    }
    HandledIsStored(prefix, i, kind, ttl);
  }

  /**
   Exactly which of requests one after the other reach the handler: those before which every handled request for the key
   has its reply past its time.
   */
  lemma HandledIff(xs: seq<Exchange>, j: nat, kind: Kind, ttl: int)
    requires ttl > 0 && Sequential(xs) && j < |xs|
    ensures Handled(xs, j, kind, ttl)
            <==> forall i: nat :: i < j && xs[i].key == xs[j].key && Handled(xs, i, kind, ttl) ==>
                   xs[j].begin > xs[i].end + ttl || (kind == Redis(true) && xs[j].begin == xs[i].end + ttl)
  {
    if Handled(xs, j, kind, ttl) {
      forall i: nat | i < j && xs[i].key == xs[j].key && Handled(xs, i, kind, ttl) ensures Past(kind, xs[i].end + ttl, xs[j].begin) {
        if !Past(kind, xs[i].end + ttl, xs[j].begin) {
          NotPastIsReplayed(xs, i, j, kind, ttl);
        }
      }
    } else {
      var key, store := xs[j].key, ServeAll(xs[..j], kind, ttl);
      ServeAllEntries(xs[..j], kind, ttl);
      var i: nat :| Source(xs[..j], i, kind, ttl, key, store[key].expiresAt);
      SourceInPrefix(xs, j, i, kind, ttl, key, store[key].expiresAt);
    }
  }

  /** Away from the expiry instant, and for requests one after the other, the two stores are the same. */
  lemma {:induction false} StoresAgree(xs: seq<Exchange>, eager: bool, ttl: int)
    requires ttl > 0 && Sequential(xs) && AvoidsExpiry(xs, ttl)
    ensures ServeAll(xs, Memory, ttl) == ServeAll(xs, Redis(eager), ttl)
    ensures |xs| > 0 ==> var i := |xs| - 1; Handled(xs, i, Memory, ttl) <==> Handled(xs, i, Redis(eager), ttl)
  {
    if |xs| > 0 {
      StoresAgree(xs[..|xs| - 1], eager, ttl);
      LastBeginsOffExpiry(xs, ttl);
    }
  }

  /** So they send exactly the same requests to the handler. */
  lemma HandlersAgree(xs: seq<Exchange>, i: nat, eager: bool, ttl: int)
    requires ttl > 0 && Sequential(xs) && AvoidsExpiry(xs, ttl) && i < |xs|
    ensures Handled(xs, i, Memory, ttl) <==> Handled(xs, i, Redis(eager), ttl)
  {
    var prefix := xs[..i + 1];
    assert prefix[..i] == xs[..i];
    StoresAgree(prefix, eager, ttl);
  }
}
