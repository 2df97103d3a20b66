/**
 The gateway's response cache (cache.middleware.ts): an LRU over a JavaScript Map, whose entries also expire, and
 the periodic cleanup that looks entries up while it iterates over the same Map.

 A Map is a list of slots (section 24.1 of ECMA-262): set appends, delete empties a slot in place, and an
 iterator is a position in that list, so it also visits what is appended behind it.
 */
module ResponseCache {
  import opened Prelude

  datatype Entry = Entry(data: string, expiresAt: int)

  datatype Slot = Slot(key: string, entry: Entry)

  // ---- Specification: the queue of live slots, least recently touched first --------------------

  function Live(slots: seq<Option<Slot>>): seq<Slot> {
    if |slots| == 0 then []
    else
      var rest := Live(slots[..|slots| - 1]);
      match slots[|slots| - 1]
      case None => rest
      case Some(s) => rest + [s]
  }

  function Without(q: seq<Slot>, key: string): seq<Slot> {
    if |q| == 0 then []
    else
      var rest := Without(q[..|q| - 1], key);
      if q[|q| - 1].key == key then rest else rest + [q[|q| - 1]]
  }

  function Lookup(q: seq<Slot>, key: string): Option<Entry> {
    if |q| == 0 then None
    else if q[|q| - 1].key == key then Some(q[|q| - 1].entry)
    else Lookup(q[..|q| - 1], key)
  }

  function GetSpec(q: seq<Slot>, key: string): seq<Slot> {
    match Lookup(q, key)
    case None => q
    case Some(entry) => Without(q, key) + [Slot(key, entry)]
  }

  /** `if (oldest)`: an empty key is never evicted. */
  function EvictSpec(q: seq<Slot>, max: nat): seq<Slot> {
    if |q| >= max && |q| > 0 && q[0].key != "" then q[1..] else q
  }

  function SetSpec(q: seq<Slot>, key: string, entry: Entry, max: nat): seq<Slot> {
    EvictSpec(Without(q, key), max) + [Slot(key, entry)]
  }

  ghost predicate DistinctKeys(q: seq<Slot>) {
    forall i, j :: 0 <= i < j < |q| ==> q[i].key != q[j].key
  }

  /** One turn of the cleanup loop, seen on the queue: the front entry is dropped if expired, else moved to the back. */
  function Rotate(q: seq<Slot>, now: int): seq<Slot> {
    if |q| == 0 then q
    else if q[0].entry.expiresAt <= now then q[1..]
    else q[1..] + [q[0]]
  }

  function Turns(q: seq<Slot>, now: int, n: nat): seq<Slot>
    decreases n
  {
    if n == 0 then q else Turns(Rotate(q, now), now, n - 1)
  }

  function Unexpired(q: seq<Slot>, now: int): seq<Slot> {
    if |q| == 0 then []
    else
      var rest := Unexpired(q[..|q| - 1], now);
      if q[|q| - 1].entry.expiresAt <= now then rest else rest + [q[|q| - 1]]
  }

  // ---- Facts about queues ---------------------------------------------------------------------

  lemma {:induction false} LiveConcat(a: seq<Option<Slot>>, b: seq<Option<Slot>>)
    ensures Live(a + b) == Live(a) + Live(b)
  {
    if |b| == 0 {
      assert a + b == a;
    } else {
      assert (a + b)[..|a + b| - 1] == a + b[..|b| - 1];
      LiveConcat(a, b[..|b| - 1]);
    }
  }

  lemma {:induction false} LiveEmpty(slots: seq<Option<Slot>>)
    requires forall i :: 0 <= i < |slots| ==> slots[i].None?
    ensures Live(slots) == []
  {
    if |slots| > 0 {
      LiveEmpty(slots[..|slots| - 1]);
    }
  }

  /** With nothing live before position n, the first occupied slot from n on is the front of the queue. */
  lemma LiveEmptyPrefix(slots: seq<Option<Slot>>, n: nat)
    requires n <= |slots| && forall i :: 0 <= i < n ==> slots[i].None?
    ensures n == |slots| ==> Live(slots) == []
    ensures n < |slots| && slots[n].Some? ==> |Live(slots)| > 0 && Live(slots)[0] == slots[n].value
  {
    LiveEmpty(slots[..n]);
    if n == |slots| {
      assert slots[..n] == slots;
    } else if slots[n].Some? {
      assert slots == slots[..n] + ([slots[n]] + slots[n + 1..]);
      LiveConcat(slots[..n], [slots[n]] + slots[n + 1..]);
      LiveConcat([slots[n]], slots[n + 1..]);
      assert [slots[n]][..0] == [];
      assert Live([slots[n]]) == [] + [slots[n].value];
    }
  }

  lemma {:induction false} LiveVacated(before: seq<Option<Slot>>, after: seq<Option<Slot>>, key: string)
    requires |after| == |before|
    requires forall i :: 0 <= i < |after| ==>
               after[i] == if before[i].Some? && before[i].value.key == key then None else before[i]
    ensures Live(after) == Without(Live(before), key)
  {
    if |before| > 0 {
      var n := |before| - 1;
      LiveVacated(before[..n], after[..n], key);
      if before[n].Some? {
        WithoutConcat(Live(before[..n]), [before[n].value], key);
      }
    }
  }

  lemma {:induction false} WithoutConcat(a: seq<Slot>, b: seq<Slot>, key: string)
    ensures Without(a + b, key) == Without(a, key) + Without(b, key)
  {
    if |b| == 0 {
      assert a + b == a;
    } else {
      assert (a + b)[..|a + b| - 1] == a + b[..|b| - 1];
      WithoutConcat(a, b[..|b| - 1], key);
    }
  }

  lemma {:induction false} WithoutMissing(q: seq<Slot>, key: string)
    requires Lookup(q, key).None?
    ensures Without(q, key) == q
  {
    if |q| > 0 {
      WithoutMissing(q[..|q| - 1], key);
    }
  }

  lemma {:induction false} LookupFinds(q: seq<Slot>, key: string)
    ensures Lookup(q, key).None? <==> forall i :: 0 <= i < |q| ==> q[i].key != key
    ensures Lookup(q, key).Some? ==> exists i :: 0 <= i < |q| && q[i] == Slot(key, Lookup(q, key).value)
  {
    if |q| > 0 && q[|q| - 1].key != key {
      LookupFinds(q[..|q| - 1], key);
    }
  }

  lemma LookupAppend(q: seq<Slot>, s: Slot, key: string)
    ensures Lookup(q + [s], key) == if s.key == key then Some(s.entry) else Lookup(q, key)
  {
    assert (q + [s])[..|q|] == q;
  }

  lemma HeldIsFound(q: seq<Slot>, i: nat)
    requires DistinctKeys(q) && i < |q|
    ensures Lookup(q, q[i].key) == Some(q[i].entry)
  {
    LookupFinds(q, q[i].key);
  }

  lemma {:induction false} WithoutHas(q: seq<Slot>, key: string, i: nat)
    requires i < |q| && q[i].key != key
    ensures q[i] in Without(q, key)
  {
    if i < |q| - 1 {
      WithoutHas(q[..|q| - 1], key, i);
    }
  }

  lemma {:induction false} WithoutKeeps(q: seq<Slot>, key: string)
    requires DistinctKeys(q)
    ensures DistinctKeys(Without(q, key))
    ensures forall i :: 0 <= i < |Without(q, key)| ==> Without(q, key)[i] in q && Without(q, key)[i].key != key
    ensures forall other :: other != key ==> Lookup(Without(q, key), other) == Lookup(q, other)
    ensures |Without(q, key)| == |q| - if Lookup(q, key).Some? then 1 else 0
  {
    if |q| > 0 {
      var rest, last := q[..|q| - 1], q[|q| - 1];
      WithoutKeeps(rest, key);
      forall other | other != key ensures Lookup(Without(q, key), other) == Lookup(q, other) {
        LookupAppend(Without(rest, key), last, other);
      }
      if last.key == key {
        LookupFinds(rest, key);
      }
    }
  }

  lemma FrontIsOnly(q: seq<Slot>)
    requires |q| > 0 && DistinctKeys(q)
    ensures Without(q, q[0].key) == q[1..]
    ensures Lookup(q, q[0].key) == Some(q[0].entry)
  {
    assert q == [q[0]] + q[1..];
    WithoutConcat([q[0]], q[1..], q[0].key);
    assert [q[0]][..0] == [];
    LookupFinds(q[1..], q[0].key);
    WithoutMissing(q[1..], q[0].key);
    LookupFinds(q, q[0].key);
  }

  lemma BackIsOnly(q: seq<Slot>, s: Slot)
    requires DistinctKeys(q + [s])
    ensures Without(q + [s], s.key) == q
  {
    var longer := q + [s];
    assert longer[..|q|] == q && longer[|q|] == s;
    forall i | 0 <= i < |q| ensures q[i].key != s.key {
      assert longer[i] == q[i];
    }
    LookupFinds(q, s.key);
    WithoutMissing(q, s.key);
  }

  /** Looking up the front key moves it to the back; deleting it then leaves the rest. */
  lemma FrontToBack(q: seq<Slot>)
    requires |q| > 0 && DistinctKeys(q)
    ensures Lookup(q, q[0].key) == Some(q[0].entry)
    ensures GetSpec(q, q[0].key) == q[1..] + [q[0]] && DistinctKeys(GetSpec(q, q[0].key))
    ensures Without(GetSpec(q, q[0].key), q[0].key) == q[1..] && DistinctKeys(q[1..])
  {
    FrontIsOnly(q);
    WithoutKeeps(q, q[0].key);
    SpecsKeepDistinct(q, q[0].key, q[0].entry, 0);
    BackIsOnly(q[1..], q[0]);
  }

  lemma SpecsKeepDistinct(q: seq<Slot>, key: string, entry: Entry, max: nat)
    requires DistinctKeys(q)
    ensures DistinctKeys(GetSpec(q, key)) && DistinctKeys(SetSpec(q, key, entry, max))
  {
    WithoutKeeps(q, key);
  }

  /** The slots `after` start with those of `before`, except that the key's are empty; emptied slots stay so. */
  ghost predicate Vacated(before: seq<Option<Slot>>, after: seq<Option<Slot>>, key: string) {
    && |after| >= |before|
    && forall i :: 0 <= i < |before| ==> (before[i].None? || before[i].value.key == key ==> after[i].None?)
  }

  // ---- The cache ------------------------------------------------------------------------------

  class LRUCache {
    const max: nat
    var slots: seq<Option<Slot>>

    function Queue(): seq<Slot>
      reads this
    {
      Live(slots)
    }

    ghost predicate Valid()
      reads this
    {
      DistinctKeys(Queue())
    }

    constructor (max: nat)
      ensures Valid() && Queue() == [] && this.max == max
    {
      this.max, slots := max, [];
    }

    /** Map.get: a search over the slots. */
    method MapGet(key: string) returns (entry: Option<Entry>)
      ensures entry == Lookup(Queue(), key)
    {
      var i := |slots|;
      assert slots[..|slots|] == slots;
      while i > 0
        invariant 0 <= i <= |slots|
        invariant Lookup(Live(slots), key) == Lookup(Live(slots[..i]), key)
      {
        assert slots[..i][..i - 1] == slots[..i - 1];
        if slots[i - 1].Some? {
          assert Live(slots[..i]) == Live(slots[..i - 1]) + [slots[i - 1].value];
          if slots[i - 1].value.key == key {
            return Some(slots[i - 1].value.entry);
          }
          LookupAppend(Live(slots[..i - 1]), slots[i - 1].value, key);
        }
        i := i - 1;
      }
      entry := None;
    }

    /** Map.delete: the slot stays, empty. */
    method MapDelete(key: string)
      modifies this`slots
      ensures |slots| == |old(slots)| && Queue() == Without(old(Queue()), key)
      ensures forall i :: 0 <= i < |slots| ==>
                slots[i] == if old(slots)[i].Some? && old(slots)[i].value.key == key then None else old(slots)[i]
    {
      slots := seq(|slots|, i requires 0 <= i < |slots| reads this =>
        if slots[i].Some? && slots[i].value.key == key then None else slots[i]);
      LiveVacated(old(slots), slots, key);
    }

    /** Map.set on a key that is not in the Map. */
    method MapAppend(key: string, entry: Entry)
      modifies this`slots
      ensures slots == old(slots) + [Some(Slot(key, entry))] && Queue() == old(Queue()) + [Slot(key, entry)]
    {
      slots := slots + [Some(Slot(key, entry))];
      assert slots[..|slots| - 1] == old(slots);
    }

    method Get(key: string) returns (entry: Option<Entry>)
      requires Valid()
      modifies this`slots
      ensures Valid() && entry == Lookup(old(Queue()), key) && Queue() == GetSpec(old(Queue()), key)
      ensures entry.Some? ==> Vacated(old(slots), slots, key)
    {
      entry := MapGet(key);
      if entry.None? {
        return;
      }
      MapDelete(key);
      MapAppend(key, entry.value);
      SpecsKeepDistinct(old(Queue()), key, entry.value, max);
    }

    method Set(key: string, entry: Entry)
      requires Valid()
      modifies this`slots
      ensures Valid() && Queue() == SetSpec(old(Queue()), key, entry, max)
    {
      WithoutKeeps(Queue(), key);
      SpecsKeepDistinct(Queue(), key, entry, max);
      var existing := MapGet(key);
      if existing.Some? {
        MapDelete(key);
      } else {
        WithoutMissing(Queue(), key);
      }
      if |Queue()| >= max && |Queue()| > 0 {
        var oldest := Queue()[0].key;
        if oldest != "" {
          FrontIsOnly(Queue());
          MapDelete(oldest);
        }
      }
      MapAppend(key, entry);
    }

    /** The loop's body, for the key in front. */
    method CleanupKey(key: string, now: int)
      requires Valid() && |Queue()| > 0 && Queue()[0].key == key
      modifies this`slots
      ensures Valid() && Queue() == Rotate(old(Queue()), now)
      ensures Queue() == if old(Queue())[0].entry.expiresAt <= now then old(Queue())[1..] else old(Queue())[1..] + [old(Queue())[0]]
      ensures Vacated(old(slots), slots, key)
    {
      FrontToBack(Queue());
      var entry := Get(key);
      if entry.value.expiresAt <= now {
        MapDelete(key);
      }
    }

    /**
     One turn of `for (const key of cache.keys())`: the iterator moves to the next occupied slot, the entry is looked
     up - which moves it behind the iterator - and deleted if it has expired.
     */
    method CleanupTurn(pos: nat, now: int) returns (done: bool, next: nat)
      requires Valid() && pos <= |slots| && forall i :: 0 <= i < pos ==> slots[i].None?
      modifies this`slots
      ensures Valid() && next <= |slots| && forall i :: 0 <= i < next ==> slots[i].None?
      ensures done <==> old(Queue()) == []
      ensures Queue() == Rotate(old(Queue()), now)
    {
      next := pos;
      while next < |slots| && slots[next].None?
        invariant pos <= next <= |slots| && forall i :: 0 <= i < next ==> slots[i].None?
      {
        next := next + 1;
      }
      if next == |slots| {
        LiveEmptyPrefix(slots, next);
        return true, next;
      }
      LiveEmptyPrefix(slots, next);
      CleanupKey(slots[next].value.key, now);
      done, next := false, next + 1;
    }

    /** At most n turns of the cleanup loop, from its start. */
    method Cleanup(now: int, n: nat) returns (done: bool)
      requires Valid()
      modifies this`slots
      ensures Valid() && Queue() == Turns(old(Queue()), now, n)
      ensures done ==> Queue() == []
    {
      var pos: nat := 0;
      done := false;
      for k := 0 to n
        invariant Valid() && pos <= |slots| && forall i :: 0 <= i < pos ==> slots[i].None?
        invariant Turns(old(Queue()), now, n) == Turns(Queue(), now, n - k)
        invariant done ==> Queue() == []
      {
        done, pos := CleanupTurn(pos, now);
      }
    }
  }

  // ---- The cleanup pass -----------------------------------------------------------------------

  lemma {:induction false} UnexpiredConcat(a: seq<Slot>, b: seq<Slot>, now: int)
    ensures Unexpired(a + b, now) == Unexpired(a, now) + Unexpired(b, now)
  {
    if |b| == 0 {
      assert a + b == a;
    } else {
      assert (a + b)[..|a + b| - 1] == a + b[..|b| - 1];
      UnexpiredConcat(a, b[..|b| - 1], now);
    }
  }

  lemma RotateIs(s: Slot, a: seq<Slot>, b: seq<Slot>, now: int)
    ensures Rotate([s] + a + b, now) == a + (b + Unexpired([s], now))
  {
    assert [s][..0] == [];
    assert ([s] + a + b)[1..] == a + b;
  }

  /** After |a| turns, what stood behind a is in front, followed by the unexpired entries of a in their old order. */
  lemma {:induction false} TurnsConsume(a: seq<Slot>, b: seq<Slot>, now: int)
    ensures Turns(a + b, now, |a|) == b + Unexpired(a, now)
    decreases |a|
  {
    if |a| == 0 {
      assert a + b == b;
    } else {
      var head := [a[0]];
      RotateIs(a[0], a[1..], b, now);
      assert a + b == head + a[1..] + b && a == head + a[1..];
      assert Turns(a + b, now, |a|) == Turns(a[1..] + (b + Unexpired(head, now)), now, |a[1..]|);
      TurnsConsume(a[1..], b + Unexpired(head, now), now);
      UnexpiredConcat(head, a[1..], now);
      assert b + Unexpired(head, now) + Unexpired(a[1..], now) == b + Unexpired(a, now);
    }
  }

  /**
   Within |q| turns every expired entry is gone, no unexpired one has been removed, and the survivors stand in their old
   order: the first n entries have been visited, and the unexpired ones among them moved behind the rest.
   */
  lemma CleanupAfter(q: seq<Slot>, now: int, n: nat)
    requires n <= |q|
    ensures Turns(q, now, n) == q[n..] + Unexpired(q[..n], now)
    ensures n == |q| ==> Turns(q, now, n) == Unexpired(q, now)
  {
    assert q == q[..n] + q[n..];
    TurnsConsume(q[..n], q[n..], now);
    if n == |q| {
      assert q[..n] == q && q[n..] == [];
    }
  }

  lemma {:induction false} TurnsKeepUnexpired(q: seq<Slot>, now: int, n: nat)
    ensures |Unexpired(Turns(q, now, n), now)| == |Unexpired(q, now)|
    decreases n
  {
    if n > 0 {
      TurnsKeepUnexpired(Rotate(q, now), now, n - 1);
      if |q| > 0 {
        assert q == [q[0]] + q[1..];
        UnexpiredConcat([q[0]], q[1..], now);
        UnexpiredConcat(q[1..], [q[0]], now);
      }
    }
  }

  /** The cleanup loop comes to an end if and only if no entry is unexpired; with one left, it turns for ever. */
  lemma CleanupEndsIffAllExpired(q: seq<Slot>, now: int)
    ensures (exists n: nat :: Turns(q, now, n) == []) <==> forall i :: 0 <= i < |q| ==> q[i].entry.expiresAt <= now
  {
    UnexpiredEmpty(q, now);
    CleanupAfter(q, now, |q|);
    if n: nat :| Turns(q, now, n) == [] {
      TurnsKeepUnexpired(q, now, n);
    }
  }

  lemma {:induction false} UnexpiredEmpty(q: seq<Slot>, now: int)
    ensures Unexpired(q, now) == [] <==> forall i :: 0 <= i < |q| ==> q[i].entry.expiresAt <= now
  {
    if |q| > 0 {
      UnexpiredEmpty(q[..|q| - 1], now);
    }
  }

  // ---- Least recently used ----------------------------------------------------------------------

  datatype Op = GetOp(key: string) | SetOp(key: string, entry: Entry)

  function RunOps(ops: seq<Op>, max: nat): seq<Slot> {
    if |ops| == 0 then []
    else
      var q := RunOps(ops[..|ops| - 1], max);
      match ops[|ops| - 1]
      case GetOp(key) => GetSpec(q, key)
      case SetOp(key, entry) => SetSpec(q, key, entry, max)
  }

  /** The keys touched, in order: every set, and every get that finds its key. */
  function Touches(ops: seq<Op>, max: nat): seq<string> {
    if |ops| == 0 then []
    else
      var before := Touches(ops[..|ops| - 1], max);
      match ops[|ops| - 1]
      case GetOp(key) => if Lookup(RunOps(ops[..|ops| - 1], max), key).Some? then before + [key] else before
      case SetOp(key, _) => before + [key]
  }

  /** The touches after the last touch of the key. */
  function SinceLast(touches: seq<string>, key: string): seq<string> {
    if |touches| == 0 || touches[|touches| - 1] == key then []
    else SinceLast(touches[..|touches| - 1], key) + [touches[|touches| - 1]]
  }

  function Names(q: seq<Slot>): seq<string> {
    if |q| == 0 then [] else Names(q[..|q| - 1]) + [q[|q| - 1].key]
  }

  function Drop(names: seq<string>, key: string): seq<string> {
    if |names| == 0 then []
    else
      var rest := Drop(names[..|names| - 1], key);
      if names[|names| - 1] == key then rest else rest + [names[|names| - 1]]
  }

  /** All keys ever touched, by last touch. */
  function Recency(touches: seq<string>): seq<string> {
    if |touches| == 0 then []
    else Drop(Recency(touches[..|touches| - 1]), touches[|touches| - 1]) + [touches[|touches| - 1]]
  }

  function LastOnes(names: seq<string>, n: nat): seq<string> {
    if |names| <= n then names else names[|names| - n..]
  }

  ghost predicate DistinctNames(names: seq<string>) {
    forall i, j :: 0 <= i < j < |names| ==> names[i] != names[j]
  }

  lemma {:induction false} DropConcat(a: seq<string>, b: seq<string>, key: string)
    ensures Drop(a + b, key) == Drop(a, key) + Drop(b, key)
  {
    if |b| == 0 {
      assert a + b == a;
    } else {
      assert (a + b)[..|a + b| - 1] == a + b[..|b| - 1];
      DropConcat(a, b[..|b| - 1], key);
    }
  }

  lemma {:induction false} DropFacts(names: seq<string>, key: string)
    ensures forall k :: k in Drop(names, key) <==> k in names && k != key
    ensures key !in names ==> Drop(names, key) == names
    ensures DistinctNames(names) ==> DistinctNames(Drop(names, key)) && |Drop(names, key)| == |names| - if key in names then 1 else 0
  {
    if |names| > 0 {
      var rest := names[..|names| - 1];
      DropFacts(rest, key);
      assert names == rest + [names[|names| - 1]];
      assert forall i :: 0 <= i < |Drop(rest, key)| ==> Drop(rest, key)[i] in Drop(rest, key);
    }
  }

  lemma {:induction false} NamesWithout(q: seq<Slot>, key: string)
    ensures Names(Without(q, key)) == Drop(Names(q), key)
    ensures |Names(q)| == |q| && forall i :: 0 <= i < |q| ==> Names(q)[i] == q[i].key
  {
    if |q| > 0 {
      var p, last := q[..|q| - 1], q[|q| - 1];
      var rest := Without(p, key);
      NamesWithout(p, key);
      assert Names(q)[..|Names(q)| - 1] == Names(p);
      if last.key != key {
        assert (rest + [last])[..|rest|] == rest;
      }
    }
  }

  lemma NamesAppend(q: seq<Slot>, s: Slot)
    ensures Names(q + [s]) == Names(q) + [s.key]
  {
    assert (q + [s])[..|q|] == q;
  }

  lemma {:induction false} RecencyDistinct(touches: seq<string>)
    ensures DistinctNames(Recency(touches))
    ensures forall k :: k in Recency(touches) <==> k in touches
  {
    if |touches| > 0 {
      var rest, last := touches[..|touches| - 1], touches[|touches| - 1];
      RecencyDistinct(rest);
      DropFacts(Recency(rest), last);
      assert touches == rest + [last];
    }
  }

  lemma LastOnesAppended(front: seq<string>, kept: seq<string>, key: string, n: nat)
    requires |kept| == n >= 1 || |kept| == n - 1 || (|kept| < n && front == [])
    ensures LastOnes(front + kept + [key], n) == (if |kept| >= n then kept[1..] else kept) + [key]
  {
    if |kept| >= n {
      assert front + kept + [key] == (front + [kept[0]]) + (kept[1..] + [key]);
    } else {
      assert front + kept + [key] == front + (kept + [key]);
    }
  }

  lemma DistinctParts(front: seq<string>, l: seq<string>)
    requires DistinctNames(front + l)
    ensures DistinctNames(front) && DistinctNames(l)
  {
    assert forall i :: 0 <= i < |front| ==> front[i] == (front + l)[i];
    assert forall i :: 0 <= i < |l| ==> l[i] == (front + l)[|front| + i];
  }

  /** Touching a key among the last n, or a new one with the oldest of n dropped, keeps the last n of the recency order. */
  lemma TouchKeepsSplit(front: seq<string>, l: seq<string>, key: string, n: nat)
    requires n >= 1 && DistinctNames(front + l) && (|l| == n || (|l| <= n && front == []))
    ensures var kept := Drop(l, key);
            LastOnes(Drop(front + l, key) + [key], n) == (if |kept| >= n then kept[1..] else kept) + [key]
  {
    DistinctParts(front, l);
    DropConcat(front, l, key);
    DropFacts(l, key);
    LastOnesAppended(Drop(front, key), Drop(l, key), key, n);
  }

  lemma TouchKeepsLastOnes(r: seq<string>, key: string, n: nat)
    requires n >= 1 && DistinctNames(r)
    ensures var kept := Drop(LastOnes(r, n), key);
            LastOnes(Drop(r, key) + [key], n) == (if |kept| >= n then kept[1..] else kept) + [key]
  {
    var l := LastOnes(r, n);
    var front := r[..|r| - |l|];
    assert r == front + l;
    TouchKeepsSplit(front, l, key, n);
  }

  ghost predicate NonEmptyKeys(q: seq<Slot>) {
    forall i :: 0 <= i < |q| ==> q[i].key != ""
  }

  lemma NonEmptyWithout(q: seq<Slot>, key: string)
    requires NonEmptyKeys(q) && DistinctKeys(q)
    ensures NonEmptyKeys(Without(q, key)) && DistinctKeys(Without(q, key))
  {
    WithoutKeeps(q, key);
  }

  lemma SetKeepsNonEmpty(q: seq<Slot>, key: string, entry: Entry, max: nat)
    requires key != "" && NonEmptyKeys(q) && DistinctKeys(q)
    ensures NonEmptyKeys(SetSpec(q, key, entry, max)) && DistinctKeys(SetSpec(q, key, entry, max))
  {
    SpecsKeepDistinct(q, key, entry, max);
    NonEmptyWithout(q, key);
  }

  /** The names after a set, or after a get that finds its key: dropped, evicted if full, and put last. */
  lemma NamesAfterTouch(q: seq<Slot>, key: string, entry: Entry, max: nat)
    requires max >= 1 && NonEmptyKeys(q) && DistinctKeys(q)
    ensures Names(SetSpec(q, key, entry, max))
            == (if |Drop(Names(q), key)| >= max then Drop(Names(q), key)[1..] else Drop(Names(q), key)) + [key]
    ensures Lookup(q, key) == Some(entry) && |q| <= max ==> GetSpec(q, key) == SetSpec(q, key, entry, max)
  {
    var kept := Without(q, key);
    NamesWithout(q, key);
    NamesWithout(kept, key);
    NonEmptyWithout(q, key);
    NamesAppend(EvictSpec(kept, max), Slot(key, entry));
    if |kept| >= max {
      NamesTail(kept);
    }
    if Lookup(q, key) == Some(entry) {
      WithoutKeeps(q, key);
    }
  }

  lemma SetKeepsRecency(q: seq<Slot>, touches: seq<string>, key: string, entry: Entry, max: nat)
    requires max >= 1 && key != "" && NonEmptyKeys(q) && DistinctKeys(q)
    requires Names(q) == LastOnes(Recency(touches), max)
    ensures var q' := SetSpec(q, key, entry, max);
            DistinctKeys(q') && NonEmptyKeys(q') && Names(q') == LastOnes(Recency(touches + [key]), max)
  {
    RecencyDistinct(touches);
    TouchKeepsLastOnes(Recency(touches), key, max);
    NamesAfterTouch(q, key, entry, max);
    SetKeepsNonEmpty(q, key, entry, max);
  }

  /** The cache holds exactly the last max keys of the recency order. */
  lemma {:induction false} CacheIsRecency(ops: seq<Op>, max: nat)
    requires max >= 1 && forall i :: 0 <= i < |ops| ==> ops[i].key != ""
    ensures var q := RunOps(ops, max);
            DistinctKeys(q) && NonEmptyKeys(q) && Names(q) == LastOnes(Recency(Touches(ops, max)), max)
  {
    if |ops| > 0 {
      var rest, op := ops[..|ops| - 1], ops[|ops| - 1];
      var q, touches := RunOps(rest, max), Touches(rest, max);
      CacheIsRecency(rest, max);
      match op
      case GetOp(key) =>
        var found := Lookup(q, key);
        if found.Some? {
          SetKeepsRecency(q, touches, key, found.value, max);
          NamesWithout(q, key);
          NamesAfterTouch(q, key, found.value, max);
        }
      case SetOp(key, entry) => SetKeepsRecency(q, touches, key, entry, max);
    }
  }

  lemma NamesTail(q: seq<Slot>)
    requires |q| > 0
    ensures Names(q[1..]) == Names(q)[1..]
  {
    NamesWithout(q, "");
    NamesWithout(q[1..], "");
  }

  /** In the recency order a touched key is followed by exactly the keys touched since its last touch. */
  /** The key splits the names by last touch into these parts, and the second holds what was touched since. */
  ghost predicate SplitsAt(touches: seq<string>, key: string, front: seq<string>, after: seq<string>) {
    Recency(touches) == front + [key] + after && forall k :: k in after <==> k in SinceLast(touches, key)
  }

  lemma {:induction false} FollowersAreSinceLast(touches: seq<string>, key: string)
    requires key in touches
    ensures exists front, after :: SplitsAt(touches, key, front, after)
  {
    var rest, last := touches[..|touches| - 1], touches[|touches| - 1];
    assert touches == rest + [last];
    if last == key {
      var front := Drop(Recency(rest), key);
      assert front + [key] + [] == front + [key];
      assert SplitsAt(touches, key, front, []);
    } else {
      FollowersAreSinceLast(rest, key);
      var f, a :| SplitsAt(rest, key, f, a);
      DropConcat(f + [key], a, last);
      DropConcat(f, [key], last);
      assert [key][..0] == [];
      assert Drop([key], last) == [key];
      DropFacts(a, last);
      var front, after := Drop(f, last), Drop(a, last) + [last];
      assert Recency(touches) == front + [key] + after;
      assert SplitsAt(touches, key, front, after);
    }
  }

  ghost function KeySet(names: seq<string>): set<string> {
    set k | k in names
  }

  lemma {:induction false} DistinctCount(names: seq<string>)
    requires DistinctNames(names)
    ensures |KeySet(names)| == |names|
  {
    if |names| == 0 {
      assert KeySet(names) == {};
    } else {
      var rest, last := names[..|names| - 1], names[|names| - 1];
      DistinctCount(rest);
      assert names == rest + [last];
      assert KeySet(names) == KeySet(rest) + {last};
      assert last !in KeySet(rest);
    }
  }

  /**
   LRU exactness: after any run of gets and sets the size never exceeds max, and a key is held if and only if it has
   been touched and fewer than max distinct other keys were touched (set, or found by a get) since its last touch.
   */
  lemma LruExact(ops: seq<Op>, max: nat, key: string)
    requires max >= 1 && forall i :: 0 <= i < |ops| ==> ops[i].key != ""
    ensures |RunOps(ops, max)| <= max
    ensures Lookup(RunOps(ops, max), key).Some? <==>
              key in Touches(ops, max) && |KeySet(SinceLast(Touches(ops, max), key))| < max
  {
    var q, touches := RunOps(ops, max), Touches(ops, max);
    CacheIsRecency(ops, max);
    NamesWithout(q, key);
    HeldIffNamed(q, key);
    RecentIffFewSince(touches, key, max);
  }

  lemma HeldIffNamed(q: seq<Slot>, key: string)
    ensures Lookup(q, key).Some? <==> key in Names(q)
  {
    NamesWithout(q, key);
    LookupFinds(q, key);
    if key in Names(q) {
      var i :| 0 <= i < |Names(q)| && Names(q)[i] == key;
      assert q[i].key == key;
    }
  }

  lemma RecentIffFewSince(touches: seq<string>, key: string, max: nat)
    ensures key in LastOnes(Recency(touches), max) <==> key in touches && |KeySet(SinceLast(touches, key))| < max
  {
    RecencyDistinct(touches);
    if key in touches {
      FollowersAreSinceLast(touches, key);
      var front, after :| SplitsAt(touches, key, front, after);
      HeldByPosition(Recency(touches), front, after, key, max);
      assert KeySet(after) == KeySet(SinceLast(touches, key));
      DistinctCount(after);
    } else {
      assert key !in Recency(touches);
    }
  }

  lemma HeldByPosition(r: seq<string>, front: seq<string>, after: seq<string>, key: string, max: nat)
    requires DistinctNames(r) && r == front + [key] + after
    ensures DistinctNames(after)
    ensures key in LastOnes(r, max) <==> |after| < max
  {
    assert r == front + ([key] + after) && r[|front|] == key;
    DistinctParts(front + [key], after);
  }

  /** The guard `if (oldest)` matters: with the empty key in front, set lets the cache grow past its maximum. */
  lemma EmptyKeyIsNeverEvicted(q: seq<Slot>, key: string, entry: Entry, max: nat)
    requires DistinctKeys(q) && |q| == max > 0 && Lookup(q, key).None?
    ensures |SetSpec(q, key, entry, max)| > max <==> q[0].key == ""
  {
    WithoutMissing(q, key);
  }

  // ---- What a HIT serves ------------------------------------------------------------------------

  class CacheMiddleware {
    const cache: LRUCache

    constructor (cache: LRUCache)
      ensures this.cache == cache
    {
      this.cache := cache;
    }

    /** The cached response, if the request is a GET on a cacheable path and its entry has not expired. */
    method Serve(isGet: bool, ttl: Option<nat>, key: string, now: int) returns (hit: Option<string>)
      requires cache.Valid()
      modifies cache`slots
      ensures cache.Valid()
      ensures cache.Queue() == if isGet && ttl.Some? && ttl.value != 0 then GetSpec(old(cache.Queue()), key) else old(cache.Queue())
      ensures hit == if isGet && ttl.Some? && ttl.value != 0 then Hit(old(cache.Queue()), key, now) else None
      ensures forall i :: 0 <= i < |old(cache.Queue())| && old(cache.Queue())[i].key == key ==>
                hit == if isGet && ttl.Some? && ttl.value != 0 && now < old(cache.Queue())[i].entry.expiresAt
                       then Some(old(cache.Queue())[i].entry.data) else None
      ensures (forall i :: 0 <= i < |old(cache.Queue())| ==> old(cache.Queue())[i].key != key) ==> hit == None
    {
      ghost var q := cache.Queue();
      LookupFinds(q, key);
      forall i | 0 <= i < |q| && q[i].key == key ensures Lookup(q, key) == Some(q[i].entry) {
        HeldIsFound(q, i);
      }
      if !isGet {
        return None;
      }
      if ttl.None? || ttl.value == 0 {
        return None;
      }
      var entry := cache.Get(key);
      if entry.Some? && entry.value.expiresAt > now {
        return Some(entry.value.data);
      }
      hit := None;
    }

    /** The wrapped res.json of a MISS. */
    method Respond(key: string, status: int, data: string, ttl: nat, now: int)
      requires cache.Valid()
      modifies cache`slots
      ensures cache.Valid()
      ensures cache.Queue() == AnswerSpec(old(cache.Queue()), key, status, data, ttl, now, cache.max)
      ensures status != 200 ==> cache.Queue() == old(cache.Queue())
      ensures status == 200 ==>
                |cache.Queue()| > 0 && cache.Queue()[|cache.Queue()| - 1] == Slot(key, Entry(data, now + 1000 * ttl))
      ensures status == 200 && |old(cache.Queue())| < cache.max ==>
                forall i :: 0 <= i < |old(cache.Queue())| && old(cache.Queue())[i].key != key ==> old(cache.Queue())[i] in cache.Queue()
    {
      ghost var q := cache.Queue();
      if status == 200 {
        WithoutKeeps(q, key);
        forall i | 0 <= i < |q| && q[i].key != key ensures q[i] in Without(q, key) {
          WithoutHas(q, key, i);
        }
        cache.Set(key, Entry(data, now + ttl * 1000));
      }
    }
  }

  function Hit(q: seq<Slot>, key: string, now: int): Option<string> {
    match Lookup(q, key)
    case Some(entry) => if entry.expiresAt > now then Some(entry.data) else None
    case None => None
  }

  function AnswerSpec(q: seq<Slot>, key: string, status: int, data: string, ttl: nat, now: int, max: nat): seq<Slot> {
    if status == 200 then SetSpec(q, key, Entry(data, now + ttl * 1000), max) else q
  }

  /** What happens to the cache: lookups, responses, single cleanup turns, and invalidations. */
  datatype Exchange =
    | Ask(key: string)
    | Answer(key: string, status: int, data: string, ttl: nat, at: int)
    | Turn(at: int)
    | Invalidate(key: string)

  function RunAll(xs: seq<Exchange>, max: nat): seq<Slot> {
    if |xs| == 0 then []
    else
      var q := RunAll(xs[..|xs| - 1], max);
      match xs[|xs| - 1]
      case Ask(key) => GetSpec(q, key)
      case Answer(key, status, data, ttl, at) => AnswerSpec(q, key, status, data, ttl, at, max)
      case Turn(at) => Rotate(q, at)
      case Invalidate(key) => Without(q, key)
  }

  /** The last response for the key with status 200. */
  function LastStored(xs: seq<Exchange>, key: string): Option<Exchange> {
    if |xs| == 0 then None
    else
      var x := xs[|xs| - 1];
      if x.Answer? && x.key == key && x.status == 200 then Some(x) else LastStored(xs[..|xs| - 1], key)
  }

  ghost predicate IsLastStored(slot: Slot, xs: seq<Exchange>) {
    var s := LastStored(xs, slot.key);
    s.Some? && s.value.Answer? && slot.entry == Entry(s.value.data, s.value.at + s.value.ttl * 1000)
  }

  ghost predicate HoldsLastStored(q: seq<Slot>, xs: seq<Exchange>) {
    DistinctKeys(q) && forall i :: 0 <= i < |q| ==> IsLastStored(q[i], xs)
  }

  /** A queue all of whose slots come from q holds what q held. */
  lemma SubqueueHolds(q: seq<Slot>, q': seq<Slot>, xs: seq<Exchange>, x: Exchange)
    requires HoldsLastStored(q, xs) && DistinctKeys(q')
    requires forall i :: 0 <= i < |q'| ==> q'[i] in q
    requires !(x.Answer? && x.status == 200)
    ensures HoldsLastStored(q', xs + [x])
  {
    assert (xs + [x])[..|xs|] == xs;
  }

  lemma GetSpecIsSubqueue(q: seq<Slot>, key: string)
    requires DistinctKeys(q)
    ensures DistinctKeys(GetSpec(q, key)) && forall i :: 0 <= i < |GetSpec(q, key)| ==> GetSpec(q, key)[i] in q
  {
    WithoutKeeps(q, key);
    LookupFinds(q, key);
    SpecsKeepDistinct(q, key, Entry("", 0), 0);
  }

  lemma StoreHolds(q: seq<Slot>, xs: seq<Exchange>, x: Exchange, max: nat)
    requires HoldsLastStored(q, xs) && x.Answer? && x.status == 200
    ensures HoldsLastStored(AnswerSpec(q, x.key, x.status, x.data, x.ttl, x.at, max), xs + [x])
  {
    assert (xs + [x])[..|xs|] == xs;
    WithoutKeeps(q, x.key);
    SpecsKeepDistinct(q, x.key, Entry(x.data, x.at + x.ttl * 1000), max);
  }

  lemma {:induction false} RunHoldsLastStored(xs: seq<Exchange>, max: nat)
    ensures HoldsLastStored(RunAll(xs, max), xs)
  {
    if |xs| > 0 {
      var rest, x := xs[..|xs| - 1], xs[|xs| - 1];
      assert xs == rest + [x];
      var q := RunAll(rest, max);
      RunHoldsLastStored(rest, max);
      if x.Answer? && x.status == 200 {
        StoreHolds(q, rest, x, max);
      } else {
        var q' := RunAll(xs, max);
        match x {
          case Ask(key) =>
            GetSpecIsSubqueue(q, key);
            assert q' == GetSpec(q, key);
          case Answer(_, _, _, _, _) => assert q' == q;
          case Turn(at) => assert q' == Rotate(q, at);
          case Invalidate(key) =>
            WithoutKeeps(q, key);
            assert q' == Without(q, key);
        }
        SubqueueHolds(q, q', rest, x);
      }
    }
  }

  /** The i-th exchange is the last that stored a response for the key. */
  ghost predicate StoredLastBy(xs: seq<Exchange>, i: nat, key: string) {
    && i < |xs| && LastStored(xs, key) == Some(xs[i]) && xs[i].Answer? && xs[i].key == key && xs[i].status == 200
    && forall j :: i < j < |xs| && xs[j].Answer? && xs[j].key == key ==> xs[j].status != 200
  }

  lemma {:induction false} LastStoredAt(xs: seq<Exchange>, key: string)
    requires LastStored(xs, key).Some?
    ensures exists i: nat :: StoredLastBy(xs, i, key)
  {
    if StoredLastBy(xs, |xs| - 1, key) {
      assert StoredLastBy(xs, |xs| - 1, key);
    } else {
      LastStoredAt(xs[..|xs| - 1], key);
      var i: nat :| StoredLastBy(xs[..|xs| - 1], i, key);
      assert StoredLastBy(xs, i, key);
    }
  }

  /** Every HIT serves the data of the last 200 response stored for the same key, and that was less than its ttl ago. */
  lemma HitIsFresh(xs: seq<Exchange>, max: nat, key: string, now: int)
    requires Hit(RunAll(xs, max), key, now).Some?
    ensures exists i: nat ::
              StoredLastBy(xs, i, key) && Hit(RunAll(xs, max), key, now) == Some(xs[i].data) && now < xs[i].at + xs[i].ttl * 1000
  {
    RunHoldsLastStored(xs, max);
    LookupFinds(RunAll(xs, max), key);
    LastStoredAt(xs, key);
    var i: nat :| StoredLastBy(xs, i, key);
    assert Hit(RunAll(xs, max), key, now) == Some(xs[i].data) && now < xs[i].at + xs[i].ttl * 1000;
  }

  // ---- How long a response is served ----------------------------------------------------------------

  /** The keys for which a response has been stored. */
  ghost function StoredKeys(xs: seq<Exchange>): set<string> {
    if |xs| == 0 then {}
    else
      var x := xs[|xs| - 1];
      StoredKeys(xs[..|xs| - 1]) + if x.Answer? && x.status == 200 then {x.key} else {}
  }

  lemma {:induction false} StoredIsKnown(xs: seq<Exchange>, key: string)
    requires LastStored(xs, key).Some?
    ensures key in StoredKeys(xs)
  {
    if key !in StoredKeys(xs) {
      StoredIsKnown(xs[..|xs| - 1], key);
    }
  }

  lemma {:induction false} SlotsFit(q: seq<Slot>, keys: set<string>)
    requires DistinctKeys(q) && forall i :: 0 <= i < |q| ==> q[i].key in keys
    ensures |q| <= |keys|
  {
    if |q| > 0 {
      SlotsFit(q[..|q| - 1], keys - {q[|q| - 1].key});
    }
  }

  /** A store of one more key evicts nothing as long as no more than max keys have been stored at all. */
  lemma NothingEvicted(xs: seq<Exchange>, max: nat, key: string, entry: Entry)
    requires |StoredKeys(xs) + {key}| <= max
    ensures SetSpec(RunAll(xs, max), key, entry, max) == Without(RunAll(xs, max), key) + [Slot(key, entry)]
  {
    var q := RunAll(xs, max);
    var kept := Without(q, key);
    RunHoldsLastStored(xs, max);
    WithoutKeeps(q, key);
    forall i | 0 <= i < |kept| ensures kept[i].key in StoredKeys(xs) - {key} {
      var j :| 0 <= j < |q| && q[j] == kept[i];
      assert IsLastStored(q[j], xs);
      StoredIsKnown(xs, kept[i].key);
    }
    SlotsFit(kept, StoredKeys(xs) - {key});
    assert StoredKeys(xs) + {key} == (StoredKeys(xs) - {key}) + {key};
  }

  /** A cleanup turn before its expiry leaves a held entry where it is found. */
  lemma RotateKeeps(q: seq<Slot>, key: string, entry: Entry, now: int)
    requires DistinctKeys(q) && Lookup(q, key) == Some(entry) && now < entry.expiresAt
    ensures Lookup(Rotate(q, now), key) == Some(entry)
  {
    FrontIsOnly(q);
    WithoutKeeps(q, q[0].key);
    LookupAppend(q[1..], q[0], key);
  }

  /** The exchange neither replaces the key's response nor invalidates it, nor finds it expired. */
  predicate Harmless(x: Exchange, key: string, expiresAt: int) {
    && x != Invalidate(key)
    && !(x.Answer? && x.key == key && x.status == 200)
    && (x.Turn? ==> x.at < expiresAt)
  }

  /** The i-th exchange stored a response for the key that nothing has replaced, invalidated or dropped since. */
  ghost predicate Undisturbed(xs: seq<Exchange>, i: nat, key: string) {
    && i < |xs| && xs[i].Answer? && xs[i].key == key && xs[i].status == 200
    && forall j :: i < j < |xs| ==> Harmless(xs[j], key, xs[i].at + 1000 * xs[i].ttl)
  }

  /** What one exchange other than a new response for the key leaves of its entry. */
  lemma KeepsHeld(xs: seq<Exchange>, x: Exchange, max: nat, key: string, entry: Entry)
    requires Lookup(RunAll(xs, max), key) == Some(entry) && |StoredKeys(xs + [x])| <= max
    requires Harmless(x, key, entry.expiresAt)
    ensures Lookup(RunAll(xs + [x], max), key) == Some(entry)
  {
    var q := RunAll(xs, max);
    assert (xs + [x])[..|xs|] == xs;
    RunHoldsLastStored(xs, max);
    match x
    case Ask(k) =>
      WithoutKeeps(q, k);
      if Lookup(q, k).Some? {
        LookupAppend(Without(q, k), Slot(k, Lookup(q, k).value), key);
      }
    case Answer(k, status, data, ttl, at) =>
      if status == 200 {
        NothingEvicted(xs, max, k, Entry(data, at + ttl * 1000));
        WithoutKeeps(q, k);
        LookupAppend(Without(q, k), Slot(k, Entry(data, at + ttl * 1000)), key);
      }
    case Turn(at) => RotateKeeps(q, key, entry, at);
    case Invalidate(k) => WithoutKeeps(q, k);
  }

  lemma StoredIsHeld(xs: seq<Exchange>, x: Exchange, max: nat)
    requires x.Answer? && x.status == 200 && |StoredKeys(xs + [x])| <= max
    ensures Lookup(RunAll(xs + [x], max), x.key) == Some(Entry(x.data, x.at + 1000 * x.ttl))
  {
    var entry := Entry(x.data, x.at + x.ttl * 1000);
    assert (xs + [x])[..|xs|] == xs;
    NothingEvicted(xs, max, x.key, entry);
    LookupAppend(Without(RunAll(xs, max), x.key), Slot(x.key, entry), x.key);
  }

  lemma {:induction false} StaysHeld(xs: seq<Exchange>, ys: seq<Exchange>, max: nat, key: string, entry: Entry)
    requires Lookup(RunAll(xs, max), key) == Some(entry) && |StoredKeys(xs + ys)| <= max
    requires forall j :: 0 <= j < |ys| ==> Harmless(ys[j], key, entry.expiresAt)
    ensures Lookup(RunAll(xs + ys, max), key) == Some(entry)
    decreases |ys|
  {
    if |ys| == 0 {
      assert xs + ys == xs;
    } else {
      var rest, y := ys[..|ys| - 1], ys[|ys| - 1];
      FewerStored(xs + rest, y);
      assert xs + ys == (xs + rest) + [y];
      StaysHeld(xs, rest, max, key, entry);
      KeepsHeld(xs + rest, y, max, key, entry);
    }
  }

  lemma FewerStored(xs: seq<Exchange>, x: Exchange)
    ensures |StoredKeys(xs)| <= |StoredKeys(xs + [x])|
  {
    assert (xs + [x])[..|xs|] == xs;
    assert StoredKeys(xs + [x]) == StoredKeys(xs) + (StoredKeys(xs + [x]) - StoredKeys(xs));
  }

  /**
   As long as no more than max keys have been stored, a 200 response is a HIT for its key until exactly its ttl is over,
   whatever else happens, unless a later 200 replaces it or it is invalidated.
   */
  lemma HitUntilExpiry(xs: seq<Exchange>, max: nat, i: nat, key: string, now: int)
    requires Undisturbed(xs, i, key) && |StoredKeys(xs)| <= max
    ensures Hit(RunAll(xs, max), key, now) == if now < xs[i].at + 1000 * xs[i].ttl then Some(xs[i].data) else None
  {
    var stored, later := xs[..i + 1], xs[i + 1..];
    assert xs == stored + later && stored == xs[..i] + [xs[i]];
    StoredLess(stored, later);
    StoredIsHeld(xs[..i], xs[i], max);
    StaysHeld(stored, later, max, key, Entry(xs[i].data, xs[i].at + 1000 * xs[i].ttl));
  }

  lemma {:induction false} StoredLess(xs: seq<Exchange>, ys: seq<Exchange>)
    ensures |StoredKeys(xs)| <= |StoredKeys(xs + ys)|
    decreases |ys|
  {
    if |ys| == 0 {
      assert xs + ys == xs;
    } else {
      var rest, y := ys[..|ys| - 1], ys[|ys| - 1];
      StoredLess(xs, rest);
      FewerStored(xs + rest, y);
      assert xs + ys == (xs + rest) + [y];
    }
  }
}
