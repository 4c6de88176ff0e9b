/**
 The in-memory cover cache: a dictionary in order of use, bounded by a number of entries
 and by a number of bytes.
 */
module CoverMemoryLru {
  import opened Common

  type Bytes = seq<int>

  datatype Slot = Slot(key: string, content: Bytes, contentType: string, source: string)

  // ------------------------------------------------- sequences in order of use

  function Total(s: seq<Slot>): nat {
    if s == [] then 0 else |s[0].content| + Total(s[1..])
  }

  predicate Fits(s: seq<Slot>, maxEntries: nat, maxBytes: nat) {
    |s| <= maxEntries && Total(s) <= maxBytes
  }

  ghost predicate DistinctKeys(s: seq<Slot>) {
    forall i, j | 0 <= i < j < |s| :: s[i].key != s[j].key
  }

  predicate Holds(s: seq<Slot>, key: string) {
    exists i | 0 <= i < |s| :: s[i].key == key
  }

  function Find(s: seq<Slot>, key: string): Option<Slot> {
    if s == [] then None
    else if s[0].key == key then Some(s[0])
    else Find(s[1..], key)
  }

  /** `pop(key, None)`. */
  function Without(s: seq<Slot>, key: string): seq<Slot> {
    if s == [] then []
    else if s[0].key == key then s[1..]
    else [s[0]] + Without(s[1..], key)
  }

  /** `move_to_end(key)`, when there is one. */
  function Touched(s: seq<Slot>, key: string): seq<Slot> {
    match Find(s, key)
    case None => s
    case Some(slot) => Without(s, key) + [slot]
  }

  /** Dropping the oldest entries while a bound is exceeded. */
  function Trim(s: seq<Slot>, maxEntries: nat, maxBytes: nat): seq<Slot> {
    if s == [] || Fits(s, maxEntries, maxBytes) then s else Trim(s[1..], maxEntries, maxBytes)
  }

  lemma {:induction false} TotalConcat(a: seq<Slot>, b: seq<Slot>)
    ensures Total(a + b) == Total(a) + Total(b)
  {
    if a == [] {
      assert a + b == b;
    } else {
      assert (a + b)[1..] == a[1..] + b;
      TotalConcat(a[1..], b);
    }
  }

  lemma {:induction false} FindIsThere(s: seq<Slot>, key: string)
    ensures Find(s, key).Some? <==> Holds(s, key)
    ensures Find(s, key).Some? ==> Find(s, key).value in s && Find(s, key).value.key == key
  {
    if s != [] && s[0].key != key {
      FindIsThere(s[1..], key);
      if Holds(s[1..], key) {
        var i :| 0 <= i < |s[1..]| && s[1..][i].key == key;
        assert s[i + 1].key == key;
      }
      assert forall i | 1 <= i < |s| :: s[i] == s[1..][i - 1];
    }
  }

  lemma {:induction false} WithoutTotals(s: seq<Slot>, key: string)
    ensures var r, found := Without(s, key), Find(s, key);
            && Total(r) == Total(s) - (if found.Some? then |found.value.content| else 0)
            && |r| == |s| - (if found.Some? then 1 else 0)
            && (found.None? ==> r == s)
  {
    if s != [] && s[0].key != key {
      WithoutTotals(s[1..], key);
      assert ([s[0]] + Without(s[1..], key))[1..] == Without(s[1..], key);
    }
  }

  lemma DistinctTail(s: seq<Slot>)
    requires s != [] && DistinctKeys(s)
    ensures DistinctKeys(s[1..]) && forall x | x in s[1..] :: x in s && x.key != s[0].key
  {
    assert forall i | 0 <= i < |s[1..]| :: s[1..][i] == s[i + 1];
  }

  lemma {:induction false} WithoutMembers(s: seq<Slot>, key: string)
    requires DistinctKeys(s)
    ensures DistinctKeys(Without(s, key))
    ensures forall x | x in Without(s, key) :: x in s && x.key != key
  {
    if s != [] {
      DistinctTail(s);
      if s[0].key != key {
        WithoutMembers(s[1..], key);
        var r := Without(s[1..], key);
        assert forall i | 0 <= i < |r| :: r[i] in r;
      }
    }
  }

  lemma WithoutKey(s: seq<Slot>, key: string)
    requires DistinctKeys(s)
    ensures var r, found := Without(s, key), Find(s, key);
            && DistinctKeys(r) && !Holds(r, key) && (forall x | x in r :: x in s)
            && (found.None? ==> r == s)
            && Total(r) == Total(s) - (if found.Some? then |found.value.content| else 0)
            && |r| == |s| - (if found.Some? then 1 else 0)
  {
    hide Total, Find, Without, DistinctKeys;
    WithoutTotals(s, key);
    WithoutMembers(s, key);
    var r := Without(s, key);
    assert forall i | 0 <= i < |r| :: r[i] in r;
  }

  /** THE LONGEST FITTING SUFFIX: exactly the suffixes not longer than what trimming keeps
      are within both bounds. */
  lemma {:induction false} TrimIsLongest(s: seq<Slot>, maxEntries: nat, maxBytes: nat)
    ensures var k := |s| - |Trim(s, maxEntries, maxBytes)|;
            && 0 <= k && Trim(s, maxEntries, maxBytes) == s[k..]
            && forall j | 0 <= j <= |s| :: Fits(s[j..], maxEntries, maxBytes) <==> k <= j
  {
    if s == [] {
    } else if Fits(s, maxEntries, maxBytes) {
      forall j | 0 <= j <= |s|
        ensures Fits(s[j..], maxEntries, maxBytes)
      {
        assert s == s[..j] + s[j..];
        TotalConcat(s[..j], s[j..]);
      }
    } else {
      TrimIsLongest(s[1..], maxEntries, maxBytes);
      assert s[0..] == s;
      forall j | 1 <= j <= |s|
        ensures s[j..] == s[1..][j - 1..]
      {
      }
    }
  }

  /** An entry larger than the byte bound leaves nothing, any other is kept. */
  lemma NewestIsKeptIffItFits(s: seq<Slot>, slot: Slot, maxEntries: nat, maxBytes: nat)
    requires maxEntries >= 1
    ensures var r := Trim(s + [slot], maxEntries, maxBytes);
            if |slot.content| > maxBytes then r == [] else r != [] && r[|r| - 1] == slot
  {
    var t := s + [slot];
    TrimIsLongest(t, maxEntries, maxBytes);
    assert t[|s|..] == [slot];
    assert Total([slot]) == |slot.content| by {
      assert [slot][1..] == [];
    }
    assert Fits(t[|s|..], maxEntries, maxBytes) <==> |slot.content| <= maxBytes;
  }

  // ---------------------------------------------------------------- the cache

  class Cache {
    const maxEntries: nat
    const maxBytes: nat
    var entries: seq<Slot>
    var totalBytes: int

    ghost predicate Valid()
      reads this
    {
      && maxEntries >= 1 && maxBytes >= 1
      && DistinctKeys(entries)
      && totalBytes == Total(entries)
      && Fits(entries, maxEntries, maxBytes)
    }

    constructor (maxEntries: int, maxBytes: int)
      ensures Valid() && entries == []
      ensures this.maxEntries == (if maxEntries > 1 then maxEntries else 1)
      ensures this.maxBytes == (if maxBytes > 1 then maxBytes else 1)
    {
      this.maxEntries := if maxEntries > 1 then maxEntries else 1;
      this.maxBytes := if maxBytes > 1 then maxBytes else 1;
      entries := [];
      totalBytes := 0;
    }

    method Get(key: string) returns (slot: Option<Slot>)
      requires Valid()
      modifies this
      ensures Valid() && slot == Find(old(entries), key) && entries == Touched(old(entries), key)
      ensures totalBytes == old(totalBytes)
    {
      slot := Find(entries, key);
      if slot.None? {
        return;
      }
      WithoutKey(entries, key);
      FindIsThere(entries, key);
      TotalConcat(Without(entries, key), [slot.value]);
      SlotTotal(slot.value);
      entries := Without(entries, key) + [slot.value];
    }

    method Set(key: string, content: Bytes, contentType: string, source: string)
      requires Valid()
      modifies this
      ensures Valid()
      ensures content == [] ==> entries == old(entries)
      ensures content != [] ==>
                entries
                == Trim(Without(old(entries), key) + [Slot(key, content, contentType, source)], maxEntries, maxBytes)
    {
      if |content| <= 0 {
        return;
      }
      var existing := Find(entries, key);
      WithoutKey(entries, key);
      entries := Without(entries, key);
      if existing.Some? {
        totalBytes := totalBytes - |existing.value.content|;
      }
      var slot := Slot(key, content, contentType, source);
      TotalConcat(entries, [slot]);
      SlotTotal(slot);
      entries := entries + [slot];
      totalBytes := totalBytes + |content|;
      ghost var all := entries;
      while entries != [] && (|entries| > maxEntries || totalBytes > maxBytes)
        invariant DistinctKeys(entries) && totalBytes == Total(entries)
        invariant Trim(all, maxEntries, maxBytes) == Trim(entries, maxEntries, maxBytes)
        decreases |entries|
      {
        totalBytes := totalBytes - |entries[0].content|;
        entries := entries[1..];
      }
    }

    /** One cover served through the cache: what is not there is loaded and stored. */
    method ReadThrough(slot: Slot) returns (served: Slot)
      requires Valid()
      modifies this
      ensures Valid() && entries == Fetch(old(entries), slot, maxEntries, maxBytes)
      ensures served == if Find(old(entries), slot.key).Some? then Find(old(entries), slot.key).value else slot
    {
      hide Touched, Trim, Without, Find;
      var hit := Get(slot.key);
      if hit.Some? {
        return hit.value;
      }
      TouchedNothing(old(entries), slot.key);
      Set(slot.key, slot.content, slot.contentType, slot.source);
      return slot;
    }

    method Evict(key: string)
      requires Valid()
      modifies this
      ensures Valid() && entries == Without(old(entries), key)
    {
      var entry := Find(entries, key);
      WithoutKey(entries, key);
      entries := Without(entries, key);
      if entry.Some? {
        totalBytes := totalBytes - |entry.value.content|;
      }
    }
  }

  lemma {:induction false} WithoutBetween(a: seq<Slot>, slot: Slot, b: seq<Slot>)
    requires !Holds(a, slot.key)
    ensures Find(a + [slot] + b, slot.key) == Some(slot) && Without(a + [slot] + b, slot.key) == a + b
  {
    var s := a + [slot] + b;
    if a == [] {
      assert s[0] == slot && s[1..] == b && a + b == b;
    } else {
      assert a[0].key != slot.key;
      assert !Holds(a[1..], slot.key) by {
        assert forall i | 0 <= i < |a[1..]| :: a[1..][i] == a[i + 1];
      }
      assert s[1..] == a[1..] + [slot] + b;
      WithoutBetween(a[1..], slot, b);
      assert [a[0]] + (a[1..] + b) == a + b;
    }
  }

  /** USING AN ENTRY MOVES IT TO THE END, behind all others in their order; storing under its
      key does the same with the new content; taking it out leaves the others. */
  lemma UseMovesToEnd(a: seq<Slot>, slot: Slot, b: seq<Slot>, newer: Slot, maxEntries: nat, maxBytes: nat)
    requires !Holds(a, slot.key) && newer.key == slot.key
    ensures Touched(a + [slot] + b, slot.key) == a + b + [slot]
    ensures Without(a + [slot] + b, slot.key) + [newer] == a + b + [newer]
    ensures Fetch(a + [slot] + b, newer, maxEntries, maxBytes) == a + b + [slot]
  {
    WithoutBetween(a, slot, b);
  }

  lemma SlotTotal(slot: Slot)
    ensures Total([slot]) == |slot.content|
  {
    assert [slot][1..] == [];
  }

  lemma TouchedNothing(s: seq<Slot>, key: string)
    requires Find(s, key).None?
    ensures Touched(s, key) == s
  {
  }

  // ------------------------------------------------------- a larger cache has more

  /** Reading through the cache: a miss loads the slot and stores it, unless it is empty. */
  function Fetch(s: seq<Slot>, slot: Slot, maxEntries: nat, maxBytes: nat): seq<Slot> {
    if Find(s, slot.key).Some? then Touched(s, slot.key)
    else if slot.content == [] then s
    else Trim(Without(s, slot.key) + [slot], maxEntries, maxBytes)
  }

  function FetchAll(slots: seq<Slot>, maxEntries: nat, maxBytes: nat): seq<Slot> {
    if slots == [] then []
    else Fetch(FetchAll(slots[..|slots| - 1], maxEntries, maxBytes), slots[|slots| - 1], maxEntries, maxBytes)
  }

  ghost predicate Suffix(a: seq<Slot>, b: seq<Slot>) {
    |a| <= |b| && b[|b| - |a|..] == a
  }

  /** Loading a key always yields the same slot. */
  ghost predicate Stable(slots: seq<Slot>) {
    forall i, j | 0 <= i < |slots| && 0 <= j < |slots| && slots[i].key == slots[j].key :: slots[i] == slots[j]
  }

  lemma HoldsTail(a: seq<Slot>, key: string)
    requires a != [] && a[0].key != key
    ensures Holds(a, key) <==> Holds(a[1..], key)
  {
    if Holds(a[1..], key) {
      var i :| 0 <= i < |a[1..]| && a[1..][i].key == key;
      assert a[i + 1].key == key;
    }
    assert forall i | 1 <= i < |a| :: a[i] == a[1..][i - 1];
  }

  lemma {:induction false} WithoutConcat(a: seq<Slot>, b: seq<Slot>, key: string)
    ensures Without(a + b, key) == if Holds(a, key) then Without(a, key) + b else a + Without(b, key)
  {
    if a == [] {
      assert a + b == b;
      assert [] + Without(b, key) == Without(b, key);
    } else {
      assert (a + b)[1..] == a[1..] + b;
      if a[0].key != key {
        hide Holds;
        HoldsTail(a, key);
        WithoutConcat(a[1..], b, key);
        WithoutFirst(a, b, key);
      }
    }
  }

  /** Keeping the first slot of a concatenation. */
  lemma WithoutFirst(a: seq<Slot>, b: seq<Slot>, key: string)
    requires a != [] && a[0].key != key
    ensures [a[0]] + (Without(a[1..], key) + b) == Without(a, key) + b
    ensures [a[0]] + (a[1..] + Without(b, key)) == a + Without(b, key)
  {
    assert a == [a[0]] + a[1..];
  }

  lemma HoldsConcat(a: seq<Slot>, b: seq<Slot>, key: string)
    ensures Holds(a + b, key) <==> Holds(a, key) || Holds(b, key)
  {
    assert forall i | 0 <= i < |a| :: (a + b)[i] == a[i];
    assert forall i | 0 <= i < |b| :: (a + b)[|a| + i] == b[i];
  }

  lemma FetchHit(s: seq<Slot>, slot: Slot, maxEntries: nat, maxBytes: nat)
    requires DistinctKeys(s) && Holds(s, slot.key) && forall x | x in s && x.key == slot.key :: x == slot
    ensures Fetch(s, slot, maxEntries, maxBytes) == Without(s, slot.key) + [slot]
    ensures DistinctKeys(Without(s, slot.key) + [slot])
    ensures Fits(s, maxEntries, maxBytes) ==> Fits(Without(s, slot.key) + [slot], maxEntries, maxBytes)
  {
    FindIsThere(s, slot.key);
    WithoutKey(s, slot.key);
    TotalConcat(Without(s, slot.key), [slot]);
    SlotTotal(slot);
  }

  lemma DistinctAppended(s: seq<Slot>, slot: Slot)
    requires DistinctKeys(s) && !Holds(s, slot.key)
    ensures DistinctKeys(s + [slot])
  {
  }

  lemma DistinctSuffix(s: seq<Slot>, k: nat)
    requires DistinctKeys(s) && k <= |s|
    ensures DistinctKeys(s[k..])
  {
    assert forall i | 0 <= i < |s[k..]| :: s[k..][i] == s[k + i];
  }

  lemma FetchMiss(s: seq<Slot>, slot: Slot, maxEntries: nat, maxBytes: nat)
    requires DistinctKeys(s) && !Holds(s, slot.key) && slot.content != []
    ensures Fetch(s, slot, maxEntries, maxBytes) == Trim(s + [slot], maxEntries, maxBytes)
    ensures DistinctKeys(s + [slot]) && DistinctKeys(Trim(s + [slot], maxEntries, maxBytes))
    ensures Fits(Trim(s + [slot], maxEntries, maxBytes), maxEntries, maxBytes)
  {
    hide DistinctKeys, Holds, Find, Without, Trim, Fits, Total;
    FindIsThere(s, slot.key);
    WithoutKey(s, slot.key);
    var t := s + [slot];
    DistinctAppended(s, slot);
    TrimIsLongest(t, maxEntries, maxBytes);
    DistinctSuffix(t, |t| - |Trim(t, maxEntries, maxBytes)|);
  }

  lemma FetchNothing(s: seq<Slot>, slot: Slot, maxEntries: nat, maxBytes: nat)
    requires slot.content == [] && !Holds(s, slot.key)
    ensures Fetch(s, slot, maxEntries, maxBytes) == s
  {
    hide Find, Holds;
    FindIsThere(s, slot.key);
  }

  /** No cache holds an empty slot. */
  predicate NoneEmpty(s: seq<Slot>) {
    forall x | x in s :: x.content != []
  }

  lemma EmptyIsNotHeld(s: seq<Slot>, slot: Slot)
    requires NoneEmpty(s) && slot.content == [] && forall x | x in s && x.key == slot.key :: x == slot
    ensures !Holds(s, slot.key)
  {
    assert forall i | 0 <= i < |s| :: s[i] in s;
  }

  lemma SuffixOfTrim(a: seq<Slot>, b: seq<Slot>, few: nat, small: nat, many: nat, large: nat)
    requires Suffix(a, b) && few <= many && small <= large
    ensures Suffix(Trim(a, few, small), Trim(b, many, large))
  {
    TrimIsLongest(a, few, small);
    TrimIsLongest(b, many, large);
    var t := Trim(a, few, small);
    var k, d := |a| - |t|, |b| - |a|;
    assert t == a[k..] == b[d + k..];
    assert Fits(a[k..], few, small);
    assert Fits(b[d + k..], many, large);
  }

  /** A hit in both caches. */
  lemma HitKeepsSuffix(front: seq<Slot>, a: seq<Slot>, slot: Slot, few: nat, small: nat, many: nat, large: nat)
    requires DistinctKeys(front + a) && DistinctKeys(a) && Holds(a, slot.key)
    requires forall x | x in front + a && x.key == slot.key :: x == slot
    ensures Suffix(Fetch(a, slot, few, small), Fetch(front + a, slot, many, large))
  {
    hide Fetch, Trim, Without;
    var b := front + a;
    HoldsConcat(front, a, slot.key);
    WithoutConcat(front, a, slot.key);
    assert !Holds(front, slot.key) by {
      var j :| 0 <= j < |a| && a[j].key == slot.key;
      assert b[|front| + j].key == slot.key;
      assert forall i | 0 <= i < |front| :: front[i] == b[i];
    }
    FetchHit(a, slot, few, small);
    FetchHit(b, slot, many, large);
    assert Without(b, slot.key) + [slot] == front + (Without(a, slot.key) + [slot]);
  }

  /** A miss in the smaller cache. */
  lemma MissKeepsSuffix(front: seq<Slot>, a: seq<Slot>, slot: Slot, few: nat, small: nat, many: nat, large: nat)
    requires DistinctKeys(front + a) && DistinctKeys(a) && !Holds(a, slot.key) && few <= many && small <= large
    requires slot.content != [] && forall x | x in front + a && x.key == slot.key :: x == slot
    ensures Suffix(Fetch(a, slot, few, small), Fetch(front + a, slot, many, large))
  {
    hide Fetch, Trim, Without, Fits;
    var b := front + a;
    HoldsConcat(front, a, slot.key);
    WithoutConcat(front, a, slot.key);
    FetchMiss(a, slot, few, small);
    TrimIsLongest(a + [slot], few, small);
    if Holds(front, slot.key) {
      FetchHit(b, slot, many, large);
      assert Without(b, slot.key) + [slot] == Without(front, slot.key) + (a + [slot]);
    } else {
      FetchMiss(b, slot, many, large);
      assert b + [slot] == front + (a + [slot]);
      SuffixOfTrim(a + [slot], b + [slot], few, small, many, large);
    }
  }

  /** One fetch keeps the smaller cache a suffix of the larger one. */
  lemma FetchKeepsSuffix(a: seq<Slot>, b: seq<Slot>, slot: Slot, few: nat, small: nat, many: nat, large: nat)
    requires Suffix(a, b) && DistinctKeys(b) && NoneEmpty(b) && few <= many && small <= large
    requires forall x | x in b && x.key == slot.key :: x == slot
    ensures Suffix(Fetch(a, slot, few, small), Fetch(b, slot, many, large))
  {
    hide Fetch, Holds;
    var front := b[..|b| - |a|];
    assert b == front + a;
    assert DistinctKeys(a) by {
      assert forall i | 0 <= i < |a| :: a[i] == b[|front| + i];
    }
    if slot.content == [] {
      EmptyIsNotHeld(b, slot);
      HoldsConcat(front, a, slot.key);
      FetchNothing(a, slot, few, small);
      FetchNothing(b, slot, many, large);
    } else if Holds(a, slot.key) {
      HitKeepsSuffix(front, a, slot, few, small, many, large);
    } else {
      MissKeepsSuffix(front, a, slot, few, small, many, large);
    }
  }

  lemma FetchComesFrom(s: seq<Slot>, slot: Slot, maxEntries: nat, maxBytes: nat)
    requires DistinctKeys(s) && NoneEmpty(s) && Fits(s, maxEntries, maxBytes)
    requires forall x | x in s && x.key == slot.key :: x == slot
    ensures var r := Fetch(s, slot, maxEntries, maxBytes);
            && DistinctKeys(r) && (forall x | x in r :: x in s || x == slot)
            && NoneEmpty(r) && Fits(r, maxEntries, maxBytes)
  {
    hide Fetch, Trim, Without, Fits, Holds, DistinctKeys;
    if slot.content == [] {
      EmptyIsNotHeld(s, slot);
      FetchNothing(s, slot, maxEntries, maxBytes);
    } else if Holds(s, slot.key) {
      WithoutKey(s, slot.key);
      FetchHit(s, slot, maxEntries, maxBytes);
    } else {
      FetchMiss(s, slot, maxEntries, maxBytes);
      TrimIsLongest(s + [slot], maxEntries, maxBytes);
    }
  }

  lemma NothingFits(maxEntries: nat, maxBytes: nat)
    ensures Fits([], maxEntries, maxBytes) && DistinctKeys([])
  {
  }

  lemma {:induction false} FetchedComeFrom(slots: seq<Slot>, maxEntries: nat, maxBytes: nat)
    requires Stable(slots)
    ensures var s := FetchAll(slots, maxEntries, maxBytes);
            DistinctKeys(s) && (forall x | x in s :: x in slots) && NoneEmpty(s) && Fits(s, maxEntries, maxBytes)
  {
    hide Fetch, Fits, DistinctKeys;
    NothingFits(maxEntries, maxBytes);
    if slots != [] {
      var front, slot := slots[..|slots| - 1], slots[|slots| - 1];
      FetchedComeFrom(front, maxEntries, maxBytes);
      FetchComesFrom(FetchAll(front, maxEntries, maxBytes), slot, maxEntries, maxBytes);
    }
  }

  /** A LARGER CACHE MISSES LESS: after the same fetches, what a cache holds is a suffix of
      what a cache with larger bounds holds. */
  lemma {:induction false} LargerHoldsMore(slots: seq<Slot>, few: nat, small: nat, many: nat, large: nat)
    requires Stable(slots) && few <= many && small <= large
    ensures Suffix(FetchAll(slots, few, small), FetchAll(slots, many, large))
  {
    hide Fetch, Fits, DistinctKeys;
    if slots != [] {
      var front, slot := slots[..|slots| - 1], slots[|slots| - 1];
      LargerHoldsMore(front, few, small, many, large);
      FetchedComeFrom(front, many, large);
      FetchKeepsSuffix(FetchAll(front, few, small), FetchAll(front, many, large), slot, few, small, many, large);
    }
  }
}
