/**
 The resumable sweep over enrichment candidates: one cycle inspects a page behind the
 saved cursor, fetches what is not cached, and saves how far it got. A cycle can be cut
 short by a library scan, by switching the feature off, or by the end of the process.

 Candidates are numbers here, in the order in which the pages list them.
 */
module SweepCursor {
  import opened Common

  const MAX_ITEMS := 5_000

  type Key = nat

  /** `None` is the start of the list. */
  type Cursor = Option<Key>

  /** The cursor was saved when so many candidates had been attempted. */
  datatype Save = Save(cursor: Cursor, attempts: nat)

  predicate Ascending(keys: seq<Key>) {
    forall i, j | 0 <= i < j < |keys| :: keys[i] < keys[j]
  }

  predicate Behind(cursor: Cursor, key: Key) {
    cursor.None? || cursor.value < key
  }

  function Uncached(keys: seq<Key>, cached: Key -> bool): seq<Key> {
    if keys == [] then []
    else Uncached(keys[..|keys| - 1], cached) + if cached(keys[|keys| - 1]) then [] else [keys[|keys| - 1]]
  }

  // -------------------------------------------------------------- one cycle

  const PERSIST_INTERVAL := 50

  /** Everything up to a saved position was found cached, or was attempted before. */
  predicate NothingSkipped(page: seq<Key>, cached: Key -> bool, attempted: seq<Key>, s: Save) {
    && s.attempts <= |attempted|
    && (s.cursor.Some? ==> forall i | 0 <= i < |page| && page[i] <= s.cursor.value ::
          cached(page[i]) || page[i] in attempted[..s.attempts])
  }

  predicate AllDone(page: seq<Key>, cached: Key -> bool, attempted: seq<Key>) {
    forall i | 0 <= i < |page| :: cached(page[i]) || page[i] in attempted
  }

  /** What a save may say: nothing is skipped, the cursor never goes back, and it returns
      to the start only from the start or with the last page done. */
  predicate SaveAllowed(page: seq<Key>, cursor: Cursor, cached: Key -> bool, attempted: seq<Key>, s: Save) {
    && NothingSkipped(page, cached, attempted, s)
    && (s.cursor.Some? ==> s.cursor == cursor || s.cursor.value in page)
    && (s.cursor.None? ==> cursor.None? || (|page| < MAX_ITEMS && AllDone(page, cached, attempted[..s.attempts])))
  }

  /** What a cycle may do with a page: it attempts uncached candidates in order, and a
      sweep is complete only with the whole last page done. */
  predicate CycleAllowed(
    page: seq<Key>, cursor: Cursor, cached: Key -> bool, attempted: seq<Key>, saves: seq<Save>, completed: bool)
  {
    && attempted <= Uncached(page, cached)
    && (forall i | 0 <= i < |saves| :: SaveAllowed(page, cursor, cached, attempted, saves[i]))
    && (completed ==> |page| < MAX_ITEMS && AllDone(page, cached, attempted)
                      && saves != [] && saves[|saves| - 1].cursor.None?)
  }

  lemma {:induction false} UncachedAre(keys: seq<Key>, cached: Key -> bool)
    ensures forall k :: k in Uncached(keys, cached) <==> k in keys && !cached(k)
    ensures |Uncached(keys, cached)| <= |keys|
  {
    if keys != [] {
      UncachedAre(keys[..|keys| - 1], cached);
      assert keys == keys[..|keys| - 1] + [keys[|keys| - 1]];
    }
  }

  lemma {:induction false} UncachedPrefix(keys: seq<Key>, cached: Key -> bool, n: nat)
    requires n <= |keys|
    ensures Uncached(keys[..n], cached) <= Uncached(keys, cached)
  {
    if n == |keys| {
      assert keys[..n] == keys;
    } else {
      UncachedPrefix(keys[..|keys| - 1], cached, n);
      assert keys[..|keys| - 1][..n] == keys[..n];
    }
  }

  lemma {:induction false} UncachedAscend(keys: seq<Key>, cached: Key -> bool)
    requires Ascending(keys)
    ensures Ascending(Uncached(keys, cached))
  {
    if keys != [] {
      var front := keys[..|keys| - 1];
      var u := Uncached(front, cached);
      UncachedAscend(front, cached);
      UncachedAre(front, cached);
      forall i | 0 <= i < |u|
        ensures u[i] < keys[|keys| - 1]
      {
        assert u[i] in front;
      }
    }
  }

  /** Up to an attempted candidate nothing is left that was not attempted before it. */
  lemma AttemptedCover(page: seq<Key>, cached: Key -> bool, inspected: nat, attempts: nat)
    requires Ascending(page) && inspected <= |page|
    requires 0 < attempts <= |Uncached(page[..inspected], cached)|
    ensures var items := Uncached(page[..inspected], cached);
            && items[attempts - 1] in page
            && forall i | 0 <= i < |page| && page[i] <= items[attempts - 1] ::
                 cached(page[i]) || page[i] in items[..attempts]
  {
    var front := page[..inspected];
    var items := Uncached(front, cached);
    UncachedAre(front, cached);
    assert Ascending(front);
    UncachedAscend(front, cached);
    hide Uncached;
    var last := items[attempts - 1];
    assert last in items;
    var j :| 0 <= j < |front| && front[j] == last;
    assert page[j] == last;
    forall i | 0 <= i < |page| && page[i] <= last && !cached(page[i])
      ensures page[i] in items[..attempts]
    {
      assert i <= j;
      assert front[i] == page[i];
      assert page[i] in items;
      var l :| 0 <= l < |items| && items[l] == page[i];
      assert l <= attempts - 1;
      assert items[..attempts][l] == page[i];
    }
  }

  lemma SaveOfAttempted(page: seq<Key>, cursor: Cursor, cached: Key -> bool, inspected: nat, attempts: nat)
    requires Ascending(page) && inspected <= |page| && forall i | 0 <= i < |page| :: Behind(cursor, page[i])
    requires attempts <= |Uncached(page[..inspected], cached)|
    ensures var items := Uncached(page[..inspected], cached);
            var position := if attempts == 0 then cursor else Some(items[attempts - 1]);
            SaveAllowed(page, cursor, cached, items[..attempts], Save(position, attempts))
  {
    hide Uncached;
    if attempts > 0 {
      AttemptedCover(page, cached, inspected, attempts);
    }
  }

  lemma MoreAttemptsAllow(page: seq<Key>, cursor: Cursor, cached: Key -> bool, a: seq<Key>, b: seq<Key>, s: Save)
    requires a <= b && SaveAllowed(page, cursor, cached, a, s)
    ensures SaveAllowed(page, cursor, cached, b, s)
  {
    assert b[..s.attempts] == a[..s.attempts];
  }

  lemma AllOfPageDone(page: seq<Key>, cached: Key -> bool)
    ensures AllDone(page, cached, Uncached(page, cached))
  {
    UncachedAre(page, cached);
    hide Uncached;
    assert forall i | 0 <= i < |page| :: page[i] in page;
  }

  /** The first of `n` steps at which something shows, or `n`. */
  function FirstHit(shows: nat -> bool, n: nat): (k: nat)
    ensures k <= n && (forall i: nat | i < k :: !shows(i)) && (k < n ==> shows(k))
  {
    if n == 0 then 0
    else
      var k := FirstHit(shows, n - 1);
      if k < n - 1 || shows(n - 1) then k else n
  }

  /** Where a cycle ends up that inspected `inspected` candidates and attempted `attempts` of
      `items`: at the last one attempted, or at the last one inspected if all of them were, or
      at the start again behind the last page. */
  function FinalCursor(page: seq<Key>, cursor: Cursor, inspected: nat, items: seq<Key>, attempts: nat): Cursor
    requires inspected <= |page| && attempts <= |items|
  {
    if attempts == |items| && inspected == |page| && |page| < 5_000 then None
    else if items == [] || (attempts == |items| && inspected == |page|) then
      if inspected == 0 then cursor else Some(page[inspected - 1])
    else if attempts == 0 then cursor
    else Some(items[attempts - 1])
  }

  /** THE CYCLE NEVER SKIPS. `scanActive` and `stopped` say at which steps the loops find
      themselves interrupted. */
  method RunSweepCycle(page: seq<Key>, cursor: Cursor, enabled: bool,
                       cached: Key -> bool, scanActive: nat -> bool, stopped: nat -> bool)
    returns (attempted: seq<Key>, saves: seq<Save>, completed: bool)
    requires Ascending(page) && |page| <= MAX_ITEMS && forall i | 0 <= i < |page| :: Behind(cursor, page[i])
    ensures CycleAllowed(page, cursor, cached, attempted, saves, completed)
    ensures !enabled ==> attempted == [] && saves == [] && !completed
    ensures enabled ==>
              var inspected := FirstHit(scanActive, |page|);
              var items := Uncached(page[..inspected], cached);
              var attempts := FirstHit(stopped, |items|);
              && attempted == items[..attempts]
              && (completed <==> attempts == |items| && inspected == |page| < 5_000)
              && saves != [] && |saves| == attempts / 50 + 1
              && saves[|saves| - 1] == Save(FinalCursor(page, cursor, inspected, items, attempts), attempts)
    ensures forall k: nat | 0 < k && 50 * k <= |attempted| ::
              k - 1 < |saves| && saves[k - 1] == Save(Some(attempted[50 * k - 1]), 50 * k)
    ensures enabled && (forall i :: !scanActive(i) && !stopped(i)) ==>
              && attempted == Uncached(page, cached) && completed == (|page| < MAX_ITEMS)
              && saves != [] && saves[|saves| - 1].cursor == (if completed then None else Some(page[|page| - 1]))
  {
    hide Uncached, SaveAllowed, AllDone, Ascending, Behind, FirstHit;
    attempted, saves, completed := [], [], false;
    if !enabled {
      return;
    }
    EmptyPage(page, cursor, cached);
    if page == [] {
      return [], [Save(None, 0)], true;
    }
    var items, inspected, inspectionComplete := Inspect(page, cursor, cached, scanActive);
    AllOfPageDone(page, cached);
    UncachedPrefix(page, cached, inspected);
    assert page[..|page|] == page;
    var inspectedCursor := if inspected == 0 then cursor else Some(page[inspected - 1]);
    SaveOfInspected(page, cursor, cached, inspected, inspectionComplete);
    if items == [] {
      completed := inspectionComplete && |page| < MAX_ITEMS;
      saves := [Save(if completed then None else inspectedCursor, 0)];
      return;
    }
    var processed, processedCursor;
    attempted, saves, processed, processedCursor := Process(page, cursor, cached, inspected, items, stopped);
    LastAttempted(page, cached, inspected, processed);
    if processed >= |items| && inspectionComplete {
      assert attempted == items;
      completed := |page| < MAX_ITEMS;
      saves := saves + [Save(if completed then None else inspectedCursor, processed)];
    } else {
      SaveOfAttempted(page, cursor, cached, inspected, processed);
      saves := saves + [Save(processedCursor, processed)];
    }
  }

  /** What was attempted last was inspected. */
  lemma LastAttempted(page: seq<Key>, cached: Key -> bool, inspected: nat, processed: nat)
    requires Ascending(page) && inspected <= |page| && 0 <= processed <= |Uncached(page[..inspected], cached)|
    ensures processed > 0 ==>
              inspected > 0 && Uncached(page[..inspected], cached)[processed - 1] <= page[inspected - 1]
  {
    if processed > 0 {
      var front := page[..inspected];
      UncachedAre(front, cached);
      var last := Uncached(front, cached)[processed - 1];
      assert last in Uncached(front, cached);
      var j :| 0 <= j < |front| && front[j] == last;
      assert page[j] == last;
    }
  }

  lemma EmptyPage(page: seq<Key>, cursor: Cursor, cached: Key -> bool)
    ensures page == [] ==> SaveAllowed(page, cursor, cached, [], Save(None, 0)) && AllDone(page, cached, [])
    ensures page == [] ==> Uncached(page, cached) == []
  {
  }

  /** The second loop: attempts what the inspection found, and saves the cursor now and
      then. */
  method Process(page: seq<Key>, cursor: Cursor, cached: Key -> bool, inspected: nat, items: seq<Key>,
                 stopped: nat -> bool)
    returns (attempted: seq<Key>, saves: seq<Save>, processed: nat, processedCursor: Cursor)
    requires Ascending(page) && inspected <= |page| && forall i | 0 <= i < |page| :: Behind(cursor, page[i])
    requires items == Uncached(page[..inspected], cached)
    ensures processed <= |items| && attempted == items[..processed]
    ensures processedCursor == if processed == 0 then cursor else Some(items[processed - 1])
    ensures forall i | 0 <= i < |saves| :: SaveAllowed(page, cursor, cached, attempted, saves[i])
    ensures |saves| == processed / PERSIST_INTERVAL
    ensures forall k: nat | k < |saves| ::
              50 * (k + 1) <= processed && saves[k] == Save(Some(items[50 * (k + 1) - 1]), 50 * (k + 1))
    ensures processed == FirstHit(stopped, |items|)
  {
    hide Uncached, SaveAllowed, Ascending, Behind;
    attempted, saves := [], [];
    processed, processedCursor := 0, cursor;
    while processed < |items|
      invariant processed <= |items| && attempted == items[..processed]
      invariant processedCursor == if processed == 0 then cursor else Some(items[processed - 1])
      invariant forall i | 0 <= i < |saves| :: SaveAllowed(page, cursor, cached, attempted, saves[i])
      invariant |saves| == processed / PERSIST_INTERVAL && forall i: nat | i < processed :: !stopped(i)
      invariant forall k: nat | k < |saves| ::
                  50 * (k + 1) <= processed && saves[k] == Save(Some(items[50 * (k + 1) - 1]), 50 * (k + 1))
    {
      if stopped(processed) {
        break;
      }
      ghost var before := attempted;
      attempted := attempted + [items[processed]];
      processedCursor := Some(items[processed]);
      processed := processed + 1;
      assert attempted == items[..processed];
      forall i | 0 <= i < |saves|
        ensures SaveAllowed(page, cursor, cached, attempted, saves[i])
      {
        MoreAttemptsAllow(page, cursor, cached, before, attempted, saves[i]);
      }
      SaveOfAttempted(page, cursor, cached, inspected, processed);
      if processed % PERSIST_INTERVAL == 0 {
        saves := saves + [Save(processedCursor, processed)];
      }
    }
  }

  /** Saving where the inspection got to, once everything it found was attempted. */
  lemma SaveOfInspected(page: seq<Key>, cursor: Cursor, cached: Key -> bool, inspected: nat, complete: bool)
    requires Ascending(page) && page != [] && inspected <= |page|
    requires forall i | 0 <= i < |page| :: Behind(cursor, page[i])
    requires complete ==> inspected == |page|
    ensures var items := Uncached(page[..inspected], cached);
            var position := if inspected == 0 then cursor else Some(page[inspected - 1]);
            && SaveAllowed(page, cursor, cached, items, Save(position, |items|))
            && (complete && |page| < MAX_ITEMS ==> SaveAllowed(page, cursor, cached, items, Save(None, |items|)))
  {
    var front := page[..inspected];
    var items := Uncached(front, cached);
    UncachedAre(front, cached);
    hide Uncached;
    assert items[..|items|] == items;
    forall i | 0 <= i < inspected
      ensures cached(page[i]) || page[i] in items
    {
      assert front[i] == page[i];
      assert front[i] in front;
    }
  }

  /** The first loop; with at most 5000 candidates on a page its second way out is never
      taken. */
  method Inspect(page: seq<Key>, cursor: Cursor, cached: Key -> bool, scanActive: nat -> bool)
    returns (items: seq<Key>, inspected: nat, complete: bool)
    requires |page| <= MAX_ITEMS
    ensures |items| <= inspected <= |page| && items == Uncached(page[..inspected], cached)
    ensures inspected == FirstHit(scanActive, |page|) && (complete <==> inspected == |page|)
  {
    items, inspected, complete := [], 0, true;
    while inspected < |page|
      invariant inspected <= |page| && items == Uncached(page[..inspected], cached) && complete
      invariant |items| <= inspected && forall i: nat | i < inspected :: !scanActive(i)
    {
      if scanActive(inspected) {
        complete := false;
        break;
      }
      assert |items| < MAX_ITEMS;
      assert page[..inspected + 1][..inspected] == page[..inspected];
      if !cached(page[inspected]) {
        items := items + [page[inspected]];
      }
      inspected := inspected + 1;
    }
  }

  // --------------------------------------------------------- a list of candidates

  function After(list: seq<Key>, cursor: Cursor): seq<Key> {
    if list == [] || Behind(cursor, list[0]) then list else After(list[1..], cursor)
  }

  /** The candidates behind the cursor, up to the limit. */
  function Page(list: seq<Key>, cursor: Cursor): seq<Key> {
    var rest := After(list, cursor);
    if |rest| <= MAX_ITEMS then rest else rest[..MAX_ITEMS]
  }

  /** Every candidate up to the cursor is done. */
  ghost predicate Covered(list: seq<Key>, cursor: Cursor, done: set<Key>) {
    cursor.Some? ==> forall k | k in list && k <= cursor.value :: k in done
  }

  /** What a cycle has done by the time of a save. */
  ghost function DoneBy(page: seq<Key>, cached: Key -> bool, attempted: seq<Key>, s: Save): set<Key>
    requires s.attempts <= |attempted|
  {
    (set k | k in page && cached(k)) + (set k | k in attempted[..s.attempts])
  }

  lemma {:induction false} AfterDrops(list: seq<Key>, cursor: Cursor) returns (n: nat)
    ensures n <= |list| && After(list, cursor) == list[n..]
    ensures forall i | 0 <= i < n :: !Behind(cursor, list[i])
    ensures n < |list| ==> Behind(cursor, list[n])
  {
    if list == [] || Behind(cursor, list[0]) {
      assert list[0..] == list;
      n := 0;
    } else {
      var m := AfterDrops(list[1..], cursor);
      assert list[1..][m..] == list[m + 1..];
      assert forall i | 1 <= i < |list| :: list[i] == list[1..][i - 1];
      n := m + 1;
    }
  }

  lemma AfterIs(list: seq<Key>, cursor: Cursor)
    requires Ascending(list)
    ensures var rest := After(list, cursor);
            && |rest| <= |list| && rest == list[|list| - |rest|..] && Ascending(rest)
            && (forall i | 0 <= i < |rest| :: Behind(cursor, rest[i]))
            && (forall k | k in list :: Behind(cursor, k) ==> k in rest)
  {
    hide After;
    var n := AfterDrops(list, cursor);
    var rest := list[n..];
    assert forall i | 0 <= i < |rest| :: rest[i] == list[n + i];
    assert forall i | n <= i < |list| :: list[i] == rest[i - n];
  }

  /** A page is ascending, behind the cursor, and the whole rest when it is short. */
  lemma PageIs(list: seq<Key>, cursor: Cursor)
    requires Ascending(list)
    ensures var page := Page(list, cursor);
            && Ascending(page) && |page| <= MAX_ITEMS && (forall i | 0 <= i < |page| :: Behind(cursor, page[i]))
            && (forall k | k in page :: k in list)
            && (|page| < MAX_ITEMS ==> forall k | k in list && Behind(cursor, k) :: k in page)
  {
    hide After, Behind;
    AfterIs(list, cursor);
    var rest, page := After(list, cursor), Page(list, cursor);
    assert forall i | 0 <= i < |rest| :: rest[i] in list;
    assert forall i | 0 <= i < |page| :: page[i] == rest[i];
  }

  /** A page has no holes. */
  lemma PageIsDense(list: seq<Key>, cursor: Cursor, k: Key, l: Key)
    requires Ascending(list) && k in list && Behind(cursor, k) && l in Page(list, cursor) && k <= l
    ensures k in Page(list, cursor)
  {
    hide After, Behind;
    AfterIs(list, cursor);
    var rest, page := After(list, cursor), Page(list, cursor);
    var i :| 0 <= i < |rest| && rest[i] == k;
    var j :| 0 <= j < |page| && page[j] == l;
    assert rest[j] == l;
    assert i <= j;
    assert page[i] == k;
  }

  /** WHEREVER THE PROCESS ENDS, NOTHING IS LOST. Over an unchanging list, if every
      candidate up to the cursor is done, the same holds for every cursor a cycle saves,
      whenever the cycle stops after it. */
  lemma EverySaveIsCovered(
    list: seq<Key>, cursor: Cursor, done: set<Key>, cached: Key -> bool,
    attempted: seq<Key>, saves: seq<Save>, completed: bool, i: nat)
    requires Ascending(list) && Covered(list, cursor, done) && i < |saves|
    requires CycleAllowed(Page(list, cursor), cursor, cached, attempted, saves, completed)
    ensures saves[i].attempts <= |attempted|
    ensures Covered(list, saves[i].cursor, done + DoneBy(Page(list, cursor), cached, attempted, saves[i]))
  {
    hide Uncached, Page;
    var page, s := Page(list, cursor), saves[i];
    PageIs(list, cursor);
    assert SaveAllowed(page, cursor, cached, attempted, s);
    if s.cursor.Some? && s.cursor != cursor {
      forall k | k in list && k <= s.cursor.value
        ensures k in done + DoneBy(page, cached, attempted, s)
      {
        if Behind(cursor, k) {
          PageIsDense(list, cursor, k, s.cursor.value);
          var j :| 0 <= j < |page| && page[j] == k;
          assert cached(page[j]) || page[j] in attempted[..s.attempts];
        }
      }
    }
  }

  /** A SWEEP IS COMPLETE ONLY WHEN EVERY CANDIDATE IS DONE. */
  lemma CompletionCoversAll(
    list: seq<Key>, cursor: Cursor, done: set<Key>, cached: Key -> bool,
    attempted: seq<Key>, saves: seq<Save>)
    requires Ascending(list) && Covered(list, cursor, done)
    requires CycleAllowed(Page(list, cursor), cursor, cached, attempted, saves, true)
    ensures forall k | k in list :: k in done || (k in Page(list, cursor) && (cached(k) || k in attempted))
  {
    hide Uncached, Page;
    PageIs(list, cursor);
    var page := Page(list, cursor);
    forall k | k in list
      ensures k in done || (k in page && (cached(k) || k in attempted))
    {
      if Behind(cursor, k) {
        var j :| 0 <= j < |page| && page[j] == k;
      }
    }
  }

  // --------------------------------------------------------- an undisturbed sweep

  /** What undisturbed cycles attempt, and how many of them a sweep takes. */
  function Sweep(list: seq<Key>, cursor: Cursor, cached: Key -> bool): (seq<Key>, nat)
    requires Ascending(list)
    decreases |After(list, cursor)|
  {
    var page := Page(list, cursor);
    if |page| < MAX_ITEMS then (Uncached(page, cached), 1)
    else
      NextRest(list, cursor);
      var (others, cycles) := Sweep(list, Some(page[|page| - 1]), cached);
      (Uncached(page, cached) + others, 1 + cycles)
  }

  lemma {:induction false} AfterSkips(list: seq<Key>, n: nat, cursor: Cursor)
    requires Ascending(list) && n <= |list| && cursor.Some?
    requires forall i | 0 <= i < |list| :: Behind(cursor, list[i]) <==> n <= i
    ensures After(list, cursor) == list[n..]
  {
    if n > 0 {
      AfterSkips(list[1..], n - 1, cursor);
      assert list[1..][n - 1..] == list[n..];
    } else {
      assert list[0..] == list;
    }
  }

  lemma DropTwice(list: seq<Key>, a: nat, b: nat)
    requires a + b <= |list|
    ensures list[a..][b..] == list[a + b..]
  {
  }

  /** The last candidate of a full page, in the list. */
  lemma LastOfPage(list: seq<Key>, cursor: Cursor, n: nat)
    requires n <= |list| && After(list, cursor) == list[n..] && |Page(list, cursor)| == MAX_ITEMS
    ensures n + MAX_ITEMS <= |list| && Page(list, cursor)[MAX_ITEMS - 1] == list[n + MAX_ITEMS - 1]
  {
    hide After;
  }

  /** Behind a full page comes the rest without that page. */
  lemma NextRest(list: seq<Key>, cursor: Cursor)
    requires Ascending(list) && |Page(list, cursor)| == MAX_ITEMS
    ensures |After(list, cursor)| >= MAX_ITEMS
    ensures var page := Page(list, cursor);
            After(list, Some(page[MAX_ITEMS - 1])) == After(list, cursor)[MAX_ITEMS..]
  {
    hide After, Page;
    var n := AfterDrops(list, cursor);
    LastOfPage(list, cursor, n);
    AfterSkips(list, n + MAX_ITEMS, Some(list[n + MAX_ITEMS - 1]));
    DropTwice(list, n, MAX_ITEMS);
  }

  lemma {:induction false} UncachedConcat(a: seq<Key>, b: seq<Key>, cached: Key -> bool)
    ensures Uncached(a + b, cached) == Uncached(a, cached) + Uncached(b, cached)
  {
    if b == [] {
      assert a + b == a;
    } else {
      assert (a + b)[..|a + b| - 1] == a + b[..|b| - 1];
      UncachedConcat(a, b[..|b| - 1], cached);
    }
  }

  /** AN UNDISTURBED SWEEP VISITS EVERY CANDIDATE ONCE, in order, in one cycle more than
      there are full pages. */
  lemma {:induction false} SweepVisitsAll(list: seq<Key>, cursor: Cursor, cached: Key -> bool)
    requires Ascending(list)
    ensures Sweep(list, cursor, cached)
            == (Uncached(After(list, cursor), cached), |After(list, cursor)| / 5_000 + 1)
    decreases |After(list, cursor)|
  {
    hide After, Uncached;
    var page, rest := Page(list, cursor), After(list, cursor);
    if |page| == MAX_ITEMS {
      NextRest(list, cursor);
      SweepVisitsAll(list, Some(page[MAX_ITEMS - 1]), cached);
      assert rest == page + rest[MAX_ITEMS..];
      UncachedConcat(page, rest[MAX_ITEMS..], cached);
    }
  }

  /** The scheduler's cycles from a saved cursor to the end of the sweep: each starts at the
      cursor that the one before it saved last. */
  method RunSweep(list: seq<Key>, start: Cursor, cached: Key -> bool) returns (attempted: seq<Key>, cycles: nat)
    requires Ascending(list)
    ensures (attempted, cycles) == Sweep(list, start, cached)
    ensures attempted == Uncached(After(list, start), cached) && cycles == |After(list, start)| / 5_000 + 1
  {
    hide Uncached, After, Page, CycleAllowed, FirstHit, FinalCursor, Ascending, Behind;
    SweepVisitsAll(list, start, cached);
    attempted, cycles := [], 0;
    var cursor, completed := start, false;
    ghost var whole := Sweep(list, start, cached);
    assert [] + whole.0 == whole.0;
    while !completed
      invariant completed ==> whole == (attempted, cycles)
      invariant !completed ==>
                  whole == (attempted + Sweep(list, cursor, cached).0, cycles + Sweep(list, cursor, cached).1)
      decreases if completed then 0 else |After(list, cursor)| + 1
    {
      PageIs(list, cursor);
      var page := Page(list, cursor);
      var done, saves;
      done, saves, completed := RunSweepCycle(page, cursor, true, cached, _ => false, _ => false);
      ghost var rest := Sweep(list, cursor, cached);
      if !completed {
        NextRest(list, cursor);
        cursor := saves[|saves| - 1].cursor;
        assert attempted + done + Sweep(list, cursor, cached).0 == attempted + (done + Sweep(list, cursor, cached).0);
      }
      attempted := attempted + done;
      cycles := cycles + 1;
    }
  }
}
