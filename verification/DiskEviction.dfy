/**
 Keeping the cover cache on disk within its size limit: files go in the order of their
 last use until enough bytes are free; covers of monitored releases stay.
 */
module DiskEviction {
  import opened Common

  /** A time stamp in a sidecar: missing, null, or a number. */
  datatype Stamp = Missing | Null | At(time: real)

  datatype Meta = Meta(monitored: bool, lastAccessed: Stamp, createdAt: Stamp)

  /** A cached file; a missing or unreadable sidecar is none. */
  datatype File = File(size: nat, meta: Option<Meta>)

  type Directory = map<string, File>

  predicate Monitored(f: File) {
    f.meta.Some? && f.meta.value.monitored
  }

  function TimeOf(s: Stamp): real {
    match s
    case At(t) => t
    case _ => 0.0
  }

  /** `last_accessed`, else `created_at`, else the epoch. */
  function LastUse(f: File): real {
    if f.meta.None? then 0.0
    else if f.meta.value.lastAccessed.Missing? then TimeOf(f.meta.value.createdAt)
    else TimeOf(f.meta.value.lastAccessed)
  }

  datatype Candidate = Candidate(lastUse: real, name: string, size: nat)

  // ---------------------------------------------------------- what is examined

  /** The bytes of the listed files; a file that vanished since the listing has none. */
  function TotalBytes(names: seq<string>, files: Directory): nat {
    if names == [] then 0
    else (if names[0] in files then files[names[0]].size else 0) + TotalBytes(names[1..], files)
  }

  function CandidateOf(name: string, files: Directory): seq<Candidate> {
    if name in files && !Monitored(files[name]) then [Candidate(LastUse(files[name]), name, files[name].size)] else []
  }

  function Candidates(names: seq<string>, files: Directory): seq<Candidate> {
    if names == [] then [] else CandidateOf(names[0], files) + Candidates(names[1..], files)
  }

  lemma ListingStep(names: seq<string>, files: Directory, i: nat)
    requires i < |names|
    ensures TotalBytes(names[i..], files)
            == (if names[i] in files then files[names[i]].size else 0) + TotalBytes(names[i + 1..], files)
    ensures Candidates(names[i..], files) == CandidateOf(names[i], files) + Candidates(names[i + 1..], files)
  {
    hide CandidateOf;
    assert names[i..][1..] == names[i + 1..];
  }

  lemma ListingEnds(names: seq<string>, files: Directory)
    ensures TotalBytes(names[|names|..], files) == 0 && Candidates(names[|names|..], files) == []
  {
  }

  // -------------------------------------------------------------- stable sorting

  predicate Sorted(s: seq<Candidate>) {
    forall i, j | 0 <= i < j < |s| :: s[i].lastUse <= s[j].lastUse
  }

  /** Before the first candidate used later, so equal ones keep their order. */
  function Insert(c: Candidate, s: seq<Candidate>): seq<Candidate> {
    if s == [] || c.lastUse <= s[0].lastUse then [c] + s else [s[0]] + Insert(c, s[1..])
  }

  /** A stable sort by last use. */
  function Sort(s: seq<Candidate>): seq<Candidate> {
    if s == [] then [] else Insert(s[0], Sort(s[1..]))
  }

  lemma {:induction false} InsertMembers(c: Candidate, s: seq<Candidate>)
    ensures forall x | x in Insert(c, s) :: x == c || x in s
  {
    if s != [] && c.lastUse > s[0].lastUse {
      InsertMembers(c, s[1..]);
    }
  }

  lemma {:induction false} InsertKeeps(c: Candidate, s: seq<Candidate>)
    ensures multiset(Insert(c, s)) == multiset(s) + multiset{c}
  {
    if s != [] && c.lastUse > s[0].lastUse {
      InsertKeeps(c, s[1..]);
      assert s == [s[0]] + s[1..];
    }
  }

  lemma SortedCons(c: Candidate, s: seq<Candidate>)
    requires Sorted(s) && forall x | x in s :: c.lastUse <= x.lastUse
    ensures Sorted([c] + s)
  {
  }

  lemma {:induction false} InsertIsSorted(c: Candidate, s: seq<Candidate>)
    requires Sorted(s)
    ensures Sorted(Insert(c, s))
  {
    if s != [] {
      assert forall x | x in s :: s[0].lastUse <= x.lastUse;
    }
    if s == [] || c.lastUse <= s[0].lastUse {
      SortedCons(c, s);
    } else {
      InsertIsSorted(c, s[1..]);
      InsertMembers(c, s[1..]);
      SortedCons(s[0], Insert(c, s[1..]));
    }
  }

  /** Sorting orders by last use and keeps every candidate. */
  lemma {:induction false} SortIsSorted(s: seq<Candidate>)
    ensures Sorted(Sort(s)) && multiset(Sort(s)) == multiset(s)
  {
    if s != [] {
      SortIsSorted(s[1..]);
      InsertIsSorted(s[0], Sort(s[1..]));
      InsertKeeps(s[0], Sort(s[1..]));
      assert s == [s[0]] + s[1..];
    }
  }

  /** The candidates with one time of use, in order. */
  function UsedAt(t: real, s: seq<Candidate>): seq<Candidate> {
    if s == [] then [] else (if s[0].lastUse == t then [s[0]] else []) + UsedAt(t, s[1..])
  }

  lemma UsedAtCons(c: Candidate, s: seq<Candidate>, t: real)
    ensures UsedAt(t, [c] + s) == (if c.lastUse == t then [c] else []) + UsedAt(t, s)
  {
    assert ([c] + s)[1..] == s;
  }

  lemma {:induction false} InsertIsStable(c: Candidate, s: seq<Candidate>, t: real)
    ensures UsedAt(t, Insert(c, s)) == (if c.lastUse == t then [c] else []) + UsedAt(t, s)
  {
    if s == [] || c.lastUse <= s[0].lastUse {
      UsedAtCons(c, s, t);
    } else {
      InsertIsStable(c, s[1..], t);
      UsedAtCons(s[0], Insert(c, s[1..]), t);
      assert s == [s[0]] + s[1..];
      UsedAtCons(s[0], s[1..], t);
      assert c.lastUse == t ==> s[0].lastUse != t;
    }
  }

  /** Files used at the same time keep the order of the listing. */
  lemma {:induction false} SortIsStable(s: seq<Candidate>, t: real)
    ensures UsedAt(t, Sort(s)) == UsedAt(t, s)
  {
    if s != [] {
      SortIsStable(s[1..], t);
      InsertIsStable(s[0], Sort(s[1..]), t);
    }
  }

  // -------------------------------------------------------------- what is deleted

  function Sum(s: seq<Candidate>): nat {
    if s == [] then 0 else Sum(s[..|s| - 1]) + s[|s| - 1].size
  }

  /** How many candidates go: the loop deletes first and then looks at what it freed. */
  function Cut(s: seq<Candidate>, excess: nat, freed: nat): (k: nat)
    ensures k <= |s|
  {
    if s == [] then 0
    else if freed + s[0].size >= excess then 1
    else 1 + Cut(s[1..], excess, freed + s[0].size)
  }

  lemma {:induction false} SumOfFirst(s: seq<Candidate>, k: nat)
    requires 1 <= k <= |s|
    ensures Sum(s[..k]) == s[0].size + Sum(s[1..][..k - 1])
  {
    assert s[..k][..k - 1] == s[..k - 1];
    if k == 1 {
      assert s[..1] == [s[0]] && s[..0] == [] && s[1..][..0] == [];
    } else {
      SumOfFirst(s, k - 1);
      assert s[1..][..k - 1][..k - 2] == s[1..][..k - 2];
    }
  }

  /** THE SHORTEST SUFFICIENT PREFIX goes, or everything when none suffices. */
  lemma {:induction false} CutIsShortest(s: seq<Candidate>, excess: nat, freed: nat)
    requires freed < excess
    ensures var k := Cut(s, excess, freed);
            && (freed + Sum(s[..k]) >= excess || k == |s|)
            && forall j | 0 <= j < k :: freed + Sum(s[..j]) < excess
  {
    if s != [] {
      var k := Cut(s, excess, freed);
      assert s[..0] == [];
      if freed + s[0].size >= excess {
        assert s[..1] == [s[0]];
        SumOfFirst(s, 1);
      } else {
        CutIsShortest(s[1..], excess, freed + s[0].size);
        SumOfFirst(s, k);
        forall j | 1 <= j < k
          ensures freed + Sum(s[..j]) < excess
        {
          SumOfFirst(s, j);
        }
      }
    }
  }

  function Names(s: seq<Candidate>): set<string> {
    set c | c in s :: c.name
  }

  // ------------------------------------------------------------------ the cache

  class DiskCache {
    const maxSizeBytes: Option<nat>
    const checkInterval: real
    var lastCheck: real
    var files: Directory

    constructor (maxSizeBytes: Option<nat>, checkInterval: real, files: Directory)
      ensures this.maxSizeBytes == maxSizeBytes && this.checkInterval == checkInterval
      ensures lastCheck == 0.0 && this.files == files
    {
      this.maxSizeBytes := maxSizeBytes;
      this.checkInterval := checkInterval;
      this.lastCheck := 0.0;
      this.files := files;
    }

    /** Whether the limit is looked at now. */
    predicate Due(force: bool, now: real)
      reads this
    {
      maxSizeBytes.Some? && (force || now - lastCheck >= checkInterval)
    }

    /** `listing` is what the directory is found to hold, in that order. */
    method EnforceSizeLimit(force: bool, now: real, listing: seq<string>) returns (freed: nat)
      modifies this
      ensures lastCheck == if old(Due(force, now)) then now else old(lastCheck)
      ensures !old(Due(force, now)) || TotalBytes(listing, old(files)) <= maxSizeBytes.value ==>
                freed == 0 && files == old(files)
      ensures old(Due(force, now)) && TotalBytes(listing, old(files)) > maxSizeBytes.value ==>
                var excess := TotalBytes(listing, old(files)) - maxSizeBytes.value;
                var order := Sort(Candidates(listing, old(files)));
                var k := Cut(order, excess, 0);
                files == old(files) - Names(order[..k]) && freed == Sum(order[..k])
    {
      if maxSizeBytes.None? {
        return 0;
      }
      if !force && now - lastCheck < checkInterval {
        return 0;
      }
      lastCheck := now;
      var totalBytes, candidates := Examine(listing);
      if totalBytes <= maxSizeBytes.value {
        return 0;
      }
      freed := DeleteInOrder(Sort(candidates), totalBytes - maxSizeBytes.value);
    }

    method Examine(listing: seq<string>) returns (totalBytes: nat, candidates: seq<Candidate>)
      ensures totalBytes == TotalBytes(listing, files) && candidates == Candidates(listing, files)
    {
      hide LastUse, Monitored, TotalBytes, Candidates;
      totalBytes := 0;
      candidates := [];
      assert listing[0..] == listing;
      ListingEnds(listing, files);
      assert [] + Candidates(listing, files) == Candidates(listing, files);
      for i := 0 to |listing|
        invariant totalBytes + TotalBytes(listing[i..], files) == TotalBytes(listing, files)
        invariant candidates + Candidates(listing[i..], files) == Candidates(listing, files)
      {
        var name := listing[i];
        ListingStep(listing, files, i);
        assert candidates + (CandidateOf(name, files) + Candidates(listing[i + 1..], files))
            == candidates + CandidateOf(name, files) + Candidates(listing[i + 1..], files);
        assert candidates + [] == candidates;
        if name !in files {
          continue;
        }
        totalBytes := totalBytes + files[name].size;
        if Monitored(files[name]) {
          continue;
        }
        candidates := candidates + [Candidate(LastUse(files[name]), name, files[name].size)];
      }
    }

    method DeleteInOrder(candidates: seq<Candidate>, bytesToFree: nat) returns (freed: nat)
      modifies this`files
      ensures var k := Cut(candidates, bytesToFree, 0);
              files == old(files) - Names(candidates[..k]) && freed == Sum(candidates[..k])
    {
      hide Names, Sum;
      freed := 0;
      var i := 0;
      NothingNamed(candidates);
      while i < |candidates|
        invariant 0 <= i <= |candidates| && freed == Sum(candidates[..i])
        invariant files == old(files) - Names(candidates[..i])
        invariant Cut(candidates, bytesToFree, 0) == i + Cut(candidates[i..], bytesToFree, freed)
      {
        assert candidates[i..][1..] == candidates[i + 1..];
        OneMore(candidates, i);
        files := files - {candidates[i].name};
        freed := freed + candidates[i].size;
        i := i + 1;
        if freed >= bytesToFree {
          break;
        }
      }
    }
  }

  lemma NothingNamed(s: seq<Candidate>)
    ensures Names(s[..0]) == {} && Sum(s[..0]) == 0 && s[0..] == s
  {
  }

  lemma OneMore(s: seq<Candidate>, i: nat)
    requires i < |s|
    ensures Names(s[..i + 1]) == Names(s[..i]) + {s[i].name} && Sum(s[..i + 1]) == Sum(s[..i]) + s[i].size
  {
    assert s[..i + 1][..i] == s[..i];
    assert s[..i + 1] == s[..i] + [s[i]];
    assert s[i] in s[..i + 1];
  }

  // ---------------------------------------------------------- what that achieves

  ghost predicate Lists(listing: seq<string>, files: Directory) {
    && (forall name :: name in listing <==> name in files)
    && forall i, j | 0 <= i < j < |listing| :: listing[i] != listing[j]
  }

  /** The files after an enforcement that had to delete. */
  function Enforced(listing: seq<string>, files: Directory, limit: nat): Directory
    requires TotalBytes(listing, files) > limit
  {
    var order := Sort(Candidates(listing, files));
    files - Names(order[..Cut(order, TotalBytes(listing, files) - limit, 0)])
  }

  lemma {:induction false} CandidatesAre(listing: seq<string>, files: Directory)
    ensures forall c :: c in Candidates(listing, files)
              <==> c.name in listing && CandidateOf(c.name, files) == [c]
  {
    if listing != [] {
      CandidatesAre(listing[1..], files);
      assert listing == [listing[0]] + listing[1..];
      assert forall c | c in CandidateOf(listing[0], files) :: c.name == listing[0];
    }
  }

  /** Each listed file is a candidate once at most. */
  lemma {:induction false} CandidatesDiffer(listing: seq<string>, files: Directory)
    requires forall i, j | 0 <= i < j < |listing| :: listing[i] != listing[j]
    ensures forall c :: multiset(Candidates(listing, files))[c] <= 1
  {
    if listing != [] {
      CandidatesDiffer(listing[1..], files);
      CandidatesAre(listing[1..], files);
      assert forall i | 0 <= i < |listing[1..]| :: listing[1..][i] == listing[i + 1];
      assert listing[0] !in listing[1..];
      forall c
        ensures multiset(Candidates(listing, files))[c] <= 1
      {
        assert c.name == listing[0] ==> c !in Candidates(listing[1..], files);
      }
    }
  }

  lemma SortedAre(listing: seq<string>, files: Directory)
    ensures forall c :: c in Sort(Candidates(listing, files))
              <==> c.name in listing && CandidateOf(c.name, files) == [c]
  {
    hide Candidates, Sort, CandidateOf;
    CandidatesAre(listing, files);
    SortIsSorted(Candidates(listing, files));
    forall c
      ensures c in Sort(Candidates(listing, files)) <==> c in Candidates(listing, files)
    {
      assert c in multiset(Sort(Candidates(listing, files))) <==> c in multiset(Candidates(listing, files));
    }
  }

  /** What a prefix of the order takes away, and what it leaves. */
  lemma PrefixTakes(listing: seq<string>, files: Directory, k: nat)
    requires Lists(listing, files) && k <= |Sort(Candidates(listing, files))|
    ensures var order := Sort(Candidates(listing, files));
            forall name | name in files ::
              && (name in Names(order[..k]) ==> exists i | 0 <= i < k :: CandidateOf(name, files) == [order[i]])
              && (name !in Names(order[..k]) && !Monitored(files[name]) ==>
                    exists j | k <= j < |order| :: CandidateOf(name, files) == [order[j]])
  {
    hide Candidates, Sort, LastUse, Monitored;
    SortedAre(listing, files);
    var order := Sort(Candidates(listing, files));
    forall name | name in files && name in Names(order[..k])
      ensures exists i | 0 <= i < k :: CandidateOf(name, files) == [order[i]]
    {
      var c :| c in order[..k] && c.name == name;
      var i :| 0 <= i < k && order[i] == c;
      assert order[i] in order;
    }
    assert forall j | 0 <= j < k :: order[j] in order[..k];
    forall name | name in files && name !in Names(order[..k]) && !Monitored(files[name])
      ensures exists j | k <= j < |order| :: CandidateOf(name, files) == [order[j]]
    {
      var c := Candidate(LastUse(files[name]), name, files[name].size);
      assert c in order;
      var j :| 0 <= j < |order| && order[j] == c;
    }
  }

  /** MONITORED COVERS STAY, and whatever goes was not used after anything that stays. */
  lemma OldestGoFirst(listing: seq<string>, files: Directory, limit: nat)
    requires Lists(listing, files) && TotalBytes(listing, files) > limit
    ensures var after := Enforced(listing, files, limit);
            && (forall name | name in files && Monitored(files[name]) :: name in after)
            && (forall gone, kept | gone in files && gone !in after && kept in after && !Monitored(files[kept]) ::
                  LastUse(files[gone]) <= LastUse(files[kept]))
  {
    hide Cut, Candidates, Sort, LastUse, Monitored, Names, Lists, TotalBytes;
    var order := Sort(Candidates(listing, files));
    var k := Cut(order, TotalBytes(listing, files) - limit, 0);
    PrefixTakes(listing, files, k);
    SortIsSorted(Candidates(listing, files));
  }

  /** Deleting one listed file frees its bytes. */
  lemma {:induction false} BytesFreed(listing: seq<string>, files: Directory, name: string)
    requires forall i, j | 0 <= i < j < |listing| :: listing[i] != listing[j]
    requires name in files
    ensures TotalBytes(listing, files - {name})
            == TotalBytes(listing, files) - if name in listing then files[name].size else 0
  {
    if listing != [] {
      assert forall i | 0 <= i < |listing[1..]| :: listing[1..][i] == listing[i + 1];
      BytesFreed(listing[1..], files, name);
      assert listing == [listing[0]] + listing[1..];
      assert listing[0] !in listing[1..];
    }
  }

  /** Deleting the first candidates frees the sum of their sizes. */
  lemma {:induction false} SumIsFreed(listing: seq<string>, files: Directory, k: nat)
    requires Lists(listing, files) && k <= |Sort(Candidates(listing, files))|
    ensures var order := Sort(Candidates(listing, files));
            TotalBytes(listing, files - Names(order[..k])) == TotalBytes(listing, files) - Sum(order[..k])
  {
    hide Candidates, Sort, TotalBytes, Sum, Names;
    var order := Sort(Candidates(listing, files));
    if k == 0 {
      NothingNamed(order);
      assert files - {} == files;
    } else {
      SumIsFreed(listing, files, k - 1);
      OneMore(order, k - 1);
      SortedAre(listing, files);
      var c := order[k - 1];
      assert c in order;
      var rest := files - Names(order[..k - 1]);
      assert files - Names(order[..k]) == rest - {c.name};
      OrderDiffers(listing, files, k - 1);
      BytesFreed(listing, rest, c.name);
    }
  }

  /** No candidate is named before. */
  lemma OrderDiffers(listing: seq<string>, files: Directory, k: nat)
    requires Lists(listing, files) && k < |Sort(Candidates(listing, files))|
    ensures var order := Sort(Candidates(listing, files)); order[k].name !in Names(order[..k])
  {
    hide Candidates, Sort;
    var all := Candidates(listing, files);
    var order := Sort(all);
    SortedAre(listing, files);
    CandidatesDiffer(listing, files);
    SortIsSorted(all);
    assert order[k] in order;
    assert order == order[..k] + [order[k]] + order[k + 1..];
    assert forall c | c in order[..k] :: c in order && multiset(order)[c] >= (if c == order[k] then 2 else 1);
  }

  /** THE LIMIT IS KEPT AS FAR AS IT CAN BE: afterwards the cache is within the limit, or
      only monitored covers are left; and no cover went that did not have to. */
  lemma LimitIsKept(listing: seq<string>, files: Directory, limit: nat)
    requires Lists(listing, files) && TotalBytes(listing, files) > limit
    ensures var after := Enforced(listing, files, limit);
            TotalBytes(listing, after) <= limit || forall name | name in after :: Monitored(files[name])
    ensures var order := Sort(Candidates(listing, files));
            var k := Cut(order, TotalBytes(listing, files) - limit, 0);
            && TotalBytes(listing, Enforced(listing, files, limit)) == TotalBytes(listing, files) - Sum(order[..k])
            && forall j | 0 <= j < k :: TotalBytes(listing, files - Names(order[..j])) > limit
  {
    hide Cut, Candidates, Sort, Monitored, Names, TotalBytes, Sum, CandidateOf, Lists;
    var order := Sort(Candidates(listing, files));
    var excess := TotalBytes(listing, files) - limit;
    var k := Cut(order, excess, 0);
    CutIsShortest(order, excess, 0);
    SumIsFreed(listing, files, k);
    PrefixTakes(listing, files, k);
    forall j | 0 <= j < k
      ensures TotalBytes(listing, files - Names(order[..j])) > limit
    {
      SumIsFreed(listing, files, j);
    }
  }

  // ------------------------------------------------------- stamps and flags

  /** When a file counts as used: at its last access, or at its creation if no access was
      ever noted; a time that is not known is the epoch. */
  predicate LastUsed(f: File, time: real) {
    match f.meta
    case None => time == 0.0
    case Some(Meta(_, At(accessed), _)) => time == accessed
    case Some(Meta(_, Null, _)) => time == 0.0
    case Some(Meta(_, Missing, At(created))) => time == created
    case Some(Meta(_, Missing, _)) => time == 0.0
  }

  /** A sidecar says that the cover is of a monitored release. */
  ghost predicate Kept(f: File) {
    exists meta :: f.meta == Some(meta) && meta.monitored
  }

  lemma StampsDecide(f: File, time: real)
    ensures LastUsed(f, time) <==> time == LastUse(f)
    ensures Kept(f) <==> Monitored(f)
  {
    if Monitored(f) {
      assert f.meta == Some(f.meta.value) && f.meta.value.monitored;
    }
  }

  /** THE SAME ON STAMPS AND FLAGS: a cover with the flag stays; a cover that goes was not used
      after one that stays without it; and the limit is kept unless only flagged ones are left. */
  lemma StampsDecideWhatGoes(listing: seq<string>, files: Directory, limit: nat)
    requires Lists(listing, files) && TotalBytes(listing, files) > limit
    ensures var after := Enforced(listing, files, limit);
            && (forall name | name in files && Kept(files[name]) :: name in after)
            && (forall gone, kept, s, t | gone in files && gone !in after && kept in after && !Kept(files[kept])
                                          && LastUsed(files[gone], s) && LastUsed(files[kept], t) :: s <= t)
            && (TotalBytes(listing, after) <= limit || forall name | name in after :: Kept(files[name]))
  {
    hide Names, LastUse, Monitored, LastUsed, Kept, TotalBytes, Lists, Sort, Cut, Candidates;
    OldestGoFirst(listing, files, limit);
    LimitIsKept(listing, files, limit);
    forall f: File, time: real
      ensures LastUsed(f, time) <==> time == LastUse(f)
    {
      StampsDecide(f, time);
    }
    forall f: File
      ensures Kept(f) <==> Monitored(f)
    {
      StampsDecide(f, 0.0);
    }
  }
}
