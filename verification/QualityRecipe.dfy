/**
 Acquisition quality recipes: validating each entry, giving standard entries their fixed
 bounds, and refusing entries that cannot stand together.

 The types of the fields are given; that a decoder may hand over other types is not
 modelled.
 */
module QualityRecipe {
  import opened Common

  datatype Format = Flac | Mp3 | Unsupported(name: string)

  datatype Quality =
    | Below192 | From192To255 | From256To319 | From320
    | Cd | Flac24At48 | Flac24At96 | Flac24At192 | HiRes
    | Custom
    | Unknown(name: string)

  datatype Entry = Entry(
    format: Format, quality: Quality,
    minimum: Option<int>, target: Option<int>, maximum: Option<int>,
    bitDepth: Option<int>, sampleRate: Option<int>)

  datatype Problem =
    | FormatUnsupported | QualityUnsupported | ResolutionOnMp3 | BitrateOutOfRange | BitratesUnordered
    | BoundsNotCanonical | BitrateOnFlac | ResolutionOutOfRange | ResolutionOnStandard
    | RecipeEmpty | DuplicateStandard | RangesOverlap | DuplicateResolution

  // ------------------------------------------------------------------ one entry

  predicate IsMp3Quality(q: Quality) {
    q.Below192? || q.From192To255? || q.From256To319? || q.From320? || q.Custom?
  }

  predicate IsFlacQuality(q: Quality) {
    q.Cd? || q.Flac24At48? || q.Flac24At96? || q.Flac24At192? || q.HiRes? || q.Custom?
  }

  /** The fixed minimum, target and maximum of a standard MP3 quality. */
  function StandardBounds(q: Quality): (int, int, Option<int>)
    requires IsMp3Quality(q) && !q.Custom?
  {
    match q
    case Below192 => (16, 128, Some(191))
    case From192To255 => (192, 192, Some(255))
    case From256To319 => (256, 256, Some(319))
    case From320 => (320, 320, None)
  }

  /** A given integer between two bounds. */
  predicate Within(value: Option<int>, low: int, high: int) {
    value.Some? && low <= value.value <= high
  }

  /** The entry with its canonical fields. */
  function Canonical(e: Entry): Result<Entry, Problem> {
    if e.format.Unsupported? then Err(FormatUnsupported)
    else if !(if e.format.Mp3? then IsMp3Quality(e.quality) else IsFlacQuality(e.quality)) then Err(QualityUnsupported)
    else if e.format.Mp3? then
      if e.bitDepth.Some? || e.sampleRate.Some? then Err(ResolutionOnMp3)
      else if e.quality.Custom? then
        if !(Within(e.minimum, 16, 2048) && Within(e.target, 16, 2048) && Within(e.maximum, 16, 2048)) then
          Err(BitrateOutOfRange)
        else if !(e.minimum.value <= e.target.value <= e.maximum.value) then Err(BitratesUnordered)
        else Ok(e)
      else
        var (low, aim, high) := StandardBounds(e.quality);
        var given := (e.minimum, e.target, e.maximum);
        if given != (None, None, None) && given != (Some(low), Some(aim), high) then Err(BoundsNotCanonical)
        else Ok(e.(minimum := Some(low), target := Some(aim), maximum := high))
    else if e.minimum.Some? || e.target.Some? || e.maximum.Some? then Err(BitrateOnFlac)
    else if e.quality.Custom? then
      if Within(e.bitDepth, 1, 64) && Within(e.sampleRate, 8000, 768000) then Ok(e) else Err(ResolutionOutOfRange)
    else if e.bitDepth.Some? || e.sampleRate.Some? then Err(ResolutionOnStandard)
    else Ok(e)
  }

  predicate IsCanonical(e: Entry) {
    Canonical(e) == Ok(e)
  }

  /** Canonical entries are fixed points; an MP3 entry is a range that holds its target. */
  lemma CanonicalIsFixed(e: Entry)
    requires Canonical(e).Ok?
    ensures var c := Canonical(e).value;
            && IsCanonical(c) && c.format == e.format && c.quality == e.quality
            && (c.format.Mp3? ==>
                  c.minimum.Some? && c.target.Some? && Covers(c, c.target.value) && c.minimum.value >= 16)
            && (c.format.Flac? && c.quality.Custom? ==> c.bitDepth.Some? && c.sampleRate.Some?)
  {
  }

  /** What an entry must say to be accepted, and what is then put in: custom entries and all
      FLAC entries stay as they are, a standard MP3 entry gets its bounds. */
  lemma EntriesAccepted(e: Entry)
    ensures e.format.Mp3? && e.quality.Custom? ==>
              (Canonical(e) == Ok(e)
               <==> && e.bitDepth == None && e.sampleRate == None
                    && exists low, aim, high | 16 <= low <= aim <= high <= 2048 ::
                         (e.minimum, e.target, e.maximum) == (Some(low), Some(aim), Some(high)))
    ensures e.format.Mp3? && e.quality.Custom? && e.bitDepth == e.sampleRate == None ==>
              var b := [e.minimum, e.target, e.maximum];
              (Canonical(e) == Err(BitrateOutOfRange) <==> exists x | x in b :: x.None? || !(16 <= x.value <= 2048))
    ensures e.format.Flac? && e.quality.Custom? ==>
              (Canonical(e) == Ok(e)
               <==> && (e.minimum, e.target, e.maximum) == (None, None, None)
                    && exists depth, rate | 1 <= depth <= 64 && 8000 <= rate <= 768000 ::
                         (e.bitDepth, e.sampleRate) == (Some(depth), Some(rate)))
    ensures e.format.Flac? && e.quality in {Cd, Flac24At48, Flac24At96, Flac24At192, HiRes} ==>
              (Canonical(e) == Ok(e) <==> e == Entry(Flac, e.quality, None, None, None, None, None))
    ensures (e.format.Flac? || e.quality.Custom?) && Canonical(e).Ok? ==> Canonical(e).value == e
    ensures e.format.Unsupported? || e.quality.Unknown? ==> Canonical(e).Err?
    ensures e.format.Mp3? && e.quality in {Cd, Flac24At48, Flac24At96, Flac24At192, HiRes} ==> Canonical(e).Err?
    ensures e.format.Flac? && e.quality in {Below192, From192To255, From256To319, From320} ==> Canonical(e).Err?
  {
    var b := [e.minimum, e.target, e.maximum];
    assert b[0] in b && b[1] in b && b[2] in b;
    if e.format.Mp3? && e.quality.Custom? && Canonical(e).Ok? {
      assert (e.minimum, e.target, e.maximum)
          == (Some(e.minimum.value), Some(e.target.value), Some(e.maximum.value));
    }
    if e.format.Flac? && e.quality.Custom? && Canonical(e).Ok? {
      assert (e.bitDepth, e.sampleRate) == (Some(e.bitDepth.value), Some(e.sampleRate.value));
    }
  }

  /** A standard MP3 entry is accepted with all its bounds or with none, and then has all. */
  lemma StandardEntryAccepted(q: Quality, low: Option<int>, aim: Option<int>, high: Option<int>)
    requires q in {Below192, From192To255, From256To319, From320}
    ensures var full := match q
              case Below192 => Entry(Mp3, q, Some(16), Some(128), Some(191), None, None)
              case From192To255 => Entry(Mp3, q, Some(192), Some(192), Some(255), None, None)
              case From256To319 => Entry(Mp3, q, Some(256), Some(256), Some(319), None, None)
              case From320 => Entry(Mp3, q, Some(320), Some(320), None, None, None);
            Canonical(Entry(Mp3, q, low, aim, high, None, None))
            == if (low, aim, high) in {(None, None, None), (full.minimum, full.target, full.maximum)} then Ok(full)
               else Err(BoundsNotCanonical)
    ensures forall depth, rate | (depth, rate) != (None, None) ::
              Canonical(Entry(Mp3, q, low, aim, high, depth, rate)).Err?
  {
  }

  // ------------------------------------------------------------------ pairs

  predicate IntervalsOverlap(leftMin: int, leftMax: Option<int>, rightMin: int, rightMax: Option<int>) {
    (leftMax.None? || rightMin <= leftMax.value) && (rightMax.None? || leftMin <= rightMax.value)
  }

  /** An MP3 entry accepts a bitrate. */
  predicate Covers(e: Entry, bitrate: int) {
    e.format.Mp3? && e.minimum.Some? && e.minimum.value <= bitrate
    && (e.maximum.None? || bitrate <= e.maximum.value)
  }

  /** Two canonical entries that may stand in one recipe. */
  predicate Compatible(a: Entry, b: Entry) {
    && !(a.format == b.format && a.quality == b.quality && !a.quality.Custom?)
    && (a.format.Mp3? && b.format.Mp3? && a.minimum.Some? && b.minimum.Some? ==>
          !IntervalsOverlap(a.minimum.value, a.maximum, b.minimum.value, b.maximum))
    && (a.format.Flac? && b.format.Flac? && a.quality.Custom? && b.quality.Custom? ==>
          (a.bitDepth, a.sampleRate) != (b.bitDepth, b.sampleRate))
  }

  /** OVERLAP IS SHARING A BITRATE: the comparison of bounds says exactly that. */
  lemma OverlapIffShared(a: Entry, b: Entry)
    requires IsCanonical(a) && IsCanonical(b) && a.format.Mp3? && b.format.Mp3?
    ensures IntervalsOverlap(a.minimum.value, a.maximum, b.minimum.value, b.maximum)
            <==> exists v :: Covers(a, v) && Covers(b, v)
  {
    CanonicalIsFixed(a);
    CanonicalIsFixed(b);
    hide Canonical;
    var low := if a.minimum.value > b.minimum.value then a.minimum.value else b.minimum.value;
    if IntervalsOverlap(a.minimum.value, a.maximum, b.minimum.value, b.maximum) {
      assert Covers(a, low) && Covers(b, low);
    }
  }

  predicate IsStandardMp3(q: Quality) {
    IsMp3Quality(q) && !q.Custom?
  }

  /** A standard MP3 entry in canonical form. */
  function Standard(q: Quality): Entry
    requires IsStandardMp3(q)
  {
    Canonical(Entry(Mp3, q, None, None, None, None, None)).value
  }

  /** THE STANDARD QUALITIES PARTITION THE BITRATES: every bitrate from the smallest custom
      one up is inside exactly one of them, and no smaller one is inside any. */
  lemma StandardsPartitionBitrates(bitrate: int)
    ensures (exists q | IsStandardMp3(q) :: Covers(Standard(q), bitrate)) <==> bitrate >= 16
    ensures forall p, q | IsStandardMp3(p) && IsStandardMp3(q)
                          && Covers(Standard(p), bitrate) && Covers(Standard(q), bitrate) :: p == q
  {
    if bitrate >= 16 {
      var q := if bitrate < 192 then Below192 else if bitrate < 256 then From192To255
               else if bitrate < 320 then From256To319 else From320;
      assert IsStandardMp3(q) && Covers(Standard(q), bitrate);
    }
  }

  lemma CompatibleIsSymmetric(a: Entry, b: Entry)
    ensures Compatible(a, b) == Compatible(b, a)
  {
  }

  // ------------------------------------------------------------------ recipes

  predicate AllCanonicalize(entries: seq<Entry>) {
    forall i | 0 <= i < |entries| :: Canonical(entries[i]).Ok?
  }

  function Canonicals(entries: seq<Entry>): (r: seq<Entry>)
    requires AllCanonicalize(entries)
    ensures |r| == |entries|
  {
    seq(|entries|, i requires 0 <= i < |entries| => Canonical(entries[i]).value)
  }

  predicate PairwiseCompatible(entries: seq<Entry>) {
    forall i, j | 0 <= i < j < |entries| :: Compatible(entries[i], entries[j])
  }

  predicate Acceptable(entries: seq<Entry>, requireNonempty: bool) {
    && (requireNonempty ==> entries != [])
    && AllCanonicalize(entries)
    && PairwiseCompatible(Canonicals(entries))
  }

  /** Two standard entries of the same format and quality. */
  predicate SameStandard(a: Entry, b: Entry) {
    a.format == b.format && a.quality == b.quality && !a.quality.Custom?
  }

  /** What is wrong with the first entry that does not fit those before it. */
  function ClashAt(c: seq<Entry>, i: nat): Problem
    requires i < |c|
  {
    if exists k | 0 <= k < i :: SameStandard(c[k], c[i]) then DuplicateStandard
    else if c[i].format.Mp3? then RangesOverlap
    else DuplicateResolution
  }

  /** `i` is the first entry that does not fit those before it. */
  predicate ClashesFirst(c: seq<Entry>, i: nat) {
    i < |c| && PairwiseCompatible(c[..i]) && !PairwiseCompatible(c[..i + 1])
  }

  method ValidateQualityRecipe(entries: seq<Entry>, requireNonempty: bool) returns (r: Result<seq<Entry>, Problem>)
    ensures r.Ok? <==> Acceptable(entries, requireNonempty)
    ensures r.Ok? ==> r.value == Canonicals(entries)
    ensures requireNonempty && entries == [] ==> r == Err(RecipeEmpty)
    ensures forall i | 0 <= i < |entries| && AllCanonicalize(entries[..i]) && Canonical(entries[i]).Err? ::
              r == Err(Canonical(entries[i]).error)
    ensures AllCanonicalize(entries) ==>
              forall i | ClashesFirst(Canonicals(entries), i) :: r == Err(ClashAt(Canonicals(entries), i))
  {
    hide Canonical;
    if requireNonempty && entries == [] {
      return Err(RecipeEmpty);
    }
    var canonical: seq<Entry> := [];
    for i := 0 to |entries|
      invariant |canonical| == i
      invariant forall j | 0 <= j < i :: Canonical(entries[j]) == Ok(canonical[j])
    {
      var c := Canonical(entries[i]);
      if c.Err? {
        return Err(c.error);
      }
      canonical := canonical + [c.value];
    }
    assert canonical == Canonicals(entries);
    forall i | 0 <= i < |canonical|
      ensures IsCanonical(canonical[i]) && (canonical[i].format.Mp3? ==> canonical[i].minimum.Some?)
      ensures !canonical[i].format.Unsupported?
    {
      CanonicalIsFixed(entries[i]);
      SupportedFormat(entries[i]);
    }
    var problem := CheckPairs(canonical);
    if problem.Some? {
      return Err(problem.value);
    }
    return Ok(canonical);
  }

  lemma SupportedFormat(e: Entry)
    requires Canonical(e).Ok?
    ensures !Canonical(e).value.format.Unsupported?
  {
  }

  /** What the second loop has noted of the first `i` entries. */
  ghost predicate Noted(c: seq<Entry>, i: nat, seenStandard: set<(Format, Quality)>,
                        mp3Ranges: seq<(int, Option<int>)>, customPairs: set<(Option<int>, Option<int>)>)
    requires i <= |c|
  {
    && (forall f, q :: ((f, q) in seenStandard <==> exists k | 0 <= k < i :: IsStandard(c[k], f, q)))
    && (forall d, s :: ((d, s) in customPairs <==> exists k | 0 <= k < i :: IsResolution(c[k], d, s)))
    && (forall k | 0 <= k < i && c[k].format.Mp3? ::
          c[k].minimum.Some? && (c[k].minimum.value, c[k].maximum) in mp3Ranges)
    && (forall m | m in mp3Ranges :: exists k | 0 <= k < i :: IsRange(c[k], m))
  }

  /** The checks of one entry, as the notes decide them. */
  predicate Passes(e: Entry, seenStandard: set<(Format, Quality)>,
                   mp3Ranges: seq<(int, Option<int>)>, customPairs: set<(Option<int>, Option<int>)>)
    requires e.format.Mp3? ==> e.minimum.Some?
  {
    && (!e.quality.Custom? ==> (e.format, e.quality) !in seenStandard)
    && (e.format.Mp3? ==> forall m | m in mp3Ranges :: !IntervalsOverlap(e.minimum.value, e.maximum, m.0, m.1))
    && (!e.format.Mp3? && e.quality.Custom? ==> (e.bitDepth, e.sampleRate) !in customPairs)
  }

  /** The notes decide compatibility with everything before. */
  lemma NotesDecide(c: seq<Entry>, i: nat, seenStandard: set<(Format, Quality)>,
                    mp3Ranges: seq<(int, Option<int>)>, customPairs: set<(Option<int>, Option<int>)>)
    requires i < |c| && Noted(c, i, seenStandard, mp3Ranges, customPairs)
    requires (c[i].format.Mp3? ==> c[i].minimum.Some?) && forall k | 0 <= k <= i :: !c[k].format.Unsupported?
    ensures Passes(c[i], seenStandard, mp3Ranges, customPairs) <==> forall k | 0 <= k < i :: Compatible(c[k], c[i])
    ensures (c[i].format, c[i].quality) in seenStandard && !c[i].quality.Custom?
            <==> exists k | 0 <= k < i :: SameStandard(c[k], c[i])
  {
    var e := c[i];
    assert (e.format, e.quality) in seenStandard <==> exists k | 0 <= k < i :: IsStandard(c[k], e.format, e.quality);
    assert (e.bitDepth, e.sampleRate) in customPairs
      <==> exists k | 0 <= k < i :: IsResolution(c[k], e.bitDepth, e.sampleRate);
    if Passes(e, seenStandard, mp3Ranges, customPairs) {
      forall k | 0 <= k < i
        ensures Compatible(c[k], e)
      {
        assert !IsStandard(c[k], e.format, e.quality) || e.quality.Custom?;
      }
    }
  }

  predicate IsStandard(e: Entry, format: Format, quality: Quality) {
    e.format == format && e.quality == quality && !quality.Custom?
  }

  /** The second loop: sets of standard qualities and of custom resolutions, and a list of
      the MP3 ranges so far. */
  method CheckPairs(canonical: seq<Entry>) returns (problem: Option<Problem>)
    requires forall i | 0 <= i < |canonical| :: canonical[i].format.Mp3? ==> canonical[i].minimum.Some?
    requires forall i | 0 <= i < |canonical| :: !canonical[i].format.Unsupported?
    ensures problem.None? <==> PairwiseCompatible(canonical)
    ensures forall i | ClashesFirst(canonical, i) :: problem == Some(ClashAt(canonical, i))
  {
    hide Compatible, SameStandard, PairwiseCompatible, Passes;
    var seenStandard: set<(Format, Quality)> := {};
    var mp3Ranges: seq<(int, Option<int>)> := [];
    var customPairs: set<(Option<int>, Option<int>)> := {};
    NothingClashes(canonical);
    for i := 0 to |canonical|
      invariant PairwiseCompatible(canonical[..i])
      invariant Noted(canonical, i, seenStandard, mp3Ranges, customPairs)
    {
      var entry := canonical[i];
      var clash := ClashOf(entry, seenStandard, mp3Ranges, customPairs);
      Extend(canonical, i);
      NotesDecide(canonical, i, seenStandard, mp3Ranges, customPairs);
      if clash.Some? {
        FirstClashIs(canonical, i);
        return clash;
      }
      if !entry.quality.Custom? {
        seenStandard := seenStandard + {(entry.format, entry.quality)};
      }
      if entry.format.Mp3? {
        mp3Ranges := mp3Ranges + [(entry.minimum.value, entry.maximum)];
      } else if entry.quality.Custom? {
        customPairs := customPairs + {(entry.bitDepth, entry.sampleRate)};
      }
    }
    assert canonical[..|canonical|] == canonical;
    NoClash(canonical);
    return None;
  }

  lemma NothingClashes(c: seq<Entry>)
    ensures PairwiseCompatible(c[..0])
  {
  }

  /** A prefix of compatible entries is compatible. */
  lemma PrefixIsCompatible(c: seq<Entry>, i: nat)
    requires i <= |c| && PairwiseCompatible(c)
    ensures PairwiseCompatible(c[..i])
  {
    hide Compatible;
    assert forall k | 0 <= k < i :: c[..i][k] == c[k];
  }

  lemma FirstClashIs(c: seq<Entry>, i: nat)
    requires ClashesFirst(c, i)
    ensures forall j: nat | ClashesFirst(c, j) :: j == i
  {
    hide PairwiseCompatible;
    forall j: nat | ClashesFirst(c, j)
      ensures j == i
    {
      if j < i {
        assert c[..i][..j + 1] == c[..j + 1];
        PrefixIsCompatible(c[..i], j + 1);
      }
      if i < j {
        assert c[..j][..i + 1] == c[..i + 1];
        PrefixIsCompatible(c[..j], i + 1);
      }
    }
  }

  lemma NoClash(c: seq<Entry>)
    requires PairwiseCompatible(c)
    ensures forall j: nat :: !ClashesFirst(c, j)
  {
    hide PairwiseCompatible;
    forall j: nat
      ensures !ClashesFirst(c, j)
    {
      if j < |c| {
        PrefixIsCompatible(c, j + 1);
      }
    }
  }

  predicate IsResolution(e: Entry, depth: Option<int>, rate: Option<int>) {
    e.format.Flac? && e.quality.Custom? && e.bitDepth == depth && e.sampleRate == rate
  }

  predicate IsRange(e: Entry, range: (int, Option<int>)) {
    e.format.Mp3? && e.minimum == Some(range.0) && e.maximum == range.1
  }

  /** One more entry is compatible with those before, or the recipe is refused. */
  lemma Extend(canonical: seq<Entry>, i: nat)
    requires i < |canonical| && PairwiseCompatible(canonical[..i])
    ensures PairwiseCompatible(canonical[..i + 1]) <==> forall k | 0 <= k < i :: Compatible(canonical[k], canonical[i])
    ensures PairwiseCompatible(canonical) ==> forall k | 0 <= k < i :: Compatible(canonical[k], canonical[i])
  {
    hide Compatible;
    var front, next := canonical[..i], canonical[..i + 1];
    assert forall k | 0 <= k < i :: front[k] == canonical[k] == next[k];
    assert next[i] == canonical[i];
  }

  /** The checks of one entry against what came before. */
  method ClashOf(entry: Entry, seenStandard: set<(Format, Quality)>, mp3Ranges: seq<(int, Option<int>)>,
                 customPairs: set<(Option<int>, Option<int>)>) returns (problem: Option<Problem>)
    requires entry.format.Mp3? ==> entry.minimum.Some?
    ensures problem.None? <==> Passes(entry, seenStandard, mp3Ranges, customPairs)
    ensures problem.Some? ==>
              problem.value
              == if !entry.quality.Custom? && (entry.format, entry.quality) in seenStandard then DuplicateStandard
                 else if entry.format.Mp3? then RangesOverlap
                 else DuplicateResolution
  {
    if !entry.quality.Custom? && (entry.format, entry.quality) in seenStandard {
      return Some(DuplicateStandard);
    }
    if entry.format.Mp3? {
      for j := 0 to |mp3Ranges|
        invariant forall k | 0 <= k < j ::
          !IntervalsOverlap(entry.minimum.value, entry.maximum, mp3Ranges[k].0, mp3Ranges[k].1)
      {
        if IntervalsOverlap(entry.minimum.value, entry.maximum, mp3Ranges[j].0, mp3Ranges[j].1) {
          assert mp3Ranges[j] in mp3Ranges;
          return Some(RangesOverlap);
        }
      }
    } else if entry.quality.Custom? && (entry.bitDepth, entry.sampleRate) in customPairs {
      return Some(DuplicateResolution);
    }
    return None;
  }

  // ------------------------------------------------- what an accepted recipe promises

  /** VALIDATION IS IDEMPOTENT: an accepted recipe, in canonical form, is accepted again
      and stays as it is. */
  lemma ValidationIsIdempotent(entries: seq<Entry>, requireNonempty: bool)
    requires Acceptable(entries, requireNonempty)
    ensures Acceptable(Canonicals(entries), requireNonempty)
    ensures Canonicals(Canonicals(entries)) == Canonicals(entries)
  {
    hide Canonical;
    var c := Canonicals(entries);
    forall i | 0 <= i < |c|
      ensures Canonical(c[i]) == Ok(c[i])
    {
      CanonicalIsFixed(entries[i]);
    }
    assert Canonicals(c) == c;
  }

  /** AT MOST ONE ENTRY FOR A BITRATE. */
  lemma OneEntryPerBitrate(entries: seq<Entry>, requireNonempty: bool, bitrate: int, i: nat, j: nat)
    requires Acceptable(entries, requireNonempty) && i < |entries| && j < |entries|
    requires Covers(Canonicals(entries)[i], bitrate) && Covers(Canonicals(entries)[j], bitrate)
    ensures i == j
  {
    var c := Canonicals(entries);
    CanonicalIsFixed(entries[i]);
    CanonicalIsFixed(entries[j]);
    hide Canonical;
    OverlapIffShared(c[i], c[j]);
  }

  lemma {:induction false} TwicePresent(s: seq<Entry>, e: Entry)
    requires multiset(s)[e] >= 2
    ensures exists i, j :: 0 <= i < j < |s| && s[i] == e && s[j] == e
  {
    assert s == [s[0]] + s[1..];
    if s[0] == e {
      assert e in multiset(s[1..]);
      var k :| 0 <= k < |s[1..]| && s[1..][k] == e;
      assert s[k + 1] == e;
    } else {
      TwicePresent(s[1..], e);
      var i, j :| 0 <= i < j < |s[1..]| && s[1..][i] == e && s[1..][j] == e;
      assert s[i + 1] == e && s[j + 1] == e;
    }
  }

  /** Two positions of a sequence show in its multiset. */
  lemma BothPresent(s: seq<Entry>, i: nat, j: nat)
    requires i < j < |s|
    ensures s[i] in multiset(s) && s[j] in multiset(s) && (s[i] == s[j] ==> multiset(s)[s[i]] >= 2)
  {
    assert s == s[..i] + [s[i]] + s[i + 1..j] + [s[j]] + s[j + 1..];
  }

  lemma AllSurviveReordering(a: seq<Entry>, b: seq<Entry>)
    requires multiset(a) == multiset(b) && AllCanonicalize(b)
    ensures AllCanonicalize(a)
  {
    hide Canonical;
    forall i | 0 <= i < |a|
      ensures Canonical(a[i]).Ok?
    {
      assert a[i] in multiset(a);
      var k :| 0 <= k < |b| && b[k] == a[i];
    }
  }

  lemma PairsSurviveReordering(a: seq<Entry>, b: seq<Entry>)
    requires multiset(a) == multiset(b) && AllCanonicalize(a) && AllCanonicalize(b)
    requires PairwiseCompatible(Canonicals(b))
    ensures PairwiseCompatible(Canonicals(a))
  {
    hide Canonical, Compatible;
    var c, d := Canonicals(a), Canonicals(b);
    forall i, j | 0 <= i < j < |c|
      ensures Compatible(c[i], c[j])
    {
      BothPresent(a, i, j);
      if a[i] == a[j] {
        TwicePresent(b, a[i]);
        var k, l :| 0 <= k < l < |b| && b[k] == a[i] && b[l] == a[i];
        assert d[k] == c[i] && d[l] == c[j];
      } else {
        var k :| 0 <= k < |b| && b[k] == a[i];
        var l :| 0 <= l < |b| && b[l] == a[j];
        CompatibleIsSymmetric(d[k], d[l]);
        assert d[k] == c[i] && d[l] == c[j];
      }
    }
  }

  /** ORDER DOES NOT MATTER for acceptance. */
  lemma AcceptanceIgnoresOrder(a: seq<Entry>, b: seq<Entry>, requireNonempty: bool)
    requires multiset(a) == multiset(b)
    ensures Acceptable(a, requireNonempty) <==> Acceptable(b, requireNonempty)
  {
    if Acceptable(b, requireNonempty) {
      AcceptanceSurvivesOrder(a, b, requireNonempty);
    }
    if Acceptable(a, requireNonempty) {
      AcceptanceSurvivesOrder(b, a, requireNonempty);
    }
  }

  lemma AcceptanceSurvivesOrder(a: seq<Entry>, b: seq<Entry>, requireNonempty: bool)
    requires multiset(a) == multiset(b) && Acceptable(b, requireNonempty)
    ensures Acceptable(a, requireNonempty)
  {
    hide Canonical, PairwiseCompatible;
    AllSurviveReordering(a, b);
    PairsSurviveReordering(a, b);
    assert |multiset(a)| == |a| && |multiset(b)| == |b|;
  }
}
