/**
 The loops over a deployed tree: stamping every text asset, and scanning every file in
 chunks for a placeholder that survived.

 Assets are numbered in the order in which the tree is walked, and an asset says whether
 it can be read and written. In the scan, a read may return any non-empty part of what is
 left.
 */
module StaticAssets {
  import opened Common
  import opened Sequences
  import opened StaticRewrite
  import opened StaticPasses

  datatype Asset = Asset(path: string, textual: bool, readable: bool, writable: bool)

  datatype Summary = Summary(filesPatched: nat, tokensReplaced: nat, fontsReplaced: int)

  datatype RewriteError =
    | CannotRead(path: string) | MarkerSurvived(path: string) | CannotRewrite(path: string)
    | LeakedInto(paths: seq<string>)

  // --------------------------------------------------------------- one asset

  method StageAsset(data: string, base: string)
    returns (staged: string, tokenCount: nat, plainFontCount: int, affected: bool)
    ensures affected <==> Affected(data, base)
    ensures affected ==> staged == StagedPasses(data, base)
    ensures tokenCount == CountAll(data, TOKEN)
    ensures plainFontCount == FontCount(data, base) - TokenFontCount(data, base)
  {
    hide ReplaceAll, CountAll;
    tokenCount := CountAll(data, TOKEN);
    var relativeCount := CountAll(data, RELATIVE_TOKEN_FONT);
    staged := ReplaceAll(data, RELATIVE_TOKEN_FONT, RELATIVE_MARKER);
    relativeCount := relativeCount + CountAll(staged, RELATIVE_FONT);
    staged := ReplaceAll(staged, RELATIVE_FONT, RELATIVE_MARKER);
    var tokenFontCount: int, fontCount: int := 0, 0;
    if base != "" {
      tokenFontCount := CountAll(staged, TOKEN_FONT);
      fontCount := CountAll(staged, FONT);
    }
    plainFontCount := fontCount - tokenFontCount;
    affected := !(tokenCount == 0 && fontCount == 0 && relativeCount == 0);
    if !affected {
      return;
    }
    if base != "" && tokenFontCount > 0 {
      staged := ReplaceAll(staged, TOKEN_FONT, PAIR_MARKER);
    }
    if plainFontCount != 0 {
      staged := ReplaceAll(staged, FONT, SLOT_MARKER);
      staged := ReplaceAll(staged, SLOT_MARKER, base + FONT);
    }
    if tokenCount > 0 {
      staged := ReplaceAll(staged, TOKEN, base);
    }
    if tokenFontCount > 0 {
      staged := ReplaceAll(staged, PAIR_MARKER, base + FONT);
    }
    if relativeCount > 0 {
      staged := ReplaceAll(staged, RELATIVE_MARKER, RELATIVE_FONT);
    }
  }

  // ---------------------------------------------------------------- the tree

  predicate Marked(asset: Asset, text: string, base: string) {
    asset.textual && Affected(text, base) && MarkerLeft(StagedPasses(text, base))
  }

  /** Whether the walk ends with an error at an asset. */
  predicate Stops(asset: Asset, text: string, base: string) {
    !asset.readable || Marked(asset, text, base) || (asset.textual && Affected(text, base) && !asset.writable)
  }

  function StopError(asset: Asset, text: string, base: string): RewriteError {
    if !asset.readable then CannotRead(asset.path)
    else if Marked(asset, text, base) then MarkerSurvived(asset.path)
    else CannotRewrite(asset.path)
  }

  predicate Offends(asset: Asset, text: string, base: string) {
    !asset.textual && Affected(text, base)
  }

  function AssetAfter(asset: Asset, text: string, base: string): string {
    if asset.textual then StagedPasses(text, base) else text
  }

  /** The first asset that stops the walk. */
  function FirstStop(assets: seq<Asset>, texts: seq<string>, base: string, i: nat): (k: nat)
    requires i <= |assets| == |texts|
    ensures i <= k <= |assets|
    ensures forall j | i <= j < k :: !Stops(assets[j], texts[j], base)
    ensures k < |assets| ==> Stops(assets[k], texts[k], base)
    decreases |assets| - i
  {
    if i == |assets| || Stops(assets[i], texts[i], base) then i
    else FirstStop(assets, texts, base, i + 1)
  }

  function Offenders(assets: seq<Asset>, texts: seq<string>, base: string, n: nat): seq<string>
    requires n <= |assets| == |texts|
  {
    if n == 0 then []
    else Offenders(assets, texts, base, n - 1)
         + if Offends(assets[n - 1], texts[n - 1], base) then [assets[n - 1].path] else []
  }

  function Totals(assets: seq<Asset>, texts: seq<string>, base: string, n: nat): Summary
    requires n <= |assets| == |texts|
  {
    if n == 0 then Summary(0, 0, 0)
    else
      var s, text := Totals(assets, texts, base, n - 1), texts[n - 1];
      if assets[n - 1].textual && Affected(text, base) then
        Summary(s.filesPatched + 1, s.tokensReplaced + CountAll(text, TOKEN),
                s.fontsReplaced + FontCount(text, base) - TokenFontCount(text, base))
      else s
  }

  function Outcome(assets: seq<Asset>, texts: seq<string>, base: string): Result<Summary, RewriteError>
    requires |assets| == |texts|
  {
    var n := |assets|;
    var k := FirstStop(assets, texts, base, 0);
    if k < n then Err(StopError(assets[k], texts[k], base))
    else if Offenders(assets, texts, base, n) != [] then Err(LeakedInto(Offenders(assets, texts, base, n)))
    else Ok(Totals(assets, texts, base, n))
  }

  lemma {:induction false} FirstStopIs(assets: seq<Asset>, texts: seq<string>, base: string, i: nat, k: nat)
    requires i <= k <= |assets| == |texts|
    requires forall j | i <= j < k :: !Stops(assets[j], texts[j], base)
    requires k < |assets| ==> Stops(assets[k], texts[k], base)
    ensures FirstStop(assets, texts, base, i) == k
    decreases k - i
  {
    if i < k {
      FirstStopIs(assets, texts, base, i + 1, k);
    }
  }

  method RewriteTextAssets(assets: seq<Asset>, texts: array<string>, base: string)
    returns (r: Result<Summary, RewriteError>)
    requires |assets| == texts.Length
    modifies texts
    ensures r == Outcome(assets, old(texts[..]), base)
    ensures var k := FirstStop(assets, old(texts[..]), base, 0);
            forall i | 0 <= i < |assets| ::
              || texts[i] == (if i < k then AssetAfter(assets[i], old(texts[i]), base) else old(texts[i]))
              || (i == k && Outcome(assets, old(texts[..]), base) == Err(CannotRewrite(assets[k].path)))
  {
    hide Affected, StagedPasses, MarkerLeft, FontCount, TokenFontCount, CountAll;
    ghost var was := texts[..];
    var filesPatched, tokensReplaced, fontsReplaced, offenders := 0, 0, 0, [];
    var i := 0;
    while i < |assets|
      invariant 0 <= i <= |assets|
      invariant forall j | 0 <= j < i :: !Stops(assets[j], was[j], base)
      invariant forall j | 0 <= j < i :: texts[j] == AssetAfter(assets[j], was[j], base)
      invariant forall j | i <= j < |assets| :: texts[j] == was[j]
      invariant offenders == Offenders(assets, was, base, i)
      invariant Summary(filesPatched, tokensReplaced, fontsReplaced) == Totals(assets, was, base, i)
    {
      if !assets[i].readable {
        FirstStopIs(assets, was, base, 0, i);
        return Err(CannotRead(assets[i].path));
      }
      var data := texts[i];
      var staged, tokenCount, plainFontCount, affected := StageAsset(data, base);
      if !affected {
        UnaffectedStays(data, base);
      } else if !assets[i].textual {
        offenders := offenders + [assets[i].path];
      } else {
        var marked := HasMarker(staged);
        if marked {
          FirstStopIs(assets, was, base, 0, i);
          return Err(MarkerSurvived(assets[i].path));
        }
        if !assets[i].writable {
          // the file may hold anything now
          var torn: string := *;
          texts[i] := torn;
          FirstStopIs(assets, was, base, 0, i);
          return Err(CannotRewrite(assets[i].path));
        }
        texts[i] := staged;
        filesPatched := filesPatched + 1;
        tokensReplaced := tokensReplaced + tokenCount;
        fontsReplaced := fontsReplaced + plainFontCount;
      }
      i := i + 1;
    }
    FirstStopIs(assets, was, base, 0, i);
    if offenders != [] {
      return Err(LeakedInto(offenders));
    }
    return Ok(Summary(filesPatched, tokensReplaced, fontsReplaced));
  }

  method HasMarker(text: string) returns (marked: bool)
    ensures marked <==> MarkerLeft(text)
  {
    marked := Occurs(SLOT_MARKER, text) || Occurs(PAIR_MARKER, text) || Occurs(RELATIVE_MARKER, text);
  }

  lemma UnaffectedStays(data: string, base: string)
    requires !Affected(data, base)
    ensures StagedPasses(data, base) == data
    ensures !Occurs(TOKEN, data)
  {
    hide CountAll, Occurs, RelativeCount, FontCount;
    CountIffOccurs(data, TOKEN);
  }

  // ------------------------------------------------------------ the deployed tree

  lemma {:induction false} OffendersExist(assets: seq<Asset>, texts: seq<string>, base: string, n: nat)
    requires n <= |assets| == |texts|
    ensures Offenders(assets, texts, base, n) == [] <==> forall i | 0 <= i < n :: !Offends(assets[i], texts[i], base)
  {
    hide Offends;
    if n > 0 {
      OffendersExist(assets, texts, base, n - 1);
    }
  }

  /** A text whose stamping is foreseen: its source and its base are tidy, or the simple
      rewriting shows no trace. */
  predicate Foreseen(text: string, base: string) {
    Traceless(Rewritten(text, base)) || (Tidy(text, base) && Sealed(text, base))
  }

  /** A slash that stays before the rest of a placeholder leaves a placeholder. */
  predicate Leaves(text: string, base: string) {
    !Traceless(Rewritten(text, base)) && LeavesSlash(Parted(text, base != ""))
  }

  lemma StampedText(text: string, base: string)
    requires Foreseen(text, base)
    ensures !MarkerLeft(StagedPasses(text, base))
    ensures StagedPasses(text, base) == Rewritten(text, base) <==> !SharesSlash(Cut(text), base)
    ensures Occurs(TOKEN, StagedPasses(text, base)) <==> Leaves(text, base)
  {
    hide Traceless, Rewritten, StagedPasses, MarkerLeft, Occurs, Tidy, Sealed, LeavesSlash, SharesSlash, TOKEN;
    if Traceless(Rewritten(text, base)) {
      TracelessPassesAreOneScan(text, base);
      TracelessHasNoToken(Rewritten(text, base));
      TracelessSharesNothing(text, base);
    } else {
      PassesAreOneScan(text, base);
      NoMarkerLeft(text, base);
      PlaceholderLeft(text, base);
    }
  }

  /** What stamping a tree achieves: the walk succeeds exactly if every file can be read,
      every text that changes can be written, and no reference leaked into a file that is
      not text. A text asset is then its simple rewriting exactly if no font reference
      shares its slash with a placeholder, nothing else changes, and a file holds a
      placeholder exactly if it is text and a slash stays before one. */
  lemma TreeIsDeployed(assets: seq<Asset>, texts: seq<string>, base: string)
    requires |assets| == |texts|
    requires forall i | 0 <= i < |assets| :: assets[i].textual ==> Foreseen(texts[i], base)
    ensures forall i | 0 <= i < |assets| :: !Marked(assets[i], texts[i], base)
    ensures Outcome(assets, texts, base).Ok?
            <==> forall i | 0 <= i < |assets| ::
                   assets[i].readable && (Affected(texts[i], base) ==> assets[i].textual && assets[i].writable)
    ensures forall i | 0 <= i < |assets| ::
              if assets[i].textual
              then AssetAfter(assets[i], texts[i], base) == Rewritten(texts[i], base)
                   <==> !SharesSlash(Cut(texts[i]), base)
              else AssetAfter(assets[i], texts[i], base) == texts[i]
    ensures Outcome(assets, texts, base).Ok? ==>
              forall i | 0 <= i < |assets| ::
                Occurs(TOKEN, AssetAfter(assets[i], texts[i], base))
                <==> assets[i].textual && Leaves(texts[i], base)
  {
    hide Foreseen, Leaves, Rewritten, StagedPasses, Affected, MarkerLeft, Occurs, SharesSlash, Cut, TOKEN;
    forall i | 0 <= i < |assets|
      ensures !Marked(assets[i], texts[i], base)
      ensures assets[i].textual ==>
                (AssetAfter(assets[i], texts[i], base) == Rewritten(texts[i], base)
                 <==> !SharesSlash(Cut(texts[i]), base))
      ensures !Offends(assets[i], texts[i], base) ==>
                (Occurs(TOKEN, AssetAfter(assets[i], texts[i], base))
                 <==> assets[i].textual && Leaves(texts[i], base))
    {
      if assets[i].textual {
        StampedText(texts[i], base);
      } else if !Affected(texts[i], base) {
        UnaffectedStays(texts[i], base);
      }
    }
    OffendersExist(assets, texts, base, |assets|);
    if forall i | 0 <= i < |assets| :: !Stops(assets[i], texts[i], base) {
      FirstStopIs(assets, texts, base, 0, |assets|);
    }
  }

  // ------------------------------------------------------------- the token scan

  /** What a file yields: reads up to the first empty one. */
  function Joined(chunks: seq<string>): string {
    if chunks == [] || chunks[0] == [] then [] else chunks[0] + Joined(chunks[1..])
  }

  /** `s[-n:]`, which is all of `s` for `n == 0` too. */
  function LastPart(s: string, n: nat): string {
    if n == 0 || |s| <= n then s else s[|s| - n..]
  }

  /** No more is carried from chunk to chunk than one character less than a token. */
  lemma CarriedIsShort(s: string, n: nat)
    ensures var r := LastPart(s, n);
            |r| <= |s| && r == s[|s| - |r|..] && if n > 0 then |r| <= n && (|r| < n ==> r == s) else r == s
  {
  }

  lemma {:induction false} Occurrence(needle: string, s: string) returns (i: nat)
    requires Occurs(needle, s)
    ensures i <= |s| && needle <= s[i..]
  {
    if needle <= s {
      assert s[0..] == s;
      return 0;
    } else {
      var k := Occurrence(needle, s[1..]);
      assert s[1..][k..] == s[k + 1..];
      return k + 1;
    }
  }

  /** Once `before` holds no token, its last bytes decide about everything after it. */
  lemma TailDecides(token: string, before: string, chunk: string)
    requires token != [] && !Occurs(token, before)
    ensures Occurs(token, before + chunk) <==> Occurs(token, LastPart(before, |token| - 1) + chunk)
  {
    hide Occurs;
    var tail := LastPart(before, |token| - 1);
    var d := |before| - |tail|;
    var s := before + chunk;
    assert s == before[..d] + (tail + chunk);
    if Occurs(token, tail + chunk) {
      OccursFrom(token, before[..d], tail + chunk);
    }
    if Occurs(token, s) {
      var i := Occurrence(token, s);
      if i + |token| <= |before| {
        assert before[i..] == s[i..][..|before| - i];
        OccursAt(token, before, i);
      } else if i >= d {
        assert (tail + chunk)[i - d..] == s[i..];
        OccursAt(token, tail + chunk, i - d);
      }
    }
  }

  lemma TailOfTail(token: string, before: string, chunk: string)
    requires token != []
    ensures LastPart(LastPart(before, |token| - 1) + chunk, |token| - 1) == LastPart(before + chunk, |token| - 1)
  {
  }

  /** THE CHUNKED SCAN IS EXACT: a file is reported exactly when its whole content holds
      the token, however short the reads are. */
  method ScanFile(chunks: seq<string>, token: string) returns (found: bool)
    requires token != []
    ensures found <==> Occurs(token, Joined(chunks))
  {
    hide Occurs;
    var overlap := |token| - 1;
    var tail := "";
    ghost var before := "";
    NothingInEmpty(token);
    assert before + Joined(chunks) == Joined(chunks);
    var i := 0;
    while i < |chunks|
      invariant 0 <= i <= |chunks|
      invariant Joined(chunks) == before + Joined(chunks[i..])
      invariant !Occurs(token, before)
      invariant tail == LastPart(before, overlap)
    {
      var chunk := chunks[i];
      if chunk == [] {
        assert Joined(chunks) == before;
        return false;
      }
      var haystack := tail + chunk;
      TailDecides(token, before, chunk);
      assert Joined(chunks[i..]) == chunk + Joined(chunks[i + 1..]) by {
        assert chunks[i..][1..] == chunks[i + 1..];
      }
      assert Joined(chunks) == (before + chunk) + Joined(chunks[i + 1..]);
      if Occurs(token, haystack) {
        OccursInPrefix(token, before + chunk, Joined(chunks[i + 1..]));
        return true;
      }
      TailOfTail(token, before, chunk);
      tail := LastPart(haystack, overlap);
      before := before + chunk;
      i := i + 1;
    }
    assert Joined(chunks) == before;
    return false;
  }

  lemma NothingInEmpty(token: string)
    requires token != []
    ensures !Occurs(token, "")
  {
  }

  /** The paths of the files that hold the token, in the order of the walk. */
  function Survivors(paths: seq<string>, files: seq<seq<string>>, token: string, n: nat): seq<string>
    requires n <= |paths| == |files|
  {
    if n == 0 then []
    else Survivors(paths, files, token, n - 1)
         + if Occurs(token, Joined(files[n - 1])) then [paths[n - 1]] else []
  }

  /** Fails with the first ten survivors. */
  method AssertNoTokens(paths: seq<string>, files: seq<seq<string>>, token: string)
    returns (r: Result<(), seq<string>>)
    requires token != [] && |paths| == |files|
    ensures var all := Survivors(paths, files, token, |files|);
            r == if all == [] then Ok(()) else Err(if |all| <= 10 then all else all[..10])
  {
    hide Occurs, Joined;
    var offenders := [];
    var i := 0;
    while i < |files|
      invariant 0 <= i <= |files|
      invariant offenders == Survivors(paths, files, token, i)
    {
      var found := ScanFile(files[i], token);
      if found {
        offenders := offenders + [paths[i]];
      }
      i := i + 1;
    }
    if offenders != [] {
      return Err(if |offenders| <= 10 then offenders else offenders[..10]);
    }
    return Ok(());
  }

  lemma {:induction false} NoSurvivors(paths: seq<string>, files: seq<seq<string>>, token: string, n: nat)
    requires n <= |paths| == |files|
    ensures Survivors(paths, files, token, n) == [] <==> forall i | 0 <= i < n :: !Occurs(token, Joined(files[i]))
  {
    hide Occurs, Joined;
    if n > 0 {
      NoSurvivors(paths, files, token, n - 1);
    }
  }

  /** A stamped tree passes the scan that follows, however the files are read, exactly if
      no slash stays before the rest of a placeholder in any text. */
  lemma DeployedTreePassesScan(assets: seq<Asset>, texts: seq<string>, base: string,
                               paths: seq<string>, files: seq<seq<string>>)
    requires |assets| == |texts| == |paths| == |files|
    requires forall i | 0 <= i < |assets| :: assets[i].textual ==> Foreseen(texts[i], base)
    requires Outcome(assets, texts, base).Ok?
    requires forall i | 0 <= i < |assets| :: Joined(files[i]) == AssetAfter(assets[i], texts[i], base)
    ensures Survivors(paths, files, TOKEN, |files|) == []
            <==> forall i | 0 <= i < |assets| :: !(assets[i].textual && Leaves(texts[i], base))
  {
    hide *;
    TreeIsDeployed(assets, texts, base);
    forall i | 0 <= i < |files|
      ensures Occurs(TOKEN, Joined(files[i])) <==> assets[i].textual && Leaves(texts[i], base)
    {
      assert Joined(files[i]) == AssetAfter(assets[i], texts[i], base);
    }
    NoSurvivors(paths, files, TOKEN, |files|);
  }
}
