/**
 Stamping the deployed base path onto a text asset.

 The program works in passes: it hides the five kinds of references behind markers
 one after the other and then replaces the markers. `Rewritten` is the simple
 definition: one scan from left to right that rewrites each reference it meets.
 `TracelessPassesAreOneScan` says that the passes compute the same wherever the rewritten
 text is free of the words that the markers and the placeholder are made of; module
 `StaticPasses` says exactly when, on the source and the base alone.

 Bytes are characters here: all patterns are ASCII.
 */
module StaticRewrite {
  import opened Common
  import opened Sequences

  const TOKEN := "/__DROPPEDNEEDLE_BASE__"
  const FONT := "/fonts/"
  const TOKEN_FONT := TOKEN + FONT
  const RELATIVE_TOKEN_FONT := "../__DROPPEDNEEDLE_BASE__/fonts/"
  const RELATIVE_FONT := "../fonts/"

  /** The markers, between their underscores. */
  const SLOT_CORE := "DROPPEDNEEDLE_FONT_URL_SLOT"
  const PAIR_CORE := "DROPPEDNEEDLE_FONT_URL_PAIR"
  const RELATIVE_CORE := "DROPPEDNEEDLE_RELATIVE_FONT_URL_PAIR"

  const SLOT_MARKER := "__DROPPEDNEEDLE_FONT_URL_SLOT__"
  const PAIR_MARKER := "__DROPPEDNEEDLE_FONT_URL_PAIR__"
  const RELATIVE_MARKER := "__DROPPEDNEEDLE_RELATIVE_FONT_URL_PAIR__"

  // ------------------------------------------------------------- the one scan

  datatype Kind = RelativeTokenFont | RelativeFont | TokenFont | Font | Token | Byte(c: char)

  datatype Pieces = Nothing | Piece(kind: Kind, rest: Pieces)

  /** Cuts a text into references and single bytes, from left to right. */
  function Cut(data: string): Pieces
    decreases |data|
  {
    if data == [] then Nothing
    else if RELATIVE_TOKEN_FONT <= data then Piece(RelativeTokenFont, Cut(data[|RELATIVE_TOKEN_FONT|..]))
    else if RELATIVE_FONT <= data then Piece(RelativeFont, Cut(data[|RELATIVE_FONT|..]))
    else if TOKEN_FONT <= data then Piece(TokenFont, Cut(data[|TOKEN_FONT|..]))
    else if FONT <= data then Piece(Font, Cut(data[|FONT|..]))
    else if TOKEN <= data then Piece(Token, Cut(data[|TOKEN|..]))
    else Piece(Byte(data[0]), Cut(data[1..]))
  }

  /** What stands for each kind of reference. */
  datatype Rendering = Rendering(
    relativeTokenFont: string, relativeFont: string, tokenFont: string, font: string, token: string)

  function TextOf(kind: Kind, r: Rendering): string {
    match kind
    case RelativeTokenFont => r.relativeTokenFont
    case RelativeFont => r.relativeFont
    case TokenFont => r.tokenFont
    case Font => r.font
    case Token => r.token
    case Byte(c) => [c]
  }

  function Flat(p: Pieces, r: Rendering): string {
    if p.Nothing? then [] else TextOf(p.kind, r) + Flat(p.rest, r)
  }

  const Source := Rendering(RELATIVE_TOKEN_FONT, RELATIVE_FONT, TOKEN_FONT, FONT, TOKEN)

  /** The deployed text: relative font references lose an embedded placeholder, all
      other font references and placeholders get the base, once. */
  function Deployed(base: string): Rendering {
    Rendering(RELATIVE_FONT, RELATIVE_FONT, base + FONT, base + FONT, base)
  }

  function Rewritten(data: string, base: string): string {
    Flat(Cut(data), Deployed(base))
  }

  // --------------------------------------------------------------- the passes

  /** Passes 1 and 2 hide the relative font references. */
  function RelativeHidden(data: string): string {
    ReplaceAll(ReplaceAll(data, RELATIVE_TOKEN_FONT, RELATIVE_MARKER), RELATIVE_FONT, RELATIVE_MARKER)
  }

  function RelativeCount(data: string): nat {
    CountAll(data, RELATIVE_TOKEN_FONT)
    + CountAll(ReplaceAll(data, RELATIVE_TOKEN_FONT, RELATIVE_MARKER), RELATIVE_FONT)
  }

  function TokenFontCount(data: string, base: string): nat {
    if base == "" then 0 else CountAll(RelativeHidden(data), TOKEN_FONT)
  }

  function FontCount(data: string, base: string): nat {
    if base == "" then 0 else CountAll(RelativeHidden(data), FONT)
  }

  /** Whether an asset is written at all. */
  predicate Affected(data: string, base: string) {
    !(CountAll(data, TOKEN) == 0 && FontCount(data, base) == 0 && RelativeCount(data) == 0)
  }

  /** The text after the staged passes. The counts decide which of them run. */
  function StagedPasses(data: string, base: string): string {
    if !Affected(data, base) then data
    else
      var s2 := RelativeHidden(data);
      var s3 := if TokenFontCount(data, base) > 0 then ReplaceAll(s2, TOKEN_FONT, PAIR_MARKER) else s2;
      var s4 := if FontCount(data, base) != TokenFontCount(data, base)
                then ReplaceAll(ReplaceAll(s3, FONT, SLOT_MARKER), SLOT_MARKER, base + FONT) else s3;
      var s5 := if CountAll(data, TOKEN) > 0 then ReplaceAll(s4, TOKEN, base) else s4;
      var s6 := if TokenFontCount(data, base) > 0 then ReplaceAll(s5, PAIR_MARKER, base + FONT) else s5;
      if RelativeCount(data) > 0 then ReplaceAll(s6, RELATIVE_MARKER, RELATIVE_FONT) else s6
  }

  predicate MarkerLeft(text: string) {
    Occurs(SLOT_MARKER, text) || Occurs(PAIR_MARKER, text) || Occurs(RELATIVE_MARKER, text)
  }

  // ------------------------------------------------------------ cutting is exact

  lemma {:induction false} FlatOfCut(data: string)
    ensures Flat(Cut(data), Source) == data
    decreases |data|
  {
    hide FONT, RELATIVE_FONT, RELATIVE_TOKEN_FONT, TOKEN, TOKEN_FONT;
    if data != [] {
      ReferencesBySpelling();
      TokenFirst();
      var p := Cut(data);
      var t := TextOf(p.kind, Source);
      assert t <= data && p.rest == Cut(data[|t|..]);
      FlatOfCut(data[|t|..]);
    }
  }

  /** The pieces that cutting a text yields. */
  ghost predicate IsCut(p: Pieces) {
    p == Cut(Flat(p, Source))
  }

  lemma CutTail(p: Pieces)
    requires p.Piece? && IsCut(p)
    ensures IsCut(p.rest)
  {
    var data := Flat(p, Source);
    assert data[|TextOf(p.kind, Source)|..] == Flat(p.rest, Source);
  }

  // ------------------------------------------- matches that two renderings share

  /** No part of `w` that runs to its end can begin to match `t`. */
  predicate Repels(t: string, w: string) {
    forall j | 0 <= j < |w| :: Differ(t, w[j..])
  }

  predicate Differ(t: string, w: string) {
    exists i | 0 <= i < |t| && i < |w| :: t[i] != w[i]
  }

  predicate Agree(r: Rendering, q: Rendering, w: string) {
    && (r.relativeTokenFont == q.relativeTokenFont || Repels(r.relativeTokenFont, w))
    && (r.relativeFont == q.relativeFont || Repels(r.relativeFont, w))
    && (r.tokenFont == q.tokenFont || Repels(r.tokenFont, w))
    && (r.font == q.font || Repels(r.font, w))
    && (r.token == q.token || Repels(r.token, w))
  }

  lemma RepelsTail(t: string, w: string, n: nat)
    requires n <= |w| && Repels(t, w)
    ensures Repels(t, w[n..])
  {
    forall j | 0 <= j < |w[n..]|
      ensures Differ(t, w[n..][j..])
    {
      assert w[n..][j..] == w[n + j..];
    }
  }

  lemma AgreeTail(r: Rendering, q: Rendering, w: string, n: nat)
    requires n <= |w| && Agree(r, q, w)
    ensures Agree(r, q, w[n..])
  {
    forall t | Repels(t, w)
      ensures Repels(t, w[n..])
    {
      RepelsTail(t, w, n);
    }
  }

  /** A step of reading `w` against a text `t` and what follows it. */
  lemma ReadPast(w: string, t: string, u: string)
    requires w <= t + u
    ensures |w| > |t| ==> w[|t|..] <= u && w == t + w[|t|..]
    ensures |w| <= |t| ==> w <= t
    ensures !Differ(t, w)
  {
  }

  /** A match that cannot enter the texts in which two renderings differ is a match in
      both. */
  lemma {:induction false} Transfer(p: Pieces, r: Rendering, q: Rendering, w: string)
    requires Agree(r, q, w) && w <= Flat(p, r)
    ensures w <= Flat(p, q)
  {
    if w != [] {
      var t, u := TextOf(p.kind, r), Flat(p.rest, r);
      ReadPast(w, t, u);
      assert w[0..] == w;
      if t == TextOf(p.kind, q) && |w| > |t| {
        AgreeTail(r, q, w, |t|);
        Transfer(p.rest, r, q, w[|t|..]);
      }
    }
  }

  /** A word is repelled when each of its underscores is followed by another character
      and it has no slash. */
  predicate Plain(w: string) {
    forall i | 0 <= i < |w| :: PlainAt(w, i)
  }

  predicate PlainAt(w: string, i: nat)
    requires i < |w|
  {
    w[i] != '/' && (w[i] == '_' ==> i + 1 < |w| && w[i + 1] != '_')
  }

  /** A text that begins with a slash, or a marker. */
  predicate Foreign(t: string) {
    t != [] && (t[0] == '/' || (|t| > 16 && t[..16] == "__DROPPEDNEEDLE_" && t[16] != 'B'))
  }

  lemma ForeignRepels(t: string, w: string)
    requires Foreign(t) && Plain(w)
    ensures Repels(t, w)
  {
    assert t[0] == '/' || (|t| > 16 && t[0] == '_' && t[1] == '_');
    forall j | 0 <= j < |w|
      ensures Differ(t, w[j..])
    {
      assert PlainAt(w, j);
      if w[j] != t[0] {
        assert w[j..][0] == w[j];
      } else {
        assert w[j..][1] == w[j + 1];
      }
    }
  }

  // ------------------------------------------- the words that must not appear

  /** The placeholder without its end. */
  const STEM := "/__DROPPEDNEEDLE_BASE"

  predicate Traceless(text: string) {
    && !Occurs(STEM, text)
    && !Occurs(SLOT_CORE, text) && !Occurs(PAIR_CORE, text) && !Occurs(RELATIVE_CORE, text)
  }

  predicate IsMarker(pattern: string) {
    pattern == SLOT_MARKER || pattern == PAIR_MARKER || pattern == RELATIVE_MARKER
  }

  function Core(marker: string): string {
    if marker == SLOT_MARKER then SLOT_CORE
    else if marker == PAIR_MARKER then PAIR_CORE
    else RELATIVE_CORE
  }

  lemma RelativeMarkerStart()
    ensures 2 + |RELATIVE_CORE| < |RELATIVE_MARKER|
    ensures RELATIVE_MARKER[0] == '_' && RELATIVE_MARKER[1] == '_' && RELATIVE_MARKER[2] == 'D'
  {
  }

  lemma RelativeCoreInside()
    ensures RELATIVE_CORE <= RELATIVE_MARKER[2..]
  {
    assert RELATIVE_MARKER[2..][..36] == RELATIVE_CORE;
  }

  ghost predicate Inside(core: string, marker: string) {
    && 2 + |core| < |marker| && core <= marker[2..]
    && marker[0] == '_' && marker[1] == '_' && marker[2] == 'D'
  }

  lemma FontCoresInside()
    ensures Inside(SLOT_CORE, SLOT_MARKER) && Inside(PAIR_CORE, PAIR_MARKER)
  {
  }

  lemma CoreInside(marker: string)
    requires IsMarker(marker)
    ensures 2 + |Core(marker)| < |marker| && Core(marker) <= marker[2..]
    ensures marker[0] == '_' && marker[1] == '_' && marker[2] == 'D'
  {
    hide SLOT_MARKER, PAIR_MARKER, RELATIVE_MARKER, SLOT_CORE, PAIR_CORE, RELATIVE_CORE;
    RelativeMarkerStart();
    RelativeCoreInside();
    FontCoresInside();
  }

  lemma CoreIsPlain(marker: string)
    requires IsMarker(marker)
    ensures Plain(Core(marker)) && Core(marker) != []
  {
  }

  /** Every reference is already deployed or still foreign. */
  predicate Staged(r: Rendering, base: string) {
    var q := Deployed(base);
    && (r.relativeTokenFont == q.relativeTokenFont || Foreign(r.relativeTokenFont))
    && (r.relativeFont == q.relativeFont || Foreign(r.relativeFont))
    && (r.tokenFont == q.tokenFont || Foreign(r.tokenFont))
    && (r.font == q.font || Foreign(r.font))
    && (r.token == q.token || Foreign(r.token))
  }

  predicate FreeOf(word: string, p: Pieces, base: string) {
    !Occurs(word, Flat(p, Deployed(base)))
  }

  /** The deployed text shows no trace of the placeholder or of a marker. */
  predicate Clean(p: Pieces, base: string) {
    FreeOf(STEM, p, base) && FreeOf(SLOT_CORE, p, base) && FreeOf(PAIR_CORE, p, base)
    && FreeOf(RELATIVE_CORE, p, base)
  }

  lemma FreeTail(word: string, p: Pieces, base: string)
    requires p.Piece? && FreeOf(word, p, base)
    ensures FreeOf(word, p.rest, base)
    ensures !Occurs(word, TextOf(p.kind, Deployed(base)) + Flat(p.rest, Deployed(base)))
  {
    if Occurs(word, Flat(p.rest, Deployed(base))) {
      OccursFrom(word, TextOf(p.kind, Deployed(base)), Flat(p.rest, Deployed(base)));
    }
  }

  lemma CleanTail(p: Pieces, base: string)
    requires p.Piece? && Clean(p, base)
    ensures Clean(p.rest, base)
  {
    hide FreeOf;
    FreeTail(STEM, p, base);
    FreeTail(SLOT_CORE, p, base);
    FreeTail(PAIR_CORE, p, base);
    FreeTail(RELATIVE_CORE, p, base);
  }

  lemma CleanStem(p: Pieces, base: string)
    requires p.Piece? && Clean(p, base)
    ensures !Occurs(STEM, TextOf(p.kind, Deployed(base)) + Flat(p.rest, Deployed(base)))
  {
    hide FreeOf;
    FreeTail(STEM, p, base);
  }

  lemma CleanCore(marker: string, p: Pieces, base: string)
    requires IsMarker(marker) && Clean(p, base)
    ensures FreeOf(Core(marker), p, base)
  {
    hide FreeOf;
  }

  lemma StagedText(kind: Kind, r: Rendering, base: string)
    requires Staged(r, base)
    ensures TextOf(kind, r) == TextOf(kind, Deployed(base)) || Foreign(TextOf(kind, r))
  {
  }

  lemma StagedAgrees(r: Rendering, base: string, w: string)
    requires Staged(r, base) && Plain(w)
    ensures Agree(r, Deployed(base), w)
  {
    forall t | Foreign(t)
      ensures Repels(t, w)
    {
      ForeignRepels(t, w);
    }
  }

  /** A match that begins in a deployed text shows in the deployed whole. */
  lemma WordShows(word: string, t: string, p: Pieces, r: Rendering, base: string, k: nat)
    requires word != [] && Agree(r, Deployed(base), word[1..])
    requires k < |t| && word <= (t + Flat(p, r))[k..]
    ensures Occurs(word, t + Flat(p, Deployed(base)))
  {
    hide Deployed, Flat, Occurs, Agree;
    var a, u, v := t[k..], Flat(p, r), Flat(p, Deployed(base));
    assert (t + u)[k..] == a + u && (t + v)[k..] == a + v;
    ReadPast(word, a, u);
    if |word| > |a| {
      assert word[1..][|a| - 1..] == word[|a|..];
      AgreeTail(r, Deployed(base), word[1..], |a| - 1);
      Transfer(p, r, Deployed(base), word[|a|..]);
    }
    assert word <= a + v;
    OccursAt(word, t + v, k);
  }

  lemma CoreShows(marker: string, t: string, p: Pieces, r: Rendering, base: string, k: nat)
    requires IsMarker(marker) && Staged(r, base)
    requires k < |t| && Core(marker) <= (t + Flat(p, r))[k..]
    ensures Occurs(Core(marker), t + Flat(p, Deployed(base)))
  {
    hide Staged, Flat, Deployed, Occurs, IsMarker, Core;
    CoreIsPlain(marker);
    CoreInside(marker);
    PlainTail(Core(marker), 1);
    StagedAgrees(r, base, Core(marker)[1..]);
    WordShows(Core(marker), t, p, r, base, k);
  }

  lemma PlainTail(w: string, n: nat)
    requires n <= |w| && Plain(w)
    ensures Plain(w[n..])
  {
    forall i | 0 <= i < |w[n..]|
      ensures PlainAt(w[n..], i)
    {
      assert PlainAt(w, n + i);
    }
  }

  /** The placeholder's stem, after its slash, cannot enter a foreign text. */
  lemma StemRepelled(t: string)
    requires Foreign(t)
    ensures Repels(t, STEM[1..])
  {
    var w := STEM[1..];
    assert t[0] == '/' || (|t| > 16 && t[0] == '_' && t[1] == '_' && t[16] != 'B');
    forall j | 0 <= j < |w|
      ensures Differ(t, w[j..])
    {
      assert w[j] != '/';
      if w[j] != t[0] {
        assert w[j..][0] == w[j];
      } else if j == 0 {
        assert w[0..][16] == 'B';
      } else {
        assert j + 1 < |w| && w[j..][1] == w[j + 1] != '_';
      }
    }
  }

  lemma StemAgrees(r: Rendering, base: string)
    requires Staged(r, base)
    ensures Agree(r, Deployed(base), STEM[1..])
  {
    forall t | Foreign(t)
      ensures Repels(t, STEM[1..])
    {
      StemRepelled(t);
    }
  }

  // ------------------------------------------------------------- no false match

  lemma ForeignStart(t: string)
    requires Foreign(t)
    ensures t != [] && (t[0] == '/' || (|t| > 16 && t[0] == '_' && t[1] == '_' && t[16] != 'B'))
  {
  }

  lemma ForeignStops(t: string, marker: string, m: nat)
    requires Foreign(t) && IsMarker(marker) && 1 <= m <= 2
    ensures Differ(t, marker[m..])
  {
    hide IsMarker, Core, Foreign;
    CoreInside(marker);
    ForeignStart(t);
    assert marker[m..][0] == marker[m];
    assert m == 1 ==> marker[m..][1] == 'D';
  }

  /** No text continues a marker from before its core. */
  lemma {:induction false} NoTail(p: Pieces, r: Rendering, base: string, marker: string, m: nat)
    requires Staged(r, base) && Clean(p, base) && IsMarker(marker) && 1 <= m <= 2
    ensures !(marker[m..] <= Flat(p, r))
  {
    hide Staged, FreeOf, IsMarker, Core, Deployed, TextOf, Occurs, Clean, Foreign, Differ;
    CoreInside(marker);
    if p.Piece? && marker[m..] <= Flat(p, r) {
      CleanCore(marker, p, base);
      CleanTail(p, base);
      StagedText(p.kind, r, base);
      var t, u, w := TextOf(p.kind, r), Flat(p.rest, r), marker[m..];
      ReadPast(w, t, u);
      if Foreign(t) {
        ForeignStops(t, marker, m);
      } else if m + |t| <= 2 {
        assert marker[m + |t|..] == w[|t|..];
        NoTail(p.rest, r, base, marker, m + |t|);
      } else {
        FreeTail(Core(marker), p, base);
        assert w[2 - m..] == marker[2..];
        assert w[2 - m..] <= (t + u)[2 - m..];
        CoreShows(marker, t, p.rest, r, base, 2 - m);
      }
    }
  }

  /** No marker begins in a deployed text. */
  lemma NoneInDeployed(t: string, p: Pieces, r: Rendering, base: string, marker: string)
    requires Staged(r, base) && IsMarker(marker) && Clean(p, base)
    requires !Occurs(Core(marker), t + Flat(p, Deployed(base)))
    ensures NoneBegins(marker, t, Flat(p, r))
  {
    hide Staged, Clean, IsMarker, Core, Deployed, Flat, Occurs;
    CoreInside(marker);
    var u := Flat(p, r);
    forall o | 0 <= o < |t|
      ensures !(marker <= (t + u)[o..])
    {
      if marker <= (t + u)[o..] {
        if |t| - o <= 2 {
          assert (t + u)[o..][|t| - o..] == u;
          NoTail(p, r, base, marker, |t| - o);
        } else {
          assert (t + u)[o + 2..] == (t + u)[o..][2..];
          CoreShows(marker, t, p, r, base, o + 2);
        }
      }
    }
  }

  /** No placeholder begins in a deployed text. */
  lemma NoTokenInDeployed(t: string, p: Pieces, r: Rendering, base: string)
    requires Staged(r, base) && !Occurs(STEM, t + Flat(p, Deployed(base)))
    ensures NoneBegins(TOKEN, t, Flat(p, r))
  {
    hide Staged, Deployed, Flat, Occurs, Agree;
    StemAgrees(r, base);
    assert STEM <= TOKEN;
    forall o | 0 <= o < |t|
      ensures !(TOKEN <= (t + Flat(p, r))[o..])
    {
      if TOKEN <= (t + Flat(p, r))[o..] {
        WordShows(STEM, t, p, r, base, o);
      }
    }
  }

  /** Where the two underscores before a core can stand in a marker or the placeholder. */
  lemma OnlyStart(t: string, o: nat)
    requires (IsMarker(t) || t == TOKEN) && o + 2 < |t|
    requires t[o] == '_' && t[o + 1] == '_' && t[o + 2] == 'D'
    ensures o == (if t == TOKEN then 1 else 0)
  {
  }

  lemma BehindTheSeam(w: string, t: string, u: string, o: nat)
    requires o <= |t| && |t| - o <= |w| && w <= (t + u)[o..]
    ensures w[|t| - o..] <= u
  {
    assert (t + u)[o..][|t| - o..] == u;
  }

  lemma Mismatch(w: string, t: string, u: string, o: nat)
    requires exists i :: 0 <= i < |w| && o + i < |t| && w[i] != t[o + i]
    ensures !(w <= (t + u)[o..])
  {
    var i :| 0 <= i < |w| && o + i < |t| && w[i] != t[o + i];
    assert (t + u)[o..][i] == t[o + i];
  }

  lemma StartsAlike(w: string, t: string, u: string, o: nat)
    requires o + 2 < |t| && |w| > 2 && w <= (t + u)[o..]
    ensures t[o] == w[0] && t[o + 1] == w[1] && t[o + 2] == w[2]
  {
    assert forall i | 0 <= i < 3 :: (t + u)[o..][i] == t[o + i];
    assert w[1] == (t + u)[o..][1] && w[2] == (t + u)[o..][2];
  }

  lemma NotInside(t: string, u: string, marker: string, o: nat)
    requires IsMarker(marker) && (IsMarker(t) || t == TOKEN) && t != marker && o + 2 < |t|
    ensures !(marker <= (t + u)[o..])
  {
    hide IsMarker, Core, TOKEN;
    CoreInside(marker);
    MarkersDiffer(t, marker);
    if marker <= (t + u)[o..] {
      StartsAlike(marker, t, u, o);
      OnlyStart(t, o);
      Mismatch(marker, t, u, o);
    }
  }

  /** No marker begins in another marker or in the placeholder. */
  lemma NoneInMarker(t: string, p: Pieces, r: Rendering, base: string, marker: string)
    requires Staged(r, base) && IsMarker(marker) && Clean(p, base)
    requires (IsMarker(t) || t == TOKEN) && t != marker
    ensures NoneBegins(marker, t, Flat(p, r))
  {
    hide Staged, Clean, IsMarker, Core, Flat, TOKEN;
    CoreInside(marker);
    forall o | 0 <= o < |t|
      ensures !(marker <= (t + Flat(p, r))[o..])
    {
      if o + 2 < |t| {
        NotInside(t, Flat(p, r), marker, o);
      } else if marker <= (t + Flat(p, r))[o..] {
        BehindTheSeam(marker, t, Flat(p, r), o);
        NoTail(p, r, base, marker, |t| - o);
      }
    }
  }

  lemma MarkersDiffer(t: string, marker: string)
    requires IsMarker(marker) && (IsMarker(t) || t == TOKEN) && t != marker
    ensures var o := if t == TOKEN then 1 else 0;
            exists i :: 0 <= i < |marker| && o + i < |t| && marker[i] != t[o + i]
  {
    if t == TOKEN {
      assert marker[16] != t[1 + 16];
    } else if marker[16] != t[16] {
      assert marker[16] != t[0 + 16];
    } else {
      assert marker[25] != t[0 + 25];
    }
  }

  /** A pattern does not begin in a text without its first character. */
  lemma NoneWithoutFirst(pattern: string, t: string, u: string)
    requires pattern != [] && pattern[0] !in t
    ensures NoneBegins(pattern, t, u)
  {
  }

  // ------------------------------------------------------- the passes, one by one

  const Hidden1 := Source.(relativeTokenFont := RELATIVE_MARKER)
  const Hidden2 := Hidden1.(relativeFont := RELATIVE_MARKER)
  const Hidden3 := Hidden2.(tokenFont := PAIR_MARKER)
  const Hidden4 := Hidden3.(font := SLOT_MARKER)

  function Shown5(base: string): Rendering {
    Hidden3.(font := base + FONT)
  }

  function Shown6(base: string): Rendering {
    Shown5(base).(token := base)
  }

  function Shown7(base: string): Rendering {
    Shown6(base).(tokenFont := base + FONT)
  }

  /** How many pieces of a kind there are. */
  function Tally(p: Pieces, kind: Kind): nat {
    if p.Nothing? then 0 else (if p.kind == kind then 1 else 0) + Tally(p.rest, kind)
  }

  /** The first piece is the one match of the pattern in its text. */
  lemma HitPiece(p: Pieces, r: Rendering, q: Rendering, pattern: string, substitute: string)
    requires pattern != [] && p.Piece?
    requires TextOf(p.kind, r) == pattern && TextOf(p.kind, q) == substitute
    requires ReplaceAll(Flat(p.rest, r), pattern, substitute) == Flat(p.rest, q)
    ensures ReplaceAll(Flat(p, r), pattern, substitute) == Flat(p, q)
    ensures CountAll(Flat(p, r), pattern) == 1 + CountAll(Flat(p.rest, r), pattern)
  {
    Hit(pattern, substitute, Flat(p.rest, r));
  }

  /** No match begins in the first piece. */
  lemma MissPiece(p: Pieces, r: Rendering, q: Rendering, pattern: string, substitute: string)
    requires pattern != [] && p.Piece? && TextOf(p.kind, r) == TextOf(p.kind, q)
    requires NoneBegins(pattern, TextOf(p.kind, r), Flat(p.rest, r))
    requires ReplaceAll(Flat(p.rest, r), pattern, substitute) == Flat(p.rest, q)
    ensures ReplaceAll(Flat(p, r), pattern, substitute) == Flat(p, q)
    ensures CountAll(Flat(p, r), pattern) == CountAll(Flat(p.rest, r), pattern)
  {
    Miss(pattern, substitute, TextOf(p.kind, r), Flat(p.rest, r));
  }

  lemma NoneInByte(p: Pieces, r: Rendering, pattern: string)
    requires p.Piece? && p.kind.Byte? && !(pattern <= Flat(p, r))
    ensures NoneBegins(pattern, TextOf(p.kind, r), Flat(p.rest, r))
  {
    assert Flat(p, r)[0..] == Flat(p, r);
  }

  lemma EmptyFlat(r: Rendering, q: Rendering, pattern: string, substitute: string)
    requires pattern != []
    ensures ReplaceAll(Flat(Nothing, r), pattern, substitute) == Flat(Nothing, q)
    ensures CountAll(Flat(Nothing, r), pattern) == 0
  {
  }

  /** Which characters the references and the markers are without. */
  lemma Alphabets()
    ensures '.' !in TOKEN_FONT && '.' !in FONT && '.' !in TOKEN
    ensures '.' !in SLOT_MARKER && '.' !in PAIR_MARKER && '.' !in RELATIVE_MARKER
    ensures '/' !in SLOT_MARKER && '/' !in PAIR_MARKER && '/' !in RELATIVE_MARKER
    ensures '_' !in FONT && '_' !in RELATIVE_FONT
  {
    assert forall i | 0 <= i < |TOKEN_FONT| :: TOKEN_FONT[i] != '.';
    assert forall i | 0 <= i < |RELATIVE_MARKER| :: RELATIVE_MARKER[i] != '.' && RELATIVE_MARKER[i] != '/';
    assert forall i | 0 <= i < |SLOT_MARKER| :: SLOT_MARKER[i] != '.' && SLOT_MARKER[i] != '/';
    assert forall i | 0 <= i < |PAIR_MARKER| :: PAIR_MARKER[i] != '.' && PAIR_MARKER[i] != '/';
  }

  /** Where a single byte was cut off, no reference begins. */
  lemma ByteChosen(p: Pieces)
    requires IsCut(p) && p.Piece? && p.kind.Byte?
    ensures !(RELATIVE_TOKEN_FONT <= Flat(p, Source)) && !(RELATIVE_FONT <= Flat(p, Source))
    ensures !(FONT <= Flat(p, Source))
  {
  }

  /** Where a placeholder alone was cut off, no font reference follows it. */
  lemma TokenChosen(p: Pieces)
    requires IsCut(p) && p.Piece? && p.kind.Token?
    ensures !(FONT <= Flat(p.rest, Source))
  {
    assert FONT <= Flat(p.rest, Source) ==> TOKEN_FONT <= Flat(p, Source);
  }

  lemma NoneInRelativeFont(u: string)
    ensures NoneBegins(RELATIVE_TOKEN_FONT, RELATIVE_FONT, u)
  {
    forall o | 0 <= o < |RELATIVE_FONT|
      ensures !(RELATIVE_TOKEN_FONT <= (RELATIVE_FONT + u)[o..])
    {
      var s := (RELATIVE_FONT + u)[o..];
      assert s[0] == RELATIVE_FONT[o];
      assert o + 1 < |RELATIVE_FONT| ==> s[1] == RELATIVE_FONT[o + 1];
      assert o == 0 ==> s[3] == RELATIVE_FONT[3];
    }
  }

  lemma None1(p: Pieces)
    requires IsCut(p) && p.Piece? && !p.kind.RelativeTokenFont?
    ensures NoneBegins(RELATIVE_TOKEN_FONT, TextOf(p.kind, Source), Flat(p.rest, Source))
  {
    hide IsCut, Flat, NoneBegins;
    Alphabets();
    match p.kind
    case Byte(_) =>
      ByteChosen(p);
      NoneInByte(p, Source, RELATIVE_TOKEN_FONT);
    case RelativeFont => NoneInRelativeFont(Flat(p.rest, Source));
    case TokenFont => NoneWithoutFirst(RELATIVE_TOKEN_FONT, TextOf(p.kind, Source), Flat(p.rest, Source));
    case Font => NoneWithoutFirst(RELATIVE_TOKEN_FONT, TextOf(p.kind, Source), Flat(p.rest, Source));
    case Token => NoneWithoutFirst(RELATIVE_TOKEN_FONT, TextOf(p.kind, Source), Flat(p.rest, Source));
  }

  /** Pass 1 hides `../<placeholder>/fonts/`. */
  lemma {:induction false} Pass1(p: Pieces)
    requires IsCut(p)
    ensures ReplaceAll(Flat(p, Source), RELATIVE_TOKEN_FONT, RELATIVE_MARKER) == Flat(p, Hidden1)
    ensures CountAll(Flat(p, Source), RELATIVE_TOKEN_FONT) == Tally(p, RelativeTokenFont)
  {
    hide ReplaceAll, CountAll, Cut, Flat, Occurs, IsCut, Clean, NoneBegins;
    if p.Piece? {
      CutTail(p);
      Pass1(p.rest);
      if p.kind.RelativeTokenFont? {
        HitPiece(p, Source, Hidden1, RELATIVE_TOKEN_FONT, RELATIVE_MARKER);
      } else {
        None1(p);
        MissPiece(p, Source, Hidden1, RELATIVE_TOKEN_FONT, RELATIVE_MARKER);
      }
    } else {
      EmptyFlat(Source, Hidden1, RELATIVE_TOKEN_FONT, RELATIVE_MARKER);
    }
  }

  /** Without underscores a match cannot enter a marker. */
  lemma PlainTransfer(p: Pieces, r: Rendering, w: string)
    requires r == Hidden1 || r == Hidden2 || r == Hidden3
    requires '_' !in w && w <= Flat(p, r)
    ensures w <= Flat(p, Source)
  {
    assert Repels(RELATIVE_MARKER, w) && Repels(PAIR_MARKER, w) by {
      forall j | 0 <= j < |w|
        ensures Differ(RELATIVE_MARKER, w[j..]) && Differ(PAIR_MARKER, w[j..])
      {
        assert w[j..][0] != RELATIVE_MARKER[0] && w[j..][0] != PAIR_MARKER[0];
      }
    }
    hide Flat, Repels;
    Transfer(p, r, Source, w);
  }

  lemma None2(p: Pieces)
    requires IsCut(p) && p.Piece? && !p.kind.RelativeFont?
    ensures NoneBegins(RELATIVE_FONT, TextOf(p.kind, Hidden1), Flat(p.rest, Hidden1))
  {
    hide IsCut, Flat, NoneBegins;
    Alphabets();
    match p.kind
    case Byte(_) =>
      ByteChosen(p);
      if RELATIVE_FONT <= Flat(p, Hidden1) {
        PlainTransfer(p, Hidden1, RELATIVE_FONT);
      }
      NoneInByte(p, Hidden1, RELATIVE_FONT);
    case RelativeTokenFont => NoneWithoutFirst(RELATIVE_FONT, TextOf(p.kind, Hidden1), Flat(p.rest, Hidden1));
    case TokenFont => NoneWithoutFirst(RELATIVE_FONT, TextOf(p.kind, Hidden1), Flat(p.rest, Hidden1));
    case Font => NoneWithoutFirst(RELATIVE_FONT, TextOf(p.kind, Hidden1), Flat(p.rest, Hidden1));
    case Token => NoneWithoutFirst(RELATIVE_FONT, TextOf(p.kind, Hidden1), Flat(p.rest, Hidden1));
  }

  /** Pass 2 hides `../fonts/`. */
  lemma {:induction false} Pass2(p: Pieces)
    requires IsCut(p)
    ensures ReplaceAll(Flat(p, Hidden1), RELATIVE_FONT, RELATIVE_MARKER) == Flat(p, Hidden2)
    ensures CountAll(Flat(p, Hidden1), RELATIVE_FONT) == Tally(p, RelativeFont)
  {
    hide ReplaceAll, CountAll, Cut, Flat, Occurs, IsCut, Clean, NoneBegins;
    if p.Piece? {
      CutTail(p);
      Pass2(p.rest);
      if p.kind.RelativeFont? {
        HitPiece(p, Hidden1, Hidden2, RELATIVE_FONT, RELATIVE_MARKER);
      } else {
        None2(p);
        MissPiece(p, Hidden1, Hidden2, RELATIVE_FONT, RELATIVE_MARKER);
      }
    } else {
      EmptyFlat(Hidden1, Hidden2, RELATIVE_FONT, RELATIVE_MARKER);
    }
  }

  lemma StagedHidden(base: string)
    ensures Staged(Hidden2, base) && Staged(Hidden4, base)
    ensures Staged(Shown5(base), base) && Staged(Shown6(base), base) && Staged(Shown7(base), base)
  {
    assert Foreign(RELATIVE_MARKER) && Foreign(PAIR_MARKER) && Foreign(SLOT_MARKER);
  }

  /** In a font reference and in a byte nothing begins that a text after it cannot end. */
  lemma TokenFontInFont(u: string)
    requires !(TOKEN_FONT[1..] <= u)
    ensures NoneBegins(TOKEN_FONT, FONT, u)
  {
    forall o | 0 <= o < |FONT|
      ensures !(TOKEN_FONT <= (FONT + u)[o..])
    {
      var s := (FONT + u)[o..];
      assert s[0] == FONT[o];
      assert o + 1 < |FONT| ==> s[1] == FONT[o + 1];
      assert o + 1 == |FONT| ==> s[1..] == u;
    }
  }

  lemma TokenFontInToken(u: string)
    requires !(FONT <= u)
    ensures NoneBegins(TOKEN_FONT, TOKEN, u)
  {
    assert forall o | 1 <= o < |TOKEN| :: TOKEN[o] != '/';
    forall o | 0 <= o < |TOKEN|
      ensures !(TOKEN_FONT <= (TOKEN + u)[o..])
    {
      var s := (TOKEN + u)[o..];
      assert s[0] == TOKEN[o];
      assert o == 0 ==> s[|TOKEN|..] == u;
      assert TOKEN_FONT[|TOKEN|..] == FONT;
    }
  }

  lemma TokenFontInByte(c: char, u: string)
    requires c == '/' ==> !(TOKEN_FONT[1..] <= u)
    ensures NoneBegins(TOKEN_FONT, [c], u)
  {
    var s := ([c] + u)[0..];
    assert s[0] == c && s[1..] == u;
  }

  lemma StemOfToken()
    ensures STEM != [] && TOKEN_FONT != [] && STEM == ['/'] + STEM[1..] && STEM[1..] <= TOKEN_FONT[1..]
  {
  }

  lemma EndsWithSlash(kind: Kind, base: string)
    requires kind.Font? || kind == Byte('/')
    ensures var t := TextOf(kind, Deployed(base)); t != [] && t[|t| - 1] == '/'
  {
  }

  lemma AcrossTheSeam(t: string, u: string, c: char, w: string)
    requires t != [] && t[|t| - 1] == c && w <= u
    ensures [c] + w <= (t + u)[|t| - 1..]
  {
    assert (t + u)[|t| - 1..] == [c] + u;
  }

  /** Behind a slash that stays, the rest of a placeholder would leave its stem. */
  lemma StemBehindSlash(p: Pieces, base: string)
    requires p.Piece? && Clean(p, base) && (p.kind.Font? || p.kind == Byte('/'))
    ensures !(TOKEN_FONT[1..] <= Flat(p.rest, Hidden2))
  {
    hide Clean, Staged, Agree, Flat, Occurs, TextOf, FreeOf, STEM, TOKEN_FONT, TOKEN, FONT, Hidden2, Deployed;
    StagedHidden(base);
    StemAgrees(Hidden2, base);
    StemOfToken();
    EndsWithSlash(p.kind, base);
    CleanStem(p, base);
    var t, u := TextOf(p.kind, Deployed(base)), Flat(p.rest, Hidden2);
    if TOKEN_FONT[1..] <= u {
      AcrossTheSeam(t, u, '/', STEM[1..]);
      WordShows(STEM, t, p.rest, Hidden2, base, |t| - 1);
    }
  }

  lemma None3(p: Pieces, base: string)
    requires IsCut(p) && Clean(p, base) && p.Piece? && !p.kind.TokenFont?
    ensures NoneBegins(TOKEN_FONT, TextOf(p.kind, Hidden2), Flat(p.rest, Hidden2))
  {
    hide IsCut, Flat, NoneBegins, Clean;
    Alphabets();
    var u := Flat(p.rest, Hidden2);
    match p.kind
    case Byte(c) =>
      if c == '/' {
        StemBehindSlash(p, base);
      }
      TokenFontInByte(c, u);
    case Font =>
      StemBehindSlash(p, base);
      TokenFontInFont(u);
    case Token =>
      TokenChosen(p);
      if FONT <= u {
        PlainTransfer(p.rest, Hidden2, FONT);
      }
      TokenFontInToken(u);
    case RelativeTokenFont => NoneWithoutFirst(TOKEN_FONT, TextOf(p.kind, Hidden2), u);
    case RelativeFont => NoneWithoutFirst(TOKEN_FONT, TextOf(p.kind, Hidden2), u);
  }

  /** Pass 3 hides `<placeholder>/fonts/`. */
  lemma {:induction false} Pass3(p: Pieces, base: string)
    requires IsCut(p) && Clean(p, base)
    ensures ReplaceAll(Flat(p, Hidden2), TOKEN_FONT, PAIR_MARKER) == Flat(p, Hidden3)
    ensures CountAll(Flat(p, Hidden2), TOKEN_FONT) == Tally(p, TokenFont)
  {
    hide ReplaceAll, CountAll, Cut, Flat, Occurs, IsCut, Clean, NoneBegins;
    if p.Piece? {
      CutTail(p);
      CleanTail(p, base);
      Pass3(p.rest, base);
      if p.kind.TokenFont? {
        HitPiece(p, Hidden2, Hidden3, TOKEN_FONT, PAIR_MARKER);
      } else {
        None3(p, base);
        MissPiece(p, Hidden2, Hidden3, TOKEN_FONT, PAIR_MARKER);
      }
    } else {
      EmptyFlat(Hidden2, Hidden3, TOKEN_FONT, PAIR_MARKER);
    }
  }

  lemma FontInToken(u: string)
    ensures NoneBegins(FONT, TOKEN, u)
  {
    assert forall o | 1 <= o < |TOKEN| :: TOKEN[o] != '/';
    forall o | 0 <= o < |TOKEN|
      ensures !(FONT <= (TOKEN + u)[o..])
    {
      var s := (TOKEN + u)[o..];
      assert s[0] == TOKEN[o];
      assert o == 0 ==> s[1] == TOKEN[1];
    }
  }

  lemma None4(p: Pieces)
    requires IsCut(p) && p.Piece? && !p.kind.Font?
    ensures NoneBegins(FONT, TextOf(p.kind, Hidden3), Flat(p.rest, Hidden3))
  {
    hide IsCut, Flat, NoneBegins;
    Alphabets();
    match p.kind
    case Byte(_) =>
      ByteChosen(p);
      if FONT <= Flat(p, Hidden3) {
        PlainTransfer(p, Hidden3, FONT);
      }
      NoneInByte(p, Hidden3, FONT);
    case Token => FontInToken(Flat(p.rest, Hidden3));
    case RelativeTokenFont => NoneWithoutFirst(FONT, TextOf(p.kind, Hidden3), Flat(p.rest, Hidden3));
    case RelativeFont => NoneWithoutFirst(FONT, TextOf(p.kind, Hidden3), Flat(p.rest, Hidden3));
    case TokenFont => NoneWithoutFirst(FONT, TextOf(p.kind, Hidden3), Flat(p.rest, Hidden3));
  }

  /** Pass 4 hides the remaining `/fonts/`. */
  lemma {:induction false} Pass4(p: Pieces)
    requires IsCut(p)
    ensures ReplaceAll(Flat(p, Hidden3), FONT, SLOT_MARKER) == Flat(p, Hidden4)
    ensures CountAll(Flat(p, Hidden3), FONT) == Tally(p, Font)
  {
    hide ReplaceAll, CountAll, Cut, Flat, Occurs, IsCut, Clean, NoneBegins;
    if p.Piece? {
      CutTail(p);
      Pass4(p.rest);
      if p.kind.Font? {
        HitPiece(p, Hidden3, Hidden4, FONT, SLOT_MARKER);
      } else {
        None4(p);
        MissPiece(p, Hidden3, Hidden4, FONT, SLOT_MARKER);
      }
    } else {
      EmptyFlat(Hidden3, Hidden4, FONT, SLOT_MARKER);
    }
  }

  /** No marker begins in a piece that is deployed already. */
  lemma NoneInDeployedPiece(p: Pieces, r: Rendering, base: string, marker: string)
    requires p.Piece? && Clean(p, base) && Staged(r, base) && IsMarker(marker)
    requires TextOf(p.kind, r) == TextOf(p.kind, Deployed(base))
    ensures NoneBegins(marker, TextOf(p.kind, r), Flat(p.rest, r))
  {
    hide NoneBegins, IsMarker, Staged, FreeOf, Core, Clean;
    CleanTail(p, base);
    CleanCore(marker, p, base);
    FreeTail(Core(marker), p, base);
    NoneInDeployed(TextOf(p.kind, r), p.rest, r, base, marker);
  }

  /** No placeholder begins in a piece that is deployed already. */
  lemma NoTokenInDeployedPiece(p: Pieces, r: Rendering, base: string)
    requires p.Piece? && Clean(p, base) && Staged(r, base)
    requires TextOf(p.kind, r) == TextOf(p.kind, Deployed(base))
    ensures NoneBegins(TOKEN, TextOf(p.kind, r), Flat(p.rest, r))
  {
    hide NoneBegins, Staged, FreeOf, Clean;
    CleanStem(p, base);
    NoTokenInDeployed(TextOf(p.kind, r), p.rest, r, base);
  }

  /** No marker begins in a piece that shows another marker or the placeholder. */
  lemma NoneInMarkerPiece(p: Pieces, r: Rendering, base: string, marker: string)
    requires p.Piece? && Clean(p, base) && Staged(r, base) && IsMarker(marker)
    requires (IsMarker(TextOf(p.kind, r)) || TextOf(p.kind, r) == TOKEN) && TextOf(p.kind, r) != marker
    ensures NoneBegins(marker, TextOf(p.kind, r), Flat(p.rest, r))
  {
    hide NoneBegins, IsMarker, Staged, Clean;
    CleanTail(p, base);
    NoneInMarker(TextOf(p.kind, r), p.rest, r, base, marker);
  }

  lemma MarkersAreDistinct()
    ensures SLOT_MARKER != PAIR_MARKER && SLOT_MARKER != RELATIVE_MARKER && PAIR_MARKER != RELATIVE_MARKER
    ensures SLOT_MARKER != TOKEN && PAIR_MARKER != TOKEN && RELATIVE_MARKER != TOKEN
  {
    assert |SLOT_MARKER| != |RELATIVE_MARKER| && SLOT_MARKER[25] != PAIR_MARKER[25];
  }

  lemma None5(p: Pieces, base: string)
    requires Clean(p, base) && p.Piece? && !p.kind.Font?
    ensures NoneBegins(SLOT_MARKER, TextOf(p.kind, Hidden4), Flat(p.rest, Hidden4))
  {
    hide NoneBegins, Staged, Flat, Clean;
    StagedHidden(base);
    MarkersAreDistinct();
    match p.kind
    case Byte(_) => NoneInDeployedPiece(p, Hidden4, base, SLOT_MARKER);
    case RelativeTokenFont => NoneInMarkerPiece(p, Hidden4, base, SLOT_MARKER);
    case RelativeFont => NoneInMarkerPiece(p, Hidden4, base, SLOT_MARKER);
    case TokenFont => NoneInMarkerPiece(p, Hidden4, base, SLOT_MARKER);
    case Token => NoneInMarkerPiece(p, Hidden4, base, SLOT_MARKER);
  }

  /** Pass 5 shows the plain font references with their base. */
  lemma {:induction false} Pass5(p: Pieces, base: string)
    requires Clean(p, base)
    ensures ReplaceAll(Flat(p, Hidden4), SLOT_MARKER, base + FONT) == Flat(p, Shown5(base))
  {
    hide ReplaceAll, CountAll, Cut, Flat, Occurs, IsCut, Clean, NoneBegins;
    if p.Piece? {
      CleanTail(p, base);
      Pass5(p.rest, base);
      if p.kind.Font? {
        HitPiece(p, Hidden4, Shown5(base), SLOT_MARKER, base + FONT);
      } else {
        None5(p, base);
        MissPiece(p, Hidden4, Shown5(base), SLOT_MARKER, base + FONT);
      }
    } else {
      EmptyFlat(Hidden4, Shown5(base), SLOT_MARKER, base + FONT);
    }
  }

  lemma None6(p: Pieces, base: string)
    requires Clean(p, base) && p.Piece? && !p.kind.Token?
    ensures NoneBegins(TOKEN, TextOf(p.kind, Shown5(base)), Flat(p.rest, Shown5(base)))
  {
    hide NoneBegins, Staged, Flat, Clean;
    StagedHidden(base);
    Alphabets();
    match p.kind
    case Byte(_) => NoTokenInDeployedPiece(p, Shown5(base), base);
    case Font => NoTokenInDeployedPiece(p, Shown5(base), base);
    case RelativeTokenFont => NoneWithoutFirst(TOKEN, TextOf(p.kind, Shown5(base)), Flat(p.rest, Shown5(base)));
    case RelativeFont => NoneWithoutFirst(TOKEN, TextOf(p.kind, Shown5(base)), Flat(p.rest, Shown5(base)));
    case TokenFont => NoneWithoutFirst(TOKEN, TextOf(p.kind, Shown5(base)), Flat(p.rest, Shown5(base)));
  }

  /** Pass 6 replaces the placeholders. */
  lemma {:induction false} Pass6(p: Pieces, base: string)
    requires Clean(p, base)
    ensures ReplaceAll(Flat(p, Shown5(base)), TOKEN, base) == Flat(p, Shown6(base))
  {
    hide ReplaceAll, CountAll, Cut, Flat, Occurs, IsCut, Clean, NoneBegins;
    if p.Piece? {
      CleanTail(p, base);
      Pass6(p.rest, base);
      if p.kind.Token? {
        HitPiece(p, Shown5(base), Shown6(base), TOKEN, base);
      } else {
        None6(p, base);
        MissPiece(p, Shown5(base), Shown6(base), TOKEN, base);
      }
    } else {
      EmptyFlat(Shown5(base), Shown6(base), TOKEN, base);
    }
  }

  lemma None7(p: Pieces, base: string)
    requires Clean(p, base) && p.Piece? && !p.kind.TokenFont?
    ensures NoneBegins(PAIR_MARKER, TextOf(p.kind, Shown6(base)), Flat(p.rest, Shown6(base)))
  {
    hide NoneBegins, Staged, Flat, Clean;
    StagedHidden(base);
    MarkersAreDistinct();
    match p.kind
    case RelativeTokenFont => NoneInMarkerPiece(p, Shown6(base), base, PAIR_MARKER);
    case RelativeFont => NoneInMarkerPiece(p, Shown6(base), base, PAIR_MARKER);
    case Font => NoneInDeployedPiece(p, Shown6(base), base, PAIR_MARKER);
    case Token => NoneInDeployedPiece(p, Shown6(base), base, PAIR_MARKER);
    case Byte(_) => NoneInDeployedPiece(p, Shown6(base), base, PAIR_MARKER);
  }

  /** Pass 7 shows the font references behind a placeholder. */
  lemma {:induction false} Pass7(p: Pieces, base: string)
    requires Clean(p, base)
    ensures ReplaceAll(Flat(p, Shown6(base)), PAIR_MARKER, base + FONT) == Flat(p, Shown7(base))
  {
    hide ReplaceAll, CountAll, Cut, Flat, Occurs, IsCut, Clean, NoneBegins;
    if p.Piece? {
      CleanTail(p, base);
      Pass7(p.rest, base);
      if p.kind.TokenFont? {
        HitPiece(p, Shown6(base), Shown7(base), PAIR_MARKER, base + FONT);
      } else {
        None7(p, base);
        MissPiece(p, Shown6(base), Shown7(base), PAIR_MARKER, base + FONT);
      }
    } else {
      EmptyFlat(Shown6(base), Shown7(base), PAIR_MARKER, base + FONT);
    }
  }

  lemma None8(p: Pieces, base: string)
    requires Clean(p, base) && p.Piece? && !p.kind.RelativeFont? && !p.kind.RelativeTokenFont?
    ensures NoneBegins(RELATIVE_MARKER, TextOf(p.kind, Shown7(base)), Flat(p.rest, Shown7(base)))
  {
    hide NoneBegins, Staged, Flat, Clean;
    StagedHidden(base);
    NoneInDeployedPiece(p, Shown7(base), base, RELATIVE_MARKER);
  }

  /** Pass 8 shows the relative font references. */
  lemma {:induction false} Pass8(p: Pieces, base: string)
    requires Clean(p, base)
    ensures ReplaceAll(Flat(p, Shown7(base)), RELATIVE_MARKER, RELATIVE_FONT) == Flat(p, Deployed(base))
  {
    hide ReplaceAll, CountAll, Cut, Flat, Occurs, IsCut, Clean, NoneBegins;
    if p.Piece? {
      CleanTail(p, base);
      Pass8(p.rest, base);
      if p.kind.RelativeFont? || p.kind.RelativeTokenFont? {
        HitPiece(p, Shown7(base), Deployed(base), RELATIVE_MARKER, RELATIVE_FONT);
      } else {
        None8(p, base);
        MissPiece(p, Shown7(base), Deployed(base), RELATIVE_MARKER, RELATIVE_FONT);
      }
    } else {
      EmptyFlat(Shown7(base), Deployed(base), RELATIVE_MARKER, RELATIVE_FONT);
    }
  }

  // ------------------------------------------------------------- the counts

  lemma {:induction false} CountFonts(p: Pieces)
    requires IsCut(p)
    ensures CountAll(Flat(p, Hidden2), FONT) == Tally(p, TokenFont) + Tally(p, Font)
  {
    hide Cut, Flat, IsCut, NoneBegins, CountAll;
    if p.Piece? {
      CutTail(p);
      CountFonts(p.rest);
      CountFontsInPiece(p);
    } else {
      EmptyFlat(Hidden2, Hidden2, FONT, FONT);
    }
  }

  lemma CountFontsBehindToken(u: string)
    ensures CountAll(TOKEN_FONT + u, FONT) == 1 + CountAll(u, FONT)
  {
    hide CountAll, NoneBegins, TOKEN, FONT;
    TokenFontParts();
    assert TOKEN_FONT + u == TOKEN + (FONT + u);
    FontInToken(FONT + u);
    Miss(FONT, FONT, TOKEN, FONT + u);
    Hit(FONT, FONT, u);
  }

  /** A piece in which no font reference begins. */
  lemma NoFontCounted(p: Pieces)
    requires p.Piece? && NoneBegins(FONT, TextOf(p.kind, Hidden2), Flat(p.rest, Hidden2))
    ensures CountAll(Flat(p, Hidden2), FONT) == CountAll(Flat(p.rest, Hidden2), FONT)
  {
    hide CountAll, NoneBegins, FONT, TextOf, Hidden2;
    FontIsSomething();
    Miss(FONT, FONT, TextOf(p.kind, Hidden2), Flat(p.rest, Hidden2));
  }

  lemma FontIsSomething()
    ensures FONT != []
  {
  }

  lemma CountFontsInPiece(p: Pieces)
    requires IsCut(p) && p.Piece?
    ensures CountAll(Flat(p, Hidden2), FONT)
            == (if p.kind.TokenFont? || p.kind.Font? then 1 else 0) + CountAll(Flat(p.rest, Hidden2), FONT)
  {
    hide Cut, IsCut, NoneBegins, CountAll;
    var t, u := TextOf(p.kind, Hidden2), Flat(p.rest, Hidden2);
    Alphabets();
    match p.kind
    case RelativeTokenFont =>
      NoneWithoutFirst(FONT, t, u);
      NoFontCounted(p);
    case RelativeFont =>
      NoneWithoutFirst(FONT, t, u);
      NoFontCounted(p);
    case TokenFont => CountFontsBehindToken(u);
    case Font => Hit(FONT, FONT, u);
    case Token =>
      FontInToken(u);
      NoFontCounted(p);
    case Byte(_) =>
      ByteChosen(p);
      if FONT <= Flat(p, Hidden2) {
        PlainTransfer(p, Hidden2, FONT);
      }
      NoneInByte(p, Hidden2, FONT);
      NoFontCounted(p);
  }

  /** Where a placeholder stands in the references that hold one. */
  lemma PlaceholderInside()
    ensures TOKEN <= TOKEN_FONT && 2 <= |RELATIVE_TOKEN_FONT| && TOKEN <= RELATIVE_TOKEN_FONT[2..]
  {
    assert RELATIVE_TOKEN_FONT == ".." + TOKEN_FONT;
  }

  /** Every reference with a placeholder shows it in the source text. */
  lemma {:induction false} PlaceholderShows(p: Pieces)
    requires Tally(p, Token) + Tally(p, TokenFont) + Tally(p, RelativeTokenFont) > 0
    ensures Occurs(TOKEN, Flat(p, Source))
  {
    hide Occurs, TOKEN, TOKEN_FONT, RELATIVE_TOKEN_FONT, RELATIVE_FONT, FONT;
    PlaceholderInside();
    var t, u := TextOf(p.kind, Source), Flat(p.rest, Source);
    match p.kind
    case Token => OccursAt(TOKEN, t + u, 0);
    case TokenFont => OccursAt(TOKEN, t + u, 0);
    case RelativeTokenFont =>
      assert (t + u)[2..] == t[2..] + u;
      OccursAt(TOKEN, t + u, 2);
    case _ =>
      PlaceholderShows(p.rest);
      OccursFrom(TOKEN, t, u);
  }

  predicate Unaffected(p: Pieces, r: Rendering, q: Rendering) {
    && (r.relativeTokenFont == q.relativeTokenFont || Tally(p, RelativeTokenFont) == 0)
    && (r.relativeFont == q.relativeFont || Tally(p, RelativeFont) == 0)
    && (r.tokenFont == q.tokenFont || Tally(p, TokenFont) == 0)
    && (r.font == q.font || Tally(p, Font) == 0)
    && (r.token == q.token || Tally(p, Token) == 0)
  }

  lemma {:induction false} SameText(p: Pieces, r: Rendering, q: Rendering)
    requires Unaffected(p, r, q)
    ensures Flat(p, r) == Flat(p, q)
  {
    if p.Piece? {
      SameText(p.rest, r, q);
    }
  }

  // --------------------------------------------------------- an empty base

  lemma TokenFontParts()
    ensures TOKEN_FONT == TOKEN + FONT && TextOf(TokenFont, Deployed("")) == FONT
    ensures TOKEN != [] && FONT != []
  {
    assert "" + FONT == FONT;
  }

  /** A placeholder before a font reference goes, the font reference stays. */
  lemma TokenFontGone(p: Pieces)
    requires p.Piece? && p.kind.TokenFont? && Clean(p, "")
    ensures var u := Flat(p.rest, Hidden2);
            ReplaceAll(TOKEN_FONT + u, TOKEN, "") == FONT + ReplaceAll(u, TOKEN, "")
  {
    hide Clean, FreeOf, NoneBegins, ReplaceAll, CountAll, Staged, Occurs, Flat, TextOf, Deployed, Hidden2,
      TOKEN, FONT, TOKEN_FONT, STEM;
    var u := Flat(p.rest, Hidden2);
    StagedHidden("");
    TokenFontParts();
    CleanStem(p, "");
    assert TOKEN_FONT + u == TOKEN + (FONT + u);
    Hit(TOKEN, "", FONT + u);
    NoTokenInDeployed(FONT, p.rest, Hidden2, "");
    Miss(TOKEN, "", FONT, u);
    assert "" + ReplaceAll(FONT + u, TOKEN, "") == ReplaceAll(FONT + u, TOKEN, "");
  }

  lemma TokensInPieceGone(p: Pieces)
    requires p.Piece? && Clean(p, "")
    requires ReplaceAll(Flat(p.rest, Hidden2), TOKEN, "") == Flat(p.rest, Shown7(""))
    ensures ReplaceAll(Flat(p, Hidden2), TOKEN, "") == Flat(p, Shown7(""))
  {
    hide Clean, FreeOf, NoneBegins, ReplaceAll, CountAll, Staged, Occurs;
    var t, u := TextOf(p.kind, Hidden2), Flat(p.rest, Hidden2);
    assert "" + FONT == FONT;
    StagedHidden("");
    Alphabets();
    match p.kind
    case Token => Hit(TOKEN, "", u);
    case TokenFont => TokenFontGone(p);
    case Font =>
      NoTokenInDeployedPiece(p, Hidden2, "");
      Miss(TOKEN, "", t, u);
    case Byte(_) =>
      NoTokenInDeployedPiece(p, Hidden2, "");
      Miss(TOKEN, "", t, u);
    case RelativeFont =>
      NoneWithoutFirst(TOKEN, t, u);
      Miss(TOKEN, "", t, u);
    case RelativeTokenFont =>
      NoneWithoutFirst(TOKEN, t, u);
      Miss(TOKEN, "", t, u);
  }

  /** With an empty base the placeholders go in one pass, font references stay. */
  lemma {:induction false} PassEmpty(p: Pieces)
    requires Clean(p, "")
    ensures ReplaceAll(Flat(p, Hidden2), TOKEN, "") == Flat(p, Shown7(""))
  {
    hide Flat, Clean, ReplaceAll;
    if p.Piece? {
      CleanTail(p, "");
      PassEmpty(p.rest);
      TokensInPieceGone(p);
    } else {
      EmptyFlat(Hidden2, Shown7(""), TOKEN, "");
    }
  }

  // ------------------------------------------------------------- all passes

  lemma {:induction false} OccursInside(needle: string, pattern: string, i: nat, s: string)
    requires i <= |pattern| && needle <= pattern[i..] && Occurs(pattern, s)
    ensures Occurs(needle, s)
  {
    if pattern <= s {
      assert s == pattern + s[|pattern|..];
      OccursAt(needle, s, i);
    } else {
      OccursInside(needle, pattern, i, s[1..]);
    }
  }

  /** The relative, hidden stages common to all bases. */
  lemma FirstPasses(data: string)
    ensures var p := Cut(data);
            var s1 := ReplaceAll(data, RELATIVE_TOKEN_FONT, RELATIVE_MARKER);
            && IsCut(p)
            && ReplaceAll(s1, RELATIVE_FONT, RELATIVE_MARKER) == Flat(p, Hidden2)
            && CountAll(data, RELATIVE_TOKEN_FONT) == Tally(p, RelativeTokenFont)
            && CountAll(s1, RELATIVE_FONT) == Tally(p, RelativeFont)
            && (CountAll(data, TOKEN) == 0 ==>
                  Tally(p, Token) == Tally(p, TokenFont) == Tally(p, RelativeTokenFont) == 0)
  {
    hide Cut, Flat, ReplaceAll, CountAll, Occurs;
    var p := Cut(data);
    FlatOfCut(data);
    Pass1(p);
    Pass2(p);
    CountIffOccurs(data, TOKEN);
    if Tally(p, Token) + Tally(p, TokenFont) + Tally(p, RelativeTokenFont) > 0 {
      PlaceholderShows(p);
    }
  }

  lemma LastPass(p: Pieces, base: string)
    requires Clean(p, base)
    ensures var relativeCount := Tally(p, RelativeTokenFont) + Tally(p, RelativeFont);
            (if relativeCount > 0 then ReplaceAll(Flat(p, Shown7(base)), RELATIVE_MARKER, RELATIVE_FONT)
             else Flat(p, Shown7(base))) == Flat(p, Deployed(base))
  {
    hide Flat, ReplaceAll, Clean;
    Pass8(p, base);
    if Tally(p, RelativeTokenFont) + Tally(p, RelativeFont) == 0 {
      SameText(p, Shown7(base), Deployed(base));
    }
  }

  lemma PassesWithBase(data: string, base: string)
    requires base != "" && Clean(Cut(data), base)
    ensures StagedPasses(data, base) == Rewritten(data, base)
  {
    hide Cut, Flat, ReplaceAll, CountAll, Occurs, Clean, IsCut;
    var p := Cut(data);
    FlatOfCut(data);
    FirstPasses(data);
    Pass3(p, base);
    CountFonts(p);
    Pass4(p);
    Pass5(p, base);
    Pass6(p, base);
    Pass7(p, base);
    LastPass(p, base);
    if Tally(p, TokenFont) == 0 {
      SameText(p, Hidden2, Hidden3);
      SameText(p, Shown6(base), Shown7(base));
    }
    if Tally(p, Font) == 0 {
      SameText(p, Hidden3, Shown5(base));
    }
    if CountAll(data, TOKEN) == 0 {
      SameText(p, Shown5(base), Shown6(base));
      if Tally(p, Font) == 0 && Tally(p, RelativeFont) == 0 {
        SameText(p, Source, Deployed(base));
      }
    }
  }

  lemma PassesWithoutBase(data: string)
    requires Clean(Cut(data), "")
    ensures StagedPasses(data, "") == Rewritten(data, "")
  {
    hide Cut, Flat, ReplaceAll, CountAll, Occurs, Clean, IsCut;
    var p := Cut(data);
    assert "" + FONT == FONT;
    FlatOfCut(data);
    FirstPasses(data);
    PassEmpty(p);
    LastPass(p, "");
    if CountAll(data, TOKEN) == 0 {
      SameText(p, Hidden2, Shown7(""));
      if Tally(p, RelativeFont) == 0 {
        SameText(p, Source, Deployed(""));
      }
    }
  }

  /** Whenever the deployed text shows no trace of the placeholder or of a marker, the
      staged passes compute exactly that text, and no marker survives in it. */
  lemma TracelessPassesAreOneScan(data: string, base: string)
    requires Traceless(Rewritten(data, base))
    ensures StagedPasses(data, base) == Rewritten(data, base)
    ensures !MarkerLeft(Rewritten(data, base))
  {
    assert Clean(Cut(data), base);
    hide StagedPasses, Occurs, Cut, Flat, Clean;
    if base == "" {
      PassesWithoutBase(data);
    } else {
      PassesWithBase(data, base);
    }
    var text := Rewritten(data, base);
    if MarkerLeft(text) {
      MarkerHasCore(text);
    }
  }

  lemma MarkerHasCore(text: string)
    requires MarkerLeft(text)
    ensures !Traceless(text)
  {
    hide Occurs;
    CoreInside(SLOT_MARKER);
    CoreInside(PAIR_MARKER);
    CoreInside(RELATIVE_MARKER);
    MarkersAreDistinct();
    if Occurs(SLOT_MARKER, text) {
      OccursInside(SLOT_CORE, SLOT_MARKER, 2, text);
    } else if Occurs(PAIR_MARKER, text) {
      OccursInside(PAIR_CORE, PAIR_MARKER, 2, text);
    } else {
      OccursInside(RELATIVE_CORE, RELATIVE_MARKER, 2, text);
    }
  }

  // ------------------------------------------------ where the two can differ

  /** A pattern that is longer than the text, or whose first character is missing. */
  lemma NotInText(pattern: string, substitute: string, t: string)
    requires pattern != [] && (pattern[0] !in t || |t| < |pattern|)
    ensures ReplaceAll(t, pattern, substitute) == t && CountAll(t, pattern) == 0
  {
    assert t + [] == t;
    Miss(pattern, substitute, t, []);
  }

  const BARE_TOKEN := "__DROPPEDNEEDLE_BASE__"
  const OVERLAP := FONT + BARE_TOKEN

  lemma OverlapFacts()
    ensures OVERLAP == "/fonts" + TOKEN
    ensures '.' !in OVERLAP && '/' !in BARE_TOKEN && '.' !in BARE_TOKEN && '/' !in "__"
    ensures RELATIVE_TOKEN_FONT[0] == RELATIVE_FONT[0] == '.' && TOKEN[0] == FONT[0] == TOKEN_FONT[0] == '/'
    ensures |OVERLAP| == 29 && |TOKEN_FONT| == 30 && |SLOT_MARKER| == 31 && |BARE_TOKEN| == 22
    ensures |TOKEN| == 23 && |FONT| == 7 && TOKEN[1] == '_'
  {
  }

  lemma OverlapSplits()
    ensures "/x" + FONT + BARE_TOKEN == "/x" + "/fonts" + TOKEN
  {
    assert FONT == "/fonts" + "/" && TOKEN == "/" + BARE_TOKEN;
    hide FONT, TOKEN, BARE_TOKEN;
  }

  lemma OverlapTokens(base: string)
    requires base == "/x" || base == ""
    ensures CountAll(base + "/fonts" + TOKEN, TOKEN) == 1
    ensures ReplaceAll(base + "/fonts" + TOKEN, TOKEN, base) == base + "/fonts" + base
  {
    hide ReplaceAll, CountAll, FONT;
    OverlapFacts();
    var t := base + "/fonts";
    forall o | 0 <= o < |t|
      ensures !(TOKEN <= (t + TOKEN)[o..])
    {
      assert (t + TOKEN)[o..][1] == (t + TOKEN)[o + 1];
    }
    Miss(TOKEN, base, t, TOKEN);
    assert TOKEN + [] == TOKEN;
    Hit(TOKEN, base, []);
    NotInText(TOKEN, base, []);
  }

  lemma OverlapFonts(u: string)
    ensures CountAll(OVERLAP, FONT) == 1 && ReplaceAll(OVERLAP, FONT, u) == u + BARE_TOKEN
  {
    hide ReplaceAll, CountAll;
    OverlapFacts();
    Hit(FONT, u, BARE_TOKEN);
    NotInText(FONT, u, BARE_TOKEN);
  }

  lemma OverlapHidden()
    ensures RelativeHidden(OVERLAP) == OVERLAP && RelativeCount(OVERLAP) == 0
    ensures TokenFontCount(OVERLAP, "/x") == 0 && FontCount(OVERLAP, "/x") == 1
  {
    hide ReplaceAll, CountAll, OVERLAP, TOKEN_FONT;
    OverlapFacts();
    NotInText(RELATIVE_TOKEN_FONT, RELATIVE_MARKER, OVERLAP);
    NotInText(RELATIVE_FONT, RELATIVE_MARKER, OVERLAP);
    NotInText(TOKEN_FONT, "", OVERLAP);
    OverlapFonts("");
  }

  lemma OverlapStaged()
    ensures StagedPasses(OVERLAP, "/x") == "/x/fonts/x"
  {
    hide ReplaceAll, CountAll, OVERLAP, RelativeHidden, RelativeCount, TokenFontCount, FontCount,
      TOKEN, SLOT_MARKER, BARE_TOKEN;
    OverlapFacts();
    OverlapHidden();
    OverlapFonts(SLOT_MARKER);
    Hit(SLOT_MARKER, "/x" + FONT, BARE_TOKEN);
    NotInText(SLOT_MARKER, "/x" + FONT, BARE_TOKEN);
    assert "" + "/fonts" + TOKEN == "/fonts" + TOKEN;
    OverlapTokens("");
    OverlapTokens("/x");
    OverlapSplits();
  }

  /** Cutting text without slashes and dots yields its bytes. */
  lemma {:induction false} PlainBytes(t: string, base: string)
    requires '/' !in t && '.' !in t
    ensures Rewritten(t, base) == t
  {
    if t != [] {
      PlainBytes(t[1..], base);
      assert t == [t[0]] + t[1..];
    }
  }

  lemma OverlapRewritten()
    ensures Rewritten(OVERLAP, "/x") == "/x" + OVERLAP
  {
    hide BARE_TOKEN, TOKEN;
    OverlapFacts();
    PlainBytes(BARE_TOKEN, "/x");
    assert OVERLAP[|FONT|..] == BARE_TOKEN;
    assert !(RELATIVE_TOKEN_FONT <= OVERLAP) && !(RELATIVE_FONT <= OVERLAP);
    assert !(TOKEN_FONT <= OVERLAP);
    assert FONT <= OVERLAP;
    assert Cut(OVERLAP) == Piece(Font, Cut(BARE_TOKEN));
    assert "/x" + FONT + BARE_TOKEN == "/x" + OVERLAP;
  }

  /** A font reference and a placeholder that share a slash: the scan takes the font
      reference, the passes replace both, and the text shows a trace. */
  lemma SharedSlashDiffers()
    ensures StagedPasses(OVERLAP, "/x") != Rewritten(OVERLAP, "/x")
    ensures !Traceless(Rewritten(OVERLAP, "/x"))
  {
    hide *;
    OverlapStaged();
    OverlapRewritten();
    OverlapFacts();
    assert |"/x" + OVERLAP| != |"/x/fonts/x"|;
    if Traceless("/x" + OVERLAP) {
      assert "/x" + OVERLAP == "/x/fonts" + TOKEN;
      TracelessHasNoToken("/x" + OVERLAP);
      assert ("/x" + OVERLAP)[8..] == TOKEN;
      OccursAt(TOKEN, "/x" + OVERLAP, 8);
    }
  }

  lemma TracelessHasNoToken(text: string)
    requires Traceless(text)
    ensures !Occurs(TOKEN, text)
  {
    assert STEM <= TOKEN[0..];
    hide Occurs;
    if Occurs(TOKEN, text) {
      OccursInside(STEM, TOKEN, 0, text);
    }
  }

  // ------------------------------------------------------ the one scan by letters

  /** No reference begins a text. */
  predicate Unreferenced(data: string) {
    && !("/fonts/" <= data) && !("../fonts/" <= data) && !("/__DROPPEDNEEDLE_BASE__" <= data)
    && !("../__DROPPEDNEEDLE_BASE__/fonts/" <= data)
  }

  lemma ReferencesBySpelling()
    ensures TOKEN == "/__DROPPEDNEEDLE_BASE__" && FONT == "/fonts/" && RELATIVE_FONT == "../fonts/"
    ensures TOKEN_FONT == "/__DROPPEDNEEDLE_BASE__/fonts/"
    ensures RELATIVE_TOKEN_FONT == "../__DROPPEDNEEDLE_BASE__/fonts/"
    ensures TOKEN[0] == '/' && TOKEN[1] == '_' && FONT[0] == '/' && FONT[1] == 'f' && |TOKEN| > 2 && |FONT| > 2
    ensures |RELATIVE_FONT| > 3 && RELATIVE_FONT[..3] == "../" && RELATIVE_FONT[3] == 'f'
    ensures |RELATIVE_TOKEN_FONT| > 3 && RELATIVE_TOKEN_FONT[..3] == "../" && RELATIVE_TOKEN_FONT[3] == '_'
  {
  }

  /** At most one reference begins a text, but for a placeholder before a font reference. */
  lemma OneReference(s: string)
    ensures FONT <= s ==> !(RELATIVE_TOKEN_FONT <= s) && !(RELATIVE_FONT <= s) && !(TOKEN_FONT <= s)
    ensures RELATIVE_FONT <= s ==> !(RELATIVE_TOKEN_FONT <= s)
    ensures TOKEN_FONT <= s ==> !(RELATIVE_TOKEN_FONT <= s) && !(RELATIVE_FONT <= s)
    ensures TOKEN <= s ==> !(RELATIVE_TOKEN_FONT <= s) && !(RELATIVE_FONT <= s) && !(FONT <= s)
  {
    hide FONT, RELATIVE_FONT, RELATIVE_TOKEN_FONT, TOKEN, TOKEN_FONT;
    ReferencesBySpelling();
    TokenFirst();
  }

  lemma TokenFirst()
    ensures |TOKEN_FONT| == |TOKEN| + |FONT| && TOKEN_FONT[..|TOKEN|] == TOKEN && TOKEN_FONT[|TOKEN|..] == FONT
    ensures TOKEN_FONT[0] == '/' && TOKEN_FONT[1] == '_'
  {
    assert TOKEN_FONT == TOKEN + FONT;
  }

  lemma TokenAlone(t: string)
    requires !(FONT <= t)
    ensures !(TOKEN_FONT <= TOKEN + t)
  {
    hide TOKEN_FONT, FONT, TOKEN;
    TokenFirst();
    assert (TOKEN + t)[|TOKEN|..] == t;
  }

  lemma CutStep(kind: Kind, w: string, t: string)
    requires !kind.Byte? && w == TextOf(kind, Source) && (kind.Token? ==> !(FONT <= t))
    ensures Cut(w + t) == Piece(kind, Cut(t))
  {
    hide FONT, RELATIVE_FONT, RELATIVE_TOKEN_FONT, TOKEN, TOKEN_FONT;
    ReferencesBySpelling();
    OneReference(w + t);
    if kind.Token? {
      TokenAlone(t);
    }
    var s := w + t;
    assert w <= s && s[|w|..] == t && s != [];
  }

  /** THE SCAN BY LETTERS: a font reference gets the base in front of it unless it is relative;
      a placeholder is the base; a placeholder before a font reference is the base once, inside
      a relative one it is dropped; everything else stays. */
  lemma ScanRewrites(t: string, base: string)
    ensures Rewritten("/fonts/" + t, base) == base + "/fonts/" + Rewritten(t, base)
    ensures Rewritten("../fonts/" + t, base) == "../fonts/" + Rewritten(t, base)
    ensures Rewritten("../__DROPPEDNEEDLE_BASE__/fonts/" + t, base) == "../fonts/" + Rewritten(t, base)
    ensures Rewritten("/__DROPPEDNEEDLE_BASE__/fonts/" + t, base) == base + "/fonts/" + Rewritten(t, base)
    ensures !("/fonts/" <= t) ==> Rewritten("/__DROPPEDNEEDLE_BASE__" + t, base) == base + Rewritten(t, base)
    ensures Rewritten([], base) == []
    ensures t != [] && Unreferenced(t) ==> Rewritten(t, base) == [t[0]] + Rewritten(t[1..], base)
  {
    hide FONT, RELATIVE_FONT, RELATIVE_TOKEN_FONT, TOKEN, TOKEN_FONT, Cut;
    ReferencesBySpelling();
    CutStep(Font, FONT, t);
    CutStep(RelativeFont, RELATIVE_FONT, t);
    CutStep(RelativeTokenFont, RELATIVE_TOKEN_FONT, t);
    CutStep(TokenFont, TOKEN_FONT, t);
    if !("/fonts/" <= t) {
      CutStep(Token, TOKEN, t);
    }
    NothingToCut();
    if t != [] && Unreferenced(t) {
      CutByte(t);
    }
  }

  lemma NothingToCut()
    ensures Cut([]) == Nothing
  {
  }

  lemma CutByte(t: string)
    requires t != [] && Unreferenced(t)
    ensures Cut(t) == Piece(Byte(t[0]), Cut(t[1..]))
  {
    hide FONT, RELATIVE_FONT, RELATIVE_TOKEN_FONT, TOKEN, TOKEN_FONT, Unreferenced;
    SameReferences(t);
  }

  lemma SameReferences(t: string)
    ensures Unreferenced(t) <==> !(FONT <= t) && !(RELATIVE_FONT <= t) && !(TOKEN <= t) && !(RELATIVE_TOKEN_FONT <= t)
    ensures Unreferenced(t) ==> !(TOKEN_FONT <= t)
  {
    hide FONT, RELATIVE_FONT, RELATIVE_TOKEN_FONT, TOKEN;
    ReferencesBySpelling();
  }
}
