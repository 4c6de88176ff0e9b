/**
 Inputs at which the staged passes and the one scan part although no font reference shares
 its slash with a placeholder: a source that spells a marker, a base that spells one, a
 source in which taking a placeholder out spells one, and half a placeholder before a
 reference. Each of them breaks one clause of `Tidy`.
 */
module StaticPassLimits {
  import opened Sequences
  import opened StaticRewrite
  import opened StaticPasses

  lemma MissAll(pattern: string, substitute: string, t: string)
    requires pattern != [] && pattern[0] !in t
    ensures CountAll(t, pattern) == 0 && ReplaceAll(t, pattern, substitute) == t
  {
    hide ReplaceAll, CountAll;
    NotInText(pattern, substitute, t);
  }

  /** A pattern stands behind a text in which it does not begin. */
  lemma FoundBehind(pattern: string, substitute: string, t: string, u: string)
    requires pattern != [] && pattern[0] !in t
    ensures CountAll(t + (pattern + u), pattern) == 1 + CountAll(u, pattern)
    ensures ReplaceAll(t + (pattern + u), pattern, substitute) == t + (substitute + ReplaceAll(u, pattern, substitute))
  {
    hide ReplaceAll, CountAll;
    NoneWithoutFirst(pattern, t, pattern + u);
    Miss(pattern, substitute, t, pattern + u);
    Hit(pattern, substitute, u);
  }

  lemma Nil(pattern: string, substitute: string)
    requires pattern != []
    ensures CountAll("", pattern) == 0 && ReplaceAll("", pattern, substitute) == ""
  {
  }

  lemma NoDots()
    ensures RELATIVE_TOKEN_FONT != [] && RELATIVE_FONT != [] && RELATIVE_TOKEN_FONT[0] == '.' && RELATIVE_FONT[0] == '.'
    ensures '.' !in FONT && '.' !in TOKEN && '.' !in TOKEN_FONT
  {
    Alphabets();
  }

  /** Without dots nothing relative is found. */
  lemma NothingRelative(data: string)
    requires '.' !in data
    ensures RelativeHidden(data) == data && RelativeCount(data) == 0
  {
    hide ReplaceAll, CountAll, RELATIVE_TOKEN_FONT, RELATIVE_FONT, RELATIVE_MARKER;
    NoDots();
    MissAll(RELATIVE_TOKEN_FONT, RELATIVE_MARKER, data);
    MissAll(RELATIVE_FONT, RELATIVE_MARKER, data);
  }

  // ------------------------------------------------------- a source spells a marker

  /** One font reference, behind text that is none. */
  lemma OneFont(t: string, base: string)
    requires '/' !in t && '.' !in t && base != ""
    ensures StagedPasses(t + FONT, base) == ReplaceAll(t + SLOT_MARKER, SLOT_MARKER, base + FONT)
    ensures Rewritten(t + FONT, base) == t + (base + FONT)
  {
    hide ReplaceAll, CountAll, RelativeHidden, RelativeCount, FONT, TOKEN, TOKEN_FONT, SLOT_MARKER, PAIR_MARKER,
      Rewritten;
    Firsts();
    NoDots();
    NothingRelative(t + FONT);
    NoneWithoutFirst(TOKEN, t, FONT);
    Miss(TOKEN, "", t, FONT);
    NotInText(TOKEN, "", FONT);
    NoneWithoutFirst(TOKEN_FONT, t, FONT);
    Miss(TOKEN_FONT, "", t, FONT);
    NotInText(TOKEN_FONT, "", FONT);
    assert t + FONT == t + (FONT + "") && t + SLOT_MARKER == t + (SLOT_MARKER + "");
    FoundBehind(FONT, SLOT_MARKER, t, "");
    Nil(FONT, SLOT_MARKER);
    PlainPrefix(t, FONT, base);
    OneFontRewritten(base);
  }

  lemma OneFontRewritten(base: string)
    ensures Rewritten(FONT, base) == base + FONT && !Shares(FONT, base)
  {
    hide FONT, BARE_TOKEN, Rewritten, Shares;
    FontShares("", base);
    NothingRewritten(base);
    Letters();
    assert FONT + "" == FONT && base + FONT + "" == base + FONT;
  }

  lemma NothingRewritten(base: string)
    ensures Rewritten("", base) == "" && !Shares("", base)
  {
  }

  const OPENED := "__" + SLOT_CORE
  const CLOSED := SLOT_CORE + "__"

  lemma Spelled()
    ensures SLOT_MARKER == "__" + SLOT_CORE + "__"
  {
    hide SLOT_MARKER, SLOT_CORE;
    FontCoresInside();
    SpelledCore();
    SpelledEnds();
    assert SLOT_MARKER[2..][..27] == SLOT_CORE;
    assert SLOT_MARKER == SLOT_MARKER[..2] + SLOT_MARKER[2..][..27] + SLOT_MARKER[29..];
  }

  lemma SpelledEnds()
    ensures |SLOT_MARKER| == 31 && SLOT_MARKER[..2] == "__" && SLOT_MARKER[29..] == "__"
  {
  }

  lemma SpelledCore()
    ensures '/' !in SLOT_CORE && '.' !in SLOT_CORE && |SLOT_CORE| == 27
  {
  }

  lemma Spelling()
    ensures '/' !in OPENED && '.' !in OPENED && OPENED[0] == '_'
    ensures OPENED + SLOT_MARKER == SLOT_MARKER + CLOSED && |CLOSED| == 29
  {
    hide SLOT_MARKER, SLOT_CORE;
    Spelled();
    SpelledCore();
    assert OPENED + ("__" + CLOSED) == OPENED + "__" + CLOSED;
  }

  lemma SpelledHoldsNone(marker: string)
    requires IsMarker(marker)
    ensures !Occurs(marker, "/x" + FONT + CLOSED)
  {
    hide IsMarker, Occurs, FONT, CLOSED, CountAll, ReplaceAll;
    Spelling();
    TokenIsNoMarker(marker);
    FirstOfTexts();
    MarkersAreLong(marker);
    FontTexts();
    assert '_' !in "/x" + FONT;
    NoneWithoutFirst(marker, "/x" + FONT, CLOSED);
    Miss(marker, "", "/x" + FONT, CLOSED);
    NotInText(marker, "", CLOSED);
    CountIffOccurs("/x" + FONT + CLOSED, marker);
  }

  lemma MarkersAreLong(marker: string)
    requires IsMarker(marker)
    ensures |marker| > 29
  {
    FirstOfTexts();
    hide SLOT_MARKER, PAIR_MARKER, RELATIVE_MARKER;
  }

  /** The marker that the source spells before a font reference joins the one that hides
      the reference; the passes take the wrong one for it and leave no marker. */
  lemma SpelledMarkerDiffers()
    ensures StagedPasses(OPENED + FONT, "/x") == "/x" + FONT + CLOSED
    ensures Rewritten(OPENED + FONT, "/x") == OPENED + ("/x" + FONT)
    ensures StagedPasses(OPENED + FONT, "/x") != Rewritten(OPENED + FONT, "/x")
    ensures !Shares(OPENED + FONT, "/x") && !MarkerLeft(StagedPasses(OPENED + FONT, "/x"))
  {
    hide Rewritten, StagedPasses, Occurs, ReplaceAll, CountAll, Shares, SLOT_MARKER, PAIR_MARKER, RELATIVE_MARKER,
      OPENED, CLOSED, FONT;
    Spelling();
    OneFont(OPENED, "/x");
    OneFontRewritten("/x");
    PlainPrefix(OPENED, FONT, "/x");
    FirstOfMarkers();
    Hit(SLOT_MARKER, "/x" + FONT, CLOSED);
    MarkersAreLong(SLOT_MARKER);
    NotInText(SLOT_MARKER, "/x" + FONT, CLOSED);
    assert ("/x" + FONT + CLOSED)[0] == '/';
    assert (OPENED + ("/x" + FONT))[0] == OPENED[0];
    SpelledHoldsNone(SLOT_MARKER);
    SpelledHoldsNone(PAIR_MARKER);
    SpelledHoldsNone(RELATIVE_MARKER);
  }

  // --------------------------------------------------------- a base spells a marker

  const MARKED_BASE := "/" + PAIR_MARKER
  const PAIR_AND_TOKEN := TOKEN_FONT + TOKEN

  lemma PairAndTokenCounts()
    ensures RelativeHidden(PAIR_AND_TOKEN) == PAIR_AND_TOKEN && RelativeCount(PAIR_AND_TOKEN) == 0
    ensures CountAll(PAIR_AND_TOKEN, TOKEN) == 2 && CountAll(PAIR_AND_TOKEN, TOKEN_FONT) == 1
    ensures CountAll(PAIR_AND_TOKEN, FONT) == 1
    ensures ReplaceAll(PAIR_AND_TOKEN, TOKEN_FONT, PAIR_MARKER) == PAIR_MARKER + TOKEN
  {
    hide ReplaceAll, CountAll, RelativeHidden, RelativeCount, FONT, TOKEN, TOKEN_FONT, PAIR_MARKER, BARE_TOKEN, STUB;
    Firsts();
    NoDots();
    PartTexts("");
    Letters();
    NothingRelative(PAIR_AND_TOKEN);
    Hit(TOKEN_FONT, PAIR_MARKER, TOKEN);
    NotInText(TOKEN_FONT, PAIR_MARKER, TOKEN);
    FontsInPair(TOKEN);
    FontInToken("");
    assert TOKEN + "" == TOKEN && TOKEN + (FONT + TOKEN) == TOKEN_FONT + TOKEN;
    Miss(FONT, "", TOKEN, "");
    Nil(FONT, "");
    Hit(TOKEN, "", FONT + TOKEN);
    assert !(BARE_TOKEN <= TOKEN);
    TokenInFont(TOKEN);
    Miss(TOKEN, "", FONT, TOKEN);
    Hit(TOKEN, "", "");
    Nil(TOKEN, "");
  }

  lemma PairAndTokenStaged()
    ensures StagedPasses(PAIR_AND_TOKEN, MARKED_BASE) == MARKED_BASE + FONT + ("/" + (MARKED_BASE + FONT))
  {
    hide *;
    hide PAIR_AND_TOKEN, MARKED_BASE, TOKEN, FONT;
    PairAndTokenCounts();
    PassSix();
    PassSeven();
    MarkedBaseIsSomething();
    StagedInOrder(PAIR_AND_TOKEN, MARKED_BASE);
  }

  /** The passes where nothing is relative and each font reference follows a placeholder. */
  lemma StagedInOrder(data: string, base: string)
    requires base != "" && RelativeHidden(data) == data && RelativeCount(data) == 0 && CountAll(data, TOKEN) > 0
    requires CountAll(data, FONT) == CountAll(data, TOKEN_FONT) > 0
    ensures StagedPasses(data, base)
            == ReplaceAll(ReplaceAll(ReplaceAll(data, TOKEN_FONT, PAIR_MARKER), TOKEN, base), PAIR_MARKER, base + FONT)
  {
    hide ReplaceAll, CountAll, RelativeHidden, RelativeCount, TOKEN, TOKEN_FONT, FONT, PAIR_MARKER;
  }

  /** The base brings a marker into the text that the passes are still to show. */
  lemma MarkedBaseDiffers()
    ensures StagedPasses(PAIR_AND_TOKEN, MARKED_BASE) == MARKED_BASE + FONT + ("/" + (MARKED_BASE + FONT))
    ensures Rewritten(PAIR_AND_TOKEN, MARKED_BASE) == MARKED_BASE + FONT + MARKED_BASE
    ensures StagedPasses(PAIR_AND_TOKEN, MARKED_BASE) != Rewritten(PAIR_AND_TOKEN, MARKED_BASE)
    ensures !Shares(PAIR_AND_TOKEN, MARKED_BASE)
  {
    PairAndTokenStaged();
    MarkedBaseIsSomething();
    PairAndTokenRewritten(MARKED_BASE);
    hide *;
    assert |MARKED_BASE + FONT + ("/" + (MARKED_BASE + FONT))| > |MARKED_BASE + FONT + MARKED_BASE|;
  }

  lemma MarkedBaseIsSomething()
    ensures MARKED_BASE != ""
  {
  }

  lemma PassSix()
    ensures ReplaceAll(PAIR_MARKER + TOKEN, TOKEN, MARKED_BASE) == PAIR_MARKER + MARKED_BASE
  {
    hide ReplaceAll, CountAll, TOKEN, PAIR_MARKER, MARKED_BASE;
    Alphabets();
    Firsts();
    assert PAIR_MARKER + TOKEN == PAIR_MARKER + (TOKEN + "");
    FoundBehind(TOKEN, MARKED_BASE, PAIR_MARKER, "");
    Nil(TOKEN, MARKED_BASE);
    assert MARKED_BASE + "" == MARKED_BASE;
  }

  lemma PassSeven()
    ensures ReplaceAll(PAIR_MARKER + MARKED_BASE, PAIR_MARKER, MARKED_BASE + FONT)
            == MARKED_BASE + FONT + ("/" + (MARKED_BASE + FONT))
  {
    hide ReplaceAll, CountAll, FONT, PAIR_MARKER;
    FirstOfMarkers();
    Hit(PAIR_MARKER, MARKED_BASE + FONT, MARKED_BASE);
    assert MARKED_BASE == "/" + (PAIR_MARKER + "");
    FoundBehind(PAIR_MARKER, MARKED_BASE + FONT, "/", "");
    Nil(PAIR_MARKER, MARKED_BASE + FONT);
    assert "/" + (MARKED_BASE + FONT + "") == "/" + (MARKED_BASE + FONT);
  }

  lemma PairAndTokenRewritten(base: string)
    requires base != ""
    ensures Rewritten(PAIR_AND_TOKEN, base) == base + FONT + base && !Shares(PAIR_AND_TOKEN, base)
  {
    hide FONT, TOKEN, TOKEN_FONT, Rewritten, Shares;
    StepAtPair(TOKEN, base);
    TokenRewritten(base);
  }

  lemma TokenRewritten(base: string)
    ensures Rewritten(TOKEN, base) == base && !Shares(TOKEN, base)
  {
    hide RELATIVE_TOKEN_FONT, RELATIVE_FONT, TOKEN_FONT, FONT, TOKEN, BARE_TOKEN;
    Firsts();
    assert TOKEN[|TOKEN|..] == "";
    NothingRewritten(base);
    assert base + "" == base;
  }

  // ------------------------------------------- taking a placeholder out spells a marker

  const HALF := "__DROPPEDNEEDLE_RELATIVE_FONT_URL_PA"
  const OTHER_HALF := "IR__"
  const PARTED_MARKER := HALF + (TOKEN + (OTHER_HALF + RELATIVE_FONT))

  lemma Halves()
    ensures HALF + OTHER_HALF == RELATIVE_MARKER && '/' !in HALF && '/' !in OTHER_HALF
    ensures '.' !in HALF && '.' !in OTHER_HALF && OTHER_HALF != [] && OTHER_HALF[0] == 'I'
  {
  }

  lemma PartedMarkerHidden()
    ensures RelativeHidden(PARTED_MARKER) == HALF + (TOKEN + (OTHER_HALF + RELATIVE_MARKER))
    ensures RelativeCount(PARTED_MARKER) == 1 && CountAll(PARTED_MARKER, TOKEN) == 1
  {
    hide ReplaceAll, CountAll, HALF, OTHER_HALF, TOKEN, RELATIVE_MARKER, RELATIVE_FONT, RELATIVE_TOKEN_FONT;
    Halves();
    NoDots();
    Firsts();
    FirstOfTexts();
    var t := HALF + TOKEN + OTHER_HALF;
    assert PARTED_MARKER == t + RELATIVE_FONT == t + (RELATIVE_FONT + "");
    assert '.' !in t;
    NoneWithoutFirst(RELATIVE_TOKEN_FONT, t, RELATIVE_FONT);
    Miss(RELATIVE_TOKEN_FONT, RELATIVE_MARKER, t, RELATIVE_FONT);
    NoPairInRelative();
    FoundBehind(RELATIVE_FONT, RELATIVE_MARKER, t, "");
    Nil(RELATIVE_FONT, RELATIVE_MARKER);
    assert t + (RELATIVE_MARKER + "") == HALF + (TOKEN + (OTHER_HALF + RELATIVE_MARKER));
    FoundBehind(TOKEN, "", HALF, OTHER_HALF + RELATIVE_FONT);
    NoneWithoutFirst(TOKEN, OTHER_HALF, RELATIVE_FONT);
    Miss(TOKEN, "", OTHER_HALF, RELATIVE_FONT);
    NoPairInRelative();
  }

  lemma NoPairInRelative()
    ensures ReplaceAll(RELATIVE_FONT, RELATIVE_TOKEN_FONT, RELATIVE_MARKER) == RELATIVE_FONT
    ensures CountAll(RELATIVE_FONT, RELATIVE_TOKEN_FONT) == 0 && CountAll(RELATIVE_FONT, TOKEN) == 0
  {
    hide ReplaceAll, CountAll;
    NotInText(RELATIVE_TOKEN_FONT, RELATIVE_MARKER, RELATIVE_FONT);
    NotInText(TOKEN, "", RELATIVE_FONT);
  }

  lemma PartedMarkerStaged()
    ensures StagedPasses(PARTED_MARKER, "") == RELATIVE_FONT + RELATIVE_FONT
  {
    hide ReplaceAll, CountAll, RelativeHidden, RelativeCount, PARTED_MARKER, HALF, OTHER_HALF, TOKEN,
      RELATIVE_MARKER, RELATIVE_FONT;
    PartedMarkerHidden();
    TakenOut();
    FirstOfTexts();
    Hit(RELATIVE_MARKER, RELATIVE_FONT, RELATIVE_MARKER);
    assert RELATIVE_MARKER + "" == RELATIVE_MARKER && RELATIVE_FONT + "" == RELATIVE_FONT;
    Hit(RELATIVE_MARKER, RELATIVE_FONT, "");
    Nil(RELATIVE_MARKER, RELATIVE_FONT);
  }

  lemma TakenOut()
    ensures ReplaceAll(HALF + (TOKEN + (OTHER_HALF + RELATIVE_MARKER)), TOKEN, "") == RELATIVE_MARKER + RELATIVE_MARKER
  {
    hide ReplaceAll, CountAll, HALF, OTHER_HALF, TOKEN, RELATIVE_MARKER;
    Halves();
    Firsts();
    Alphabets();
    FoundBehind(TOKEN, "", HALF, OTHER_HALF + RELATIVE_MARKER);
    MissAll(TOKEN, "", OTHER_HALF + RELATIVE_MARKER);
    assert HALF + ("" + (OTHER_HALF + RELATIVE_MARKER)) == RELATIVE_MARKER + RELATIVE_MARKER;
  }

  lemma AroundToken(a: string, b: string)
    requires '/' !in a && '.' !in a && '/' !in b && '.' !in b && b != []
    ensures var data := a + (TOKEN + (b + RELATIVE_FONT));
            Rewritten(data, "") == a + b + RELATIVE_FONT && !Shares(data, "")
  {
    hide Rewritten, Shares, TOKEN, RELATIVE_FONT, FONT;
    Firsts();
    var u := b + RELATIVE_FONT;
    assert u[0] == b[0] && b[0] in b;
    PlainPrefix(a, TOKEN + u, "");
    TokenBefore(u);
    PlainPrefix(b, RELATIVE_FONT, "");
    RelativeRewritten("");
    assert a + u == a + b + RELATIVE_FONT;
  }

  lemma PartedMarkerRewritten()
    ensures Rewritten(PARTED_MARKER, "") == RELATIVE_MARKER + RELATIVE_FONT && !Shares(PARTED_MARKER, "")
  {
    hide Rewritten, Shares, HALF, OTHER_HALF, TOKEN, RELATIVE_MARKER, RELATIVE_FONT;
    Halves();
    AroundToken(HALF, OTHER_HALF);
  }

  lemma TokenBefore(u: string)
    requires !(FONT <= u)
    ensures Rewritten(TOKEN + u, "") == Rewritten(u, "") && Shares(TOKEN + u, "") == Shares(u, "")
  {
    hide RELATIVE_TOKEN_FONT, RELATIVE_FONT, TOKEN_FONT, FONT, TOKEN, BARE_TOKEN;
    Firsts();
    PartTexts("");
    PrefixBehind(TOKEN, FONT, u);
    assert (TOKEN + u)[0] == '/' && (TOKEN + u)[1] == '_' && (TOKEN + u)[|TOKEN|..] == u;
    assert "" + Rewritten(u, "") == Rewritten(u, "");
  }

  lemma RelativeRewritten(base: string)
    ensures Rewritten(RELATIVE_FONT, base) == RELATIVE_FONT && !Shares(RELATIVE_FONT, base)
  {
    assert !(RELATIVE_TOKEN_FONT <= RELATIVE_FONT);
    hide RELATIVE_TOKEN_FONT, RELATIVE_FONT, BARE_TOKEN;
    NothingRewritten(base);
    Letters();
    assert RELATIVE_FONT[|RELATIVE_FONT|..] == "" && RELATIVE_FONT + "" == RELATIVE_FONT;
  }

  /** With the empty base the halves of a marker meet where a placeholder stood. */
  lemma PartedMarkerDiffers()
    ensures StagedPasses(PARTED_MARKER, "") == RELATIVE_FONT + RELATIVE_FONT
    ensures Rewritten(PARTED_MARKER, "") == RELATIVE_MARKER + RELATIVE_FONT
    ensures StagedPasses(PARTED_MARKER, "") != Rewritten(PARTED_MARKER, "")
    ensures !Shares(PARTED_MARKER, "")
  {
    hide *;
    PartedMarkerStaged();
    PartedMarkerRewritten();
    FirstOfTexts();
    Firsts();
    assert (RELATIVE_FONT + RELATIVE_FONT)[0] == '.';
    FirstOfMarkers();
    assert (RELATIVE_MARKER + RELATIVE_FONT)[0] == '_';
  }

  // ------------------------------------------------ a marker completes a placeholder

  const REST := RELATIVE_CORE + "__"
  const HALF_TOKEN := TOKEN + (STEM + RELATIVE_FONT)

  lemma Completed()
    ensures STEM + RELATIVE_MARKER == TOKEN + REST && '/' !in REST && 0 < |REST| < |RELATIVE_MARKER| && REST[0] == 'D'
  {
    RestTexts();
    BareParts();
    hide STEM, RELATIVE_MARKER, TOKEN, REST;
    assert STEM + ("__" + REST) == STEM + "__" + REST;
  }

  lemma RestTexts()
    ensures RELATIVE_MARKER == "__" + REST && '/' !in REST && REST != [] && REST[0] == 'D'
  {
    RelativeCoreInside();
    RelativeMarkerStart();
    RestEnds();
    hide RELATIVE_CORE, RELATIVE_MARKER;
    assert RELATIVE_MARKER[2..][..36] == RELATIVE_CORE;
    assert RELATIVE_MARKER == RELATIVE_MARKER[..2] + RELATIVE_MARKER[2..][..36] + RELATIVE_MARKER[38..];
    Alphabets();
    assert forall i | 0 <= i < |REST| :: RELATIVE_MARKER[i + 2] == REST[i];
  }

  lemma RestEnds()
    ensures |RELATIVE_CORE| == 36 && |RELATIVE_MARKER| == 40 && RELATIVE_MARKER[38..] == "__" && RELATIVE_CORE[0] == 'D'
  {
  }

  lemma StemTexts()
    ensures STEM != [] && STEM[0] == '/' && '/' !in STEM[1..] && '.' !in STEM && 1 < |STEM| < |TOKEN| && STEM[1] == '_'
  {
  }

  lemma HalfTokenStaged()
    ensures StagedPasses(HALF_TOKEN, "") == REST
  {
    hide ReplaceAll, CountAll, STEM, TOKEN, RELATIVE_MARKER, RELATIVE_FONT, RELATIVE_TOKEN_FONT, REST;
    var t := TOKEN + STEM;
    StemTexts();
    NoDots();
    Firsts();
    FirstOfTexts();
    assert HALF_TOKEN == t + RELATIVE_FONT == t + (RELATIVE_FONT + "");
    NoneWithoutFirst(RELATIVE_TOKEN_FONT, t, RELATIVE_FONT);
    Miss(RELATIVE_TOKEN_FONT, RELATIVE_MARKER, t, RELATIVE_FONT);
    NoPairInRelative();
    FoundBehind(RELATIVE_FONT, RELATIVE_MARKER, t, "");
    Nil(RELATIVE_FONT, RELATIVE_MARKER);
    Hit(TOKEN, "", STEM + RELATIVE_FONT);
    Completed();
    assert t + (RELATIVE_MARKER + "") == TOKEN + (TOKEN + REST);
    Hit(TOKEN, "", TOKEN + REST);
    Hit(TOKEN, "", REST);
    MissAll(TOKEN, "", REST);
    assert "" + REST == REST;
    NotInText(RELATIVE_MARKER, RELATIVE_FONT, REST);
  }

  lemma HalfTokenRewritten()
    ensures Rewritten(HALF_TOKEN, "") == STEM + RELATIVE_FONT && !Shares(HALF_TOKEN, "")
  {
    hide Rewritten, Shares, STEM, TOKEN, RELATIVE_FONT, FONT;
    StemTexts();
    Firsts();
    var u := STEM + RELATIVE_FONT;
    assert u[0] == '/' && u[1] == '_';
    assert !(FONT <= u);
    TokenBefore(u);
    SlashRewritten(STEM[1..] + RELATIVE_FONT, STEM[1..], RELATIVE_FONT);
    assert u == ['/'] + (STEM[1..] + RELATIVE_FONT);
    PlainPrefix(STEM[1..], RELATIVE_FONT, "");
    RelativeRewritten("");
  }

  /** A slash that begins neither a font reference nor a placeholder. */
  lemma SlashRewritten(u: string, w: string, v: string)
    requires u == w + v && w == STEM[1..] && v == RELATIVE_FONT
    ensures Rewritten(['/'] + u, "") == ['/'] + Rewritten(u, "") && Shares(['/'] + u, "") == Shares(u, "")
  {
    BareParts();
    assert STEM + RELATIVE_FONT == ['/'] + u;
    assert |STEM| == 21 && RELATIVE_FONT[0] == '.' && TOKEN[21] == '_';
    hide RELATIVE_TOKEN_FONT, RELATIVE_FONT, TOKEN_FONT, FONT, TOKEN, STEM;
    Firsts();
    var s := ['/'] + u;
    assert s[0] == '/' && s[1..] == u && s[21] == '.' && s[1] == '_';
    TokenInPair();
  }

  /** The marker that hides the reference brings the missing underscores. */
  lemma HalfTokenDiffers()
    ensures StagedPasses(HALF_TOKEN, "") == REST && Rewritten(HALF_TOKEN, "") == STEM + RELATIVE_FONT
    ensures StagedPasses(HALF_TOKEN, "") != Rewritten(HALF_TOKEN, "")
    ensures !Shares(HALF_TOKEN, "")
  {
    hide *;
    HalfTokenStaged();
    HalfTokenRewritten();
    Completed();
    StemTexts();
    assert (STEM + RELATIVE_FONT)[0] == '/';
  }
}
