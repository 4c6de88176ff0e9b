/**
 What the staged passes compute, on the source and the base alone.

 `Parted` cuts a source into the parts that the passes themselves tell apart. It differs
 from the one scan where a placeholder takes its slash from a font reference. `Stage`
 shows the parts after each pass, `PassesMean` says that the passes go through exactly
 these stages, and `PassesAreOneScan` is the exact condition under which they end where
 the one scan ends.
 */
module StaticPasses {
  import opened Sequences
  import opened StaticRewrite

  const STUB := "/fonts"

  // ----------------------------------------------------------------- the parts

  /** `Shared` is a font reference and a placeholder with one slash; `Stub` is what is
      left of a font reference when that placeholder is part of a pair. */
  datatype Part = RelativePair | Relative | Pair | Slot | Shared | Stub | Alone | Char(c: char)

  datatype Parts = Empty | Next(part: Part, rest: Parts)

  /** With an empty base the passes over absolute font references do not run. */
  function Parted(data: string, fonts: bool): Parts
    decreases |data|
  {
    if data == [] then Empty
    else if RELATIVE_TOKEN_FONT <= data then Next(RelativePair, Parted(data[|RELATIVE_TOKEN_FONT|..], fonts))
    else if RELATIVE_FONT <= data then Next(Relative, Parted(data[|RELATIVE_FONT|..], fonts))
    else if fonts && TOKEN_FONT <= data then Next(Pair, Parted(data[|TOKEN_FONT|..], fonts))
    else if fonts && OVERLAP + FONT <= data then Next(Stub, Parted(data[|STUB|..], fonts))
    else if fonts && OVERLAP <= data then Next(Shared, Parted(data[|OVERLAP|..], fonts))
    else if fonts && FONT <= data then Next(Slot, Parted(data[|FONT|..], fonts))
    else if TOKEN <= data then Next(Alone, Parted(data[|TOKEN|..], fonts))
    else Next(Char(data[0]), Parted(data[1..], fonts))
  }

  /** A part after the first `n` of eight passes. */
  function Show(x: Part, n: nat, base: string): string {
    match x
    case RelativePair => if n < 1 then RELATIVE_TOKEN_FONT else if n < 8 then RELATIVE_MARKER else RELATIVE_FONT
    case Relative => if n < 2 then RELATIVE_FONT else if n < 8 then RELATIVE_MARKER else RELATIVE_FONT
    case Pair => if n < 3 then TOKEN_FONT else if n < 7 then PAIR_MARKER else base + FONT
    case Slot => if n < 4 then FONT else if n < 5 then SLOT_MARKER else base + FONT
    case Shared =>
      if n < 4 then FONT + BARE_TOKEN
      else if n < 5 then SLOT_MARKER + BARE_TOKEN
      else if n < 6 then base + FONT + BARE_TOKEN
      else base + STUB + base
    case Stub => STUB
    case Alone => if n < 6 then TOKEN else base
    case Char(c) => [c]
  }

  function Stage(p: Parts, n: nat, base: string): string {
    if p.Empty? then [] else Show(p.part, n, base) + Stage(p.rest, n, base)
  }

  /** What the passes make of a source. */
  function Passed(data: string, base: string): string {
    Stage(Parted(data, base != ""), 8, base)
  }

  function Pattern(n: nat): string {
    match n
    case 1 => RELATIVE_TOKEN_FONT
    case 2 => RELATIVE_FONT
    case 3 => TOKEN_FONT
    case 4 => FONT
    case 5 => SLOT_MARKER
    case 6 => TOKEN
    case 7 => PAIR_MARKER
    case _ => RELATIVE_MARKER
  }

  function Substitute(n: nat, base: string): string {
    match n
    case 1 => RELATIVE_MARKER
    case 2 => RELATIVE_MARKER
    case 3 => PAIR_MARKER
    case 4 => SLOT_MARKER
    case 5 => base + FONT
    case 6 => base
    case 7 => base + FONT
    case _ => RELATIVE_FONT
  }

  /** Whether a pass changes a part. */
  predicate Hits(x: Part, n: nat) {
    match n
    case 1 => x.RelativePair?
    case 2 => x.Relative?
    case 3 => x.Pair?
    case 4 => x.Slot? || x.Shared?
    case 5 => x.Slot? || x.Shared?
    case 6 => x.Alone? || x.Shared?
    case 7 => x.Pair?
    case _ => x.RelativePair? || x.Relative?
  }

  function HitCount(p: Parts, n: nat): nat {
    if p.Empty? then 0 else (if Hits(p.part, n) then 1 else 0) + HitCount(p.rest, n)
  }

  // -------------------------------------------------------- what is asked for

  /** No `w` begins in a text, unless in its last two characters. */
  predicate Guarded(w: string, t: string) {
    forall o | 0 <= o && o + 2 < |t| :: Differ(w, t[o..])
  }

  predicate CoreFree(data: string) {
    !Occurs(SLOT_CORE, data) && !Occurs(PAIR_CORE, data) && !Occurs(RELATIVE_CORE, data)
  }

  predicate ReferenceAt(s: string) {
    RELATIVE_TOKEN_FONT <= s || RELATIVE_FONT <= s || FONT <= s || TOKEN <= s
  }

  /** What the text begins with is a placeholder if it is one but for its underscores and a
      reference follows, directly or behind one underscore: the marker that hides the
      reference would bring the missing underscores. */
  predicate WholeAt(s: string) {
    STEM <= s ==>
      || TOKEN <= s
      || (&& !ReferenceAt(s[|STEM|..])
          && (|s| > |STEM| && s[|STEM|] == '_' ==> !ReferenceAt(s[|STEM|..][1..])))
  }

  /** No reference follows half a placeholder. */
  predicate WholeStems(data: string) {
    forall i | 0 <= i <= |data| :: WholeAt(data[i..])
  }

  /** A placeholder stands between two parts of a word. */
  predicate Splits(word: string, data: string) {
    exists k | 0 < k < |word| :: Occurs(word[..k] + TOKEN, data)
  }

  /** A base path that holds no placeholder, no marker, and no beginning of a marker at its
      end. Two underscores at the end are no beginning yet. */
  predicate QuietBase(base: string) {
    && base != "" && base[0] == '/' && !Occurs(TOKEN, base)
    && Guarded(SLOT_MARKER, base) && Guarded(PAIR_MARKER, base) && Guarded(RELATIVE_MARKER, base)
  }

  /** What the caller can look at: the source holds no core of a marker and no half
      placeholder; the base is quiet; where placeholders are taken out, none stands inside
      the one core that is looked for afterwards. */
  predicate Tidy(data: string, base: string) {
    CoreFree(data) && WholeStems(data) && if base == "" then !Splits(RELATIVE_CORE, data) else QuietBase(base)
  }

  /** Some absolute font reference of the one scan is directly followed by a placeholder
      without its slash. Behind a placeholder this matters for the empty base alone. */
  predicate SharesSlash(p: Pieces, base: string) {
    p.Piece? &&
    (((p.kind.Font? || (base == "" && p.kind.TokenFont?)) && BARE_TOKEN <= Flat(p.rest, Source))
     || SharesSlash(p.rest, base))
  }

  // ------------------------------------------------------------ cutting is exact

  lemma PartTexts(base: string)
    ensures Show(Shared, 0, base) == OVERLAP && |STUB| == 6 && |FONT| == 7 && |BARE_TOKEN| == 22 && |TOKEN| == 23
    ensures STUB + TOKEN_FONT == OVERLAP + FONT && STUB + TOKEN == OVERLAP && FONT == STUB + "/"
    ensures TOKEN == "/" + BARE_TOKEN && TOKEN_FONT == TOKEN + FONT
    ensures |OVERLAP| == 29 && |TOKEN_FONT| == 30
  {
    assert TOKEN == "/" + BARE_TOKEN && FONT == STUB + "/";
    assert STUB + TOKEN == OVERLAP;
  }

  lemma {:induction false} StageOfParted(data: string, fonts: bool, base: string)
    ensures Stage(Parted(data, fonts), 0, base) == data
    decreases |data|
  {
    hide RELATIVE_TOKEN_FONT, RELATIVE_FONT, TOKEN_FONT, OVERLAP, FONT, TOKEN, STUB, BARE_TOKEN;
    PartTexts(base);
    RelativeTexts();
    if data != [] {
      var p := Parted(data, fonts);
      var t := Show(p.part, 0, base);
      if p.part.Stub? {
        assert STUB <= STUB + TOKEN_FONT;
        assert STUB <= data;
      }
      assert t <= data && t != [] && p.rest == Parted(data[|t|..], fonts);
      StageOfParted(data[|t|..], fonts, base);
    }
  }

  lemma RelativeTexts()
    ensures |RELATIVE_TOKEN_FONT| > 0 && |RELATIVE_FONT| > 0
  {
  }

  ghost predicate IsParted(p: Parts, fonts: bool) {
    p == Parted(Stage(p, 0, ""), fonts)
  }

  lemma {:induction false} StageZero(p: Parts, base: string)
    ensures Stage(p, 0, base) == Stage(p, 0, "")
  {
    if p.Next? {
      StageZero(p.rest, base);
    }
  }

  lemma PartedTail(p: Parts, fonts: bool)
    requires p.Next? && IsParted(p, fonts)
    ensures IsParted(p.rest, fonts)
  {
    hide RELATIVE_TOKEN_FONT, RELATIVE_FONT, TOKEN_FONT, OVERLAP, FONT, TOKEN, STUB, BARE_TOKEN;
    PartTexts("");
    RelativeTexts();
    var data := Stage(p, 0, "");
    assert data[|Show(p.part, 0, "")|..] == Stage(p.rest, 0, "");
  }

  // ------------------------------------------------ what a part says about the source

  lemma PrefixBehind(a: string, b: string, u: string)
    ensures b <= u <==> a + b <= a + u
  {
    assert (a + u)[|a|..] == u;
    assert a + b <= a + u ==> (a + b)[|a|..] == b;
  }

  lemma CharChosen(p: Parts, fonts: bool)
    requires IsParted(p, fonts) && p.Next? && p.part.Char?
    ensures var s := Stage(p, 0, "");
            && !(RELATIVE_TOKEN_FONT <= s) && !(RELATIVE_FONT <= s) && !(TOKEN <= s)
            && (fonts ==> !(FONT <= s))
  {
    hide RELATIVE_TOKEN_FONT, RELATIVE_FONT, TOKEN_FONT, OVERLAP, FONT, TOKEN, BARE_TOKEN;
  }

  lemma SlotChosen(p: Parts, fonts: bool)
    requires IsParted(p, fonts) && p.Next? && p.part.Slot?
    ensures !(BARE_TOKEN <= Stage(p.rest, 0, "")) && fonts
  {
    hide RELATIVE_TOKEN_FONT, RELATIVE_FONT, TOKEN_FONT, FONT, TOKEN, BARE_TOKEN;
    PrefixBehind(FONT, BARE_TOKEN, Stage(p.rest, 0, ""));
  }

  lemma AloneChosen(p: Parts)
    requires IsParted(p, true) && p.Next? && p.part.Alone?
    ensures !(FONT <= Stage(p.rest, 0, ""))
  {
    hide RELATIVE_TOKEN_FONT, RELATIVE_FONT, OVERLAP, FONT, TOKEN, BARE_TOKEN;
    PrefixBehind(TOKEN, FONT, Stage(p.rest, 0, ""));
  }

  lemma SharedChosen(p: Parts, fonts: bool)
    requires IsParted(p, fonts) && p.Next? && p.part.Shared?
    ensures !(FONT <= Stage(p.rest, 0, "")) && fonts
  {
    hide RELATIVE_TOKEN_FONT, RELATIVE_FONT, TOKEN_FONT, FONT, TOKEN, BARE_TOKEN;
    PrefixBehind(OVERLAP, FONT, Stage(p.rest, 0, ""));
  }

  lemma StubChosen(p: Parts, fonts: bool)
    requires IsParted(p, fonts) && p.Next? && p.part.Stub?
    ensures p.rest.Next? && p.rest.part.Pair? && fonts
  {
    hide RELATIVE_TOKEN_FONT, RELATIVE_FONT, TOKEN_FONT, OVERLAP, FONT, TOKEN, STUB, BARE_TOKEN;
    PartTexts("");
    StubFacts();
    PartedTail(p, fonts);
    var s, u := Stage(p, 0, ""), Stage(p.rest, 0, "");
    assert OVERLAP + FONT <= s && s == STUB + u;
    assert s[|STUB|..] == u;
    assert (STUB + TOKEN_FONT)[|STUB|..] == TOKEN_FONT;
    assert TOKEN_FONT <= u;
    assert u[0] == TOKEN_FONT[0];
  }

  lemma StubFacts()
    ensures TOKEN_FONT[0] == '/' && RELATIVE_TOKEN_FONT[0] == '.' && RELATIVE_FONT[0] == '.'
  {
  }

  lemma PairedOnly(p: Parts, fonts: bool)
    requires IsParted(p, fonts) && p.Next?
    ensures p.part.Pair? || p.part.Slot? || p.part.Shared? || p.part.Stub? ==> fonts
  {
    hide RELATIVE_TOKEN_FONT, RELATIVE_FONT, TOKEN_FONT, OVERLAP, FONT, TOKEN, STUB, BARE_TOKEN;
  }

  // -------------------------------------------------- matches that stages share

  /** Every text that a stage shows instead of the source keeps `w` out. */
  predicate Keeps(n: nat, base: string, w: string) {
    && KeepsPart(RelativePair, n, base, w) && KeepsPart(Relative, n, base, w) && KeepsPart(Pair, n, base, w)
    && KeepsPart(Slot, n, base, w) && KeepsPart(Shared, n, base, w) && KeepsPart(Alone, n, base, w)
  }

  predicate KeepsPart(x: Part, n: nat, base: string, w: string) {
    Show(x, n, base) == Show(x, 0, base) || Repels(Show(x, n, base), w)
  }

  lemma KeepsTail(n: nat, base: string, w: string, k: nat)
    requires k <= |w| && Keeps(n, base, w)
    ensures Keeps(n, base, w[k..])
  {
    hide Repels, Show;
    forall t | Repels(t, w)
      ensures Repels(t, w[k..])
    {
      RepelsTail(t, w, k);
    }
  }

  lemma KeptPart(x: Part, n: nat, base: string, w: string)
    requires Keeps(n, base, w)
    ensures KeepsPart(x, n, base, w)
  {
    hide Repels;
  }

  /** A match in a stage that the stage keeps out of its own texts is one in the source. */
  lemma {:induction false} StageTransfer(p: Parts, n: nat, base: string, w: string)
    requires Keeps(n, base, w) && w <= Stage(p, n, base)
    ensures w <= Stage(p, 0, base)
  {
    hide Keeps, Show, Differ;
    if w != [] {
      var t, u := Show(p.part, n, base), Stage(p.rest, n, base);
      ReadPast(w, t, u);
      KeptPart(p.part, n, base, w);
      assert w[0..] == w;
      if t == Show(p.part, 0, base) && |w| > |t| {
        KeepsTail(n, base, w, |t|);
        StageTransfer(p.rest, n, base, w[|t|..]);
      }
    }
  }

  /** A word without slashes and dots that no marker can continue. */
  predicate Apart(w: string) {
    && '/' !in w && '.' !in w
    && Repels(SLOT_MARKER, w) && Repels(PAIR_MARKER, w) && Repels(RELATIVE_MARKER, w)
  }

  /** The stages in which every text that is not the source's is a marker or begins with a
      slash or a dot. */
  predicate Settled(n: nat, base: string) {
    if base == "" then n <= 5 else base[0] == '/' && n <= 8
  }

  lemma FirstRepels(t: string, w: string)
    requires t != [] && t[0] !in w
    ensures Repels(t, w)
  {
    forall j | 0 <= j < |w|
      ensures Differ(t, w[j..])
    {
      assert w[j] in w;
      assert t[0] != w[j..][0];
    }
  }

  lemma LongerRepels(t: string, u: string, w: string)
    requires Repels(t, w)
    ensures Repels(t + u, w)
  {
    forall j | 0 <= j < |w|
      ensures Differ(t + u, w[j..])
    {
      var i :| 0 <= i < |t| && i < |w[j..]| && t[i] != w[j..][i];
      assert (t + u)[i] == t[i];
    }
  }

  lemma SettledTexts(x: Part, n: nat, base: string)
    requires Settled(n, base)
    ensures var t := Show(x, n, base);
            || t == Show(x, 0, base) || t == RELATIVE_MARKER || t == PAIR_MARKER || t == SLOT_MARKER
            || t == SLOT_MARKER + BARE_TOKEN || (t != [] && (t[0] == '/' || t[0] == '.'))
  {
    if base == "" {
      assert "" + FONT == FONT && "" + FONT + BARE_TOKEN == FONT + BARE_TOKEN;
    }
    StubFacts();
    assert FONT[0] == '/';
  }

  lemma ApartIsKept(n: nat, base: string, w: string)
    requires Apart(w) && Settled(n, base)
    ensures Keeps(n, base, w)
  {
    hide Repels, Show, Settled;
    forall x: Part
      ensures KeepsPart(x, n, base, w)
    {
      var t := Show(x, n, base);
      SettledTexts(x, n, base);
      LongerRepels(SLOT_MARKER, BARE_TOKEN, w);
      if t != [] && (t[0] == '/' || t[0] == '.') {
        FirstRepels(t, w);
      }
    }
  }

  /** A word without underscores is kept out of the markers. */
  lemma WordIsKept(n: nat, base: string, w: string)
    requires n <= 3 && '_' !in w
    ensures Keeps(n, base, w)
  {
    FirstRepels(RELATIVE_MARKER, w);
    FirstRepels(PAIR_MARKER, w);
    hide Repels;
  }

  // ------------------------------------------------------- a source without traces

  ghost predicate Calm(p: Parts) {
    CoreFree(Stage(p, 0, "")) && WholeStems(Stage(p, 0, ""))
  }

  lemma CalmTail(p: Parts)
    requires p.Next? && Calm(p)
    ensures Calm(p.rest)
  {
    var t, u := Show(p.part, 0, ""), Stage(p.rest, 0, "");
    CoreFreeTail(t, u);
    hide WholeAt;
    forall i | 0 <= i <= |u|
      ensures WholeAt(u[i..])
    {
      assert (t + u)[|t| + i..] == u[i..];
    }
  }

  lemma CoreFreeTail(t: string, u: string)
    requires CoreFree(t + u)
    ensures CoreFree(u)
  {
    hide Occurs;
    StillFree(SLOT_CORE, t, u);
    StillFree(PAIR_CORE, t, u);
    StillFree(RELATIVE_CORE, t, u);
  }

  lemma StillFree(word: string, t: string, u: string)
    requires !Occurs(word, t + u)
    ensures !Occurs(word, u)
  {
    if Occurs(word, u) {
      OccursFrom(word, t, u);
    }
  }

  lemma NoCore(marker: string, data: string)
    requires IsMarker(marker) && CoreFree(data)
    ensures !Occurs(Core(marker), data)
  {
    hide Occurs;
  }

  lemma MarkersAreForeign()
    ensures Foreign(SLOT_MARKER) && Foreign(PAIR_MARKER) && Foreign(RELATIVE_MARKER)
  {
  }

  lemma PlainIsApart(w: string)
    requires Plain(w) && '.' !in w
    ensures Apart(w)
  {
    hide Foreign, Repels;
    MarkersAreForeign();
    ForeignRepels(SLOT_MARKER, w);
    ForeignRepels(PAIR_MARKER, w);
    ForeignRepels(RELATIVE_MARKER, w);
    forall i | 0 <= i < |w|
      ensures w[i] != '/'
    {
      assert PlainAt(w, i);
    }
  }

  lemma NoDotInCore(marker: string)
    requires IsMarker(marker)
    ensures '.' !in Core(marker) && Core(marker) != [] && Core(marker)[0] == 'D'
  {
  }

  /** A core, and a core behind an underscore. */
  lemma CoreIsApart(marker: string)
    requires IsMarker(marker)
    ensures Apart(Core(marker)) && Apart(['_'] + Core(marker))
  {
    hide IsMarker, Core, Apart;
    CoreIsPlain(marker);
    NoDotInCore(marker);
    var core := Core(marker);
    PlainIsApart(core);
    forall i | 0 <= i < |['_'] + core|
      ensures PlainAt(['_'] + core, i)
    {
      if i > 0 {
        assert PlainAt(core, i - 1);
      }
    }
    PlainIsApart(['_'] + core);
  }

  /** What follows the first or the second underscore of a marker begins no text. */
  ghost predicate NoTails(marker: string, u: string)
    requires |marker| > 2
  {
    !(marker[1..] <= u) && !(marker[2..] <= u)
  }

  lemma CoreInTails(marker: string, u: string)
    requires IsMarker(marker) && |marker| > 2
    ensures marker[2..] <= u ==> Core(marker) <= u
    ensures marker[1..] <= u ==> ['_'] + Core(marker) <= u
  {
    hide IsMarker, Core;
    CoreInside(marker);
    assert marker[1..] == ['_'] + marker[2..];
  }

  lemma OccursBehind(c: char, word: string, u: string)
    requires [c] + word <= u
    ensures Occurs(word, u)
  {
    hide Occurs;
    assert word <= u[1..];
    OccursAt(word, u, 1);
  }

  lemma TailsFree(p: Parts, n: nat, base: string, marker: string)
    requires Calm(p) && IsMarker(marker) && Settled(n, base) && |marker| > 2
    ensures NoTails(marker, Stage(p, n, base))
  {
    hide IsMarker, Core, Apart, Stage, Keeps, Settled, Occurs, CoreFree, WholeStems;
    CoreIsApart(marker);
    ApartIsKept(n, base, Core(marker));
    ApartIsKept(n, base, ['_'] + Core(marker));
    CoreInTails(marker, Stage(p, n, base));
    NoCore(marker, Stage(p, 0, ""));
    StageZero(p, base);
    var source := Stage(p, 0, base);
    if Core(marker) <= Stage(p, n, base) {
      StageTransfer(p, n, base, Core(marker));
      assert source[0..] == source;
      OccursAt(Core(marker), source, 0);
    }
    if ['_'] + Core(marker) <= Stage(p, n, base) {
      StageTransfer(p, n, base, ['_'] + Core(marker));
      OccursBehind('_', Core(marker), source);
    }
  }

  // --------------------------------------------------------- where no marker begins

  lemma DifferBlocks(w: string, t: string, u: string, o: nat)
    requires o <= |t| && Differ(w, t[o..])
    ensures !(w <= (t + u)[o..])
  {
    var i :| 0 <= i < |w| && i < |t[o..]| && w[i] != t[o..][i];
    assert (t + u)[o..][i] == t[o..][i];
  }

  lemma GuardedNone(w: string, t: string, u: string)
    requires Guarded(w, t) && |w| > 2 && NoTails(w, u)
    ensures NoneBegins(w, t, u)
  {
    hide Differ;
    forall o | 0 <= o < |t|
      ensures !(w <= (t + u)[o..])
    {
      if o + 2 < |t| {
        DifferBlocks(w, t, u, o);
      } else if w <= (t + u)[o..] {
        BehindTheSeam(w, t, u, o);
      }
    }
  }

  lemma DifferLonger(w: string, s: string, u: string)
    requires Differ(w, s)
    ensures Differ(w, s + u)
  {
    var i :| 0 <= i < |w| && i < |s| && w[i] != s[i];
    assert (s + u)[i] == s[i];
  }

  lemma DifferAt(w: string, s: string, i: nat)
    requires i < |w| && i < |s| && w[i] != s[i]
    ensures Differ(w, s)
  {
  }

  /** Guards join where the second text begins with a slash. */
  lemma ConcatGuarded(w: string, a: string, b: string)
    requires Guarded(w, a) && Guarded(w, b) && b != [] && b[0] == '/' && '/' !in w && |w| > 2
    ensures Guarded(w, a + b)
  {
    hide Differ;
    forall o | 0 <= o && o + 2 < |a + b|
      ensures Differ(w, (a + b)[o..])
    {
      if o >= |a| {
        assert (a + b)[o..] == b[o - |a|..];
      } else {
        assert (a + b)[o..] == a[o..] + b;
        if o + 2 < |a| {
          DifferLonger(w, a[o..], b);
        } else {
          assert (a[o..] + b)[|a| - o] == '/';
          DifferAt(w, a[o..] + b, |a| - o);
        }
      }
    }
  }

  lemma WithoutFirstGuarded(w: string, t: string)
    requires w != [] && w[0] !in t
    ensures Guarded(w, t)
  {
    hide Differ;
    forall o | 0 <= o && o + 2 < |t|
      ensures Differ(w, t[o..])
    {
      assert t[o] in t;
      DifferAt(w, t[o..], 0);
    }
  }

  /** No marker begins in another marker or in a placeholder. */
  lemma MarkerNone(t: string, u: string, marker: string)
    requires IsMarker(marker) && (IsMarker(t) || t == TOKEN) && t != marker && |marker| > 2
    requires NoTails(marker, u)
    ensures NoneBegins(marker, t, u)
  {
    hide IsMarker, TOKEN;
    forall o | 0 <= o < |t|
      ensures !(marker <= (t + u)[o..])
    {
      if o + 2 < |t| {
        NotInside(t, u, marker, o);
      } else if marker <= (t + u)[o..] {
        BehindTheSeam(marker, t, u, o);
      }
    }
  }

  lemma BareNone(u: string, marker: string)
    requires IsMarker(marker) && |marker| > 2 && NoTails(marker, u)
    ensures NoneBegins(marker, BARE_TOKEN, u)
  {
    hide IsMarker, TOKEN, BARE_TOKEN, FONT;
    PartTexts("");
    TokenIsNoMarker(marker);
    MarkerNone(TOKEN, u, marker);
    forall o | 0 <= o < |BARE_TOKEN|
      ensures !(marker <= (BARE_TOKEN + u)[o..])
    {
      assert (TOKEN + u)[o + 1..] == (BARE_TOKEN + u)[o..];
    }
  }

  lemma TokenIsNoMarker(marker: string)
    requires IsMarker(marker)
    ensures TOKEN != marker && |marker| > 2 && '/' !in marker && marker[0] == '_'
  {
    MarkersAreDistinct();
    Alphabets();
  }

  lemma FontTexts()
    ensures FONT != [] && STUB != [] && '_' !in FONT && '_' !in STUB && FONT[0] == '/' && STUB[0] == '/'
    ensures '/' !in BARE_TOKEN
    ensures '.' !in FONT && '.' !in STUB && '.' !in BARE_TOKEN && '.' !in OVERLAP
  {
  }

  lemma QuietIsGuarded(base: string, marker: string)
    requires QuietBase(base) && IsMarker(marker)
    ensures Guarded(marker, base) && Guarded(marker, base + FONT) && Guarded(marker, base + STUB + base)
  {
    hide Guarded, Occurs, FONT, STUB;
    FontTexts();
    TokenIsNoMarker(marker);
    WithoutFirstGuarded(marker, FONT);
    WithoutFirstGuarded(marker, STUB);
    ConcatGuarded(marker, base, FONT);
    ConcatGuarded(marker, base, STUB);
    ConcatGuarded(marker, base + STUB, base);
  }

  // ------------------------------------------------------ where no placeholder begins

  lemma ApartTail(w: string)
    requires w != [] && Apart(w)
    ensures Apart(w[1..])
  {
    hide Repels;
    RepelsTail(SLOT_MARKER, w, 1);
    RepelsTail(PAIR_MARKER, w, 1);
    RepelsTail(RELATIVE_MARKER, w, 1);
  }

  lemma ReferenceStart(x: Part)
    ensures !x.Char? ==> var t := Show(x, 0, ""); t != [] && (t[0] == '/' || t[0] == '.')
  {
  }

  /** Such a word is made of bytes of the source. */
  lemma {:induction false} ApartIsBytes(p: Parts, fonts: bool, n: nat, base: string, w: string) returns (q: Parts)
    requires IsParted(p, fonts) && Apart(w) && Settled(n, base) && w <= Stage(p, n, base)
    ensures IsParted(q, fonts) && Stage(p, n, base) == w + Stage(q, n, base)
    ensures Stage(p, 0, "") == w + Stage(q, 0, "")
    decreases p
  {
    hide IsParted, Apart, Settled, Keeps, Repels, Show;
    q := p;
    if w != [] {
      var t, u := Show(p.part, n, base), Stage(p.rest, n, base);
      NotInWord(p.part, n, base, w, u);
      PartedTail(p, fonts);
      ApartTail(w);
      CharShows(p.part, n, base);
      assert w == [w[0]] + w[1..];
      q := ApartIsBytes(p.rest, fonts, n, base, w[1..]);
    }
  }

  lemma CharShows(x: Part, n: nat, base: string)
    ensures x.Char? ==> Show(x, n, base) == [x.c] == Show(x, 0, "")
  {
  }

  /** A part at which such a word starts is a byte. */
  lemma NotInWord(x: Part, n: nat, base: string, w: string, u: string)
    requires Apart(w) && Settled(n, base) && w != [] && w <= Show(x, n, base) + u
    ensures x.Char?
  {
    hide Settled, Keeps, Repels, Show;
    var t := Show(x, n, base);
    ApartIsKept(n, base, w);
    KeptPart(x, n, base, w);
    ReadPast(w, t, u);
    ReferenceStart(x);
    SourceShows(x, base);
    assert w[0..] == w && w[0] in w;
    FirstDiffers(t, w);
  }

  lemma FirstDiffers(t: string, w: string)
    ensures t != [] && w != [] && t[0] != w[0] ==> Differ(t, w)
    ensures Repels(t, w) && w != [] ==> Differ(t, w[0..])
  {
  }

  lemma SourceShows(x: Part, base: string)
    ensures Show(x, 0, base) == Show(x, 0, "")
  {
  }

  lemma NoByteIsReference(p: Parts, fonts: bool)
    requires IsParted(p, fonts) && p.Next? && !p.part.Char?
    ensures ReferenceAt(Stage(p, 0, ""))
  {
    hide RELATIVE_TOKEN_FONT, RELATIVE_FONT, TOKEN_FONT, FONT, TOKEN, BARE_TOKEN;
    TokenInPair();
    assert FONT <= OVERLAP;
  }

  /** The underscores behind half a placeholder are the source's. */
  lemma UnderscoresStay(q: Parts, fonts: bool, n: nat, base: string)
    requires IsParted(q, fonts) && "__" <= Stage(q, n, base)
    requires !ReferenceAt(Stage(q, 0, ""))
    requires var s := Stage(q, 0, ""); s != [] && s[0] == '_' ==> !ReferenceAt(s[1..])
    ensures "__" <= Stage(q, 0, "")
  {
    hide IsParted, ReferenceAt;
    PartedTail(q, fonts);
    if !q.part.Char? {
      NoByteIsReference(q, fonts);
    }
    UnderscoreStays(q, "_", n, base);
    assert Stage(q, 0, "")[1..] == Stage(q.rest, 0, "");
    if !q.rest.part.Char? {
      NoByteIsReference(q.rest, fonts);
    }
    UnderscoreStays(q.rest, "", n, base);
  }

  lemma UnderscoreStays(q: Parts, w: string, n: nat, base: string)
    requires q.Next? && q.part.Char? && ['_'] + w <= Stage(q, n, base)
    ensures w <= Stage(q.rest, n, base) && q.part.c == '_'
    ensures Stage(q, 0, "") == ['_'] + Stage(q.rest, 0, "")
  {
    assert Stage(q, n, base) == [q.part.c] + Stage(q.rest, n, base);
    assert (['_'] + w)[0] == '_';
    PrefixBehind(['_'], w, Stage(q.rest, n, base));
  }

  lemma BareParts()
    ensures STEM != [] && STEM == ['/'] + STEM[1..] && BARE_TOKEN == STEM[1..] + "__" && TOKEN == STEM + "__"
  {
  }

  /** Where a slash stays and the rest of a placeholder follows, the source shows it. */
  lemma BareFollows(p: Parts, fonts: bool, n: nat, base: string)
    requires IsParted(p, fonts) && Calm(p) && p.Next? && Settled(n, base)
    requires var t := Show(p.part, 0, ""); t != [] && t[|t| - 1] == '/'
    requires BARE_TOKEN <= Stage(p.rest, n, base)
    ensures BARE_TOKEN <= Stage(p.rest, 0, "")
    ensures p.part == Char('/') ==> TOKEN <= Stage(p, 0, "")
  {
    hide IsParted, Apart, Settled, CoreFree, Show, STEM, TOKEN, BARE_TOKEN, ReferenceAt;
    StemIsApart();
    BareParts();
    PartedTail(p, fonts);
    var w := STEM[1..];
    var q := ApartIsBytes(p.rest, fonts, n, base, w);
    var s := Stage(q, 0, "");
    PrefixBehind(w, "__", Stage(q, n, base));
    PrefixBehind(w, "__", s);
    PrefixBehind(STEM, "__", s);
    var t := Show(p.part, 0, "");
    assert (t + (w + s))[|t| - 1..] == STEM + s;
    assert WholeAt(STEM + s);
    assert (STEM + s)[|STEM|..] == s;
    if !(TOKEN <= STEM + s) {
      UnderscoresStay(q, fonts, n, base);
    }
    OneChar(p);
  }

  lemma OneChar(p: Parts)
    requires p.Next?
    ensures p.part.Char? ==> |Show(p.part, 0, "")| == 1 && Stage(p, 0, "")[0..] == Stage(p, 0, "")
  {
  }

  lemma StemIsApart()
    ensures Apart(STEM[1..])
  {
    hide Repels, Foreign;
    MarkersAreForeign();
    StemRepelled(SLOT_MARKER);
    StemRepelled(PAIR_MARKER);
    StemRepelled(RELATIVE_MARKER);
  }

  // ---------------------------------------------------------- the passes, part by part

  /** A pass moves these parts one stage on, and meets its pattern as often as it should. */
  ghost predicate MovesOn(p: Parts, n: nat, base: string)
    requires 1 <= n <= 8
  {
    && ReplaceAll(Stage(p, n - 1, base), Pattern(n), Substitute(n, base)) == Stage(p, n, base)
    && CountAll(Stage(p, n - 1, base), Pattern(n)) == HitCount(p, n)
  }

  lemma PatternsAreSomething(n: nat)
    ensures Pattern(n) != []
  {
  }

  lemma MissPart(p: Parts, n: nat, base: string)
    requires 1 <= n <= 8 && p.Next? && MovesOn(p.rest, n, base) && !Hits(p.part, n)
    requires Show(p.part, n, base) == Show(p.part, n - 1, base)
    requires NoneBegins(Pattern(n), Show(p.part, n - 1, base), Stage(p.rest, n - 1, base))
    ensures MovesOn(p, n, base)
  {
    hide ReplaceAll, CountAll, Show, Pattern, Substitute, NoneBegins, Hits;
    PatternsAreSomething(n);
    Miss(Pattern(n), Substitute(n, base), Show(p.part, n - 1, base), Stage(p.rest, n - 1, base));
  }

  lemma HitPart(p: Parts, n: nat, base: string, a: string, b: string)
    requires 1 <= n <= 8 && p.Next? && MovesOn(p.rest, n, base) && Hits(p.part, n)
    requires Show(p.part, n - 1, base) == a + Pattern(n) + b
    requires Show(p.part, n, base) == a + Substitute(n, base) + b
    requires NoneBegins(Pattern(n), a, Pattern(n) + (b + Stage(p.rest, n - 1, base)))
    requires NoneBegins(Pattern(n), b, Stage(p.rest, n - 1, base))
    ensures MovesOn(p, n, base)
  {
    hide ReplaceAll, CountAll, Show, Pattern, Substitute, NoneBegins, Hits;
    PatternsAreSomething(n);
    var w, v, u := Pattern(n), Substitute(n, base), Stage(p.rest, n - 1, base);
    assert a + w + b + u == a + (w + (b + u));
    Miss(w, v, a, w + (b + u));
    Hit(w, v, b + u);
    Miss(w, v, b, u);
    assert a + (v + (b + ReplaceAll(u, w, v))) == a + v + b + ReplaceAll(u, w, v);
  }

  /** The part shows nothing but the pattern. */
  lemma HitWhole(p: Parts, n: nat, base: string)
    requires 1 <= n <= 8 && p.Next? && MovesOn(p.rest, n, base) && Hits(p.part, n)
    requires Show(p.part, n - 1, base) == Pattern(n) && Show(p.part, n, base) == Substitute(n, base)
    ensures MovesOn(p, n, base)
  {
    hide MovesOn, Show, Pattern, Substitute, Hits;
    assert [] + Pattern(n) + [] == Pattern(n) && [] + Substitute(n, base) + [] == Substitute(n, base);
    HitPart(p, n, base, [], []);
  }

  lemma NoneInChar(w: string, c: char, u: string)
    requires w != [] && !(w <= [c] + u)
    ensures NoneBegins(w, [c], u)
  {
    assert ([c] + u)[0..] == [c] + u;
  }

  /** The texts of a stage in which a character does not appear. */
  lemma PartsWithoutDots(x: Part, n: nat, base: string)
    requires n <= 1 && !x.Char? && !x.RelativePair? && !x.Relative?
    ensures '.' !in Show(x, n, base)
  {
    hide TOKEN, TOKEN_FONT, FONT, BARE_TOKEN, STUB, OVERLAP;
    Alphabets();
    FontTexts();
  }

  /** Pass 1 hides `../<placeholder>/fonts/`. */
  lemma Step1(p: Parts, fonts: bool, base: string)
    requires IsParted(p, fonts) && p.Next? && MovesOn(p.rest, 1, base)
    ensures MovesOn(p, 1, base)
  {
    hide MovesOn, IsParted, NoneBegins, Stage;
    Alphabets();
    StubFacts();
    var u := Stage(p.rest, 0, base);
    match p.part
    case RelativePair => HitWhole(p, 1, base);
    case Relative =>
      NoneInRelativeFont(u);
      MissPart(p, 1, base);
    case Char(c) =>
      NoPatternHere(p, fonts, base);
      NoneInChar(RELATIVE_TOKEN_FONT, c, u);
      MissPart(p, 1, base);
    case _ =>
      PartsWithoutDots(p.part, 0, base);
      NoneWithoutFirst(RELATIVE_TOKEN_FONT, Show(p.part, 0, base), u);
      MissPart(p, 1, base);
  }

  lemma NoPatternHere(p: Parts, fonts: bool, base: string)
    requires IsParted(p, fonts) && p.Next? && p.part.Char?
    ensures !(RELATIVE_TOKEN_FONT <= [p.part.c] + Stage(p.rest, 0, base))
  {
    hide IsParted, RELATIVE_TOKEN_FONT;
    CharChosen(p, fonts);
    StageZero(p, base);
  }

  /** A word without underscores that the source does not show at a byte. */
  lemma NoWordHere(p: Parts, fonts: bool, n: nat, base: string, w: string)
    requires IsParted(p, fonts) && p.Next? && p.part.Char? && n <= 3 && '_' !in w
    requires w == RELATIVE_FONT || (w == FONT && fonts)
    ensures !(w <= [p.part.c] + Stage(p.rest, n, base))
  {
    hide IsParted, RELATIVE_FONT, FONT, Keeps;
    CharChosen(p, fonts);
    StageZero(p, base);
    WordIsKept(n, base, w);
    if w <= [p.part.c] + Stage(p.rest, n, base) {
      StageTransfer(p, n, base, w);
    }
  }

  /** Pass 2 hides `../fonts/`. */
  lemma Step2(p: Parts, fonts: bool, base: string)
    requires IsParted(p, fonts) && p.Next? && MovesOn(p.rest, 2, base)
    ensures MovesOn(p, 2, base)
  {
    hide MovesOn, IsParted, NoneBegins, Stage;
    Alphabets();
    StubFacts();
    var u := Stage(p.rest, 1, base);
    match p.part
    case Relative => HitWhole(p, 2, base);
    case RelativePair =>
      NoneWithoutFirst(RELATIVE_FONT, RELATIVE_MARKER, u);
      MissPart(p, 2, base);
    case Char(c) =>
      NoWordHere(p, fonts, 1, base, RELATIVE_FONT);
      NoneInChar(RELATIVE_FONT, c, u);
      MissPart(p, 2, base);
    case _ =>
      PartsWithoutDots(p.part, 1, base);
      NoneWithoutFirst(RELATIVE_FONT, Show(p.part, 1, base), u);
      MissPart(p, 2, base);
  }

  lemma JoinNone(w: string, a: string, b: string, u: string)
    requires NoneBegins(w, a, b + u) && NoneBegins(w, b, u)
    ensures NoneBegins(w, a + b, u)
  {
    assert (a + b) + u == a + (b + u);
    forall o | 0 <= o < |a + b|
      ensures !(w <= ((a + b) + u)[o..])
    {
      if o >= |a| {
        assert ((a + b) + u)[o..] == (b + u)[o - |a|..];
      }
    }
  }

  /** Where no prefix of a pattern begins, the pattern does not. */
  lemma ShorterNone(v: string, w: string, t: string, u: string)
    requires v <= w && NoneBegins(v, t, u)
    ensures NoneBegins(w, t, u)
  {
    forall o | 0 <= o < |t|
      ensures !(w <= (t + u)[o..])
    {
      assert !(v <= (t + u)[o..]);
    }
  }

  lemma TokenShape()
    ensures |TOKEN| == 23 && TOKEN[0] == '/' && TOKEN[1] == '_'
    ensures STEM != [] && STEM[1..] <= BARE_TOKEN && TOKEN[1..] == BARE_TOKEN
    ensures forall i | 1 <= i < |TOKEN| :: TOKEN[i] != '/'
  {
  }

  /** A font reference without its last slash opens no placeholder. */
  lemma TokenInStub(u: string)
    ensures NoneBegins(TOKEN, STUB, u)
  {
    hide TOKEN;
    TokenShape();
    forall o | 0 <= o < |STUB|
      ensures !(TOKEN <= (STUB + u)[o..])
    {
      assert (STUB + u)[o..][0] == STUB[o];
      assert o == 0 ==> (STUB + u)[o..][1] == 'f';
    }
  }

  lemma TokenInFont(u: string)
    requires !(BARE_TOKEN <= u)
    ensures NoneBegins(TOKEN, FONT, u)
  {
    hide TOKEN, BARE_TOKEN;
    TokenShape();
    forall o | 0 <= o < |FONT|
      ensures !(TOKEN <= (FONT + u)[o..])
    {
      var s := (FONT + u)[o..];
      assert s[0] == FONT[o];
      assert o == 0 ==> s[1] == 'f';
      assert o == 6 ==> s[1..] == u;
    }
  }

  lemma TokenAtChar(c: char, u: string)
    requires c == '/' ==> !(BARE_TOKEN <= u)
    ensures NoneBegins(TOKEN, [c], u)
  {
    hide TOKEN, BARE_TOKEN;
    TokenShape();
    var s := ([c] + u)[0..];
    assert s[0] == c && s[1..] == u;
  }

  /** No placeholder begins in a quiet base that a slash follows. */
  lemma TokenInBase(base: string, u: string)
    requires QuietBase(base) && u != [] && u[0] == '/'
    ensures NoneBegins(TOKEN, base, u)
  {
    hide TOKEN, Guarded, Occurs;
    TokenShape();
    forall o | 0 <= o < |base|
      ensures !(TOKEN <= (base + u)[o..])
    {
      assert (base + u)[o..][|base| - o] == u[0];
      if TOKEN <= (base + u)[o..] && o + |TOKEN| <= |base| {
        assert base[o..][..|TOKEN|] == (base + u)[o..][..|TOKEN|];
        OccursAt(TOKEN, base, o);
      }
    }
  }

  /** Behind a slash no rest of a placeholder follows that the parts do not show. */
  lemma NoBareAfter(p: Parts, fonts: bool, n: nat, base: string)
    requires IsParted(p, fonts) && Calm(p) && p.Next? && Settled(n, base)
    requires p.part.Slot? || p.part == Char('/')
    ensures !(BARE_TOKEN <= Stage(p.rest, n, base))
  {
    hide IsParted, Calm, Settled, Stage, STEM, TOKEN, BARE_TOKEN;
    SlashAtEnd(p.part);
    if BARE_TOKEN <= Stage(p.rest, n, base) {
      BareFollows(p, fonts, n, base);
      if p.part.Slot? {
        SlotChosen(p, fonts);
      } else {
        CharChosen(p, fonts);
      }
    }
  }

  lemma SlashAtEnd(x: Part)
    requires x.Slot? || x == Char('/')
    ensures var t := Show(x, 0, ""); t != [] && t[|t| - 1] == '/'
  {
  }

  /** No placeholder begins in a part that shows none. */
  lemma NoTokenBegins(p: Parts, fonts: bool, n: nat, base: string)
    requires IsParted(p, fonts) && Calm(p) && p.Next? && Settled(n, base) && (n == 2 || n == 5)
    requires !p.part.Alone? && !p.part.Shared? && (p.part.Pair? ==> n == 5) && (p.part.Slot? ==> QuietBase(base))
    ensures NoneBegins(TOKEN, Show(p.part, n, base), Stage(p.rest, n, base))
  {
    hide IsParted, Calm, Settled, Stage, STEM, TOKEN, NoneBegins, QuietBase;
    Alphabets();
    TokenShape();
    var u := Stage(p.rest, n, base);
    match p.part
    case Char(c) =>
      if c == '/' {
        NoBareAfter(p, fonts, n, base);
      }
      TokenAtChar(c, u);
    case Slot =>
      NoBareAfter(p, fonts, n, base);
      TokenInFont(u);
      if n == 5 {
        TokenInBase(base, FONT + u);
        JoinNone(TOKEN, base, FONT, u);
      }
    case Stub => TokenInStub(u);
    case RelativePair => NoneWithoutFirst(TOKEN, RELATIVE_MARKER, u);
    case Relative => NoneWithoutFirst(TOKEN, RELATIVE_MARKER, u);
    case Pair => NoneWithoutFirst(TOKEN, PAIR_MARKER, u);
    case Alone =>
    case Shared =>
  }

  /** No font reference follows a placeholder that stands alone. */
  lemma NoFontBehind(p: Parts, n: nat, base: string)
    requires IsParted(p, true) && p.Next? && n <= 3 && (p.part.Alone? || p.part.Shared?)
    ensures !(FONT <= Stage(p.rest, n, base))
  {
    hide IsParted, Stage, Keeps, FONT;
    FontTexts();
    WordIsKept(n, base, FONT);
    StageZero(p.rest, base);
    if FONT <= Stage(p.rest, n, base) {
      StageTransfer(p.rest, n, base, FONT);
      if p.part.Alone? {
        AloneChosen(p);
      } else {
        SharedChosen(p, true);
      }
    }
  }

  lemma TokenInPair()
    ensures TOKEN <= TOKEN_FONT
  {
  }

  /** Pass 3 hides `<placeholder>/fonts/`. */
  lemma Step3(p: Parts, base: string)
    requires IsParted(p, true) && Calm(p) && QuietBase(base) && p.Next? && MovesOn(p.rest, 3, base)
    ensures MovesOn(p, 3, base)
  {
    hide MovesOn, IsParted, Calm, NoneBegins, Stage, QuietBase, TOKEN, TOKEN_FONT, FONT, BARE_TOKEN, STUB;
    QuietIsSettled(base, 2);
    PartTexts(base);
    TokenInPair();
    var u := Stage(p.rest, 2, base);
    match p.part
    case Pair => HitWhole(p, 3, base);
    case Alone =>
      NoFontBehind(p, 2, base);
      TokenFontInToken(u);
      MissPart(p, 3, base);
    case Shared =>
      NoFontBehind(p, 2, base);
      TokenFontInToken(u);
      TokenInStub(TOKEN + u);
      ShorterNone(TOKEN, TOKEN_FONT, STUB, TOKEN + u);
      JoinNone(TOKEN_FONT, STUB, TOKEN, u);
      MissPart(p, 3, base);
    case _ =>
      NoTokenBegins(p, true, 2, base);
      ShorterNone(TOKEN, TOKEN_FONT, Show(p.part, 2, base), u);
      MissPart(p, 3, base);
  }

  lemma QuietIsSettled(base: string, n: nat)
    requires QuietBase(base) && n <= 8
    ensures Settled(n, base)
  {
  }

  lemma LastOfFont(u: string)
    requires FONT <= STUB + u
    ensures u != [] && u[0] == '/'
  {
    assert (STUB + u)[|STUB|] == u[0];
  }

  lemma FontInStub(u: string)
    requires u != [] ==> u[0] != '/'
    ensures NoneBegins(FONT, STUB, u)
  {
    forall o | 0 <= o < |STUB|
      ensures !(FONT <= (STUB + u)[o..])
    {
      if o == 0 {
        assert (STUB + u)[0..] == STUB + u;
        if FONT <= STUB + u {
          LastOfFont(u);
        }
      } else {
        assert (STUB + u)[o..][0] == STUB[o];
      }
    }
  }

  lemma FirstOfMarkers()
    ensures SLOT_MARKER != [] && PAIR_MARKER != [] && RELATIVE_MARKER != []
    ensures SLOT_MARKER[0] == PAIR_MARKER[0] == RELATIVE_MARKER[0] == '_'
  {
  }

  /** A pair is hidden where a stub stands before it. */
  lemma BehindStub(p: Parts, base: string)
    requires IsParted(p, true) && p.Next? && p.part.Stub?
    ensures var u := Stage(p.rest, 3, base); u != [] && u[0] == '_'
  {
    hide IsParted, PAIR_MARKER;
    FirstOfMarkers();
    StubChosen(p, true);
    assert Show(p.rest.part, 3, base) == PAIR_MARKER;
  }

  /** Pass 4 hides the remaining `/fonts/`. */
  lemma Step4(p: Parts, base: string)
    requires IsParted(p, true) && p.Next? && MovesOn(p.rest, 4, base)
    ensures MovesOn(p, 4, base)
  {
    hide MovesOn, IsParted, NoneBegins, Stage, TOKEN, FONT, BARE_TOKEN, STUB;
    Alphabets();
    FontTexts();
    var u := Stage(p.rest, 3, base);
    match p.part
    case Slot => HitWhole(p, 4, base);
    case Shared =>
      NoneWithoutFirst(FONT, BARE_TOKEN, u);
      NothingBegins(FONT, FONT + (BARE_TOKEN + u));
      assert [] + FONT + BARE_TOKEN == FONT + BARE_TOKEN;
      assert [] + SLOT_MARKER + BARE_TOKEN == SLOT_MARKER + BARE_TOKEN;
      HitPart(p, 4, base, [], BARE_TOKEN);
    case Char(c) =>
      NoWordHere(p, true, 3, base, FONT);
      NoneInChar(FONT, c, u);
      MissPart(p, 4, base);
    case Stub =>
      BehindStub(p, base);
      FontInStub(u);
      MissPart(p, 4, base);
    case Alone =>
      FontInToken(u);
      MissPart(p, 4, base);
    case RelativePair =>
      NoneWithoutFirst(FONT, RELATIVE_MARKER, u);
      MissPart(p, 4, base);
    case Relative =>
      NoneWithoutFirst(FONT, RELATIVE_MARKER, u);
      MissPart(p, 4, base);
    case Pair =>
      NoneWithoutFirst(FONT, PAIR_MARKER, u);
      MissPart(p, 4, base);
  }

  lemma NothingBegins(w: string, u: string)
    ensures NoneBegins(w, [], u)
  {
  }

  /** No marker begins in what a stage shows of a part, unless it shows that marker. */
  lemma NoMarkerBegins(p: Parts, n: nat, base: string, marker: string)
    requires p.Next? && Calm(p.rest) && QuietBase(base) && IsMarker(marker) && (n == 4 || 6 <= n <= 8)
    requires Show(p.part, n, base) != marker && (n == 4 ==> !p.part.Shared?)
    ensures NoneBegins(marker, Show(p.part, n, base), Stage(p.rest, n, base))
  {
    hide Core, Calm, NoneBegins, Stage, QuietBase, Settled, Guarded, TOKEN, FONT, BARE_TOKEN, STUB,
      SLOT_MARKER, PAIR_MARKER, RELATIVE_MARKER, RELATIVE_FONT;
    QuietIsSettled(base, n);
    TokenIsNoMarker(marker);
    TailsFree(p.rest, n, base, marker);
    QuietIsGuarded(base, marker);
    FontTexts();
    Alphabets();
    var t, u := Show(p.part, n, base), Stage(p.rest, n, base);
    match p.part
    case RelativePair => MarkerOrFont(t, u, marker);
    case Relative => MarkerOrFont(t, u, marker);
    case Pair =>
      if n < 7 {
        MarkerNone(t, u, marker);
      } else {
        GuardedNone(marker, t, u);
      }
    case Slot =>
      if n == 4 {
        MarkerNone(t, u, marker);
      } else {
        GuardedNone(marker, t, u);
      }
    case Shared => GuardedNone(marker, t, u);
    case Stub => NoneWithoutFirst(marker, t, u);
    case Alone =>
      if n < 6 {
        MarkerNone(t, u, marker);
      } else {
        GuardedNone(marker, t, u);
      }
    case Char(c) => NoneAtChar(marker, c, u);
  }

  lemma MarkerOrFont(t: string, u: string, marker: string)
    requires IsMarker(marker) && |marker| > 2 && NoTails(marker, u)
    requires t == RELATIVE_FONT || (t == RELATIVE_MARKER && t != marker)
    ensures NoneBegins(marker, t, u)
  {
    hide NoneBegins, SLOT_MARKER, PAIR_MARKER, RELATIVE_MARKER, RELATIVE_FONT, TOKEN;
    Alphabets();
    TokenIsNoMarker(marker);
    if t == RELATIVE_FONT {
      NoneWithoutFirst(marker, t, u);
    } else {
      MarkerNone(t, u, marker);
    }
  }

  lemma NoneAtChar(marker: string, c: char, u: string)
    requires |marker| > 2 && NoTails(marker, u)
    ensures NoneBegins(marker, [c], u)
  {
    hide NoneBegins;
    GuardedNone(marker, [c], u);
  }

  /** Pass 5 shows the hidden font references, with the base. */
  lemma Step5(p: Parts, base: string)
    requires p.Next? && Calm(p.rest) && QuietBase(base) && MovesOn(p.rest, 5, base)
    ensures MovesOn(p, 5, base)
  {
    hide MovesOn, Calm, NoneBegins, Stage, QuietBase, Settled, TOKEN, FONT, BARE_TOKEN, STUB,
      SLOT_MARKER, PAIR_MARKER, RELATIVE_MARKER;
    MarkersAreDistinct();
    var u := Stage(p.rest, 4, base);
    match p.part
    case Slot => HitWhole(p, 5, base);
    case Shared =>
      QuietIsSettled(base, 4);
      TokenIsNoMarker(SLOT_MARKER);
      TailsFree(p.rest, 4, base, SLOT_MARKER);
      BareNone(u, SLOT_MARKER);
      NothingBegins(SLOT_MARKER, SLOT_MARKER + (BARE_TOKEN + u));
      assert [] + SLOT_MARKER + BARE_TOKEN == SLOT_MARKER + BARE_TOKEN;
      assert [] + (base + FONT) + BARE_TOKEN == base + FONT + BARE_TOKEN;
      HitPart(p, 5, base, [], BARE_TOKEN);
    case _ =>
      UnlikeMarker(p.part, 4, base, SLOT_MARKER);
      NoMarkerBegins(p, 4, base, SLOT_MARKER);
      MissPart(p, 5, base);
  }

  /** A part that no marker stands for shows none. */
  lemma UnlikeMarker(x: Part, n: nat, base: string, marker: string)
    requires IsMarker(marker) && (n == 4 || 6 <= n <= 8) && QuietBase(base)
    requires !((x.RelativePair? || x.Relative?) && marker == RELATIVE_MARKER && n < 8)
    requires !(x.Pair? && marker == PAIR_MARKER && n < 7)
    requires !((x.Slot? || x.Shared?) && marker == SLOT_MARKER && n < 5)
    ensures Show(x, n, base) != marker
  {
    hide Guarded, Occurs, TOKEN, FONT, STUB, RELATIVE_FONT, BARE_TOKEN, SLOT_MARKER, PAIR_MARKER, RELATIVE_MARKER;
    PartTexts(base);
    FirstOfMarkers();
    FontTexts();
    FirstOfTexts();
    MarkersAreDistinct();
    assert marker[0] == '_' && 30 < |marker| < 50;
  }

  lemma FirstOfTexts()
    ensures TOKEN[0] == '/' && RELATIVE_FONT != [] && RELATIVE_FONT[0] == '.'
    ensures 30 < |SLOT_MARKER| < 50 && 30 < |PAIR_MARKER| < 50 && 30 < |RELATIVE_MARKER| < 50
  {
  }

  /** Pass 6 replaces the placeholders. */
  lemma Step6(p: Parts, fonts: bool, base: string)
    requires IsParted(p, fonts) && Calm(p) && p.Next? && MovesOn(p.rest, 6, base)
    requires if fonts then QuietBase(base) else base == ""
    ensures MovesOn(p, 6, base)
  {
    hide MovesOn, IsParted, Calm, NoneBegins, Stage, Settled, QuietBase, TOKEN, TOKEN_FONT, FONT, BARE_TOKEN, STUB;
    if fonts {
      QuietIsSettled(base, 5);
    }
    EmptyIsSettled();
    PairedOnly(p, fonts);
    PartTexts(base);
    FontTexts();
    var u := Stage(p.rest, 5, base);
    match p.part
    case Alone => HitWhole(p, 6, base);
    case Shared =>
      TokenInBase(base, STUB + (TOKEN + u));
      TokenInStub(TOKEN + u);
      JoinNone(TOKEN, base, STUB, TOKEN + u);
      NothingBegins(TOKEN, u);
      assert TOKEN + ([] + u) == TOKEN + u;
      assert base + STUB + TOKEN + [] == base + FONT + BARE_TOKEN;
      assert base + STUB + base + [] == base + STUB + base;
      HitPart(p, 6, base, base + STUB, []);
    case _ =>
      NoTokenBegins(p, fonts, 5, base);
      MissPart(p, 6, base);
  }

  lemma EmptyIsSettled()
    ensures Settled(5, "")
  {
  }

  /** Pass 7 shows the hidden pairs, with the base. */
  lemma Step7(p: Parts, base: string)
    requires p.Next? && Calm(p.rest) && QuietBase(base) && MovesOn(p.rest, 7, base)
    ensures MovesOn(p, 7, base)
  {
    hide MovesOn, Calm, NoneBegins, Stage, QuietBase, TOKEN, FONT, BARE_TOKEN, STUB,
      SLOT_MARKER, PAIR_MARKER, RELATIVE_MARKER;
    MarkersAreDistinct();
    if p.part.Pair? {
      HitWhole(p, 7, base);
    } else {
      UnlikeMarker(p.part, 6, base, PAIR_MARKER);
      NoMarkerBegins(p, 6, base, PAIR_MARKER);
      MissPart(p, 7, base);
    }
  }

  /** Pass 8 shows the relative font references, with a base. */
  lemma Step8(p: Parts, base: string)
    requires p.Next? && Calm(p.rest) && QuietBase(base) && MovesOn(p.rest, 8, base)
    ensures MovesOn(p, 8, base)
  {
    hide MovesOn, Calm, NoneBegins, Stage, QuietBase, TOKEN, FONT, BARE_TOKEN, STUB,
      SLOT_MARKER, PAIR_MARKER, RELATIVE_MARKER;
    MarkersAreDistinct();
    if p.part.Relative? || p.part.RelativePair? {
      HitWhole(p, 8, base);
    } else {
      UnlikeMarker(p.part, 7, base, RELATIVE_MARKER);
      NoMarkerBegins(p, 7, base, RELATIVE_MARKER);
      MissPart(p, 8, base);
    }
  }

  // ---------------------------------------------------------------- an empty base

  /** From its letter `k` on, no placeholder stands inside a word at the start of a text. */
  ghost predicate Unsplit(w: string, k: nat, s: string) {
    forall j | k <= j < |w| :: !(w[k..j] + TOKEN <= s)
  }

  lemma UnsplitTail(w: string, k: nat, u: string)
    requires k < |w| && Unsplit(w, k, [w[k]] + u)
    ensures Unsplit(w, k + 1, u)
  {
    hide TOKEN;
    var m := k + 1;
    forall j | m <= j < |w|
      ensures !(w[m..j] + TOKEN <= u)
    {
      assert [w[k]] + (w[m..j] + TOKEN) == w[k..j] + TOKEN;
      PrefixBehind([w[k]], w[m..j] + TOKEN, u);
    }
  }

  lemma UnsplitBehind(w: string, a: string, u: string)
    requires w != [] && !Splits(w, a + ([w[0]] + u))
    ensures Unsplit(w, 1, u)
  {
    hide TOKEN, Occurs;
    forall j | 1 <= j < |w|
      ensures !(w[1..j] + TOKEN <= u)
    {
      if w[1..j] + TOKEN <= u {
        assert [w[0]] + (w[1..j] + TOKEN) == w[..j] + TOKEN;
        PrefixBehind([w[0]], w[1..j] + TOKEN, u);
        assert (a + ([w[0]] + u))[|a|..] == [w[0]] + u;
        OccursAt(w[..j] + TOKEN, a + ([w[0]] + u), |a|);
      }
    }
  }

  lemma SplitsTail(w: string, t: string, u: string)
    requires !Splits(w, t + u)
    ensures !Splits(w, u)
  {
    hide Occurs, TOKEN;
    forall k | 0 < k < |w|
      ensures !Occurs(w[..k] + TOKEN, u)
    {
      StillFree(w[..k] + TOKEN, t, u);
    }
  }

  /** A word that starts behind a letter of the source was not made by taking out
      placeholders. */
  lemma {:induction false} SplitTransfer(p: Parts, n: nat, w: string, k: nat)
    requires IsParted(p, false) && 6 <= n <= 8 && k <= |w| && Repels(Show(Relative, n, ""), w)
    requires Unsplit(w, k, Stage(p, 0, "")) && w[k..] <= Stage(p, n, "")
    ensures w[k..] <= Stage(p, 0, "")
  {
    hide IsParted, Repels, Differ, TOKEN, Unsplit, RELATIVE_MARKER, RELATIVE_FONT, RELATIVE_TOKEN_FONT;
    if k < |w| {
      PairedOnly(p, false);
      PartedTail(p, false);
      var t, u := Show(p.part, n, ""), Stage(p.rest, n, "");
      RelativeStops(w, k, n);
      ReadPast(w[k..], t, u);
      match p.part
      case Char(c) =>
        assert w[k..] == [w[k]] + w[k + 1..];
        assert c == w[k] && w[k..][1..] == w[k + 1..];
        UnsplitTail(w, k, Stage(p.rest, 0, ""));
        SplitTransfer(p.rest, n, w, k + 1);
      case Alone => TokenSplits(w, k, Stage(p.rest, 0, ""));
      case _ =>
    }
  }

  lemma TokenSplits(w: string, k: nat, u: string)
    requires k < |w|
    ensures !Unsplit(w, k, TOKEN + u)
  {
    hide TOKEN;
    assert w[k..k] + TOKEN == TOKEN;
  }

  lemma RelativeStops(w: string, k: nat, n: nat)
    requires k < |w| && Repels(Show(Relative, n, ""), w)
    ensures Differ(Show(Relative, n, ""), w[k..])
  {
  }

  /** A word that a text without placeholders starts with stands in the source. */
  lemma {:induction false} HeadTransfer(p: Parts, n: nat, w: string)
    requires IsParted(p, false) && 6 <= n <= 8 && w != [] && Repels(Show(Relative, n, ""), w)
    requires !Splits(w, Stage(p, 0, "")) && w <= Stage(p, n, "")
    ensures Occurs(w, Stage(p, 0, ""))
  {
    hide IsParted, Repels, Differ, TOKEN, Unsplit, Splits, Occurs, RELATIVE_MARKER, RELATIVE_FONT, RELATIVE_TOKEN_FONT;
    PairedOnly(p, false);
    PartedTail(p, false);
    var t, u, v := Show(p.part, n, ""), Stage(p.rest, n, ""), Stage(p.rest, 0, "");
    assert w[0..] == w;
    RelativeStops(w, 0, n);
    ReadPast(w, t, u);
    SplitsTail(w, Show(p.part, 0, ""), v);
    match p.part
    case Char(c) =>
      assert w == [w[0]] + w[1..];
      assert [] + ([w[0]] + v) == [c] + v;
      UnsplitBehind(w, [], v);
      SplitTransfer(p.rest, n, w, 1);
      assert ([c] + v)[0..] == [c] + v;
      OccursAt(w, [c] + v, 0);
    case Alone =>
      HeadTransfer(p.rest, n, w);
      OccursFrom(w, TOKEN, v);
    case _ =>
  }

  /** The same behind an underscore. */
  lemma {:induction false} UnderscoreTransfer(p: Parts, n: nat, w: string)
    requires IsParted(p, false) && 6 <= n <= 8 && w != []
    requires Repels(Show(Relative, n, ""), w) && Repels(Show(Relative, n, ""), ['_'] + w)
    requires !Splits(w, Stage(p, 0, "")) && ['_'] + w <= Stage(p, n, "")
    ensures Occurs(w, Stage(p, 0, ""))
  {
    hide IsParted, Repels, Differ, TOKEN, Splits, Occurs, RELATIVE_MARKER, RELATIVE_FONT, RELATIVE_TOKEN_FONT;
    PairedOnly(p, false);
    PartedTail(p, false);
    var t, u, v := Show(p.part, n, ""), Stage(p.rest, n, ""), Stage(p.rest, 0, "");
    assert (['_'] + w)[0..] == ['_'] + w;
    RelativeStops(['_'] + w, 0, n);
    ReadPast(['_'] + w, t, u);
    SplitsTail(w, Show(p.part, 0, ""), v);
    match p.part
    case Char(c) =>
      assert (['_'] + w)[1..] == w;
      HeadTransfer(p.rest, n, w);
      OccursFrom(w, [c], v);
    case Alone =>
      UnderscoreTransfer(p.rest, n, w);
      OccursFrom(w, TOKEN, v);
    case _ =>
  }

  lemma RelativeRepels(n: nat, w: string)
    requires Apart(w) && 6 <= n <= 8
    ensures Repels(Show(Relative, n, ""), w)
  {
    hide Repels;
    if n == 8 {
      FirstOfTexts();
      FirstRepels(RELATIVE_FONT, w);
    }
  }

  lemma EmptyTails(p: Parts, n: nat, marker: string)
    requires IsParted(p, false) && Calm(p) && IsMarker(marker) && 6 <= n <= 8 && |marker| > 2
    requires !Splits(Core(marker), Stage(p, 0, ""))
    ensures NoTails(marker, Stage(p, n, ""))
  {
    hide IsParted, IsMarker, Core, Apart, Stage, Splits, Occurs, CoreFree, WholeStems, Repels, Show;
    CoreIsApart(marker);
    NoDotInCore(marker);
    RelativeRepels(n, Core(marker));
    RelativeRepels(n, ['_'] + Core(marker));
    CoreInTails(marker, Stage(p, n, ""));
    NoCore(marker, Stage(p, 0, ""));
    if Core(marker) <= Stage(p, n, "") {
      HeadTransfer(p, n, Core(marker));
    }
    if ['_'] + Core(marker) <= Stage(p, n, "") {
      UnderscoreTransfer(p, n, Core(marker));
    }
  }

  /** With an empty base too, no marker begins behind pass 6 where the part shows none. */
  lemma NoMarkerBeginsEmpty(p: Parts, n: nat, marker: string)
    requires p.Next? && IsParted(p, false) && Calm(p.rest) && IsMarker(marker) && 6 <= n <= 8
    requires !Splits(Core(marker), Stage(p.rest, 0, "")) && Show(p.part, n, "") != marker
    ensures NoneBegins(marker, Show(p.part, n, ""), Stage(p.rest, n, ""))
  {
    hide IsParted, Core, Calm, NoneBegins, Stage, Splits, TOKEN, FONT, BARE_TOKEN, STUB,
      SLOT_MARKER, PAIR_MARKER, RELATIVE_MARKER, RELATIVE_FONT;
    TokenIsNoMarker(marker);
    PairedOnly(p, false);
    PartedTail(p, false);
    EmptyTails(p.rest, n, marker);
    var t, u := Show(p.part, n, ""), Stage(p.rest, n, "");
    match p.part
    case Char(c) => NoneAtChar(marker, c, u);
    case Alone => NothingBegins(marker, u);
    case _ => MarkerOrFont(t, u, marker);
  }

  /** Pass 8 with an empty base. */
  lemma Step8Empty(p: Parts)
    requires p.Next? && IsParted(p, false) && Calm(p.rest) && MovesOn(p.rest, 8, "")
    requires !Splits(RELATIVE_CORE, Stage(p.rest, 0, ""))
    ensures MovesOn(p, 8, "")
  {
    hide MovesOn, IsParted, Calm, NoneBegins, Stage, Splits, TOKEN, FONT, BARE_TOKEN, STUB,
      SLOT_MARKER, PAIR_MARKER, RELATIVE_MARKER, RELATIVE_CORE;
    PairedOnly(p, false);
    MarkersAreDistinct();
    FirstOfTexts();
    if p.part.Relative? || p.part.RelativePair? {
      HitWhole(p, 8, "");
    } else {
      NoMarkerBeginsEmpty(p, 7, RELATIVE_MARKER);
      MissPart(p, 8, "");
    }
  }

  // -------------------------------------------------------------- the passes, whole

  /** Parts of a tidy source. */
  ghost predicate Clear(p: Parts, base: string) {
    && IsParted(p, base != "") && Calm(p)
    && if base == "" then !Splits(RELATIVE_CORE, Stage(p, 0, "")) else QuietBase(base)
  }

  lemma ClearTail(p: Parts, base: string)
    requires p.Next? && Clear(p, base)
    ensures Clear(p.rest, base)
  {
    hide IsParted, Calm, Splits, QuietBase;
    PartedTail(p, base != "");
    CalmTail(p);
    if base == "" {
      SplitsTail(RELATIVE_CORE, Show(p.part, 0, ""), Stage(p.rest, 0, ""));
    }
  }

  lemma Step(p: Parts, n: nat, base: string)
    requires 1 <= n <= 8 && p.Next? && Clear(p, base) && (base == "" ==> n <= 2 || n == 6 || n == 8)
    requires MovesOn(p.rest, n, base)
    ensures MovesOn(p, n, base)
  {
    hide MovesOn, IsParted, Calm, Splits, QuietBase;
    ClearTail(p, base);
    match n
    case 1 => Step1(p, base != "", base);
    case 2 => Step2(p, base != "", base);
    case 3 => Step3(p, base);
    case 4 => Step4(p, base);
    case 5 => Step5(p, base);
    case 6 => Step6(p, base != "", base);
    case 7 => Step7(p, base);
    case _ =>
      if base == "" {
        Step8Empty(p);
      } else {
        Step8(p, base);
      }
  }

  /** Each pass moves all parts one stage on and counts the parts it changes. */
  lemma {:induction false} Pass(p: Parts, n: nat, base: string)
    requires 1 <= n <= 8 && Clear(p, base) && (base == "" ==> n <= 2 || n == 6 || n == 8)
    ensures ReplaceAll(Stage(p, n - 1, base), Pattern(n), Substitute(n, base)) == Stage(p, n, base)
    ensures CountAll(Stage(p, n - 1, base), Pattern(n)) == HitCount(p, n)
  {
    if p.Next? {
      hide Clear;
      ClearTail(p, base);
      Pass(p.rest, n, base);
      Step(p, n, base);
    }
  }

  lemma SameShow(x: Part, n: nat, base: string)
    requires 1 <= n <= 8 && !Hits(x, n)
    ensures Show(x, n, base) == Show(x, n - 1, base)
  {
  }

  /** A pass without a hit changes nothing. */
  lemma {:induction false} NoHits(p: Parts, n: nat, base: string)
    requires 1 <= n <= 8 && HitCount(p, n) == 0
    ensures Stage(p, n, base) == Stage(p, n - 1, base)
  {
    hide Show, Hits;
    if p.Next? {
      SameShow(p.part, n, base);
      NoHits(p.rest, n, base);
    }
  }

  lemma {:induction false} HitsBelong(p: Parts)
    ensures HitCount(p, 5) == HitCount(p, 4) && HitCount(p, 7) == HitCount(p, 3)
    ensures HitCount(p, 8) == HitCount(p, 1) + HitCount(p, 2)
  {
    if p.Next? {
      HitsBelong(p.rest);
    }
  }

  lemma {:induction false} EmptyHits(p: Parts)
    requires IsParted(p, false)
    ensures HitCount(p, 3) == 0 && HitCount(p, 4) == 0
  {
    hide IsParted;
    if p.Next? {
      PairedOnly(p, false);
      PartedTail(p, false);
      EmptyHits(p.rest);
    }
  }

  function Stubs(p: Parts): nat {
    if p.Empty? then 0 else (if p.part.Stub? then 1 else 0) + Stubs(p.rest)
  }

  lemma FontsInPair(v: string)
    ensures CountAll(TOKEN_FONT + v, FONT) == 1 + CountAll(v, FONT)
    ensures CountAll(STUB + (TOKEN_FONT + v), FONT) == 2 + CountAll(v, FONT)
  {
    hide CountAll, ReplaceAll, NoneBegins, TOKEN, TOKEN_FONT, FONT, STUB, BARE_TOKEN;
    PartTexts("");
    FontTexts();
    FontInToken(FONT + v);
    assert TOKEN_FONT + v == TOKEN + (FONT + v);
    Miss(FONT, FONT, TOKEN, FONT + v);
    Hit(FONT, FONT, v);
    assert STUB + (TOKEN_FONT + v) == FONT + (BARE_TOKEN + (FONT + v));
    Hit(FONT, FONT, BARE_TOKEN + (FONT + v));
    NoneWithoutFirst(FONT, BARE_TOKEN, FONT + v);
    Miss(FONT, FONT, BARE_TOKEN, FONT + v);
  }

  /** What counting font references meets in one part. */
  lemma CountFontsInPart(p: Parts, base: string)
    requires IsParted(p, true) && p.Next? && !p.part.Stub?
    ensures CountAll(Stage(p, 2, base), FONT)
            == (if p.part.Pair? || Hits(p.part, 4) then 1 else 0) + CountAll(Stage(p.rest, 2, base), FONT)
  {
    hide CountAll, ReplaceAll, NoneBegins, IsParted, TOKEN, TOKEN_FONT, FONT, STUB, BARE_TOKEN;
    Alphabets();
    FontTexts();
    var t, u := Show(p.part, 2, base), Stage(p.rest, 2, base);
    match p.part
    case Pair => FontsInPair(u);
    case Slot => Hit(FONT, FONT, u);
    case Shared =>
      assert t + u == FONT + (BARE_TOKEN + u);
      Hit(FONT, FONT, BARE_TOKEN + u);
      NoneWithoutFirst(FONT, BARE_TOKEN, u);
      Miss(FONT, FONT, BARE_TOKEN, u);
    case Alone =>
      FontInToken(u);
      Miss(FONT, FONT, t, u);
    case Char(c) =>
      NoWordHere(p, true, 2, base, FONT);
      NoneInChar(FONT, c, u);
      Miss(FONT, FONT, t, u);
    case _ =>
      NoneWithoutFirst(FONT, t, u);
      Miss(FONT, FONT, t, u);
  }

  lemma {:induction false} CountFontParts(p: Parts, base: string)
    requires IsParted(p, true)
    ensures CountAll(Stage(p, 2, base), FONT) == HitCount(p, 3) + HitCount(p, 4) + Stubs(p)
  {
    hide IsParted, TOKEN_FONT, FONT, STUB;
    if p.Next? {
      hide CountAll;
      PartedTail(p, true);
      CountFontParts(p.rest, base);
      if p.part.Stub? {
        StubChosen(p, true);
        PartedTail(p.rest, true);
        FontsInPair(Stage(p.rest.rest, 2, base));
      } else {
        CountFontsInPart(p, base);
      }
    } else {
      FontTexts();
    }
  }

  /** Every placeholder that pass 6 replaces shows in the source. */
  lemma {:induction false} TokenShows(p: Parts)
    requires HitCount(p, 6) > 0
    ensures Occurs(TOKEN, Stage(p, 0, ""))
  {
    hide Occurs, TOKEN, FONT, STUB, BARE_TOKEN;
    PartTexts("");
    var t, u := Show(p.part, 0, ""), Stage(p.rest, 0, "");
    match p.part
    case Alone => OccursAt(TOKEN, TOKEN + u, 0);
    case Shared =>
      assert (t + u)[|STUB|..] == TOKEN + u;
      OccursAt(TOKEN, t + u, |STUB|);
    case _ =>
      TokenShows(p.rest);
      OccursFrom(TOKEN, t, u);
  }

  lemma TidyParts(data: string, base: string)
    requires Tidy(data, base)
    ensures Clear(Parted(data, base != ""), base) && Stage(Parted(data, base != ""), 0, base) == data
  {
    hide CoreFree, WholeStems, Splits, QuietBase, Parted, Stage;
    StageOfParted(data, base != "", base);
    StageOfParted(data, base != "", "");
  }

  /** The first two passes, and the placeholders that the source shows. */
  lemma FirstStages(data: string, base: string)
    requires Tidy(data, base)
    ensures var p := Parted(data, base != "");
            && RelativeHidden(data) == Stage(p, 2, base)
            && RelativeCount(data) == HitCount(p, 8)
            && (CountAll(data, TOKEN) == 0 ==> HitCount(p, 6) == 0)
  {
    hide Tidy, Parted, Stage, Clear, ReplaceAll, CountAll, Occurs, TOKEN;
    var p := Parted(data, base != "");
    TidyParts(data, base);
    StageZero(p, base);
    Pass(p, 1, base);
    Pass(p, 2, base);
    HitsBelong(p);
    TokenShape();
    CountIffOccurs(data, TOKEN);
    if HitCount(p, 6) > 0 {
      TokenShows(p);
    }
  }

  lemma LastStage(p: Parts, base: string)
    requires Clear(p, base)
    ensures Stage(p, 8, base)
            == if HitCount(p, 8) > 0 then ReplaceAll(Stage(p, 7, base), RELATIVE_MARKER, RELATIVE_FONT)
               else Stage(p, 7, base)
  {
    hide Stage, Clear, ReplaceAll;
    Pass(p, 8, base);
    if HitCount(p, 8) == 0 {
      NoHits(p, 8, base);
    }
  }

  lemma AllUnhit(p: Parts, base: string)
    requires HitCount(p, 3) == 0 && HitCount(p, 4) == 0 && HitCount(p, 6) == 0 && HitCount(p, 8) == 0
    ensures Stage(p, 8, base) == Stage(p, 0, base)
  {
    hide Stage, HitCount;
    HitsBelong(p);
    NoHits(p, 1, base);
    NoHits(p, 2, base);
    NoHits(p, 3, base);
    NoHits(p, 4, base);
    NoHits(p, 5, base);
    NoHits(p, 6, base);
    NoHits(p, 7, base);
    NoHits(p, 8, base);
  }

  lemma MeanWithBase(data: string, base: string)
    requires Tidy(data, base) && base != ""
    ensures StagedPasses(data, base) == Passed(data, base)
  {
    hide Tidy, Parted, Stage, Clear, ReplaceAll, CountAll, HitCount, RelativeHidden, RelativeCount, IsParted,
      TOKEN, TOKEN_FONT, FONT, SLOT_MARKER, PAIR_MARKER, RELATIVE_MARKER, RELATIVE_FONT;
    var p := Parted(data, true);
    TidyParts(data, base);
    FirstStages(data, base);
    HitsBelong(p);
    ClearIsParted(p, base);
    CountFontParts(p, base);
    Pass(p, 3, base);
    Pass(p, 4, base);
    Pass(p, 5, base);
    Pass(p, 6, base);
    Pass(p, 7, base);
    LastStage(p, base);
    if HitCount(p, 3) == 0 {
      NoHits(p, 3, base);
      NoHits(p, 7, base);
    }
    if HitCount(p, 4) == 0 {
      NoHits(p, 4, base);
      NoHits(p, 5, base);
    }
    if HitCount(p, 6) == 0 {
      NoHits(p, 6, base);
    }
    if !Affected(data, base) {
      AllUnhit(p, base);
    }
  }

  lemma ClearIsParted(p: Parts, base: string)
    requires Clear(p, base)
    ensures IsParted(p, base != "")
  {
  }

  lemma MeanWithoutBase(data: string)
    requires Tidy(data, "")
    ensures StagedPasses(data, "") == Passed(data, "")
  {
    hide Tidy, Parted, Stage, Clear, ReplaceAll, CountAll, HitCount, RelativeHidden, RelativeCount, IsParted,
      TOKEN, TOKEN_FONT, FONT, SLOT_MARKER, PAIR_MARKER, RELATIVE_MARKER, RELATIVE_FONT;
    var p := Parted(data, false);
    TidyParts(data, "");
    FirstStages(data, "");
    HitsBelong(p);
    ClearIsParted(p, "");
    EmptyHits(p);
    NoHits(p, 3, "");
    NoHits(p, 4, "");
    NoHits(p, 5, "");
    Pass(p, 6, "");
    NoHits(p, 7, "");
    LastStage(p, "");
    if HitCount(p, 6) == 0 {
      NoHits(p, 6, "");
    }
    if !Affected(data, "") {
      AllUnhit(p, "");
    }
  }

  /** What the passes compute, for every tidy source. */
  lemma PassesMean(data: string, base: string)
    requires Tidy(data, base)
    ensures StagedPasses(data, base) == Passed(data, base)
  {
    if base == "" {
      MeanWithoutBase(data);
    } else {
      MeanWithBase(data, base);
    }
  }

  // ------------------------------------------------------ the passes and the one scan

  predicate Shares(data: string, base: string) {
    SharesSlash(Cut(data), base)
  }

  lemma Firsts()
    ensures RELATIVE_TOKEN_FONT != [] && RELATIVE_FONT != [] && |TOKEN_FONT| == 30 && |FONT| == 7
    ensures |TOKEN| == 23 && |OVERLAP| == 29 && |STUB| == 6
    ensures RELATIVE_TOKEN_FONT[0] == '.' && RELATIVE_FONT[0] == '.'
    ensures TOKEN_FONT[0] == '/' && FONT[0] == '/' && OVERLAP[0] == '/' && TOKEN[0] == '/' && STUB[0] == '/'
    ensures TOKEN_FONT[1] == '_' && FONT[1] == 'f' && OVERLAP[1] == 'f' && TOKEN[1] == '_' && STUB[1] == 'f'
  {
  }

  /** A byte that begins no reference. */
  lemma PlainByte(c: char, u: string, base: string)
    requires c != '/' && c != '.'
    ensures Rewritten([c] + u, base) == [c] + Rewritten(u, base)
    ensures Passed([c] + u, base) == [c] + Passed(u, base)
    ensures Shares([c] + u, base) == Shares(u, base)
  {
    hide RELATIVE_TOKEN_FONT, RELATIVE_FONT, TOKEN_FONT, OVERLAP, FONT, TOKEN, BARE_TOKEN, STUB;
    Firsts();
    var s := [c] + u;
    assert s[0] == c && s[1..] == u;
    assert !(OVERLAP + FONT <= s) by {
      assert (OVERLAP + FONT)[0] == '/';
    }
    assert Cut(s) == Piece(Byte(c), Cut(u));
    assert Parted(s, base != "") == Next(Char(c), Parted(u, base != ""));
  }

  lemma {:induction false} PlainPrefix(t: string, u: string, base: string)
    requires '/' !in t && '.' !in t
    ensures Rewritten(t + u, base) == t + Rewritten(u, base)
    ensures Passed(t + u, base) == t + Passed(u, base)
    ensures Shares(t + u, base) == Shares(u, base)
  {
    hide Rewritten, Passed, Shares;
    if t == [] {
      assert t + u == u;
      assert forall x: string :: t + x == x;
    } else {
      assert t + u == [t[0]] + (t[1..] + u);
      PlainByte(t[0], t[1..] + u, base);
      PlainPrefix(t[1..], u, base);
      assert t == [t[0]] + t[1..];
    }
  }

  /** Reading a font reference. */
  lemma FontRead(u: string)
    ensures Cut(FONT + u) == Piece(Font, Cut(u))
    ensures !(BARE_TOKEN <= u) ==> Parted(FONT + u, true) == Next(Slot, Parted(u, true))
  {
    hide RELATIVE_TOKEN_FONT, RELATIVE_FONT, TOKEN_FONT, FONT, TOKEN, BARE_TOKEN, STUB;
    Firsts();
    var s := FONT + u;
    assert s[0] == '/' && s[1] == 'f' && s[|FONT|..] == u;
    PrefixBehind(FONT, BARE_TOKEN, u);
    assert OVERLAP + FONT <= s ==> OVERLAP <= s;
  }

  /** Reading a font reference and a placeholder with one slash. */
  lemma SharedRead(v: string)
    ensures FONT + (BARE_TOKEN + v) == OVERLAP + v
    ensures !(FONT <= v) ==> Parted(OVERLAP + v, true) == Next(Shared, Parted(v, true))
  {
    hide RELATIVE_TOKEN_FONT, RELATIVE_FONT, TOKEN_FONT, FONT, TOKEN, BARE_TOKEN, STUB;
    Firsts();
    var s := OVERLAP + v;
    assert s == FONT + (BARE_TOKEN + v);
    assert s[0] == '/' && s[1] == 'f' && s[|OVERLAP|..] == v;
    PrefixBehind(OVERLAP, FONT, v);
  }

  lemma PairRead(u: string)
    ensures Cut(TOKEN_FONT + u) == Piece(TokenFont, Cut(u))
    ensures Parted(TOKEN_FONT + u, true) == Next(Pair, Parted(u, true))
    ensures Parted(TOKEN_FONT + u, false) == Next(Alone, Parted(FONT + u, false))
  {
    hide RELATIVE_TOKEN_FONT, RELATIVE_FONT, TOKEN_FONT, OVERLAP, FONT, TOKEN, BARE_TOKEN, STUB;
    Firsts();
    PartTexts("");
    var s := TOKEN_FONT + u;
    assert s == TOKEN + (FONT + u);
    assert s[0] == '/' && s[|TOKEN_FONT|..] == u && s[|TOKEN|..] == FONT + u;
  }

  lemma StubRead(w: string)
    ensures STUB + (TOKEN_FONT + w) == OVERLAP + (FONT + w)
    ensures Parted(OVERLAP + (FONT + w), true) == Next(Stub, Next(Pair, Parted(w, true)))
  {
    hide RELATIVE_TOKEN_FONT, RELATIVE_FONT, TOKEN_FONT, OVERLAP, FONT, TOKEN, BARE_TOKEN, STUB;
    Firsts();
    PartTexts("");
    PairRead(w);
    var s := OVERLAP + (FONT + w);
    assert s == OVERLAP + FONT + w;
    assert s == STUB + TOKEN_FONT + w == STUB + (TOKEN_FONT + w);
    assert s[0] == '/' && s[1] == 'f' && s[|STUB|..] == TOKEN_FONT + w;
  }

  /** A slash, where no absolute font reference is looked for. */
  lemma EmptySlash(u: string)
    ensures Passed(['/'] + u, "") == if BARE_TOKEN <= u then Passed(u[|BARE_TOKEN|..], "") else ['/'] + Passed(u, "")
  {
    hide RELATIVE_TOKEN_FONT, RELATIVE_FONT, TOKEN_FONT, OVERLAP, FONT, TOKEN, BARE_TOKEN, STUB;
    Firsts();
    PartTexts("");
    var s := ['/'] + u;
    assert s[0] == '/' && s[1..] == u;
    PrefixBehind(['/'], BARE_TOKEN, u);
    if BARE_TOKEN <= u {
      assert s[|TOKEN|..] == u[|BARE_TOKEN|..];
    }
  }

  lemma EmptyFont(u: string)
    ensures Passed(FONT + u, "")
            == if BARE_TOKEN <= u then STUB + Passed(u[|BARE_TOKEN|..], "") else FONT + Passed(u, "")
  {
    hide Passed, FONT, STUB, BARE_TOKEN;
    Letters();
    var v, letters := ['/'] + u, STUB[1..];
    FontLetters(u);
    EmptySlash(letters + v);
    PlainPrefix(letters, v, "");
    EmptySlash(u);
    FontLetters(Passed(u, ""));
    StubLetters(Passed(v, ""));
  }

  lemma StubLetters(x: string)
    ensures STUB != [] && STUB + x == ['/'] + (STUB[1..] + x) && (STUB[1..] + x) != [] && (STUB[1..] + x)[0] == 'f'
  {
    hide STUB;
    Letters();
  }

  lemma FontLetters(x: string)
    ensures STUB != [] && FONT + x == ['/'] + (STUB[1..] + (['/'] + x)) == STUB + (['/'] + x)
    ensures (STUB[1..] + (['/'] + x)) != [] && (STUB[1..] + (['/'] + x))[0] == 'f'
  {
    hide STUB, FONT;
    Letters();
    StubLetters(['/'] + x);
  }

  lemma Letters()
    ensures STUB == ['/'] + STUB[1..] && FONT == STUB + ['/'] && |STUB| == 6 && STUB[1] == 'f'
    ensures '/' !in STUB[1..] && '.' !in STUB[1..] && BARE_TOKEN != [] && BARE_TOKEN[0] == '_'
  {
  }

  // ---------------------------------------------------------- where they part

  /** Both definitions treat the beginning of a text alike and go on with the same rest. */
  ghost predicate Together(data: string, t: string, v: string, base: string) {
    && |v| < |data| && Passed(data, base) == t + Passed(v, base)
    && Rewritten(data, base) == t + Rewritten(v, base) && Shares(data, base) == Shares(v, base)
  }

  /** A font reference and a placeholder with one slash begin the text. */
  ghost predicate Parting(data: string, v: string, base: string) {
    && |v| < |data| && Shares(data, base)
    && ((&& Passed(data, base) == base + STUB + base + Passed(v, base)
         && Rewritten(data, base) == base + FONT + (BARE_TOKEN + Rewritten(v, base)))
        || (&& base != "" && Passed(data, base) == STUB + (base + FONT + Passed(v, base))
            && Rewritten(data, base) == base + FONT + (BARE_TOKEN + (base + FONT + Rewritten(v, base)))))
  }

  lemma BareRead(v: string, base: string)
    ensures Rewritten(BARE_TOKEN + v, base) == BARE_TOKEN + Rewritten(v, base)
  {
    hide Rewritten, BARE_TOKEN;
    FontTexts();
    PlainPrefix(BARE_TOKEN, v, base);
  }

  lemma FontShares(u: string, base: string)
    ensures Shares(FONT + u, base) == (BARE_TOKEN <= u || Shares(u, base))
    ensures Rewritten(FONT + u, base) == base + FONT + Rewritten(u, base)
  {
    hide Cut, FONT, BARE_TOKEN;
    FontRead(u);
    FlatOfCut(u);
  }

  lemma StepAtSlot(u: string, base: string)
    requires base != "" && !(BARE_TOKEN <= u)
    ensures Together(FONT + u, base + FONT, u, base)
  {
    hide Cut, Parted, FONT, BARE_TOKEN, Rewritten, Shares;
    Letters();
    FontRead(u);
    FontShares(u, base);
  }

  lemma StepAtShared(v: string, base: string)
    requires base != "" && !(FONT <= v)
    ensures Parting(FONT + (BARE_TOKEN + v), v, base)
  {
    hide Cut, Parted, FONT, BARE_TOKEN, STUB, Rewritten, Shares;
    Letters();
    SharedRead(v);
    FontShares(BARE_TOKEN + v, base);
    BareRead(v, base);
    assert BARE_TOKEN <= BARE_TOKEN + v;
  }

  lemma StepAtStub(w: string, base: string)
    requires base != ""
    ensures Parting(FONT + (BARE_TOKEN + (FONT + w)), w, base)
  {
    hide Cut, Parted, FONT, BARE_TOKEN, STUB, TOKEN_FONT, Rewritten, Shares;
    Letters();
    SharedRead(FONT + w);
    StubRead(w);
    FontShares(BARE_TOKEN + (FONT + w), base);
    FontShares(w, base);
    BareRead(FONT + w, base);
    assert BARE_TOKEN <= BARE_TOKEN + (FONT + w);
    var pair := Next(Pair, Parted(w, true));
    assert Stage(pair, 8, base) == base + FONT + Passed(w, base);
    assert Stage(Next(Stub, pair), 8, base) == STUB + Stage(pair, 8, base);
  }

  /** At a font reference, with a base. */
  lemma StepAtFont(u: string, base: string) returns (t: string, v: string)
    requires base != ""
    ensures Together(FONT + u, t, v, base) || Parting(FONT + u, v, base)
  {
    hide FONT, BARE_TOKEN, Together, Parting;
    t := base + FONT;
    v := u;
    if BARE_TOKEN <= u {
      v := u[|BARE_TOKEN|..];
      assert u == BARE_TOKEN + v;
      if FONT <= v {
        assert v == FONT + v[|FONT|..];
        v := v[|FONT|..];
        StepAtStub(v, base);
      } else {
        StepAtShared(v, base);
      }
    } else {
      StepAtSlot(u, base);
    }
  }

  /** At a font reference, without one. */
  lemma StepAtFontEmpty(u: string) returns (t: string, v: string)
    ensures Together(FONT + u, t, v, "") || Parting(FONT + u, v, "")
    ensures Together(TOKEN_FONT + u, t, v, "") || Parting(TOKEN_FONT + u, v, "")
  {
    hide Cut, Parted, FONT, BARE_TOKEN, STUB, TOKEN_FONT, TOKEN, OVERLAP, Passed, Rewritten, Shares;
    Firsts();
    FontShares(u, "");
    EmptyFont(u);
    PairIsFont(u);
    assert "" + FONT == FONT;
    t := FONT;
    v := u;
    if BARE_TOKEN <= u {
      v := u[|BARE_TOKEN|..];
      assert u == BARE_TOKEN + v;
      BareRead(v, "");
      assert "" + STUB + "" + Passed(v, "") == STUB + Passed(v, "");
    }
  }

  /** With the empty base a placeholder before a font reference makes no difference. */
  lemma PairIsFont(u: string)
    ensures Shares(TOKEN_FONT + u, "") == Shares(FONT + u, "")
    ensures Rewritten(TOKEN_FONT + u, "") == Rewritten(FONT + u, "")
    ensures Passed(TOKEN_FONT + u, "") == Passed(FONT + u, "")
  {
    hide Cut, Parted, FONT, BARE_TOKEN, STUB, TOKEN_FONT, TOKEN, OVERLAP;
    FontRead(u);
    PairRead(u);
    assert "" + Stage(Parted(FONT + u, false), 8, "") == Stage(Parted(FONT + u, false), 8, "");
  }

  lemma WholePrefix(t: string, s: string)
    requires t <= s
    ensures s == t + s[|t|..]
  {
  }

  /** At a relative reference, a placeholder, or a byte. */
  lemma StepElsewhere(data: string, base: string) returns (t: string, v: string)
    requires data != [] && !Cut(data).kind.Font? && !Cut(data).kind.TokenFont?
    ensures Together(data, t, v, base)
  {
    hide RELATIVE_TOKEN_FONT, RELATIVE_FONT, TOKEN_FONT, FONT, TOKEN, BARE_TOKEN, STUB;
    Firsts();
    var kind := Cut(data).kind;
    assert OVERLAP <= data ==> FONT <= data;
    assert OVERLAP + FONT <= data ==> OVERLAP <= data;
    t := TextOf(kind, Deployed(base));
    v := data[|TextOf(kind, Source)|..];
  }

  /** Both definitions, one reference or byte further. */
  lemma OneStep(data: string, base: string) returns (t: string, v: string)
    requires data != []
    ensures Together(data, t, v, base) || Parting(data, v, base)
  {
    hide RELATIVE_TOKEN_FONT, RELATIVE_FONT, TOKEN_FONT, FONT, TOKEN, BARE_TOKEN, STUB, OVERLAP, Together, Parting;
    Firsts();
    var kind := Cut(data).kind;
    if kind.Font? {
      WholePrefix(FONT, data);
      if base == "" {
        t, v := StepAtFontEmpty(data[|FONT|..]);
      } else {
        t, v := StepAtFont(data[|FONT|..], base);
      }
    } else if kind.TokenFont? {
      WholePrefix(TOKEN_FONT, data);
      if base == "" {
        t, v := StepAtFontEmpty(data[|TOKEN_FONT|..]);
      } else {
        t, v := base + FONT, data[|TOKEN_FONT|..];
        StepAtPair(v, base);
      }
    } else {
      t, v := StepElsewhere(data, base);
    }
  }

  lemma StepAtPair(u: string, base: string)
    requires base != ""
    ensures Together(TOKEN_FONT + u, base + FONT, u, base)
  {
    hide Cut, Parted, TOKEN_FONT, FONT, BARE_TOKEN;
    Firsts();
    PairRead(u);
  }

  /** Apart from shared slashes the passes compute the one scan. */
  lemma {:induction false} EqualUnlessShared(data: string, base: string)
    requires !Shares(data, base)
    ensures Passed(data, base) == Rewritten(data, base)
    decreases |data|
  {
    if data != [] {
      hide Passed, Rewritten, Shares;
      var t, v := OneStep(data, base);
      EqualUnlessShared(v, base);
    }
  }

  /** A short base takes less room than the placeholder that the passes replace. */
  lemma {:induction false} ShorterIfShared(data: string, base: string)
    requires |base| < |TOKEN|
    ensures |Passed(data, base)| <= |Rewritten(data, base)|
    ensures Shares(data, base) ==> |Passed(data, base)| < |Rewritten(data, base)|
    decreases |data|
  {
    PartTexts(base);
    if data != [] {
      hide Passed, Rewritten, Shares, TOKEN, FONT, STUB, BARE_TOKEN;
      var t, v := OneStep(data, base);
      ShorterIfShared(v, base);
    }
  }

  /** A long base is not the placeholder, nor does it begin with it. */
  lemma LongBaseShows(base: string, x: string, y: string)
    requires |base| >= |TOKEN| && !Occurs(TOKEN, base)
    ensures base + STUB + base + x != base + FONT + (BARE_TOKEN + y)
  {
    hide TOKEN, FONT, STUB, BARE_TOKEN, Occurs;
    PartTexts(base);
    if base + STUB + base + x == base + FONT + (BARE_TOKEN + y) {
      assert (base + STUB + base + x)[|base + STUB|..] == base + x;
      assert (base + FONT + (BARE_TOKEN + y))[|base + STUB|..] == TOKEN + y;
      assert TOKEN <= base + x;
      assert TOKEN <= base[0..];
      OccursAt(TOKEN, base, 0);
    }
  }

  /** Behind the base one text goes on with `f`, the other one with an underscore. */
  lemma StubShows(base: string, x: string, y: string)
    ensures STUB + (base + FONT + x) != base + FONT + (BARE_TOKEN + y)
  {
    hide TOKEN, FONT, STUB, BARE_TOKEN;
    Letters();
    PartTexts(base);
    Firsts();
    var i := |STUB| + |base| + 1;
    assert (STUB + (base + FONT + x))[i] == FONT[1];
    assert (base + FONT + (BARE_TOKEN + y))[i] == BARE_TOKEN[0];
  }

  lemma {:induction false} DifferentIfShared(data: string, base: string)
    requires |base| >= |TOKEN| && !Occurs(TOKEN, base) && Shares(data, base)
    ensures Passed(data, base) != Rewritten(data, base)
    decreases |data|
  {
    NothingShared(base);
    hide Passed, Rewritten, Shares, TOKEN, FONT, STUB, BARE_TOKEN, Occurs;
    var t, v := OneStep(data, base);
    if Together(data, t, v, base) {
      DifferentIfShared(v, base);
      assert forall x: string {:trigger t + x} :: (t + x)[|t|..] == x;
    } else {
      LongBaseShows(base, Passed(v, base), Rewritten(v, base));
      StubShows(base, Passed(v, base), base + FONT + Rewritten(v, base));
    }
  }

  lemma NothingShared(base: string)
    ensures !Shares("", base)
  {
  }

  lemma BaseHoldsNone(base: string)
    requires QuietBase(base) || base == ""
    ensures !Occurs(TOKEN, base)
  {
  }

  /** THE PASSES ARE ONE SCAN, exactly where no font reference shares its slash with a
      placeholder. */
  lemma PassesAreOneScan(data: string, base: string)
    requires Tidy(data, base)
    ensures StagedPasses(data, base) == Rewritten(data, base) <==> !SharesSlash(Cut(data), base)
  {
    hide StagedPasses, Passed, Rewritten, TOKEN, CoreFree, WholeStems, Splits, QuietBase, Occurs, SharesSlash;
    PassesMean(data, base);
    BaseHoldsNone(base);
    if !Shares(data, base) {
      EqualUnlessShared(data, base);
    } else if |base| < |TOKEN| {
      ShorterIfShared(data, base);
    } else {
      DifferentIfShared(data, base);
    }
  }

  // ------------------------------------------------------- what the passes leave behind

  /** Nothing in the source or at the end of the base can make up a placeholder or a font
      marker when the passes are done. */
  predicate Sealed(data: string, base: string) {
    if base == "" then !Splits(TOKEN, data) && !Splits(SLOT_CORE, data) && !Splits(PAIR_CORE, data)
    else Repels(TOKEN, base)
  }

  lemma SealedTail(t: string, u: string, base: string)
    requires Sealed(t + u, base)
    ensures Sealed(u, base)
  {
    hide Splits, Repels, TOKEN, SLOT_CORE, PAIR_CORE;
    if base == "" {
      SplitsTail(TOKEN, t, u);
      SplitsTail(SLOT_CORE, t, u);
      SplitsTail(PAIR_CORE, t, u);
    }
  }

  lemma UnlikeMarkerEmpty(x: Part, marker: string)
    requires IsMarker(marker) && (x.RelativePair? || x.Relative? || x.Alone? || x.Char?)
    ensures Show(x, 8, "") != marker
  {
    hide SLOT_MARKER, PAIR_MARKER, RELATIVE_MARKER, RELATIVE_FONT;
    FirstOfMarkers();
    FirstOfTexts();
  }

  lemma SealedCores(p: Parts, marker: string)
    requires Clear(p, "") && Sealed(Stage(p, 0, ""), "") && IsMarker(marker)
    ensures !Splits(Core(marker), Stage(p, 0, ""))
  {
    hide Splits;
  }

  lemma NoMarkerInPart(p: Parts, base: string, marker: string)
    requires p.Next? && Clear(p, base) && Sealed(Stage(p, 0, ""), base) && IsMarker(marker)
    ensures NoneBegins(marker, Show(p.part, 8, base), Stage(p.rest, 8, base))
  {
    hide IsMarker, Core, Clear, Sealed, NoneBegins, Show, Stage, IsParted, Calm, Splits, QuietBase;
    ClearTail(p, base);
    StageUnfolds(p);
    SealedTail(Show(p.part, 0, ""), Stage(p.rest, 0, ""), base);
    ClearGives(p, base);
    ClearGives(p.rest, base);
    if base == "" {
      PairedOnly(p, false);
      SealedCores(p.rest, marker);
      EmptyShows(p.part, marker);
      NoMarkerBeginsEmpty(p, 8, marker);
    } else {
      UnlikeMarker(p.part, 8, base, marker);
      NoMarkerBegins(p, 8, base, marker);
    }
  }

  lemma StageUnfolds(p: Parts)
    requires p.Next?
    ensures Stage(p, 0, "") == Show(p.part, 0, "") + Stage(p.rest, 0, "")
  {
  }

  lemma EmptyShows(x: Part, marker: string)
    requires IsMarker(marker) && !(x.Pair? || x.Slot? || x.Shared? || x.Stub?)
    ensures Show(x, 8, "") != marker
  {
    hide IsMarker;
    UnlikeMarkerEmpty(x, marker);
  }

  lemma ClearGives(p: Parts, base: string)
    requires Clear(p, base)
    ensures IsParted(p, base != "") && Calm(p) && (base != "" ==> QuietBase(base))
  {
  }

  lemma Nowhere(w: string, t: string, u: string)
    requires w != [] && NoneBegins(w, t, u) && !Occurs(w, u)
    ensures !Occurs(w, t + u)
  {
    hide Occurs;
    Miss(w, w, t, u);
    CountIffOccurs(t + u, w);
    CountIffOccurs(u, w);
  }

  lemma {:induction false} NoMarkerShows(p: Parts, base: string, marker: string)
    requires Clear(p, base) && Sealed(Stage(p, 0, ""), base) && IsMarker(marker)
    ensures !Occurs(marker, Stage(p, 8, base))
  {
    if p.Next? {
      hide IsMarker, Clear, Sealed, NoneBegins, Show, Occurs;
      ClearTail(p, base);
      SealedTail(Show(p.part, 0, ""), Stage(p.rest, 0, ""), base);
      NoMarkerShows(p.rest, base, marker);
      NoMarkerInPart(p, base, marker);
      TokenIsNoMarker(marker);
      Nowhere(marker, Show(p.part, 8, base), Stage(p.rest, 8, base));
    }
  }

  /** No marker is left, so the check that follows the passes never fails here. */
  lemma NoMarkerLeft(data: string, base: string)
    requires Tidy(data, base) && Sealed(data, base)
    ensures !MarkerLeft(StagedPasses(data, base))
  {
    hide Tidy, Sealed, StagedPasses, Parted, Stage, Occurs, Clear;
    var p := Parted(data, base != "");
    PassesMean(data, base);
    TidyParts(data, base);
    StageZero(p, base);
    NoMarkerShows(p, base, SLOT_MARKER);
    NoMarkerShows(p, base, PAIR_MARKER);
    NoMarkerShows(p, base, RELATIVE_MARKER);
  }

  /** A reference that keeps its slash is directly followed by a placeholder without one. */
  predicate LeavesSlash(p: Parts) {
    p.Next? &&
    (((p.part.RelativePair? || p.part.Relative? || p.part.Pair?) && BARE_TOKEN <= Stage(p.rest, 0, ""))
     || LeavesSlash(p.rest))
  }

  lemma RepelsNone(w: string, t: string, u: string)
    requires Repels(w, t)
    ensures NoneBegins(w, t, u)
  {
    hide Differ;
    forall o | 0 <= o < |t|
      ensures !(w <= (t + u)[o..])
    {
      DifferBlocks(w, t, u, o);
    }
  }

  lemma TokenInRelative(u: string)
    requires !(BARE_TOKEN <= u)
    ensures NoneBegins(TOKEN, RELATIVE_FONT, u)
  {
    assert RELATIVE_FONT == ".." + FONT;
    hide TOKEN, FONT, BARE_TOKEN, RELATIVE_FONT, NoneBegins;
    TokenShape();
    TokenInFont(u);
    NoneWithoutFirst(TOKEN, "..", FONT + u);
    JoinNone(TOKEN, "..", FONT, u);
  }

  lemma EndsWithSlash8(x: Part)
    requires x.RelativePair? || x.Relative? || x.Pair? || x.Slot? || x == Char('/')
    ensures var t := Show(x, 0, ""); t != [] && t[|t| - 1] == '/'
  {
  }

  /** Behind a slash that the source shows no rest of a placeholder appears. */
  lemma NoBareBehind(p: Parts, base: string)
    requires p.Next? && Clear(p, base) && Sealed(Stage(p, 0, ""), base) && !LeavesSlash(p)
    requires p.part.RelativePair? || p.part.Relative? || p.part.Pair? || p.part.Slot? || p.part == Char('/')
    ensures !(BARE_TOKEN <= Stage(p.rest, 8, base))
  {
    hide IsParted, Calm, Splits, QuietBase, Show, Settled, Repels, STEM, TOKEN, BARE_TOKEN, Clear;
    ClearGives(p, base);
    EndsWithSlash8(p.part);
    TokenShape();
    var a, u := Show(p.part, 0, ""), Stage(p.rest, 0, "");
    if BARE_TOKEN <= Stage(p.rest, 8, base) {
      if base == "" {
        var b := a[..|a| - 1];
        assert b + (['/'] + u) == a + u;
        UnsplitBehind(TOKEN, b, u);
        PartedTail(p, false);
        TokenRepelsRelative();
        SplitTransfer(p.rest, 8, TOKEN, 1);
      } else {
        QuietIsSettled(base, 8);
        BareFollows(p, true, 8, base);
      }
      BareNotHere(p, base);
    }
  }

  lemma TokenRepelsRelative()
    ensures Repels(Show(Relative, 8, ""), TOKEN)
  {
    hide TOKEN, RELATIVE_FONT;
    Alphabets();
    FirstOfTexts();
    FirstRepels(RELATIVE_FONT, TOKEN);
  }

  lemma BareNotHere(p: Parts, base: string)
    requires p.Next? && IsParted(p, base != "") && !LeavesSlash(p)
    requires p.part.RelativePair? || p.part.Relative? || p.part.Pair? || p.part.Slot? || p.part == Char('/')
    ensures !(BARE_TOKEN <= Stage(p.rest, 0, ""))
  {
    hide IsParted, TOKEN, BARE_TOKEN;
    if p.part.Slot? {
      SlotChosen(p, base != "");
    } else if p.part.Char? {
      CharChosen(p, base != "");
      PartTexts("");
      PrefixBehind(['/'], BARE_TOKEN, Stage(p.rest, 0, ""));
    }
  }

  lemma NoTokenInPart(p: Parts, base: string)
    requires p.Next? && Clear(p, base) && Sealed(Stage(p, 0, ""), base) && !LeavesSlash(p)
    ensures NoneBegins(TOKEN, Show(p.part, 8, base), Stage(p.rest, 8, base))
  {
    hide Clear, Calm, IsParted, QuietBase, Stage, Repels, Splits, NoneBegins, LeavesSlash,
      TOKEN, FONT, STUB, BARE_TOKEN, RELATIVE_FONT;
    ClearGives(p, base);
    PairedOnly(p, base != "");
    var u := Stage(p.rest, 8, base);
    forall v: string
      ensures base != "" ==> NoneBegins(TOKEN, base, v)
    {
      if base != "" {
        RepelsNone(TOKEN, base, v);
      }
    }
    match p.part
    case RelativePair =>
      NoBareBehind(p, base);
      TokenInRelative(u);
    case Relative =>
      NoBareBehind(p, base);
      TokenInRelative(u);
    case Pair =>
      NoBareBehind(p, base);
      TokenInFont(u);
      JoinNone(TOKEN, base, FONT, u);
    case Slot =>
      NoBareBehind(p, base);
      TokenInFont(u);
      JoinNone(TOKEN, base, FONT, u);
    case Shared =>
      TokenInStub(base + u);
      JoinNone(TOKEN, base, STUB, base + u);
      JoinNone(TOKEN, base + STUB, base, u);
    case Stub => TokenInStub(u);
    case Alone =>
      if base == "" {
        NothingBegins(TOKEN, u);
      }
    case Char(c) =>
      if c == '/' {
        NoBareBehind(p, base);
      }
      TokenAtChar(c, u);
  }

  lemma {:induction false} NoTokenShows(p: Parts, base: string)
    requires Clear(p, base) && Sealed(Stage(p, 0, ""), base) && !LeavesSlash(p)
    ensures !Occurs(TOKEN, Stage(p, 8, base))
  {
    if p.Next? {
      hide Clear, Sealed, NoneBegins, Show, Occurs, TOKEN, BARE_TOKEN;
      TokenShape();
      ClearTail(p, base);
      SealedTail(Show(p.part, 0, ""), Stage(p.rest, 0, ""), base);
      NoTokenShows(p.rest, base);
      NoTokenInPart(p, base);
      Nowhere(TOKEN, Show(p.part, 8, base), Stage(p.rest, 8, base));
    }
  }

  lemma BareStays(p: Parts, base: string)
    requires IsParted(p, base != "") && BARE_TOKEN <= Stage(p, 0, "")
    ensures BARE_TOKEN <= Stage(p, 8, base)
  {
    hide Parted, Stage, BARE_TOKEN;
    FontTexts();
    var data := Stage(p, 0, "");
    WholePrefix(BARE_TOKEN, data);
    PlainPrefix(BARE_TOKEN, data[|BARE_TOKEN|..], base);
  }

  lemma EndsWithSlash9(x: Part, base: string)
    requires x.RelativePair? || x.Relative? || x.Pair?
    ensures var t := Show(x, 8, base); t != [] && t[|t| - 1] == '/'
  {
  }

  /** A slash that stays before the rest of a placeholder makes one. */
  lemma {:induction false} TokenStays(p: Parts, base: string)
    requires IsParted(p, base != "") && LeavesSlash(p)
    ensures Occurs(TOKEN, Stage(p, 8, base))
  {
    hide IsParted, Show, Occurs, TOKEN, BARE_TOKEN;
    PartedTail(p, base != "");
    PartTexts("");
    var t, u := Show(p.part, 8, base), Stage(p.rest, 8, base);
    if LeavesSlash(p.rest) {
      TokenStays(p.rest, base);
      OccursFrom(TOKEN, t, u);
    } else {
      EndsWithSlash9(p.part, base);
      BareStays(p.rest, base);
      AcrossTheSeam(t, u, '/', BARE_TOKEN);
      OccursAt(TOKEN, t + u, |t| - 1);
    }
  }

  /** When the passes leave a placeholder. */
  lemma PlaceholderLeft(data: string, base: string)
    requires Tidy(data, base) && Sealed(data, base)
    ensures Occurs(TOKEN, StagedPasses(data, base)) <==> LeavesSlash(Parted(data, base != ""))
  {
    hide Tidy, Sealed, StagedPasses, Parted, Stage, Occurs, Clear, LeavesSlash, TOKEN;
    var p := Parted(data, base != "");
    PassesMean(data, base);
    TidyParts(data, base);
    StageZero(p, base);
    ClearIsParted(p, base);
    if LeavesSlash(p) {
      TokenStays(p, base);
    } else {
      NoTokenShows(p, base);
    }
  }

  /** A shared slash leaves a placeholder in the one scan. */
  lemma {:induction false} SharedShows(data: string, base: string)
    requires Shares(data, base)
    ensures Occurs(TOKEN, Rewritten(data, base))
    decreases |data|
  {
    NothingShared(base);
    PartTexts(base);
    hide Passed, Rewritten, Shares, TOKEN, FONT, STUB, BARE_TOKEN, Occurs;
    var t, v := OneStep(data, base);
    if Together(data, t, v, base) {
      SharedShows(v, base);
      OccursFrom(TOKEN, t, Rewritten(v, base));
    } else {
      SlashBeforeBare(base, Rewritten(v, base));
      SlashBeforeBare(base, base + FONT + Rewritten(v, base));
    }
  }

  lemma SlashBeforeBare(base: string, x: string)
    ensures Occurs(TOKEN, base + FONT + (BARE_TOKEN + x))
  {
    hide TOKEN, FONT, STUB, BARE_TOKEN, Occurs;
    PartTexts(base);
    var t := base + STUB;
    assert (base + FONT + (BARE_TOKEN + x))[|t|..] == TOKEN + x;
    OccursAt(TOKEN, base + FONT + (BARE_TOKEN + x), |t|);
  }

  lemma TracelessSharesNothing(data: string, base: string)
    requires Traceless(Rewritten(data, base))
    ensures !Shares(data, base)
  {
    hide Traceless, Rewritten, Shares, Occurs, TOKEN;
    TracelessHasNoToken(Rewritten(data, base));
    if Shares(data, base) {
      SharedShows(data, base);
    }
  }

  lemma {:induction false} OccursLetters(needle: string, s: string, c: char)
    requires Occurs(needle, s) && c in needle
    ensures c in s
  {
    if !(needle <= s) {
      OccursLetters(needle, s[1..], c);
    }
  }

  /** A normalized base path without underscores meets all that is asked of a base. */
  lemma OrdinaryBase(data: string, base: string)
    requires base != "" && base[0] == '/' && base[|base| - 1] != '/' && '_' !in base
    ensures QuietBase(base) && Sealed(data, base)
  {
    hide Occurs, Guarded, TOKEN, SLOT_MARKER, PAIR_MARKER, RELATIVE_MARKER;
    FirstOfMarkers();
    TokenShape();
    assert TOKEN[1] in TOKEN;
    if Occurs(TOKEN, base) {
      OccursLetters(TOKEN, base, '_');
    }
    WithoutFirstGuarded(SLOT_MARKER, base);
    WithoutFirstGuarded(PAIR_MARKER, base);
    WithoutFirstGuarded(RELATIVE_MARKER, base);
    forall j | 0 <= j < |base|
      ensures Differ(TOKEN, base[j..])
    {
      if base[j] == '/' {
        assert base[j..][1] == base[j + 1] && base[j + 1] in base;
        DifferAt(TOKEN, base[j..], 1);
      } else {
        DifferAt(TOKEN, base[j..], 0);
      }
    }
  }
}
