/**
 Mount paths of `/proc/self/mountinfo`: undoing the kernel's octal escapes, and finding
 the mount a path lies on.

 The program undoes the escapes in four replacements, one after the other. `Decoded` is
 the simple definition, one scan from left to right.
 */
module MountPaths {
  import opened Common
  import opened Sequences

  // ------------------------------------------------------------- the escapes

  /** The table, in the order in which it is walked. */
  const ESCAPED: seq<string> := ["\\040", "\\011", "\\012", "\\134"]
  const PLAIN: seq<char> := [' ', '\t', '\n', '\\']

  function Escaped(i: nat): string
    requires i < 4
  {
    ESCAPED[i]
  }

  function Plain(i: nat): char
    requires i < 4
  {
    PLAIN[i]
  }

  datatype Piece = Escape(index: nat) | Byte(c: char)

  datatype Pieces = Nothing | Cons(piece: Piece, rest: Pieces)

  /** The first entry of the table, from `k` on, that begins a text. */
  function EntryOf(s: string, k: nat): (i: nat)
    requires k <= 4
    ensures k <= i <= 4 && (i < 4 ==> Escaped(i) <= s)
    ensures forall j | k <= j < i :: !(Escaped(j) <= s)
    decreases 4 - k
  {
    if k == 4 || Escaped(k) <= s then k else EntryOf(s, k + 1)
  }

  function Cut(s: string): Pieces
    decreases |s|
  {
    if s == [] then Nothing
    else
      var i := EntryOf(s, 0);
      if i < 4 then Cons(Escape(i), Cut(s[4..])) else Cons(Byte(s[0]), Cut(s[1..]))
  }

  predicate Proper(p: Pieces) {
    p.Cons? ==> (p.piece.Escape? ==> p.piece.index < 4) && Proper(p.rest)
  }

  /** A piece after the first `n` replacements. */
  function Shown(x: Piece, n: nat): string
    requires x.Escape? ==> x.index < 4
  {
    match x
    case Escape(i) => if i < n then [Plain(i)] else Escaped(i)
    case Byte(c) => [c]
  }

  function Flat(p: Pieces, n: nat): string
    requires Proper(p)
  {
    if p.Nothing? then [] else Shown(p.piece, n) + Flat(p.rest, n)
  }

  lemma {:induction false} CutIsProper(s: string)
    ensures Proper(Cut(s))
    decreases |s|
  {
    if s != [] {
      if EntryOf(s, 0) < 4 {
        CutIsProper(s[4..]);
      } else {
        CutIsProper(s[1..]);
      }
    }
  }

  /** All escapes undone in one scan. */
  function Decoded(s: string): string {
    CutIsProper(s);
    Flat(Cut(s), 4)
  }

  // ---------------------------------------------------- replacement by replacement

  lemma {:induction false} FlatOfCut(s: string)
    ensures Proper(Cut(s)) && Flat(Cut(s), 0) == s
    decreases |s|
  {
    CutIsProper(s);
    if s != [] {
      var i := EntryOf(s, 0);
      if i < 4 {
        assert Escaped(i) == s[..4];
        FlatOfCut(s[4..]);
      } else {
        FlatOfCut(s[1..]);
      }
    }
  }

  ghost predicate IsCut(p: Pieces) {
    Proper(p) && p == Cut(Flat(p, 0))
  }

  lemma CutTail(p: Pieces)
    requires p.Cons? && IsCut(p)
    ensures IsCut(p.rest)
  {
    var s := Flat(p, 0);
    assert s[|Shown(p.piece, 0)|..] == Flat(p.rest, 0);
  }

  predicate Digits(w: string) {
    forall i | 0 <= i < |w| :: '0' <= w[i] <= '7'
  }

  /** An escape is a backslash and three digits. */
  lemma EscapeShape(i: nat)
    requires i < 4
    ensures |Escaped(i)| == 4 && Escaped(i)[0] == '\\' && Escaped(i) == ['\\'] + Escaped(i)[1..]
    ensures Digits(Escaped(i)[1..])
    ensures !('0' <= Plain(i) <= '7') && (i < 3 ==> Plain(i) != '\\')
    ensures forall j | 0 <= j < i :: Escaped(j) != Escaped(i)
  {
  }

  /** Digits are never part of an escape: they read the same in every stage. */
  lemma {:induction false} DigitsTransfer(p: Pieces, n: nat, w: string)
    requires Proper(p) && Digits(w) && w <= Flat(p, n)
    ensures w <= Flat(p, 0)
  {
    hide Escaped, Plain;
    if w != [] {
      assert p.Cons?;
      var t, u := Shown(p.piece, n), Flat(p.rest, n);
      if p.piece.Escape? {
        EscapeShape(p.piece.index);
      }
      assert (t + u)[0] == t[0];
      if p.piece.Byte? {
        assert w == [w[0]] + w[1..];
        assert w[1..] <= u;
        assert Digits(w[1..]);
        DigitsTransfer(p.rest, n, w[1..]);
      }
    }
  }

  /** Where a single byte was cut off, no stage shows an escape. */
  lemma ByteStays(p: Pieces, n: nat, i: nat)
    requires IsCut(p) && p.Cons? && p.piece.Byte? && i < 4
    ensures !(Escaped(i) <= Flat(p, n))
  {
    hide Escaped, Plain;
    EscapeShape(i);
    if Escaped(i) <= Flat(p, n) {
      var u, c := Flat(p.rest, n), p.piece.c;
      assert Flat(p, n) == [c] + u;
      assert ([c] + u)[1..] == u;
      assert Escaped(i)[1..] <= u;
      assert Flat(p, 0) == [c] + Flat(p.rest, 0);
      DigitsTransfer(p.rest, n, Escaped(i)[1..]);
    }
  }

  /** The next entry begins in no other piece. */
  lemma NoneInOther(p: Pieces, n: nat)
    requires n < 4 && IsCut(p) && p.Cons? && p.piece != Escape(n)
    ensures NoneBegins(Escaped(n), Shown(p.piece, n), Flat(p.rest, n))
  {
    hide Escaped, Plain, IsCut, Cut;
    assert Proper(p) by { ProperCut(p); }
    EscapeShape(n);
    var t, u := Shown(p.piece, n), Flat(p.rest, n);
    forall o | 0 <= o < |t|
      ensures !(Escaped(n) <= (t + u)[o..])
    {
      assert (t + u)[o..][0] == t[o];
      if p.piece.Byte? {
        ByteStays(p, n, n);
        assert (t + u)[0..] == Flat(p, n);
      } else {
        EscapeShape(p.piece.index);
        if p.piece.index >= n && o == 0 {
          assert (t + u)[0..][..4] == t;
        }
      }
    }
  }

  lemma ProperCut(p: Pieces)
    requires IsCut(p)
    ensures Proper(p)
  {
  }

  /** Replacing the next entry of the table moves every piece one stage on. */
  lemma {:induction false} NextStage(p: Pieces, n: nat)
    requires n < 4 && IsCut(p)
    ensures Proper(p) && ReplaceAll(Flat(p, n), Escaped(n), [Plain(n)]) == Flat(p, n + 1)
  {
    hide Escaped, Plain, IsCut, Cut, ReplaceAll, NoneBegins;
    ProperCut(p);
    EscapeShape(n);
    if p.Cons? {
      CutTail(p);
      NextStage(p.rest, n);
      if p.piece == Escape(n) {
        Hit(Escaped(n), [Plain(n)], Flat(p.rest, n));
      } else {
        NoneInOther(p, n);
        Miss(Escaped(n), [Plain(n)], Shown(p.piece, n), Flat(p.rest, n));
      }
    } else {
      EmptyStays(Escaped(n), [Plain(n)]);
    }
  }

  lemma EmptyStays(pattern: string, substitute: string)
    requires pattern != []
    ensures ReplaceAll([], pattern, substitute) == []
  {
  }

  /** `_unescape_mount_path`: FOUR REPLACEMENTS ARE ONE SCAN, for every text. */
  method UnescapeMountPath(text: string) returns (value: string)
    ensures value == Decoded(text)
  {
    hide ReplaceAll, Cut, Flat, Proper;
    value := text;
    FlatOfCut(text);
    var i := 0;
    while i < |ESCAPED|
      invariant 0 <= i <= |ESCAPED|
      invariant Proper(Cut(text)) && value == Flat(Cut(text), i)
    {
      NextStage(Cut(text), i);
      value := ReplaceAll(value, ESCAPED[i], [PLAIN[i]]);
      i := i + 1;
    }
  }

  // ----------------------------------------------------------------- round trip

  /** How the kernel writes a path: the four special characters in octal. */
  function Encoded(path: string): string {
    if path == [] then []
    else EncodedChar(path[0]) + Encoded(path[1..])
  }

  function EncodedChar(c: char): string {
    if c == ' ' then "\\040"
    else if c == '\t' then "\\011"
    else if c == '\n' then "\\012"
    else if c == '\\' then "\\134"
    else [c]
  }

  lemma CutEscape(i: nat, u: string)
    requires i < 4
    ensures Decoded(Escaped(i) + u) == [Plain(i)] + Decoded(u)
  {
    hide Escaped, Plain;
    EscapeShape(i);
    var s := Escaped(i) + u;
    assert s[..4] == Escaped(i) && s[4..] == u;
    var j := EntryOf(s, 0);
    assert j <= i;
    EscapeShape(j);
    assert Escaped(j) == s[..4];
  }

  lemma CutByte(c: char, u: string)
    requires c != '\\'
    ensures Decoded([c] + u) == [c] + Decoded(u)
  {
    hide Escaped, Plain;
    var s := [c] + u;
    assert s[1..] == u;
    var j := EntryOf(s, 0);
    if j < 4 {
      EscapeShape(j);
    }
    assert s[0] == c;
  }

  lemma CutEncodedChar(c: char, u: string)
    ensures Decoded(EncodedChar(c) + u) == [c] + Decoded(u)
  {
    hide Decoded;
    if c == ' ' { CutEscape(0, u); }
    else if c == '\t' { CutEscape(1, u); }
    else if c == '\n' { CutEscape(2, u); }
    else if c == '\\' { CutEscape(3, u); }
    else { CutByte(c, u); }
  }

  /** Every path survives the round trip, also one that holds text like `\040`. */
  lemma {:induction false} DecodedOfEncoded(path: string)
    ensures Decoded(Encoded(path)) == path
  {
    if path != [] {
      CutEncodedChar(path[0], Encoded(path[1..]));
      DecodedOfEncoded(path[1..]);
    }
  }

  // --------------------------------------------------------- the containing mount

  /** The parts of an absolute path, the root first. */
  type Parts = seq<string>

  datatype Mount = Mount(id: int, point: Parts)

  /** The mount point is the path or one of its parents. */
  predicate Contains(mount: Mount, path: Parts) {
    mount.point != [] && mount.point <= path
  }

  /** The order of `(len(mount.parts), mount_id)`. */
  predicate Below(a: Mount, b: Mount) {
    |a.point| < |b.point| || (|a.point| == |b.point| && a.id <= b.id)
  }

  function Best(path: Parts, mounts: seq<Mount>): Option<Mount> {
    if mounts == [] then None
    else
      var best := Best(path, mounts[..|mounts| - 1]);
      var last := mounts[|mounts| - 1];
      if !Contains(last, path) then best
      else if best.None? || !Below(last, best.value) then Some(last)
      else best
  }

  function ContainingMountId(path: Parts, mounts: seq<Mount>): Option<int> {
    var best := Best(path, mounts);
    if best.None? then None else Some(best.value.id)
  }

  /** The mount that carries a path: the deepest one that contains it, and of those
      stacked on that point the one mounted last. */
  ghost predicate Carries(mount: Mount, path: Parts, mounts: seq<Mount>) {
    && mount in mounts && Contains(mount, path)
    && forall m | m in mounts && Contains(m, path) ::
         m.point <= mount.point && (m.point == mount.point ==> m.id <= mount.id)
  }

  lemma {:induction false} BestIsGreatest(path: Parts, mounts: seq<Mount>)
    ensures var best := Best(path, mounts);
            && (best.None? ==> forall m | m in mounts :: !Contains(m, path))
            && (best.Some? ==> best.value in mounts && Contains(best.value, path)
                               && forall m | m in mounts && Contains(m, path) :: Below(m, best.value))
  {
    if mounts != [] {
      var front := mounts[..|mounts| - 1];
      BestIsGreatest(path, front);
      assert mounts == front + [mounts[|mounts| - 1]];
    }
  }

  /** Of two prefixes of a path, the shorter is a prefix of the longer. */
  lemma PrefixesNest(a: Parts, b: Parts, path: Parts)
    requires a <= path && b <= path && |a| <= |b|
    ensures a <= b && (|a| == |b| ==> a == b)
  {
    assert a == path[..|a|] && b == path[..|b|];
  }

  /** THE ANSWER IS THE CARRYING MOUNT: an identifier is returned exactly when some mount
      contains the path, and it is that of the mount that carries it. */
  lemma ContainingMountCarries(path: Parts, mounts: seq<Mount>)
    ensures ContainingMountId(path, mounts).Some? <==> exists m :: m in mounts && Contains(m, path)
    ensures forall id :: ContainingMountId(path, mounts) == Some(id)
                         <==> exists m :: Carries(m, path, mounts) && m.id == id
  {
    BestIsGreatest(path, mounts);
    var best := Best(path, mounts);
    hide Best;
    if best.Some? {
      assert Carries(best.value, path, mounts) by {
        forall m | m in mounts && Contains(m, path)
          ensures m.point <= best.value.point && (m.point == best.value.point ==> m.id <= best.value.id)
        {
          PrefixesNest(m.point, best.value.point, path);
        }
      }
      forall m | Carries(m, path, mounts)
        ensures m.id == best.value.id
      {
        assert m.point <= best.value.point && best.value.point <= m.point;
        assert m.point == best.value.point;
      }
    }
  }

  /** A mount contains its own point and everything below it, and nothing else. */
  lemma ContainsWhatIsBelow(mount: Mount, path: Parts, rest: Parts)
    ensures mount.point != [] ==> Contains(mount, mount.point) && Contains(mount, mount.point + rest)
    ensures Contains(mount, path) ==> mount.point != [] && exists below :: path == mount.point + below
  {
    if Contains(mount, path) {
      assert path == mount.point + path[|mount.point|..];
    }
  }

  /** A path that is itself a mount point is carried by what was mounted there last. */
  lemma PointIsCarried(mount: Mount, mounts: seq<Mount>)
    requires mount in mounts && mount.point != []
    requires forall m | m in mounts && m.point == mount.point :: m.id <= mount.id
    ensures ContainingMountId(mount.point, mounts) == Some(mount.id)
  {
    hide ContainingMountId;
    ContainingMountCarries(mount.point, mounts);
    forall m | m in mounts && Contains(m, mount.point)
      ensures m.point <= mount.point
    {
    }
    assert Carries(mount, mount.point, mounts);
  }
}
