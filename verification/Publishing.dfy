/**
 Installing a file or a database over a live one, on a volume where every
 operation may fail and every look may be unreadable, or even stale.

 A `Publisher` holds the truth about the files of one installation and a trace of
 what the program did and saw. Which operation fails, and what a look shows, is
 left open, so the contracts hold for every pattern of failures; `refusals` counts what
 has failed, so they also say what is owed where nothing does. Comparing hashes is
 modelled as comparing contents.
 */
module Publishing {
  import opened Common

  const PUBLISH_VERIFY_ATTEMPTS := 10
  const PUBLISH_SETTLE_ATTEMPTS := 24

  type Bytes = seq<int>

  /** The outcome of one look at the destination. */
  datatype Probe = Match | Mismatch | Unreadable

  datatype Event =
    /** the folder of the destination could not be made */
    | FolderRefused
    /** an attempt at staging was refused */
    | Refused
    /** the bytes to compare with could not be read */
    | Blind
    /** the staged database carries WAL mode */
    | StagedWal
    /** a look at the destination, and what it showed */
    | Looked(probe: Probe)
    | RenameDone
    | RenameFailed
    | WroteInPlace
    /** the copy in place was refused, or stopped before its end */
    | CopyRefused
    /** a look for live sidecars that found none */
    | SidecarsGone
    /** one that found a live sidecar, or could not be made */
    | SidecarsLive
    /** the quarantined sidecars were to be put back beside the destination */
    | MovedBack
    /** the journal mode of the installed database was changed back */
    | ModeRestored

  /** Looks of which none matched. */
  predicate Missed(looks: seq<Event>) {
    forall e | e in looks :: e.Looked? && !e.probe.Match?
  }

  /** The last look matched, and no look before. */
  predicate Hit(looks: seq<Event>) {
    looks != [] && looks[|looks| - 1] == Looked(Match) && Missed(looks[..|looks| - 1])
  }

  /** All looks that are owed after a rename: one through a handle and a window of them, and
      a second window if none was unreadable. */
  predicate SettleMissed(looks: seq<Event>, attempts: nat) {
    && Missed(looks)
    && ((|looks| == 1 + attempts && Looked(Unreadable) in looks)
        || (|looks| == 1 + 2 * attempts && Looked(Unreadable) !in looks[..1 + attempts]))
  }

  predicate LooksOrBlind(events: seq<Event>) {
    forall e | e in events :: e.Looked? || e == Blind
  }

  lemma InEither(before: seq<Event>, trace: seq<Event>)
    requires before <= trace
    ensures forall e :: e in trace <==> e in before || e in trace[|before|..]
  {
    assert trace == before + trace[|before|..];
  }

  lemma HitIsLooks(looks: seq<Event>)
    requires Hit(looks)
    ensures LooksOrBlind(looks) && forall e | e in looks :: e.Looked?
  {
    assert looks == looks[..|looks| - 1] + [looks[|looks| - 1]];
  }

  lemma SettleMissedIsMissed(looks: seq<Event>, attempts: nat)
    requires SettleMissed(looks, attempts)
    ensures Missed(looks) && LooksOrBlind(looks)
  {
  }

  /** Looks behind looks, and what they mean for the whole. */
  lemma LooksAdded(start: seq<Event>, before: seq<Event>, trace: seq<Event>)
    requires start <= before <= trace && LooksOrBlind(before[|start|..]) && LooksOrBlind(trace[|before|..])
    ensures LooksOrBlind(trace[|start|..])
    ensures forall e: Event | !e.Looked? && e != Blind :: e in trace <==> e in start
    ensures Missed(trace[|before|..]) && Looked(Match) !in before ==> Looked(Match) !in trace
    ensures Hit(trace[|before|..]) ==> Verified(trace)
  {
    assert trace[|start|..] == before[|start|..] + trace[|before|..];
    InEither(start, trace);
    InEither(before, trace);
  }

  predicate AllRefused(events: seq<Event>) {
    forall e | e in events :: e == Refused
  }

  /** Reasons to give up: the folder cannot be made, every attempt at staging was refused,
      there is nothing to compare with, not even at a second reading, or all looks that are
      owed have missed. */
  predicate GivenUp(trace: seq<Event>) {
    && trace != []
    && (|| trace == [FolderRefused]
        || (|trace| >= 10 && AllRefused(trace[|trace| - 10..]))
        || BlindTwice(trace)
        || (exists k | 0 <= k < |trace| :: SettledInVain(trace, k))
        || (exists k | 0 <= k < |trace| :: CopiedInVain(trace, k)))
  }

  predicate BlindTwice(trace: seq<Event>) {
    |trace| >= 2 && trace[|trace| - 1] == Blind && Blind in trace[..|trace| - 1]
  }

  predicate SettledInVain(trace: seq<Event>, k: nat)
    requires k < |trace|
  {
    && (trace[k] == RenameDone || (trace[k] == Blind && RenameDone in trace))
    && SettleMissed(trace[k + 1..], 24)
  }

  predicate CopiedInVain(trace: seq<Event>, k: nat)
    requires k < |trace|
  {
    && (trace[k] == WroteInPlace || trace[k] == CopyRefused)
    && Missed(trace[k + 1..]) && |trace[k + 1..]| == 10
  }

  /** A full window of looks has missed. */
  ghost predicate Waited(trace: seq<Event>) {
    exists k: nat :: MissedFrom(trace, k)
  }

  predicate MissedFrom(trace: seq<Event>, k: nat) {
    k + 24 <= |trace| && Missed(trace[k..k + 24])
  }

  lemma StillWaited(a: seq<Event>, b: seq<Event>)
    requires Waited(a) && a <= b
    ensures Waited(b)
  {
    var k: nat :| MissedFrom(a, k);
    assert b[k..k + 24] == a[k..k + 24];
    assert MissedFrom(b, k);
  }

  predicate RefusedOrBlind(events: seq<Event>) {
    forall e | e in events :: e == Refused || e == Blind
  }

  lemma NothingElse(before: seq<Event>, trace: seq<Event>)
    requires before <= trace && RefusedOrBlind(trace[|before|..])
    ensures forall e: Event | e != Refused && e != Blind :: e in trace <==> e in before
  {
    InEither(before, trace);
  }

  /** The last thing done was a look that matched. */
  predicate Verified(trace: seq<Event>) {
    trace != [] && trace[|trace| - 1] == Looked(Match)
  }

  /** After a rename that succeeded nothing is copied in place or moved back. */
  predicate RenameIsFinal(trace: seq<Event>) {
    RenameDone in trace ==> WroteInPlace !in trace && MovedBack !in trace
  }

  // ------------------------------------------------------ overwriting in place

  /** The old bytes with the first `k` new ones written over them. */
  function Blend(before: Bytes, after: Bytes, k: nat): Bytes
    requires k <= |after|
  {
    after[..k] + (if k < |before| then before[k..] else [])
  }

  predicate IsBlend(content: Bytes, before: Bytes, after: Bytes) {
    exists k: nat :: k <= |after| && content == Blend(before, after, k)
  }

  /** A blend loses nothing it has not replaced: the file never becomes shorter than
      it was, and every byte is the new one or the old one. */
  lemma BlendKeepsBytes(before: Bytes, after: Bytes, k: nat)
    requires k <= |after|
    ensures |Blend(before, after, k)| >= |before|
    ensures forall i | 0 <= i < |Blend(before, after, k)| ::
              Blend(before, after, k)[i] == (if i < k then after[i] else before[i])
  {
  }

  lemma BlendOfItself(content: Bytes, blend: Bytes)
    requires IsBlend(blend, content, content)
    ensures blend == content
  {
  }

  /** Writing on continues a blend. */
  lemma BlendTwice(before: Bytes, after: Bytes, j: nat, k: nat)
    requires j <= k <= |after|
    ensures Blend(Blend(before, after, j), after, k) == Blend(before, after, k)
  {
  }

  /** Before the first write and after the last one. */
  lemma BlendEnds(before: Bytes, after: Bytes)
    ensures Blend(before, after, 0) == before
    ensures |Blend(before, after, |after|)| >= |after| && Blend(before, after, |after|)[..|after|] == after
  {
  }

  lemma BlendIsOne(before: Bytes, after: Bytes, k: nat)
    requires k <= |after|
    ensures IsBlend(Blend(before, after, k), before, after)
  {
  }

  /** What one look amounts to: the size first, if it is known, and then the content. */
  predicate Judged(looks: seq<Option<Bytes>>, expected: Bytes, size: Option<nat>, probe: Probe) {
    if size.None? then |looks| == 1 && probe == Compared(looks[0], expected)
    else
      && looks != []
      && if looks[0].None? then |looks| == 1 && probe.Unreadable?
         else if |looks[0].value| != size.value then |looks| == 1 && probe.Mismatch?
         else |looks| == 2 && probe == Compared(looks[1], expected)
  }

  function Compared(seen: Option<Bytes>, expected: Bytes): Probe {
    match seen
    case None => Unreadable
    case Some(content) => if content == expected then Match else Mismatch
  }

  /** The first look after a rename: an open handle that shows something else decides alone, and
      one that shows the right bytes leaves the decision to the path. */
  predicate JudgedFirst(looks: seq<Option<Bytes>>, expected: Bytes, size: Option<nat>, probe: Probe) {
    && looks != []
    && match looks[0]
       case None => |looks| == 1 && probe.Unreadable?
       case Some(content) =>
         if content == expected && (size.Some? ==> size.value == |content|)
         then Judged(looks[1..], expected, size, probe)
         else |looks| == 1 && probe.Mismatch?
  }

  class Publisher {
    /** Looks at the files are unreadable or true, never stale. */
    const honest: bool
    /** The logical content of a database file, whatever its journal mode. */
    const logical: Bytes -> int
    /** Whether a database file carries WAL mode. */
    const wal: Bytes -> bool
    /** What is to be installed; it does not change. */
    const source: Bytes

    var temporary: Option<Bytes>
    var fallback: Option<Bytes>
    var destination: Option<Bytes>
    /** A live sidecar lies beside the destination. */
    var sidecars: bool
    var quarantined: bool
    var trace: seq<Event>
    /** what the looks have shown, one by one */
    ghost var shown: seq<Option<Bytes>>
    /** how many operations and looks have failed */
    ghost var refusals: nat

    // ------------------------------------------------------------------ looks

    /** What a look at a file shows: nothing, the truth, or (unless honest) anything. */
    method View(truth: Option<Bytes>) returns (seen: Option<Bytes>)
      modifies this`shown, this`refusals
      ensures honest && seen.Some? ==> seen == truth
      ensures shown == old(shown) + [seen]
      ensures refusals == old(refusals) + if seen.None? then 1 else 0
    {
      var readable: bool := *;
      var stale: bool := *;
      var other: Bytes := *;
      seen := if !readable then None else if stale && !honest then Some(other) else truth;
      shown := shown + [seen];
      refusals := refusals + if seen.None? then 1 else 0;
    }

    /** The size a look shows; None where it fails. */
    method Size(truth: Option<Bytes>) returns (seen: Option<nat>)
      modifies this`shown, this`refusals
      ensures honest && seen.Some? ==> truth.Some? && seen.value == |truth.value|
      ensures |shown| == |old(shown)| + 1 && old(shown) <= shown
      ensures match shown[|shown| - 1]
              case None => seen.None? && refusals == old(refusals) + 1
              case Some(content) => seen == Some(|content|) && refusals == old(refusals)
    {
      var view := View(truth);
      seen := if view.None? then None else Some(|view.value|);
    }

    /** `_settle_probe`: one look at the destination, recorded. */
    method SettleProbe(expected: Bytes, size: Option<nat>) returns (probe: Probe)
      modifies this`trace, this`shown, this`refusals
      ensures trace == old(trace) + [Looked(probe)]
      ensures old(shown) <= shown && Judged(shown[|old(shown)|..], expected, size, probe)
      ensures honest && probe.Match? ==> destination == Some(expected)
      ensures if probe.Unreadable? then refusals > old(refusals) else refusals == old(refusals)
      ensures honest && destination == Some(expected) && (size.Some? ==> size.value == |expected|) ==>
                !probe.Mismatch?
    {
      probe := Mismatch;
      var enter := true;
      if size.Some? {
        var seen := Size(destination);
        if seen.None? {
          probe, enter := Unreadable, false;
        } else if seen != size {
          enter := false;
        }
      }
      if enter {
        var content := View(destination);
        probe := if content.None? then Unreadable
                 else if content.value == expected then Match else Mismatch;
      }
      trace := trace + [Looked(probe)];
    }

    /** The first look after a rename: through an open handle, then through the path. */
    method HandleFirstCheck(expected: Bytes, size: Option<nat>) returns (probe: Probe)
      modifies this`trace, this`shown, this`refusals
      ensures trace == old(trace) + [Looked(probe)]
      ensures old(shown) <= shown && JudgedFirst(shown[|old(shown)|..], expected, size, probe)
      ensures honest && probe.Match? ==> destination == Some(expected)
      ensures if probe.Unreadable? then refusals > old(refusals) else refusals == old(refusals)
      ensures honest && destination == Some(expected) && (size.Some? ==> size.value == |expected|) ==>
                !probe.Mismatch?
    {
      hide Judged;
      var handle := View(destination);
      ghost var before := shown;
      if handle.None? {
        trace := trace + [Looked(Unreadable)];
        return Unreadable;
      }
      if (size.Some? && size.value != |handle.value|) || handle.value != expected {
        trace := trace + [Looked(Mismatch)];
        return Mismatch;
      }
      probe := SettleProbe(expected, size);
      assert shown[|old(shown)|..][1..] == shown[|before|..];
    }

    /** `_settle_after_publish`: succeeds as soon as a look matches. Otherwise it gives
        up after one handle look and one window of looks, if any of them was
        unreadable, and after a second window if all of them were mere mismatches. */
    method Settle(expected: Bytes, size: Option<nat>, attempts: nat) returns (ok: bool)
      modifies this`trace, this`shown, this`refusals
      ensures old(trace) <= trace && old(refusals) <= refusals
      ensures honest && refusals == old(refusals) && destination == Some(expected)
              && (size.Some? ==> size.value == |expected|) ==>
                ok && trace == old(trace) + [Looked(Match)]
      ensures if ok then Hit(trace[|old(trace)|..]) else SettleMissed(trace[|old(trace)|..], attempts)
      ensures ok && honest ==> destination == Some(expected)
    {
      ghost var start := |trace|;
      var first := HandleFirstCheck(expected, size);
      assert trace[start..] == [Looked(first)];
      if first.Match? {
        return true;
      }
      var sawUnreadable := first.Unreadable?;
      for window := 0 to 2
        invariant |trace| == start + 1 + window * attempts && old(trace) <= trace && old(refusals) <= refusals
        invariant first.Unreadable? ==> refusals > old(refusals)
        invariant Missed(trace[start..])
        invariant sawUnreadable <==> Looked(Unreadable) in trace[start..]
        invariant window == 1 ==> !sawUnreadable
        invariant window == 2 ==> Looked(Unreadable) !in trace[start..][..1 + attempts]
      {
        ghost var before := trace[start..];
        for attempt := 0 to attempts
          invariant |trace| == start + 1 + window * attempts + attempt && old(trace) <= trace
          invariant old(refusals) <= refusals && (first.Unreadable? ==> refusals > old(refusals))
          invariant Missed(trace[start..])
          invariant sawUnreadable <==> Looked(Unreadable) in trace[start..]
          invariant before <= trace[start..]
        {
          ghost var looks := trace[start..];
          var probe := SettleProbe(expected, size);
          assert trace[start..] == looks + [Looked(probe)];
          if probe.Unreadable? {
            sawUnreadable := true;
          } else if probe.Match? {
            return true;
          }
        }
        if sawUnreadable {
          return false;
        }
      }
      return false;
    }

    /** `_wait_for_content`: true after a look that matched, and false only after all of
        them have missed. */
    method WaitForContent(expected: Bytes, attempts: nat) returns (ok: bool)
      modifies this`trace, this`shown, this`refusals
      ensures old(trace) <= trace && old(refusals) <= refusals
      ensures if ok then Hit(trace[|old(trace)|..])
              else Missed(trace[|old(trace)|..]) && |trace| == |old(trace)| + attempts
      ensures ok && honest ==> destination == Some(expected)
    {
      ghost var start := |trace|;
      for attempt := 0 to attempts
        invariant old(trace) <= trace && Missed(trace[start..]) && |trace| == start + attempt
        invariant old(refusals) <= refusals
      {
        ghost var looks := trace[start..];
        var probe := SettleProbe(expected, None);
        assert trace[start..] == looks + [Looked(probe)];
        if probe.Match? {
          return true;
        }
      }
      return false;
    }

    // ------------------------------------------------------------- operations

    /** Reads the bytes to compare with. */
    method Anchor(truth: Option<Bytes>) returns (seen: Option<Bytes>)
      modifies this`trace, this`shown, this`refusals
      ensures honest && seen.Some? ==> seen == truth
      ensures trace == old(trace) + if seen.Some? then [] else [Blind]
      ensures refusals == old(refusals) + if seen.Some? then 0 else 1
    {
      seen := View(truth);
      if seen.None? {
        trace := trace + [Blind];
      }
    }

    /** A step that the volume may refuse. */
    method Attempt() returns (ok: bool)
      modifies this`refusals
      ensures refusals == old(refusals) + if ok then 0 else 1
    {
      ok := *;
      refusals := refusals + if ok then 0 else 1;
    }

    /** `os.replace(temporary, destination)`; a failure may have taken effect. */
    method Rename() returns (ok: bool)
      requires temporary.Some?
      modifies this`temporary, this`destination, this`trace, this`refusals
      ensures refusals == old(refusals) + if ok then 0 else 1
      ensures ok ==> destination == old(temporary) && temporary.None? && trace == old(trace) + [RenameDone]
      ensures !ok ==> destination in {old(destination), old(temporary)} && trace == old(trace) + [RenameFailed]
    {
      ok := Attempt();
      var applied: bool := *;
      if ok || applied {
        destination, temporary := temporary, None;
      }
      trace := trace + [if ok then RenameDone else RenameFailed];
    }

    /** Writes some bytes over the destination; it may stop before all are written. */
    method WriteOver(ghost before: Bytes, bytes: Bytes, start: nat, end: nat) returns (ok: bool)
      requires start <= end <= |bytes| && destination == Some(Blend(before, bytes, start))
      modifies this`destination, this`refusals
      ensures refusals == old(refusals) + if ok then 0 else 1
      ensures ok ==> destination == Some(Blend(before, bytes, end))
      ensures destination.Some? && IsBlend(destination.value, before, bytes)
    {
      hide Blend, IsBlend;
      ok := Attempt();
      var reached: int := *;
      var stop := if ok || reached < start || reached > end then end else reached;
      BlendTwice(before, bytes, start, stop);
      BlendIsOne(before, bytes, stop);
      destination := Some(Blend(destination.value, bytes, stop));
    }

    /** `_overwrite_bytes_in_place`, chunk by chunk; it may stop anywhere. Whatever it
        leaves behind is a blend of the old and the new bytes, and the new bytes
        exactly when it ends well, which it does unless something is refused. */
    method OverwriteInPlace(bytes: Bytes, chunk: nat) returns (ok: bool)
      requires chunk > 0
      modifies this`destination, this`trace, this`refusals
      ensures bytes == [] ==> !ok && destination == old(destination)
      ensures old(refusals) <= refusals && (ok <==> bytes != [] && refusals == old(refusals))
      ensures ok ==> destination == Some(bytes)
      ensures destination == old(destination)
              || (destination.Some? && IsBlend(destination.value, Before(old(destination)), bytes))
              || destination == Some(bytes)
      ensures trace == old(trace) + [WroteInPlace] + if ok then [] else [CopyRefused]
    {
      hide Blend, IsBlend;
      trace := trace + [WroteInPlace];
      if bytes == [] {
        trace := trace + [CopyRefused];
        return false;
      }
      var entered := Attempt();
      if !entered {
        trace := trace + [CopyRefused];
        return false;
      }
      ghost var before := Before(destination);
      var written := 0;
      destination := Some(if destination.Some? then destination.value else []);
      BlendEnds(before, bytes);
      while written < |bytes|
        invariant 0 <= written <= |bytes|
        invariant destination == Some(Blend(before, bytes, written))
        invariant trace == old(trace) + [WroteInPlace] && refusals == old(refusals)
      {
        var next := if written + chunk < |bytes| then written + chunk else |bytes|;
        var copied := WriteOver(before, bytes, written, next);
        if !copied {
          trace := trace + [CopyRefused];
          return false;
        }
        written := next;
      }
      BlendIsOne(before, bytes, |bytes|);
      var truncated := Attempt();
      if !truncated {
        trace := trace + [CopyRefused];
        return false;
      }
      destination := Some(destination.value[..|bytes|]);
      return true;
    }

    /** The bytes an existing destination holds; a missing one is created empty. */
    static function Before(destination: Option<Bytes>): Bytes {
      if destination.Some? then destination.value else []
    }

    /** Removes what is left of the staged files, as far as that goes. */
    method Discard()
      modifies this`temporary, this`fallback, this`refusals
      ensures old(refusals) <= refusals && (refusals == old(refusals) <==> temporary.None? && fallback.None?)
    {
      if temporary.Some? {
        var gone := Attempt();
        if gone {
          temporary := None;
        }
      }
      if fallback.Some? {
        var gone := Attempt();
        if gone {
          fallback := None;
        }
      }
    }

    // --------------------------------------------------------- plain files

    /** Copies the source beside the destination; a copy that fails may leave a part. */
    method CopySource() returns (copied: bool)
      modifies this`temporary, this`trace, this`refusals
      ensures copied ==> temporary == Some(source) && trace == old(trace) && refusals == old(refusals)
      ensures !copied ==> trace == old(trace) + [Refused] && refusals == old(refusals) + 1
    {
      copied := Attempt();
      var reached: int := *;
      temporary := Some(if copied || reached < 0 || reached > |source| then source else source[..reached]);
      if !copied {
        trace := trace + [Refused];
      }
    }

    /** The same, retrying. */
    method StageFile() returns (staged: bool)
      modifies this`temporary, this`trace, this`refusals
      ensures old(trace) <= trace && AllRefused(trace[|old(trace)|..])
      ensures refusals == old(refusals) + |trace| - |old(trace)|
      ensures staged ==> temporary == Some(source) && |trace| < |old(trace)| + 10
      ensures !staged ==> |trace| == |old(trace)| + 10
    {
      ghost var start := |trace|;
      for attempt := 0 to PUBLISH_VERIFY_ATTEMPTS
        invariant old(trace) <= trace && AllRefused(trace[start..]) && |trace| == start + attempt
        invariant refusals == old(refusals) + attempt
      {
        ghost var refused := trace[start..];
        var copied := CopySource();
        if copied {
          return true;
        }
        assert trace[start..] == refused + [Refused];
      }
      return false;
    }

    /** `_replace_file`. It succeeds exactly when a look at the destination matches, and it
        gives up only for a reason; on an honest volume that refuses nothing it succeeds at
        the first look. Once the rename has succeeded nothing else touches the destination;
        only a copy in place, after a failed rename and a full window of looks, can leave it
        torn. */
    method ReplaceFile(chunk: nat) returns (ok: bool)
      requires trace == [] && chunk > 0
      modifies this`temporary, this`fallback, this`destination, this`trace, this`shown, this`refusals
      ensures ok <==> Looked(Match) in trace
      ensures !ok ==> GivenUp(trace)
      ensures ok ==> Verified(trace)
      ensures honest && refusals == old(refusals) ==> ok && trace == [RenameDone, Looked(Match)]
      ensures refusals == old(refusals) ==> temporary.None? && fallback.None?
      ensures ok && honest ==> destination == Some(source)
      ensures RenameIsFinal(trace) && MovedBack !in trace
      ensures WroteInPlace in trace ==> Waited(trace)
      ensures WroteInPlace !in trace ==> destination in {old(destination), Some(source)}
      ensures destination in {old(destination), Some(source)}
              || (destination.Some? && IsBlend(destination.value, Before(old(destination)), source))
    {
      hide IsBlend, GivenUp, Waited;
      ok := PublishFile(chunk);
      Discard();
    }

    method PublishFile(chunk: nat) returns (ok: bool)
      requires trace == [] && chunk > 0
      modifies this`temporary, this`destination, this`trace, this`shown, this`refusals
      ensures old(refusals) <= refusals
      ensures ok <==> Looked(Match) in trace
      ensures !ok ==> GivenUp(trace)
      ensures ok ==> Verified(trace)
      ensures honest && refusals == old(refusals) ==> ok && trace == [RenameDone, Looked(Match)]
      ensures ok && honest ==> destination == Some(source)
      ensures RenameIsFinal(trace) && MovedBack !in trace
      ensures WroteInPlace in trace ==> Waited(trace)
      ensures WroteInPlace !in trace ==> destination in {old(destination), Some(source)}
      ensures destination in {old(destination), Some(source)}
              || (destination.Some? && IsBlend(destination.value, Before(old(destination)), source))
    {
      hide Blend, IsBlend, SettleMissed, GivenUp, Waited;
      var prepared := Attempt();
      if !prepared {
        trace := [FolderRefused];
        FolderGivenUp();
        return false;
      }
      var staged := StageFile();
      if !staged {
        assert trace[|trace| - 10..] == trace[0..];
        StagingGivenUp(trace);
        return false;
      }
      assert AllRefused(trace) by { assert trace[0..] == trace; }
      assert Early(trace) && RenameDone !in trace;
      ok := InstallFile(chunk);
    }

    /** Nothing matched yet, nor was anything copied or moved. */
    static predicate Early(trace: seq<Event>) {
      && Looked(Match) !in trace && WroteInPlace !in trace && MovedBack !in trace
      && SidecarsGone !in trace && SidecarsLive !in trace && ModeRestored !in trace
    }

    /** The rename has succeeded: look until it shows, or for as long as it is owed. */
    method Settled(expected: Option<Bytes>, size: Option<nat>) returns (ok: bool)
      requires trace != [] && trace[|trace| - 1] == RenameDone && Early(trace)
      requires expected.None? ==> Blind in trace
      modifies this`trace, this`shown, this`refusals
      ensures old(trace) <= trace && LooksOrBlind(trace[|old(trace)|..]) && old(refusals) <= refusals
      ensures if ok then Verified(trace) else GivenUp(trace) && Looked(Match) !in trace
      ensures honest && ok && expected.Some? ==> destination == expected
      ensures honest && ok && expected.None? ==> destination == Some(source)
      ensures honest && refusals == old(refusals) && expected.Some? && destination == expected
              && (size.Some? ==> size.value == |expected.value|) ==>
                ok && trace == old(trace) + [Looked(Match)]
    {
      hide SettleMissed, Hit, Missed, GivenUp;
      var anchor, anchorSize := expected, size;
      if anchor.None? {
        anchor := Anchor(Some(source));
        anchorSize := Size(Some(source));
        if anchor.None? {
          BlindGivenUp(trace);
          return false;
        }
      }
      ghost var before := trace;
      ok := Settle(anchor.value, anchorSize, PUBLISH_SETTLE_ATTEMPTS);
      if ok {
        HitIsLooks(trace[|before|..]);
      } else {
        SettleMissedIsMissed(trace[|before|..], PUBLISH_SETTLE_ATTEMPTS);
        assert trace[|before| - 1] == before[|before| - 1];
        SettlingGivenUp(trace, |before| - 1);
      }
      LooksAdded(old(trace), before, trace);
    }

    /** The rename has failed, perhaps after taking effect: look for it, for a full window. */
    method Landed(expected: Option<Bytes>) returns (anchor: Option<Bytes>, landed: bool)
      requires trace != [] && trace[|trace| - 1] == RenameFailed && Early(trace)
      requires expected.None? ==> Blind in trace
      modifies this`trace, this`shown, this`refusals
      ensures old(trace) <= trace && LooksOrBlind(trace[|old(trace)|..]) && old(refusals) <= refusals
      ensures landed ==> anchor.Some? && Verified(trace) && (honest ==> destination == anchor)
      ensures !landed ==> Looked(Match) !in trace
      ensures !landed && anchor.Some? ==> Waited(trace)
      ensures anchor.None? ==> !landed && BlindTwice(trace)
      ensures expected.Some? ==> anchor == expected
      ensures honest && expected.None? && anchor.Some? ==> anchor == Some(source)
    {
      hide Hit, Missed;
      anchor, landed := expected, false;
      if anchor.None? {
        anchor := Anchor(Some(source));
        if anchor.None? {
          return;
        }
      }
      ghost var before := trace;
      landed := WaitForContent(anchor.value, PUBLISH_SETTLE_ATTEMPTS);
      if landed {
        HitIsLooks(trace[|before|..]);
      } else {
        assert MissedFrom(trace, |before|) by {
          assert trace[|before|..|before| + 24] == trace[|before|..];
        }
        MissedAreLooks(trace[|before|..]);
      }
      LooksAdded(old(trace), before, trace);
    }

    static lemma MissedAreLooks(looks: seq<Event>)
      requires Missed(looks)
      ensures LooksOrBlind(looks)
    {
    }

    /** The part of `_replace_file` behind the staging. */
    method InstallFile(chunk: nat) returns (ok: bool)
      requires temporary == Some(source) && Early(trace) && RenameDone !in trace && chunk > 0
      modifies this`temporary, this`destination, this`trace, this`shown, this`refusals
      ensures old(refusals) <= refusals
      ensures ok <==> Looked(Match) in trace
      ensures !ok ==> GivenUp(trace)
      ensures ok ==> Verified(trace)
      ensures honest && refusals == old(refusals) ==> ok && trace == old(trace) + [RenameDone, Looked(Match)]
      ensures ok && honest ==> destination == Some(source)
      ensures RenameIsFinal(trace) && MovedBack !in trace
      ensures WroteInPlace in trace ==> Waited(trace)
      ensures WroteInPlace !in trace ==> destination in {old(destination), Some(source)}
      ensures destination in {old(destination), Some(source)}
              || (destination.Some? && IsBlend(destination.value, Before(old(destination)), source))
    {
      hide Blend, IsBlend, SettleMissed, GivenUp, Waited;
      var expected := Anchor(temporary);
      var size := Size(temporary);
      var renamed := Rename();
      ghost var before := trace;
      if renamed {
        ok := Settled(expected, size);
        InEither(before, trace);
      } else {
        ghost var replaced := destination;
        ok := FileNotRenamed(expected, chunk);
        if replaced == Some(source) && destination.Some? && IsBlend(destination.value, source, source) {
          BlendOfItself(source, destination.value);
        }
      }
    }

    method FileNotRenamed(expected: Option<Bytes>, chunk: nat) returns (ok: bool)
      requires trace != [] && trace[|trace| - 1] == RenameFailed && Early(trace) && RenameDone !in trace && chunk > 0
      requires honest && expected.Some? ==> expected == Some(source)
      requires expected.None? ==> Blind in trace
      modifies this`destination, this`trace, this`shown, this`refusals
      ensures old(refusals) <= refusals
      ensures ok <==> Looked(Match) in trace
      ensures !ok ==> GivenUp(trace)
      ensures ok ==> Verified(trace)
      ensures ok && honest ==> destination == Some(source)
      ensures RenameDone !in trace && MovedBack !in trace
      ensures WroteInPlace in trace ==> Waited(trace)
      ensures WroteInPlace !in trace ==> destination == old(destination)
      ensures destination in {old(destination), Some(source)}
              || (destination.Some? && IsBlend(destination.value, Before(old(destination)), source))
    {
      hide IsBlend, GivenUp, Waited;
      var anchor, landed := Landed(expected);
      InEither(old(trace), trace);
      if landed {
        return true;
      }
      if anchor.None? {
        BlindGivenUp(trace);
        return false;
      }
      ghost var waited := trace;
      ok := CopyFileInPlace(anchor.value, chunk);
      StillWaited(waited, trace);
    }

    /** `_copy_file_in_place` and the last look, which decides alone: it turns a copy
        that reported a failure into a success when the bytes have landed. */
    method CopyFileInPlace(expected: Bytes, chunk: nat) returns (ok: bool)
      requires RenameDone !in trace && MovedBack !in trace && Looked(Match) !in trace && chunk > 0
      requires honest ==> expected == source
      modifies this`destination, this`trace, this`shown, this`refusals
      ensures old(trace) <= trace && old(refusals) <= refusals
      ensures ok <==> Looked(Match) in trace
      ensures !ok ==> GivenUp(trace)
      ensures ok ==> Verified(trace)
      ensures ok && honest ==> destination == Some(source)
      ensures RenameDone !in trace && MovedBack !in trace && WroteInPlace in trace
      ensures destination in {old(destination), Some(source)}
              || (destination.Some? && IsBlend(destination.value, Before(old(destination)), source))
    {
      hide IsBlend, GivenUp;
      var copied := OverwriteInPlace(source, chunk);
      ghost var written := trace;
      ok := WaitForContent(expected, PUBLISH_VERIFY_ATTEMPTS);
      assert trace == written + trace[|written|..];
      InEither(written, trace);
      if ok {
        HitIsLooks(trace[|written|..]);
      } else {
        CopyingGivenUp(trace, |written| - 1);
      }
    }

    // ------------------------------------------------------------ databases

    predicate Carries(file: Option<Bytes>) {
      file.Some? && logical(file.value) == logical(source)
    }

    predicate SameContent(a: Option<Bytes>, b: Option<Bytes>) {
      a == b || (a.Some? && b.Some? && logical(a.value) == logical(b.value))
    }

    /** A second backup was copied over a file that held `was`, perhaps not to its end. */
    ghost predicate Overwritten(was: Option<Bytes>, now: Option<Bytes>) {
      exists copy: Bytes :: OverwrittenBy(copy, was, now)
    }

    predicate OverwrittenBy(copy: Bytes, was: Option<Bytes>, now: Option<Bytes>) {
      && logical(copy) == logical(source) && now.Some?
      && (now == Some(copy) || IsBlend(now.value, Before(was), copy))
    }

    /** The same over a new database, which a failed rename had installed. */
    ghost predicate OverwrittenAnew(now: Option<Bytes>) {
      exists anew: Bytes :: logical(anew) == logical(source) && Overwritten(Some(anew), now)
    }

    /** `_sqlite_backup`: other bytes perhaps, the same content in the same journal mode. */
    method CopyDatabase() returns (copy: Option<Bytes>)
      modifies this`trace, this`refusals
      ensures copy.Some? ==> logical(copy.value) == logical(source) && wal(copy.value) == wal(source)
      ensures trace == old(trace) + if copy.Some? then [] else [Refused]
      ensures refusals == old(refusals) + if copy.Some? then 0 else 1
    {
      var other: Bytes := *;
      var done := Attempt();
      if done {
        return Some(if logical(other) == logical(source) && wal(other) == wal(source) then other else source);
      }
      trace := trace + [Refused];
      return None;
    }

    /** The same, retrying. */
    method Backup() returns (copy: Option<Bytes>)
      modifies this`trace, this`refusals
      ensures old(trace) <= trace && AllRefused(trace[|old(trace)|..])
      ensures refusals == old(refusals) + |trace| - |old(trace)|
      ensures copy.Some? ==> logical(copy.value) == logical(source) && wal(copy.value) == wal(source)
      ensures if copy.Some? then |trace| < |old(trace)| + 10 else |trace| == |old(trace)| + 10
    {
      ghost var start := |trace|;
      copy := None;
      for attempt := 0 to PUBLISH_VERIFY_ATTEMPTS
        invariant old(trace) <= trace && AllRefused(trace[start..]) && |trace| == start + attempt
        invariant copy.None? && refusals == old(refusals) + attempt
      {
        ghost var refused := trace[start..];
        copy := CopyDatabase();
        if copy.Some? {
          assert trace[start..] == refused;
          return;
        }
        assert trace[start..] == refused + [Refused];
      }
    }

    /** Whether a database file is seen to carry WAL mode. */
    method SeesWal(file: Bytes) returns (seen: bool)
      modifies this`refusals
      ensures old(refusals) <= refusals && (seen ==> wal(file)) && (wal(file) && !seen ==> refusals > old(refusals))
    {
      var readable := Attempt();
      seen := readable && wal(file);
    }

    /** Changing the journal mode of a database file rewrites bytes, not content. */
    method SetJournalMode(file: Bytes, mode: bool) returns (changed: Bytes)
      modifies this`refusals
      ensures logical(changed) == logical(file) && old(refusals) <= refusals
      ensures if refusals == old(refusals) then wal(changed) == mode else changed == file
    {
      changed := *;
      if logical(changed) != logical(file) || wal(changed) != mode {
        changed := file;
        refusals := refusals + 1;
      }
    }

    /** Renames live sidecars aside; a locked one stays where it is. */
    method Quarantine()
      modifies this`sidecars, this`quarantined, this`refusals
      ensures old(refusals) <= refusals
      ensures if refusals == old(refusals) then !sidecars && quarantined == (old(quarantined) || old(sidecars))
              else (sidecars, quarantined) == old((sidecars, quarantined))
    {
      if sidecars {
        var moved := Attempt();
        if moved {
          sidecars, quarantined := false, true;
        }
      }
    }

    method MoveSidecarsBack()
      modifies this`sidecars, this`quarantined, this`trace, this`refusals
      ensures trace == old(trace) + [MovedBack] && old(refusals) <= refusals
      ensures if refusals == old(refusals) then sidecars == (old(sidecars) || old(quarantined)) && !quarantined
              else (sidecars, quarantined) == old((sidecars, quarantined))
    {
      if quarantined {
        var moved := Attempt();
        if moved {
          sidecars, quarantined := true, false;
        }
      }
      trace := trace + [MovedBack];
    }

    /** `_live_sidecars_present`, which takes an unreadable answer for a presence; when
        there is none the quarantined ones are swept. */
    method ConfirmNoSidecars() returns (clear: bool)
      modifies this`quarantined, this`trace, this`refusals
      ensures trace == old(trace) + [if clear then SidecarsGone else SidecarsLive] && old(refusals) <= refusals
      ensures honest && clear ==> !sidecars
      ensures honest && refusals == old(refusals) && !sidecars ==> clear && !quarantined
    {
      var readable := Attempt();
      var stale: bool := *;
      clear := readable && ((stale && !honest) || !sidecars);
      trace := trace + [if clear then SidecarsGone else SidecarsLive];
      if clear && quarantined {
        var swept := Attempt();
        if swept {
          quarantined := false;
        }
      }
    }

    /** Returning normally: a look matched, then no live sidecar was found; afterwards
        at most the journal mode was set back. */
    static predicate DatabaseVerified(trace: seq<Event>) {
      var n := |trace|;
      || (n >= 2 && Verified(trace[..n - 1]) && trace[n - 1] == SidecarsGone)
      || (n >= 3 && Verified(trace[..n - 2]) && trace[n - 2] == SidecarsGone && trace[n - 1] == ModeRestored)
    }

    /** How an installation may end: a look has matched, and then only a sidecar that is live
        or cannot be looked for fails it; or no look has matched and it is given up for a
        reason, after which sidecars go back unless the rename has succeeded. */
    static predicate Ends(trace: seq<Event>, ok: bool) {
      var n := |trace|;
      && (ok <==> SidecarsGone in trace)
      && (ok ==> DatabaseVerified(trace))
      && (Looked(Match) in trace && !ok ==> n >= 2 && Verified(trace[..n - 1]) && trace[n - 1] == SidecarsLive)
      && (Looked(Match) !in trace ==>
            if RenameFailed in trace then n >= 1 && trace[n - 1] == MovedBack && GivenUp(trace[..n - 1])
            else GivenUp(trace) && MovedBack !in trace)
      && (MovedBack in trace ==> !ok && Looked(Match) !in trace && RenameFailed in trace)
      && (ModeRestored in trace <==> ok && RenameDone in trace && StagedWal in trace)
    }

    /** The end of every successful path: the matched look is followed by the look for
        sidecars and, where the staged file carried WAL mode, by setting it back. */
    method Conclude(restoreMode: bool) returns (ok: bool)
      requires Verified(trace) && destination.Some?
      requires honest ==> Carries(destination)
      modifies this`destination, this`quarantined, this`trace, this`refusals
      ensures old(refusals) <= refusals
      ensures ok ==> trace == old(trace) + [SidecarsGone] + if restoreMode then [ModeRestored] else []
      ensures !ok ==> trace == old(trace) + [SidecarsLive]
      ensures honest && ok ==> !sidecars
      ensures honest && refusals == old(refusals) && !sidecars ==> ok && !quarantined
      ensures ok && restoreMode && refusals == old(refusals) ==> destination.Some? && wal(destination.value)
      ensures SameContent(destination, old(destination))
      ensures !restoreMode ==> destination == old(destination)
    {
      ok := ConfirmNoSidecars();
      if !ok {
        return;
      }
      if restoreMode {
        var changed := SetJournalMode(destination.value, true);
        destination := Some(changed);
        trace := trace + [ModeRestored];
      }
    }

    /** `_replace_database`. After a matched look only a sidecar fails it; it gives up only
        for a reason; on an honest volume that refuses nothing it succeeds at the first look,
        in the journal mode of the source and without sidecars. Once the rename has succeeded
        nothing is copied in place and no sidecar is put back, and without a copy in place the
        destination is the old database or the new one, never a torn one. A copy in place comes
        after a full window of looks and leaves the bytes of a second backup, or a blend of them
        and what was there. */
    method ReplaceDatabase(chunk: nat) returns (ok: bool)
      requires trace == [] && chunk > 0
      modifies this
      ensures Ends(trace, ok)
      ensures honest && refusals == old(refusals) ==>
                && ok && Carries(destination) && wal(destination.value) == wal(source) && !sidecars && !quarantined
      ensures refusals == old(refusals) ==> temporary.None? && fallback.None?
      ensures ok && honest ==> Carries(destination) && !sidecars
      ensures RenameIsFinal(trace)
      ensures WroteInPlace in trace ==> Waited(trace)
      ensures WroteInPlace !in trace ==>
                SameContent(destination, old(destination)) || Carries(destination)
      ensures SameContent(destination, old(destination)) || Carries(destination)
              || Overwritten(old(destination), destination) || OverwrittenAnew(destination)
    {
      hide Ends, GivenUp, OverwrittenBy, Waited;
      ok := PublishDatabase(chunk);
      Discard();
    }

    method PublishDatabase(chunk: nat) returns (ok: bool)
      requires trace == [] && chunk > 0
      modifies this
      ensures old(refusals) <= refusals
      ensures Ends(trace, ok)
      ensures honest && refusals == old(refusals) ==>
                && ok && Carries(destination) && wal(destination.value) == wal(source) && !sidecars && !quarantined
      ensures ok && honest ==> Carries(destination) && !sidecars
      ensures RenameIsFinal(trace)
      ensures WroteInPlace in trace ==> Waited(trace)
      ensures WroteInPlace !in trace ==>
                SameContent(destination, old(destination)) || Carries(destination)
      ensures SameContent(destination, old(destination)) || Carries(destination)
              || Overwritten(old(destination), destination) || OverwrittenAnew(destination)
    {
      hide Ends, GivenUp, OverwrittenBy, Waited;
      var prepared := Attempt();
      if !prepared {
        trace := [FolderRefused];
        FolderEnds();
        return false;
      }
      var stagedWal := StageDatabase();
      if temporary.None? {
        EndsInVain(trace);
        return false;
      }
      ok := InstallDatabase(stagedWal, chunk);
    }

    /** The part of `_replace_database` behind the staging. */
    method InstallDatabase(stagedWal: bool, chunk: nat) returns (ok: bool)
      requires Early(trace) && RenameDone !in trace && RenameFailed !in trace && chunk > 0
      requires Carries(temporary) && (stagedWal <==> StagedWal in trace)
      modifies this
      ensures old(refusals) <= refusals
      ensures Ends(trace, ok)
      ensures honest && refusals == old(refusals) ==>
                && ok && Carries(destination) && !sidecars && !quarantined
                && (if stagedWal then wal(destination.value) else destination == old(temporary))
      ensures ok && honest ==> Carries(destination) && !sidecars
      ensures RenameIsFinal(trace)
      ensures WroteInPlace in trace ==> Waited(trace)
      ensures WroteInPlace !in trace ==>
                SameContent(destination, old(destination)) || Carries(destination)
      ensures SameContent(destination, old(destination)) || Carries(destination)
              || Overwritten(old(destination), destination) || OverwrittenAnew(destination)
    {
      hide Ends, GivenUp, OverwrittenBy, Waited;
      var expected := Anchor(temporary);
      var size := Size(temporary);
      Quarantine();
      var renamed := Rename();
      ghost var replaced := destination;
      if renamed {
        ok := AfterRename(expected, size, stagedWal);
      } else {
        ok := AfterFailedRename(expected, chunk);
      }
    }

    /** Stages a backup; one in WAL mode is made quiet, any other is left byte for byte. */
    method StageDatabase() returns (stagedWal: bool)
      requires trace == []
      modifies this`temporary, this`trace, this`refusals
      ensures Early(trace) && RenameDone !in trace && RenameFailed !in trace && Blind !in trace
      ensures old(refusals) <= refusals
      ensures temporary.Some? ==> logical(temporary.value) == logical(source)
      ensures temporary.None? ==> GivenUp(trace) && refusals > old(refusals)
      ensures stagedWal <==> StagedWal in trace
      ensures stagedWal ==> wal(source)
      ensures refusals == old(refusals) ==> stagedWal == wal(source) && !wal(temporary.value)
    {
      hide GivenUp;
      temporary := Backup();
      assert trace == trace[0..];
      if temporary.None? {
        StagingGivenUp(trace);
        return false;
      }
      stagedWal := SeesWal(temporary.value);
      if stagedWal {
        var quiet := SetJournalMode(temporary.value, false);
        temporary := Some(quiet);
        trace := trace + [StagedWal];
      }
    }

    static lemma FolderGivenUp()
      ensures GivenUp([FolderRefused])
    {
    }

    static lemma FolderEnds()
      ensures Ends([FolderRefused], false)
    {
    }

    /** Giving up without a failed rename. */
    static lemma EndsInVain(trace: seq<Event>)
      requires GivenUp(trace) && Looked(Match) !in trace && RenameFailed !in trace && MovedBack !in trace
      requires SidecarsGone !in trace && ModeRestored !in trace
      ensures Ends(trace, false)
    {
      hide GivenUp;
    }

    static lemma StagingGivenUp(trace: seq<Event>)
      requires |trace| >= 10 && AllRefused(trace[|trace| - 10..])
      ensures GivenUp(trace)
    {
    }

    static lemma BlindGivenUp(trace: seq<Event>)
      requires BlindTwice(trace)
      ensures GivenUp(trace)
    {
    }

    static lemma SettlingGivenUp(trace: seq<Event>, k: nat)
      requires k < |trace| && SettledInVain(trace, k)
      ensures GivenUp(trace)
    {
    }

    static lemma CopyingGivenUp(trace: seq<Event>, k: nat)
      requires k < |trace| && CopiedInVain(trace, k)
      ensures GivenUp(trace)
    {
    }

    /** The rename has succeeded: wait for it to show, or fail. */
    method AfterRename(expected: Option<Bytes>, size: Option<nat>, stagedWal: bool) returns (ok: bool)
      requires trace != [] && trace[|trace| - 1] == RenameDone && RenameFailed !in trace && Early(trace)
      requires stagedWal <==> StagedWal in trace
      requires expected.None? ==> Blind in trace
      requires Carries(destination)
      requires honest && expected.Some? ==> expected == destination
      requires honest && size.Some? ==> size.value == |destination.value|
      modifies this`destination, this`quarantined, this`trace, this`shown, this`refusals
      ensures Ends(trace, ok) && old(refusals) <= refusals
      ensures ok && honest ==> !sidecars
      ensures Carries(destination)
      ensures honest && refusals == old(refusals) && expected.Some? && !sidecars ==>
                ok && !quarantined && (if stagedWal then wal(destination.value) else destination == old(destination))
      ensures WroteInPlace !in trace && MovedBack !in trace
    {
      hide GivenUp, Ends;
      ghost var renamed := trace;
      var settled := Settled(expected, size);
      ghost var looked := trace;
      InEither(renamed, looked);
      if !settled {
        EndsInVain(looked);
        return false;
      }
      ok := Conclude(stagedWal);
      Concluded(looked, trace, stagedWal, ok);
    }

    /** A matched look and what follows it. */
    static lemma Concluded(looked: seq<Event>, trace: seq<Event>, restoreMode: bool, ok: bool)
      requires Verified(looked) && SidecarsGone !in looked && MovedBack !in looked && ModeRestored !in looked
      requires restoreMode <==> RenameDone in looked && StagedWal in looked
      requires trace
               == looked + if !ok then [SidecarsLive] else [SidecarsGone] + if restoreMode then [ModeRestored] else []
      ensures Ends(trace, ok)
    {
      hide GivenUp;
      assert Looked(Match) in looked && looked <= trace;
      assert trace[..|looked|] == looked;
    }

    /** The rename has failed, perhaps after taking effect: look, then copy in place. */
    method AfterFailedRename(expected: Option<Bytes>, chunk: nat) returns (ok: bool)
      requires trace != [] && trace[|trace| - 1] == RenameFailed && RenameDone !in trace && Early(trace) && chunk > 0
      requires honest && expected.Some? ==> logical(expected.value) == logical(source)
      requires expected.None? ==> Blind in trace
      modifies this`destination, this`sidecars, this`quarantined, this`fallback, this`trace, this`shown, this`refusals
      ensures Ends(trace, ok) && old(refusals) <= refusals
      ensures ok && honest ==> Carries(destination) && !sidecars
      ensures RenameDone !in trace
      ensures WroteInPlace in trace ==> Waited(trace)
      ensures WroteInPlace !in trace ==> SameContent(destination, old(destination))
      ensures destination == old(destination) || Overwritten(old(destination), destination)
    {
      hide GivenUp, Ends, OverwrittenBy, Waited;
      ghost var failed := trace;
      var anchor, landed := Landed(expected);
      ghost var looked := trace;
      InEither(failed, looked);
      if landed {
        ok := ConfirmNoSidecars();
        Concluded(looked, trace, false, ok);
        return;
      }
      if anchor.None? {
        BlindGivenUp(looked);
        MoveSidecarsBack();
        PutBack(looked);
        return false;
      }
      ok := CopyDatabaseInPlace(chunk);
      StillWaited(looked, trace);
    }

    static lemma PutBack(before: seq<Event>)
      requires GivenUp(before) && RenameFailed in before && Looked(Match) !in before
      requires SidecarsGone !in before && ModeRestored !in before
      ensures Ends(before + [MovedBack], false)
    {
      hide GivenUp;
      var trace := before + [MovedBack];
      assert trace[..|trace| - 1] == before;
    }

    static lemma ThenBlind(refused: seq<Event>)
      requires AllRefused(refused)
      ensures RefusedOrBlind(refused) && RefusedOrBlind(refused + [Blind])
      ensures RefusedOrBlind(refused + [Blind] + [Blind])
    {
    }

    static lemma BlindAgain(trace: seq<Event>, k: nat)
      requires k + 1 < |trace| && trace[k] == Blind && trace[|trace| - 1] == Blind
      ensures BlindTwice(trace)
    {
      assert trace[..|trace| - 1][k] == Blind;
    }

    /** A second backup, and the bytes to compare with; None gives up. */
    method StageFallback() returns (again: Option<Bytes>)
      modifies this`fallback, this`trace, this`shown, this`refusals
      ensures old(trace) <= trace && RefusedOrBlind(trace[|old(trace)|..]) && old(refusals) <= refusals
      ensures again.Some? ==> fallback.Some? && logical(fallback.value) == logical(source)
      ensures honest && again.Some? ==> logical(again.value) == logical(source)
      ensures again.None? ==> GivenUp(trace)
    {
      hide GivenUp, AllRefused, RefusedOrBlind, BlindTwice;
      ghost var start := |trace|;
      fallback := Backup();
      if fallback.None? {
        assert trace[|trace| - 10..] == trace[start..];
        StagingGivenUp(trace);
        ThenBlind(trace[start..]);
        return None;
      }
      ghost var refused := trace[start..];
      ThenBlind(refused);
      again := Anchor(fallback);
      if again.Some? {
        assert trace[start..] == refused;
        return;
      }
      assert trace[start..] == refused + [Blind];
      again := Anchor(Some(source));
      if again.None? {
        assert trace[start..] == refused + [Blind] + [Blind];
        assert BlindTwice(trace) by { BlindAgain(trace, start + |refused|); }
        BlindGivenUp(trace);
      } else {
        assert trace[start..] == refused + [Blind];
      }
    }

    /** The fallback without a rename: a second backup, copied in place and looked at. */
    method CopyDatabaseInPlace(chunk: nat) returns (ok: bool)
      requires RenameFailed in trace && RenameDone !in trace && Early(trace) && chunk > 0
      modifies this`destination, this`sidecars, this`quarantined, this`fallback, this`trace, this`shown, this`refusals
      ensures old(trace) <= trace && Ends(trace, ok) && old(refusals) <= refusals
      ensures ok && honest ==> Carries(destination) && !sidecars
      ensures RenameDone !in trace
      ensures WroteInPlace !in trace ==> destination == old(destination)
      ensures destination == old(destination) || Overwritten(old(destination), destination)
    {
      hide GivenUp, Ends, OverwrittenBy, RefusedOrBlind;
      ghost var before := trace;
      var again := StageFallback();
      NothingElse(before, trace);
      if again.None? {
        ghost var given := trace;
        MoveSidecarsBack();
        PutBack(given);
        return false;
      }
      ok := CopyFallback(fallback.value, again.value, chunk);
    }

    method CopyFallback(copy: Bytes, expected: Bytes, chunk: nat) returns (ok: bool)
      requires RenameFailed in trace && RenameDone !in trace && Early(trace) && chunk > 0
      requires logical(copy) == logical(source)
      requires honest ==> logical(expected) == logical(source)
      modifies this`destination, this`sidecars, this`quarantined, this`trace, this`shown, this`refusals
      ensures old(trace) <= trace && Ends(trace, ok) && old(refusals) <= refusals
      ensures ok && honest ==> Carries(destination) && !sidecars
      ensures RenameDone !in trace && WroteInPlace in trace
      ensures destination == old(destination) || Overwritten(old(destination), destination)
    {
      hide IsBlend, Ends, GivenUp, Missed, SameContent, Hit;
      var copied := OverwriteInPlace(copy, chunk);
      ghost var written := trace;
      assert destination == old(destination) || OverwrittenBy(copy, old(destination), destination);
      var matched := WaitForContent(expected, PUBLISH_VERIFY_ATTEMPTS);
      assert trace == written + trace[|written|..];
      InEither(written, trace);
      ghost var looked := trace;
      if matched {
        HitIsLooks(looked[|written|..]);
        HitIsLast(written, looked);
        ok := ConfirmNoSidecars();
        Concluded(looked, trace, false, ok);
        return;
      }
      MissedHasNone(looked[|written|..]);
      CopyingGivenUp(looked, |written| - 1);
      MoveSidecarsBack();
      PutBack(looked);
      return false;
    }

    static lemma HitIsLast(before: seq<Event>, trace: seq<Event>)
      requires before <= trace && Hit(trace[|before|..])
      ensures Verified(trace)
    {
    }

    static lemma MissedHasNone(looks: seq<Event>)
      requires Missed(looks)
      ensures forall e | e in looks :: e.Looked? && e != Looked(Match)
    {
    }
  }
}
