/**
 The content-addressed blob store: object files are published first and registered in
 the ledger afterwards, in separate durable steps, and a cleanup removes what is left
 over. The process may end after any durable step: every operation takes the number of
 steps it still gets to do.

 One operation runs at a time, under the lock of the store. A hash is any function of
 the content; paths are the hashes they are derived from.
 */
module BlobStore {
  import opened Common

  type Bytes = seq<int>
  type Key = nat

  const IMAGE_HEADER_BYTES := 12
  const MAX_CLEANUP := 500

  datatype File = File(content: Bytes, modified: int)

  datatype Row = Row(length: nat, referenced: bool)

  datatype Outcome<T> = Done(value: T) | Refused | Ended

  datatype Cleaned = Cleaned(temporaries: nat, unreferenced: nat, unledgered: nat)

  // --------------------------------------------------------------- copying a file

  /** What a file yields, read by read, up to the first empty one. */
  function Joined(chunks: seq<Bytes>): Bytes {
    if chunks == [] || chunks[0] == [] then [] else chunks[0] + Joined(chunks[1..])
  }

  function FirstBytes(b: Bytes, n: nat): (r: Bytes)
    ensures r <= b && |r| == (if |b| <= n then |b| else n)
  {
    if |b| <= n then b else b[..n]
  }

  lemma FirstOfConcat(a: Bytes, b: Bytes, n: nat)
    ensures FirstBytes(a + b, n) == if |a| < n then a + FirstBytes(b, n - |a|) else FirstBytes(a, n)
  {
  }

  lemma HeaderGrows(output: Bytes, chunk: Bytes, n: nat)
    ensures |FirstBytes(output, n)| <= n && FirstBytes([], n) == []
    ensures FirstBytes(output + chunk, n)
            == if |FirstBytes(output, n)| < n
               then FirstBytes(output, n) + FirstBytes(chunk, n - |FirstBytes(output, n)|)
               else FirstBytes(output, n)
  {
    FirstOfConcat(output, chunk, n);
  }

  /** THE COPY DOES NOT DEPEND ON THE READS: what is written, digested, counted and kept
      as a header are functions of the content alone. */
  method CopyAndHash(chunks: seq<Bytes>) returns (output: Bytes, digested: Bytes, length: nat, header: Bytes)
    ensures output == digested == Joined(chunks) && length == |Joined(chunks)|
    ensures header == FirstBytes(Joined(chunks), 12)
  {
    hide FirstBytes;
    HeaderGrows([], [], IMAGE_HEADER_BYTES);
    output, digested, length, header := [], [], 0, [];
    assert chunks[0..] == chunks;
    var i := 0;
    while i < |chunks| && chunks[i] != []
      invariant 0 <= i <= |chunks|
      invariant Joined(chunks) == output + Joined(chunks[i..])
      invariant digested == output && length == |output| && header == FirstBytes(output, IMAGE_HEADER_BYTES)
    {
      assert chunks[i..][1..] == chunks[i + 1..];
      assert output + (chunks[i] + Joined(chunks[i + 1..])) == output + chunks[i] + Joined(chunks[i + 1..]);
      HeaderGrows(output, chunks[i], IMAGE_HEADER_BYTES);
      output := output + chunks[i];
      digested := digested + chunks[i];
      length := length + |chunks[i]|;
      if |header| < IMAGE_HEADER_BYTES {
        header := header + FirstBytes(chunks[i], IMAGE_HEADER_BYTES - |header|);
      }
      i := i + 1;
    }
    assert output + [] == output;
  }

  datatype Image = Jpeg | Png | Gif | Webp | NoImage

  /** What the first bytes say about an image. */
  function ImageType(content: Bytes): Image {
    if [0xFF, 0xD8, 0xFF] <= content then Jpeg
    else if [0x89, 0x50, 0x4E, 0x47, 0x0D, 0x0A, 0x1A, 0x0A] <= content then Png
    else if [0x47, 0x49, 0x46, 0x38, 0x37, 0x61] <= content || [0x47, 0x49, 0x46, 0x38, 0x39, 0x61] <= content then Gif
    else if |content| >= 12 && content[..4] == [0x52, 0x49, 0x46, 0x46]
         && content[8..12] == [0x57, 0x45, 0x42, 0x50] then Webp
    else NoImage
  }

  lemma PrefixOfHeader(p: Bytes, content: Bytes)
    requires |p| <= IMAGE_HEADER_BYTES
    ensures p <= content <==> p <= FirstBytes(content, IMAGE_HEADER_BYTES)
  {
    var header := FirstBytes(content, IMAGE_HEADER_BYTES);
    assert header <= content;
  }

  function Codes(s: string): Bytes {
    seq(|s|, i requires 0 <= i < |s| => s[i] as int)
  }

  /** How each kind of image begins. */
  lemma ImagesBegin(rest: Bytes, size: Bytes)
    requires |size| == 4
    ensures ImageType([255, 216, 255] + rest) == Jpeg
    ensures ImageType([137] + Codes("PNG") + [13, 10, 26, 10] + rest) == Png
    ensures ImageType(Codes("GIF87a") + rest) == Gif && ImageType(Codes("GIF89a") + rest) == Gif
    ensures ImageType(Codes("RIFF") + size + Codes("WEBP") + rest) == Webp
  {
    var png, webp := [137] + Codes("PNG") + [13, 10, 26, 10], Codes("RIFF") + size + Codes("WEBP");
    assert png == [137, 80, 78, 71, 13, 10, 26, 10];
    assert Codes("GIF87a") == [71, 73, 70, 56, 55, 97] && Codes("GIF89a") == [71, 73, 70, 56, 57, 97];
    assert Codes("RIFF") == [82, 73, 70, 70] && Codes("WEBP") == [87, 69, 66, 80];
    hide Codes;
    assert ([255, 216, 255] + rest)[0] == 255 && (png + rest)[0] == 137;
    assert ([71, 73, 70, 56, 55, 97] + rest)[0] == 71 && ([71, 73, 70, 56, 57, 97] + rest)[4] == 57;
    assert (webp + rest)[..4] == [82, 73, 70, 70] && (webp + rest)[8..12] == [87, 69, 66, 80];
    assert (webp + rest)[0] == 82;
  }

  /** Anything else is no image. */
  lemma ImageBeginsSo(content: Bytes)
    ensures ImageType(content) == Jpeg ==> |content| >= 3 && content[..3] == [255, 216, 255]
    ensures ImageType(content) == Png ==>
              |content| >= 8 && content[0] == 137 && content[1..4] == Codes("PNG") && content[4..8] == [13, 10, 26, 10]
    ensures ImageType(content) == Gif ==>
              |content| >= 6 && content[..6] in {Codes("GIF87a"), Codes("GIF89a")}
    ensures ImageType(content) == Webp ==>
              |content| >= 12 && content[..4] == Codes("RIFF") && content[8..12] == Codes("WEBP")
  {
    assert Codes("PNG") == [80, 78, 71];
    assert Codes("GIF87a") == [71, 73, 70, 56, 55, 97] && Codes("GIF89a") == [71, 73, 70, 56, 57, 97];
    assert Codes("RIFF") == [82, 73, 70, 70] && Codes("WEBP") == [87, 69, 66, 80];
    if ImageType(content) == Gif {
      assert content[..6] == [71, 73, 70, 56, 55, 97] || content[..6] == [71, 73, 70, 56, 57, 97];
    }
  }

  /** THE HEADER DECIDES: a blob added from a file is typed as it is when added from
      memory. */
  lemma HeaderDecides(content: Bytes)
    ensures ImageType(FirstBytes(content, IMAGE_HEADER_BYTES)) == ImageType(content)
  {
    hide FirstBytes;
    PrefixOfHeader([0xFF, 0xD8, 0xFF], content);
    PrefixOfHeader([0x89, 0x50, 0x4E, 0x47, 0x0D, 0x0A, 0x1A, 0x0A], content);
    PrefixOfHeader([0x47, 0x49, 0x46, 0x38, 0x37, 0x61], content);
    PrefixOfHeader([0x47, 0x49, 0x46, 0x38, 0x39, 0x61], content);
    HeaderParts(content);
  }

  lemma HeaderParts(content: Bytes)
    ensures var header := FirstBytes(content, IMAGE_HEADER_BYTES);
            && (|content| >= 12 <==> |header| >= 12)
            && (|content| >= 12 ==> header[..4] == content[..4] && header[8..12] == content[8..12])
  {
  }

  // -------------------------------------------------------------------- the store

  class Store {
    const hash: Bytes -> Key
    var objects: map<Key, File>
    var temporaries: map<nat, File>
    var ledger: map<Key, Row>

    constructor (hash: Bytes -> Key)
      ensures this.hash == hash && objects == map[] && temporaries == map[] && ledger == map[] && Valid()
    {
      this.hash := hash;
      objects, temporaries, ledger := map[], map[], map[];
    }

    /** Every row of the ledger has an object whose bytes hash to its key. */
    ghost predicate Valid()
      reads this`objects, this`ledger
    {
      forall key | key in ledger :: Sound(key, ledger[key])
    }

    predicate Sound(key: Key, row: Row)
      reads this`objects
    {
      key in objects && hash(objects[key].content) == key && |objects[key].content| == row.length
    }

    /** Whether bytes may be published under a key: they hash to it and have the length, and
        so has an object that is there already. */
    predicate Publishable(stored: Bytes, key: Key, length: nat)
      reads this
    {
      hash(stored) == key && |stored| == length && (key in objects ==> Sound(key, Row(length, false)))
    }

    /** Adds content whose temporary file ends up holding `stored`. */
    method AddBytes(content: Bytes, name: nat, stored: Bytes, now: int, steps: nat) returns (r: Outcome<Key>)
      requires Valid() && name !in temporaries
      modifies this
      ensures Valid() && OldRowsStay(old(ledger)) && OldObjectsStay(old(objects))
      ensures forall key | key in ledger && key !in old(ledger) :: key == hash(content)
      ensures r.Done? ==> r.value == hash(content) && r.value in ledger && ledger[r.value].length == |content|
      ensures !r.Ended? ==> temporaries == old(temporaries)
      ensures steps >= 5 ==>
                r == if old(Publishable(stored, hash(content), |content|)) then Done(hash(content)) else Refused
      ensures Added(r, hash(content), |content|, File(stored, now), old(objects), old(ledger))
    {
      r := AddFile(hash(content), |content|, name, stored, now, steps);
    }

    /** Adds a file that was read in chunks. */
    method AddSource(chunks: seq<Bytes>, name: nat, stored: Bytes, now: int, steps: nat)
      returns (r: Outcome<Key>, header: Bytes)
      requires Valid() && name !in temporaries
      modifies this
      ensures Valid() && OldRowsStay(old(ledger)) && OldObjectsStay(old(objects))
      ensures forall key | key in ledger && key !in old(ledger) :: key == hash(Joined(chunks))
      ensures r.Done? ==>
                r.value == hash(Joined(chunks)) && r.value in ledger && ledger[r.value].length == |Joined(chunks)|
      ensures header == FirstBytes(Joined(chunks), IMAGE_HEADER_BYTES)
      ensures !r.Ended? ==> temporaries == old(temporaries)
      ensures var content := Joined(chunks);
              && (steps >= 5 ==>
                    r == if old(Publishable(stored, hash(content), |content|)) then Done(hash(content)) else Refused)
              && Added(r, hash(content), |content|, File(stored, now), old(objects), old(ledger))
    {
      var output, digested, length;
      output, digested, length, header := CopyAndHash(chunks);
      r := AddFile(hash(digested), length, name, stored, now, steps);
    }

    /** What an addition leaves: one object and one row where there were none, or nothing. */
    ghost predicate Added(
      r: Outcome<Key>, key: Key, length: nat, file: File, oldObjects: map<Key, File>, oldLedger: map<Key, Row>)
      reads this
    {
      && (r.Done? ==>
            && objects == (if key in oldObjects then oldObjects else oldObjects[key := file])
            && ledger == (if key in oldLedger then oldLedger else oldLedger[key := Row(length, false)]))
      && (r.Refused? ==> objects == oldObjects && ledger == oldLedger)
    }

    /** Where an addition stands when the process ends after some of its five steps: the
        temporary file is made, written, published, removed, and the blob is registered. */
    ghost predicate StoppedAfter(
      steps: nat, r: Outcome<Key>, name: nat, file: File, publishable: bool, key: Key,
      oldTemporaries: map<nat, File>, oldObjects: map<Key, File>, oldLedger: map<Key, Row>)
      reads this
    {
      && (r.Ended? <==> steps < 4 || (steps == 4 && publishable))
      && (steps == 0 ==> temporaries == oldTemporaries)
      && (steps == 1 ==> temporaries == oldTemporaries[name := File([], file.modified)])
      && (2 <= steps <= 3 ==> temporaries == oldTemporaries[name := file])
      && (steps >= 4 ==> temporaries == oldTemporaries)
      && (objects == if steps >= 3 && publishable && key !in oldObjects then oldObjects[key := file] else oldObjects)
      && (steps < 5 ==> ledger == oldLedger)
    }

    ghost predicate OldRowsStay(was: map<Key, Row>)
      reads this
    {
      forall key | key in was :: key in ledger && ledger[key] == was[key]
    }

    ghost predicate OldObjectsStay(was: map<Key, File>)
      reads this
    {
      forall key | key in was :: key in objects && objects[key] == was[key]
    }

    /** Temporary file, verified publication, removal of the temporary file, registration. */
    method AddFile(key: Key, length: nat, name: nat, stored: Bytes, now: int, steps: nat) returns (r: Outcome<Key>)
      requires Valid() && name !in temporaries
      modifies this
      ensures Valid() && OldRowsStay(old(ledger)) && OldObjectsStay(old(objects))
      ensures forall k | k in ledger && k !in old(ledger) :: k == key
      ensures r.Done? ==> r.value == key && key in ledger && ledger[key].length == length
      ensures !r.Ended? ==> temporaries == old(temporaries)
      ensures steps >= 5 ==> r == if old(Publishable(stored, key, length)) then Done(key) else Refused
      ensures StoppedAfter(steps, r, name, File(stored, now), old(Publishable(stored, key, length)), key,
                           old(temporaries), old(objects), old(ledger))
      ensures Added(r, key, length, File(stored, now), old(objects), old(ledger))
    {
      var left := steps;
      if left == 0 { return Ended; }
      left := left - 1;
      temporaries := temporaries[name := File([], now)];
      if left == 0 { return Ended; }
      left := left - 1;
      temporaries := temporaries[name := File(stored, now)];
      if left == 0 { return Ended; }
      left := left - 1;
      var published := PublishTemporary(name, key, length);
      if left == 0 { return Ended; }
      left := left - 1;
      temporaries := temporaries - {name};
      assert temporaries == old(temporaries);
      if !published {
        return Refused;
      }
      if left == 0 { return Ended; }
      ledger := if key in ledger then ledger else ledger[key := Row(length, false)];
      return Done(key);
    }

    /** Links the temporary file unless its bytes are not what they should be; an object
        that is there already must have the right bytes. */
    method PublishTemporary(name: nat, key: Key, length: nat) returns (ok: bool)
      requires Valid() && name in temporaries
      modifies this`objects
      ensures Valid() && OldObjectsStay(old(objects))
      ensures ok <==> old(Publishable(temporaries[name].content, key, length))
      ensures ok ==> Sound(key, Row(length, false))
      ensures objects == if ok && key !in old(objects) then old(objects)[key := temporaries[name]] else old(objects)
    {
      var file := temporaries[name];
      if hash(file.content) != key || |file.content| != length {
        return false;
      }
      if key !in objects {
        objects := objects[key := file];
        return true;
      }
      return hash(objects[key].content) == key && |objects[key].content| == length;
    }

    /** Reading verifies the bytes; with a sound store it succeeds for every row. */
    method ReadBytes(key: Key) returns (content: Option<Bytes>)
      ensures content.Some? <==> key in ledger && Sound(key, ledger[key])
      ensures content.Some? ==> content.value == objects[key].content && hash(content.value) == key
      ensures Valid() ==> (content.Some? <==> key in ledger)
    {
      if key !in ledger || key !in objects {
        return None;
      }
      var bytes := objects[key].content;
      if |bytes| != ledger[key].length || hash(bytes) != key {
        return None;
      }
      return Some(bytes);
    }

    // ---------------------------------------------------------------- cleanup

    /** Removes old temporary files, then unreferenced blobs, then objects without a row.
        The lists are what the directory walks and the ledger's query yield. With three
        steps for each removal that the limit allows it comes to its end, and then exactly
        the files, rows and objects that it counts are gone. */
    method Cleanup(olderThan: int, limit: int, names: seq<nat>, unreferenced: seq<Key>, found: seq<Key>, steps: nat)
      returns (r: Outcome<Cleaned>, ghost examined: nat)
      requires Valid()
      modifies this
      ensures Valid()
      ensures forall key | key in ledger :: key in old(ledger) && ledger[key] == old(ledger)[key]
      ensures forall key | key in old(ledger) && old(ledger)[key].referenced :: key in ledger
      ensures forall key | key in ledger :: objects[key] == old(objects)[key]
      ensures forall key | key in objects :: key in old(objects) && objects[key] == old(objects)[key]
      ensures forall n | n in temporaries :: n in old(temporaries) && temporaries[n] == old(temporaries)[n]
      ensures forall n | n in old(temporaries) && n !in temporaries :: old(temporaries)[n].modified < olderThan
      ensures limit < 1 || limit > 500 ==>
                r == Refused && objects == old(objects) && ledger == old(ledger) && temporaries == old(temporaries)
      ensures 1 <= limit <= MAX_CLEANUP ==>
                (|old(temporaries)| - |temporaries|) + (|old(objects)| - |objects|) <= limit
      ensures 1 <= limit <= 500 && steps >= 3 * limit ==> r.Done?
      ensures r.Done? ==>
                var c := r.value;
                var rows := FirstOf(unreferenced, limit - c.temporaries);
                var candidates := FirstOf(found, limit - c.temporaries - c.unreferenced);
                && c.temporaries + c.unreferenced + c.unledgered <= limit && examined <= |names|
                && (examined == |names| || examined == 4 * limit || c.temporaries == limit)
                && FilesGone(old(temporaries), temporaries, OldFiles(old(temporaries), names[..examined], olderThan),
                             c.temporaries)
                && RowsGone(old(ledger), ledger, Loose(old(ledger), rows), c.unreferenced)
                && objects == old(objects) - Loose(old(ledger), rows) - Unknown(ledger, candidates)
                && (Walked(candidates, old(objects)) && Loose(old(ledger), rows) !! Unknown(ledger, candidates) ==>
                      c.unledgered == |Unknown(ledger, candidates)|)
    {
      hide Valid, OldFiles, Loose, Unknown;
      examined := 0;
      if limit < 1 || limit > MAX_CLEANUP {
        return Refused, 0;
      }
      var temporaryRemoved, left;
      temporaryRemoved, left, examined := RemoveOldTemporaries(olderThan, limit, names, steps);
      RowsHaveObjects();
      if left.None? {
        return Ended, examined;
      }
      var ledgerRemoved, unledgeredRemoved;
      ledgerRemoved, unledgeredRemoved, left :=
        RemoveBlobs(limit - temporaryRemoved, unreferenced, found, left.value);
      RowsHaveObjects();
      if left.None? {
        return Ended, examined;
      }
      return Done(Cleaned(temporaryRemoved, ledgerRemoved, unledgeredRemoved)), examined;
    }

    /** The two later parts of a cleanup, which share what is left of the limit. */
    method RemoveBlobs(limit: nat, unreferenced: seq<Key>, found: seq<Key>, steps: nat)
      returns (ledgerRemoved: nat, unledgeredRemoved: nat, left: Option<nat>)
      requires Valid()
      modifies this`objects, this`ledger
      ensures Valid()
      ensures forall key | key in ledger :: key in old(ledger) && ledger[key] == old(ledger)[key]
      ensures forall key | key in old(ledger) && old(ledger)[key].referenced :: key in ledger
      ensures forall key | key in objects :: key in old(objects) && objects[key] == old(objects)[key]
      ensures |objects| <= |old(objects)| <= |objects| + limit && (steps >= 2 * limit ==> left.Some?)
      ensures left.Some? ==>
                var rows, candidates := FirstOf(unreferenced, limit), FirstOf(found, limit - ledgerRemoved);
                && ledgerRemoved + unledgeredRemoved <= limit
                && RowsGone(old(ledger), ledger, Loose(old(ledger), rows), ledgerRemoved)
                && objects == old(objects) - Loose(old(ledger), rows) - Unknown(ledger, candidates)
                && (Walked(candidates, old(objects)) && Loose(old(ledger), rows) !! Unknown(ledger, candidates) ==>
                      unledgeredRemoved == |Unknown(ledger, candidates)|)
    {
      hide Valid, Loose, Unknown, Walked;
      NothingUnknown();
      ledgerRemoved, unledgeredRemoved, left := 0, 0, Some(steps);
      if limit > 0 {
        ledgerRemoved, left := RemoveUnreferenced(FirstOf(unreferenced, limit), left.value);
        if left.None? {
          return;
        }
      }
      ghost var loose := Loose(old(ledger), FirstOf(unreferenced, limit));
      var candidates := FirstOf(found, limit - ledgerRemoved);
      StillWalked(candidates, old(objects), objects, loose, ledger);
      if limit - ledgerRemoved > 0 {
        unledgeredRemoved, left := RemoveUnledgered(candidates, left.value);
      }
    }

    /** `delete_unreferenced_management_blob`, after its check. */
    method DropRow(key: Key)
      requires Valid()
      modifies this`ledger
      ensures Valid() && ledger == old(ledger) - {key}
    {
      ledger := ledger - {key};
    }

    /** `_unlink_object`, which does not mind a missing file. */
    method UnlinkObject(key: Key)
      requires Valid() && key !in ledger
      modifies this`objects
      ensures Valid() && objects == old(objects) - {key}
      ensures |objects| == |old(objects)| - if key in old(objects) then 1 else 0
    {
      DropOne(objects, key);
      objects := objects - {key};
    }

    lemma RowsHaveObjects()
      requires Valid()
      ensures forall key | key in ledger :: key in objects
    {
    }

    /** Stops after `limit` removals or four times as many entries. */
    method RemoveOldTemporaries(olderThan: int, limit: nat, names: seq<nat>, steps: nat)
      returns (removed: nat, left: Option<nat>, ghost examined: nat)
      requires Valid()
      modifies this`temporaries
      ensures Valid() && removed <= limit
      ensures |temporaries| + removed == |old(temporaries)|
      ensures forall n | n in temporaries :: n in old(temporaries) && temporaries[n] == old(temporaries)[n]
      ensures forall n | n in old(temporaries) && n !in temporaries :: old(temporaries)[n].modified < olderThan
      ensures examined <= |names| && (steps >= limit ==> left.Some?)
      ensures left.Some? ==>
                && left.value == steps - removed && (examined == |names| || examined == 4 * limit || removed == limit)
                && FilesGone(old(temporaries), temporaries, OldFiles(old(temporaries), names[..examined], olderThan),
                             removed)
    {
      hide OldFiles, Sound;
      removed := 0;
      left := Some(steps);
      var seen := 0;
      NoOldFiles(temporaries, names, olderThan);
      examined := 0;
      while seen < |names| && seen < limit * 4 && removed < limit
        invariant seen <= |names| && seen <= limit * 4 && removed <= limit && left == Some(steps - removed)
        invariant |temporaries| + removed == |old(temporaries)|
        invariant temporaries == old(temporaries) - OldFiles(old(temporaries), names[..seen], olderThan)
        invariant removed == |OldFiles(old(temporaries), names[..seen], olderThan)|
        decreases |names| - seen
      {
        var name := names[seen];
        OldFilesStep(old(temporaries), temporaries, names, seen, olderThan);
        OldFilesAre(old(temporaries), temporaries, names[..seen], olderThan);
        seen := seen + 1;
        if name !in temporaries || temporaries[name].modified >= olderThan {
          continue;
        }
        if left.value == 0 {
          return removed, None, seen;
        }
        left := Some(left.value - 1);
        DropOne(temporaries, name);
        temporaries := temporaries - {name};
        removed := removed + 1;
      }
      OldFilesAre(old(temporaries), temporaries, names[..seen], olderThan);
      examined := seen;
    }

    /** The row goes first, the object after it: a process that ends in between leaves an
        object without a row, never a row without its object. */
    method RemoveUnreferenced(rows: seq<Key>, steps: nat) returns (removed: nat, left: Option<nat>)
      requires Valid()
      modifies this`objects, this`ledger
      ensures Valid() && removed <= |rows|
      ensures |objects| <= |old(objects)| <= |objects| + |rows|
      ensures left.Some? ==> |old(objects)| == |objects| + removed
      ensures forall key | key in ledger :: key in old(ledger) && ledger[key] == old(ledger)[key]
      ensures forall key | key in old(ledger) && old(ledger)[key].referenced :: key in ledger
      ensures forall key | key in objects :: key in old(objects) && objects[key] == old(objects)[key]
      ensures steps >= 2 * |rows| ==> left.Some?
      ensures left.Some? ==>
                && left.value == steps - 2 * removed && RowsGone(old(ledger), ledger, Loose(old(ledger), rows), removed)
                && (forall key | key in Loose(old(ledger), rows) :: key !in ledger)
                && objects == old(objects) - Loose(old(ledger), rows)
    {
      hide Loose, Valid;
      removed := 0;
      left := Some(steps);
      NoLoose(ledger, rows);
      TakeFrom(objects, {}, 0);
      for i := 0 to |rows|
        invariant Valid() && removed <= i && 2 * removed <= steps && left == Some(steps - 2 * removed)
        invariant |old(objects)| == |objects| + removed
        invariant ledger == old(ledger) - Loose(old(ledger), rows[..i])
        invariant objects == old(objects) - Loose(old(ledger), rows[..i])
        invariant removed == |Loose(old(ledger), rows[..i])|
      {
        var key := rows[i];
        LooseStep(old(ledger), ledger, rows, i);
        LooseAre(old(ledger), ledger, rows[..i]);
        TakeFrom(old(objects), Loose(old(ledger), rows[..i]), key);
        if key !in ledger || ledger[key].referenced {
          continue;
        }
        if left.value == 0 {
          return removed, None;
        }
        left := Some(left.value - 1);
        RowsHaveObjects();
        DropRow(key);
        if left.value == 0 {
          return removed, None;
        }
        left := Some(left.value - 1);
        UnlinkObject(key);
        removed := removed + 1;
      }
      assert rows[..|rows|] == rows;
      LooseAre(old(ledger), ledger, rows);
    }

    /** Only objects without a row go. */
    method RemoveUnledgered(candidates: seq<Key>, steps: nat) returns (removed: nat, left: Option<nat>)
      requires Valid()
      modifies this`objects
      ensures Valid() && removed <= |candidates|
      ensures |objects| <= |old(objects)| <= |objects| + removed
      ensures forall key | key in objects :: key in old(objects) && objects[key] == old(objects)[key]
      ensures steps >= |candidates| ==> left.Some?
      ensures left.Some? ==> objects == old(objects) - Unknown(ledger, candidates)
      ensures left.Some? && Walked(candidates, old(objects)) ==>
                removed == |Unknown(ledger, candidates)| && |objects| + removed == |old(objects)|
    {
      hide Unknown, Valid, Walked, Unlinked;
      ghost var tried;
      removed, left, tried := UnlinkInTurn(candidates, steps);
      UnlinkedAre(old(objects), objects, ledger, candidates[..tried], removed, Walked(candidates, old(objects)));
      assert candidates[..|candidates|] == candidates;
    }

    method UnlinkInTurn(candidates: seq<Key>, steps: nat) returns (removed: nat, left: Option<nat>, ghost tried: nat)
      requires Valid()
      modifies this`objects
      ensures Valid() && removed <= tried <= |candidates| && (left.Some? ==> tried == |candidates|)
      ensures steps >= |candidates| ==> left.Some?
      ensures Unlinked(old(objects), objects, ledger, candidates[..tried], removed, Walked(candidates, old(objects)))
    {
      hide Unknown, Valid, Walked, Unlinked;
      removed, left, tried := 0, Some(steps), 0;
      ghost var was, walked := objects, Walked(candidates, objects);
      NothingUnlinked(objects, ledger, candidates, walked);
      for i := 0 to |candidates|
        invariant Valid() && removed <= i && removed <= steps && left == Some(steps - removed) && tried == i
        invariant Unlinked(was, objects, ledger, candidates[..i], removed, walked)
      {
        var key := candidates[i];
        if key in ledger {
          SkipStep(was, objects, ledger, candidates, i, removed, walked);
        } else {
          if left.value == 0 {
            return removed, None, i;
          }
          left := Some(left.value - 1);
          UnlinkStep(was, objects, ledger, candidates, i, removed, walked);
          UnlinkObject(key);
          removed := removed + 1;
        }
        tried := i + 1;
      }
    }
  }

  /** The objects after unlinking some candidates; `walked` says that each was there. */
  ghost predicate Unlinked(was: map<Key, File>, now: map<Key, File>, ledger: map<Key, Row>, candidates: seq<Key>,
                           removed: nat, walked: bool)
  {
    && now == was - Unknown(ledger, candidates) && |now| <= |was| <= |now| + removed
    && (walked ==> removed == |Unknown(ledger, candidates)| && |now| + removed == |was|)
  }

  lemma NothingUnlinked(was: map<Key, File>, ledger: map<Key, Row>, candidates: seq<Key>, walked: bool)
    ensures Unlinked(was, was, ledger, candidates[..0], 0, walked)
  {
    NoUnknown(ledger, candidates);
    TakeFrom(was, {}, 0);
  }

  lemma UnlinkedAre(was: map<Key, File>, now: map<Key, File>, ledger: map<Key, Row>, candidates: seq<Key>,
                    removed: nat, walked: bool)
    requires Unlinked(was, now, ledger, candidates, removed, walked)
    ensures now == was - Unknown(ledger, candidates) && |now| <= |was| <= |now| + removed
    ensures forall key | key in now :: key in was && now[key] == was[key]
    ensures walked ==> removed == |Unknown(ledger, candidates)| && |now| + removed == |was|
  {
    hide Unknown;
  }

  lemma SkipStep(was: map<Key, File>, now: map<Key, File>, ledger: map<Key, Row>, candidates: seq<Key>, i: nat,
                 removed: nat, walked: bool)
    requires i < |candidates| && Unlinked(was, now, ledger, candidates[..i], removed, walked)
    requires candidates[i] in ledger
    ensures Unlinked(was, now, ledger, candidates[..i + 1], removed, walked)
  {
    hide Unknown;
    UnknownStep(ledger, candidates, i);
  }

  lemma UnlinkStep(was: map<Key, File>, now: map<Key, File>, ledger: map<Key, Row>, candidates: seq<Key>, i: nat,
                   removed: nat, walked: bool)
    requires i < |candidates| && Unlinked(was, now, ledger, candidates[..i], removed, walked)
    requires (walked ==> Walked(candidates, was)) && candidates[i] !in ledger
    ensures Unlinked(was, now - {candidates[i]}, ledger, candidates[..i + 1], removed + 1, walked)
  {
    hide Unknown, Walked;
    var key, gone := candidates[i], Unknown(ledger, candidates[..i]);
    UnknownStep(ledger, candidates, i);
    TakeFrom(was, gone, key);
    DropOne(now, key);
    if walked {
      WalkedStep(ledger, candidates, was, i);
      assert key in now;
    }
  }

  function FirstOf(keys: seq<Key>, n: int): (r: seq<Key>)
    ensures r <= keys && |r| == (if n <= 0 then 0 else if |keys| <= n then |keys| else n)
  {
    if n <= 0 then [] else if |keys| <= n then keys else keys[..n]
  }

  /** The temporary files to be removed among some entries. */
  ghost function OldFiles(files: map<nat, File>, names: seq<nat>, olderThan: int): set<nat> {
    set n | n in names && n in files && files[n].modified < olderThan
  }

  /** The rows to be removed among some candidates. */
  ghost function Loose(ledger: map<Key, Row>, rows: seq<Key>): set<Key> {
    set key | key in rows && key in ledger && !ledger[key].referenced
  }

  /** The candidates without a row. */
  ghost function Unknown(ledger: map<Key, Row>, candidates: seq<Key>): set<Key> {
    set key | key in candidates && key !in ledger
  }

  ghost predicate FilesGone(before: map<nat, File>, after: map<nat, File>, gone: set<nat>, count: nat) {
    after == before - gone && count == |gone|
  }

  ghost predicate RowsGone(before: map<Key, Row>, after: map<Key, Row>, gone: set<Key>, count: nat) {
    after == before - gone && count == |gone|
  }

  /** What a walk over the objects yields: each of them once. */
  ghost predicate Walked(candidates: seq<Key>, objects: map<Key, File>) {
    && (forall i, j | 0 <= i < j < |candidates| :: candidates[i] != candidates[j])
    && forall key | key in candidates :: key in objects
  }

  lemma NoOldFiles(files: map<nat, File>, names: seq<nat>, olderThan: int)
    ensures OldFiles(files, names[..0], olderThan) == {} && files - {} == files
  {
  }

  lemma NoLoose(ledger: map<Key, Row>, rows: seq<Key>)
    ensures Loose(ledger, rows[..0]) == {} && ledger - {} == ledger
  {
  }

  /** Objects that a walk yields are still there unless they had a row that was removed. */
  lemma StillWalked(candidates: seq<Key>, was: map<Key, File>, now: map<Key, File>, loose: set<Key>,
                    ledger: map<Key, Row>)
    requires now == was - loose && (forall key | key in loose :: key !in ledger)
    ensures Walked(candidates, was) && loose !! Unknown(ledger, candidates) ==> Walked(candidates, now)
  {
  }

  lemma NothingUnknown()
    ensures forall rows: map<Key, Row> :: Unknown(rows, []) == {} && Loose(rows, []) == {} && rows - {} == rows
    ensures forall objects: map<Key, File> :: objects - {} == objects
  {
  }

  lemma NoUnknown(ledger: map<Key, Row>, candidates: seq<Key>)
    ensures Unknown(ledger, candidates[..0]) == {}
  {
  }

  /** Removing what is left of an entry, and what all of it amounts to. */
  lemma OldFilesStep(was: map<nat, File>, now: map<nat, File>, names: seq<nat>, i: nat, olderThan: int)
    requires i < |names| && now == was - OldFiles(was, names[..i], olderThan)
    ensures var gone, next := OldFiles(was, names[..i], olderThan), OldFiles(was, names[..i + 1], olderThan);
            if names[i] in now && now[names[i]].modified < olderThan
            then now - {names[i]} == was - next && |next| == |gone| + 1
            else next == gone
  {
    assert names[..i + 1] == names[..i] + [names[i]];
    var gone, next := OldFiles(was, names[..i], olderThan), OldFiles(was, names[..i + 1], olderThan);
    if names[i] in now && now[names[i]].modified < olderThan {
      assert next == gone + {names[i]} && names[i] !in gone;
    } else {
      assert next == gone;
    }
  }

  lemma OldFilesAre(was: map<nat, File>, now: map<nat, File>, names: seq<nat>, olderThan: int)
    requires now == was - OldFiles(was, names, olderThan)
    ensures forall n | n in now :: n in was && now[n] == was[n]
    ensures forall n | n in was && n !in now :: was[n].modified < olderThan
  {
  }

  lemma LooseStep(was: map<Key, Row>, now: map<Key, Row>, rows: seq<Key>, i: nat)
    requires i < |rows| && now == was - Loose(was, rows[..i])
    ensures var gone, next := Loose(was, rows[..i]), Loose(was, rows[..i + 1]);
            if rows[i] in now && !now[rows[i]].referenced
            then next == gone + {rows[i]} && now - {rows[i]} == was - next && |next| == |gone| + 1
            else next == gone
  {
    assert rows[..i + 1] == rows[..i] + [rows[i]];
    var gone, next := Loose(was, rows[..i]), Loose(was, rows[..i + 1]);
    if rows[i] in now && !now[rows[i]].referenced {
      assert next == gone + {rows[i]} && rows[i] !in gone;
    } else {
      assert next == gone;
    }
  }

  lemma LooseAre(was: map<Key, Row>, now: map<Key, Row>, rows: seq<Key>)
    requires now == was - Loose(was, rows)
    ensures forall key | key in now :: key in was && now[key] == was[key]
    ensures forall key | key in was && was[key].referenced :: key in now
  {
  }

  lemma UnknownStep(ledger: map<Key, Row>, candidates: seq<Key>, i: nat)
    requires i < |candidates|
    ensures var gone, next := Unknown(ledger, candidates[..i]), Unknown(ledger, candidates[..i + 1]);
            && next == (if candidates[i] in ledger then gone else gone + {candidates[i]})
            && (forall key | key in gone :: key !in ledger)
  {
    assert candidates[..i + 1] == candidates[..i] + [candidates[i]];
    var gone, next := Unknown(ledger, candidates[..i]), Unknown(ledger, candidates[..i + 1]);
    assert next == (if candidates[i] in ledger then gone else gone + {candidates[i]});
  }

  /** A walk yields each object once, so it is still there when its turn comes. */
  lemma WalkedStep(ledger: map<Key, Row>, candidates: seq<Key>, was: map<Key, File>, i: nat)
    requires Walked(candidates, was) && i < |candidates| && candidates[i] !in ledger
    ensures candidates[i] in was && candidates[i] !in Unknown(ledger, candidates[..i])
    ensures |Unknown(ledger, candidates[..i]) + {candidates[i]}| == |Unknown(ledger, candidates[..i])| + 1
  {
    assert forall key | key in candidates[..i] :: exists j :: 0 <= j < i && candidates[j] == key;
    assert candidates[i] in candidates;
  }

  lemma TakeFrom<V>(m: map<nat, V>, gone: set<nat>, key: nat)
    ensures m - gone - {key} == m - (gone + {key})
    ensures m - {} == m
  {
  }

  lemma DropOne<V>(m: map<nat, V>, key: nat)
    ensures |m - {key}| == |m| - if key in m then 1 else 0
  {
    if key in m {
      assert m == (m - {key})[key := m[key]];
    } else {
      assert m - {key} == m;
    }
  }
}
