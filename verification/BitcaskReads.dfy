/** A Get that is suspended between looking a key up and reading its record. */
module BitcaskReads {
  import opened Bytes
  import opened Wrappers
  import opened BitcaskEntry
  import opened BitcaskLog
  import opened BitcaskAccounting
  import opened BitcaskPartition

  /**
   Get finds the file of a key, is suspended, and then takes offset and size from the index. It
   answers the map as long as the key is still in the file it found.
   */
  lemma GetAcrossSuspension(k: Codec, image: Image, files: map<nat, Data>, s: State, t: State, key: Data)
    requires Imaged(k, image) && Stored(image, files, t.log) && Means(t)
    requires key in s.keydir && key in t.keydir && t.keydir[key].file == s.keydir[key].file
    ensures key in t.model && s.keydir[key].file in files
    ensures ReadAt(k, files[s.keydir[key].file], t.keydir[key], key) == Some(t.model[key])
  {
    IndexReads(k, image, files, t, key);
  }

  /** What is read from fewer than 2^32 bytes fits the format. */
  ghost predicate ReadsFit(k: Codec) {
    forall d: Data {:trigger k.read(d)} :: k.read(d).Ok? && |d| < WORD32 ==> Fits(k.read(d).entry)
  }

  lemma FormatReadsFit(c: Checksum)
    ensures ReadsFit(FormatOf(c))
  {
    var k := FormatOf(c);
    forall d: Data | k.read(d).Ok? && |d| < WORD32 ensures Fits(k.read(d).entry) {
      FromLeRoundTrip(d[4..12]);
      Limits();
    }
  }

  /** The bytes at an offset are an encoding of this key and value, not a tombstone. */
  ghost predicate Holds(k: Codec, d: Data, offset: nat, key: Data, value: Data) {
    var end := offset + HEADER + |key| + |value|;
    end <= |d| && exists e: Entry ::
      Fits(e) && e.key == key && e.value == value && !e.IsTombstone() && d[offset..end] == k.write(e)
  }

  /** What the second half of Get answers on any bytes at all. */
  lemma ReadExact(k: Codec, d: Data, loc: Loc, key: Data, value: Data)
    requires Lawful(k) && ReadsFit(k) && loc.size == HEADER + |key| + |value| < WORD32
    ensures ReadAt(k, d, loc, key) == Some(value) <==> Holds(k, d, loc.offset, key, value)
  {
    if loc.offset + loc.size <= |d| {
      var x := d[loc.offset..loc.offset + loc.size];
      if ReadAt(k, d, loc, key) == Some(value) { assert x[..k.read(x).entry.Size()] == x; }
      if Holds(k, d, loc.offset, key, value) {
        var e: Entry :|
          Fits(e) && e.key == key && e.value == value && !e.IsTombstone()
            && d[loc.offset..loc.offset + loc.size] == k.write(e);
        assert k.write(e) + [] == x && k.read(k.write(e) + []) == Ok(e);
      }
    }
  }

  /**
   Repointed meanwhile, Get reads the file it has open at the copy's offset. Whatever bytes that file
   has, it answers the map exactly when a record of the key with its value lies there.
   */
  lemma GetAcrossMove(k: Codec, image: Image, files: map<nat, Data>, held: Data, t: State, key: Data)
    requires Imaged(k, image) && ReadsFit(k) && Stored(image, files, t.log) && Means(t) && key in t.keydir
    ensures key in t.model
    ensures ReadAt(k, held, t.keydir[key], key) == Some(t.model[key])
            <==> Holds(k, held, t.keydir[key].offset, key, t.model[key])
  {
    var loc := t.keydir[key];
    assert key in t.model && Points(t.log, loc, key, t.model[key]) && files[loc.file] == image(t.log[loc.file]);
    LocatedFits(t.log[loc.file], loc.offset, Entry(loc.timestamp, 0, key, t.model[key]));
    ReadExact(k, held, loc, key, t.model[key]);
  }

  /** Where a record of the open file starts at the copy's offset, of whatever size, that record decides. */
  lemma GetOntoRecord(k: Codec, image: Image, es: seq<Entry>, loc: Loc, there: Entry, key: Data, value: Data)
    requires Imaged(k, image) && AllFit(es) && Located(es, loc.offset, there)
    requires loc.size == HEADER + |key| + |value| < WORD32
    ensures ReadAt(k, image(es), loc, key) == Some(value)
            <==> there.key == key && !there.IsTombstone() && there.value == value
  {
    assert image(es) == BytesOf(k, es);
    BytesAt(k, es, loc.offset, there);
    LocatedFits(es, loc.offset, there);
    if there.Size() == loc.size {
      ReadLocated(k, image, es, loc, there, key);
    } else if ReadAt(k, image(es), loc, key) == Some(value) {
      NotThere(k, image(es), loc, there, key, value);
    }
  }

  /** A record of another size is not read as this one. */
  lemma NotThere(k: Codec, d: Data, loc: Loc, there: Entry, key: Data, value: Data)
    requires Lawful(k) && Fits(there) && loc.offset + there.Size() <= |d| && loc.size == HEADER + |key| + |value|
    requires d[loc.offset..loc.offset + there.Size()] == k.write(there) && there.Size() != loc.size
    ensures ReadAt(k, d, loc, key) != Some(value)
  {
    if loc.offset + loc.size <= |d| {
      var x, y, z := d[loc.offset..loc.offset + loc.size], d[loc.offset + loc.size..], d[loc.offset + there.Size()..];
      assert x + y == d[loc.offset..] == k.write(there) + z;
      assert k.read(k.write(there) + z) == Ok(there);
      assert k.read(x) != NeedMore ==> k.read(x) == k.read(x + y);
    }
  }
}
