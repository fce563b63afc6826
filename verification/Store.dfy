/**
 The content addressed chunk store (crates/mjolnir-image/src/store.rs).

 Hashing, compression and sealing are parameters: a name, an encoder that may
 give different stored bytes each time, and a decoder that undoes it.
 */
module Store {
  import opened Arith
  import opened TempNames

  const DIGEST_BYTES := 32

  type Digest = d: Bytes | |d| == DIGEST_BYTES witness seq(DIGEST_BYTES, _ => 0)

  type Stored = Bytes

  /** How a store names chunks and turns them into file contents and back. */
  datatype Codec = Codec(name: Bytes -> Digest, encode: (Bytes, nat) -> Stored, decode: Stored -> Option<Bytes>)

  /**
   What is assumed of the codec: decoding undoes encoding, and no two different
   byte strings among the `known` ones share a name.
   */
  ghost predicate Lawful(codec: Codec, known: iset<Bytes>) {
    && (forall d, n :: codec.decode(codec.encode(d, n)) == Some(d))
    && (forall a, b {:trigger codec.name(a),
        codec.name(b)} :: a in known && b in known && codec.name(a) == codec.name(b) ==> a == b)
  }

  /** The stored bytes `s` are a whole chunk that belongs under the name `h`. */
  ghost predicate GoodFile(codec: Codec, known: iset<Bytes>, h: Digest, s: Stored) {
    && 0 < |s| <= U64_MAX
    && codec.decode(s).Some?
    && codec.decode(s).value in known
    && codec.name(codec.decode(s).value) == h
  }

  /** Whatever the encoder makes of it, the data can be stored. */
  ghost predicate Encodable(codec: Codec, data: Bytes) {
    forall n: nat :: 0 < |codec.encode(data, n)| <= U64_MAX
  }

  datatype StoreError = Locked | EmptyChunk | Io | Missing | Damaged | WrongSize | DigestMismatch

  datatype PutOutcome = PutOutcome(hash: Digest, compressedSize: u64, written: bool)

  // ---- the files as renames ------------------------------------------------------------

  type TempName = (Digest, nat)

  /** The files a reader finds under final names: later renames replace earlier ones. */
  function Finals(renames: seq<(Digest, Stored)>): map<Digest, Stored> {
    if renames == [] then map[]
    else
      var last := renames[|renames| - 1];
      Finals(renames[..|renames| - 1])[last.0 := last.1]
  }

  lemma {:induction false} FinalsComeFromRenames(renames: seq<(Digest, Stored)>, h: Digest)
    requires h in Finals(renames)
    ensures (h, Finals(renames)[h]) in renames
  {
    var last := renames[|renames| - 1];
    if h != last.0 {
      FinalsComeFromRenames(renames[..|renames| - 1], h);
    }
  }

  lemma {:induction false} FinalsGrow(renames: seq<(Digest, Stored)>, last: (Digest, Stored))
    ensures Finals(renames + [last]) == Finals(renames)[last.0 := last.1]
  {
  }

  lemma {:induction false} NoMoreFilesThanRenames(renames: seq<(Digest, Stored)>)
    ensures |Finals(renames)| <= |renames|
  {
    if renames != [] {
      var init, last := Finals(renames[..|renames| - 1]), renames[|renames| - 1];
      NoMoreFilesThanRenames(renames[..|renames| - 1]);
      assert Finals(renames).Keys == init.Keys + {last.0};
    }
  }

  /** How many bytes the files have in all. */
  ghost function FilesSize(files: map<Digest, Stored>): nat {
    if files == map[] then 0
    else
      var h :| h in files;
      |files[h]| + FilesSize(files - {h})
  }

  /** Whichever file is counted first. */
  lemma {:induction false} FilesSizeWithout(files: map<Digest, Stored>, h: Digest)
    requires h in files
    ensures FilesSize(files) == |files[h]| + FilesSize(files - {h})
    decreases |files|
  {
    var g :| g in files && FilesSize(files) == |files[g]| + FilesSize(files - {g});
    if g != h {
      FilesSizeWithout(files - {g}, h);
      FilesSizeWithout(files - {h}, g);
      assert files - {g} - {h} == files - {h} - {g};
    }
  }

  /** No name is given twice. */
  ghost predicate NamedOnce(renames: seq<(Digest, Stored)>) {
    forall i, j :: 0 <= i < j < |renames| ==> renames[i].0 != renames[j].0
  }

  lemma {:induction false} RenamedIsThere(renames: seq<(Digest, Stored)>, i: nat)
    requires i < |renames|
    ensures renames[i].0 in Finals(renames)
  {
    if i < |renames| - 1 {
      RenamedIsThere(renames[..|renames| - 1], i);
    }
  }

  lemma NamedOnceMore(renames: seq<(Digest, Stored)>, last: (Digest, Stored))
    requires NamedOnce(renames) && last.0 !in Finals(renames)
    ensures NamedOnce(renames + [last])
  {
    forall i | 0 <= i < |renames|
      ensures renames[i].0 != last.0
    {
      RenamedIsThere(renames, i);
    }
  }

  /** All there is to see of a store: the renames made, the temporary files and the counter for their names. */
  datatype StoreView = StoreView(renames: seq<(Digest, Stored)>, temps: map<TempName, Stored>, count: Count)

  /** What a failed write leaves of a temporary file: what was there, nothing, or the beginning of the encoding. */
  ghost predicate LeftBehind(codec: Codec, data: Bytes, temp: TempName, before: map<TempName, Stored>,
      after: map<TempName, Stored>)
  {
    || after == before
    || after == before - {temp}
    || exists nonce: nat, reached: nat :: IsPartial(codec, data, temp, before, after, nonce, reached)
  }

  ghost predicate IsPartial(codec: Codec, data: Bytes, temp: TempName, before: map<TempName, Stored>,
      after: map<TempName, Stored>, nonce: nat, reached: nat)
  {
    reached <= |codec.encode(data, nonce)| && after == before[temp := codec.encode(data, nonce)[..reached]]
  }

  lemma LeftAfterRemoval(codec: Codec, data: Bytes, temp: TempName, before: map<TempName, Stored>,
      after: map<TempName, Stored>)
    requires LeftBehind(codec, data, temp, before, after)
    ensures LeftBehind(codec, data, temp, before, after - {temp}) && after - {temp} == before - {temp}
  {
  }

  /** The chunk is published: its encoding is under its name, and nothing of the temporary file is left. */
  ghost predicate PublishedAs(codec: Codec, data: Bytes, temp: TempName, before: StoreView, after: StoreView,
      nonce: nat)
  {
    && 0 < |codec.encode(data, nonce)| <= U64_MAX
    && after == StoreView(before.renames + [(codec.name(data), codec.encode(data, nonce))],
                          before.temps - {temp}, NextCount(before.count))
  }

  /** Everything a call of `put` may do, by its result. */
  ghost predicate PutDid(codec: Codec, pid: Pid, data: Bytes, before: StoreView, after: StoreView,
      r: Result<PutOutcome, StoreError>)
  {
    var hash, temp := codec.name(data), (codec.name(data), UniqueSuffix(pid, before.count));
    if hash in Finals(before.renames) then
      after == before && (r.Success? ==> !r.value.written && data != [])
    else if r.Success? then
      data != [] && r.value.written && exists nonce: nat :: PublishedAs(codec, data, temp, before, after, nonce)
    else
      || after == before
      || (data != [] && after.renames == before.renames && after.count == NextCount(before.count) &&
          LeftBehind(codec, data, temp, before.temps, after.temps))
  }

  class ChunkStore {
    const codec: Codec
    /** The chunks are sealed and no password has been given. */
    const locked: bool
    /** The drive may fail to write. */
    const faulty: bool
    /** Every byte string that is ever offered to the store. */
    ghost const known: iset<Bytes>
    /** Files under their final names. */
    var files: map<Digest, Stored>
    /** Files still under temporary names. */
    var temps: map<TempName, Stored>
    /** The process at work, and how many temporary names it has taken. */
    const pid: Pid
    var count: Count
    /** Every rename onto a final name, in order. */
    ghost var renames: seq<(Digest, Stored)>
    /** Chunks whose files the device fails to read. */
    var unreadable: set<Digest>

    ghost predicate Valid()
      reads this
    {
      && Lawful(codec, known)
      && (forall h :: h in files ==> GoodFile(codec, known, h, files[h]))
      && Finals(renames) == files && NamedOnce(renames)
    }

    ghost function View(): StoreView
      reads this
    {
      StoreView(renames, temps, count)
    }

    /** Nothing keeps the store from storing whatever it is offered. */
    ghost predicate Healthy() {
      !locked && !faulty && forall data :: data in known && data != [] ==> Encodable(codec, data)
    }

    constructor (codec: Codec, locked: bool, faulty: bool, pid: Pid, ghost known: iset<Bytes>)
      requires Lawful(codec, known)
      ensures Valid() && View() == StoreView([], map[], 0)
      ensures this.codec == codec && this.locked == locked && this.pid == pid && this.known == known
      ensures this.faulty == faulty
    {
      this.faulty := faulty;
      this.codec := codec;
      this.locked := locked;
      this.known := known;
      files := map[];
      temps := map[];
      this.pid := pid;
      count := 0;
      renames := [];
      unreadable := {};
    }

    /** The chunk named `h` decodes to exactly `data`. */
    ghost predicate Holds(h: Digest, data: Bytes)
      reads this
    {
      h in files && codec.decode(files[h]) == Some(data)
    }

    /**
     Stores `data` under its name by way of a temporary file. A name already
     present is left alone, and a failure changes no file a reader looks at.
     */
    method Put(data: Bytes) returns (r: Result<PutOutcome, StoreError>)
      requires Valid() && data in known
      modifies this`files, this`temps, this`count, this`renames
      ensures Valid() && PutDid(codec, pid, data, old(View()), View(), r)
      ensures r.Failure? ==> files == old(files)
      ensures locked <==> r == Failure(Locked)
      ensures !locked && data == [] ==> r == Failure(EmptyChunk)
      ensures r.Failure? ==> locked || data == [] || faulty || !Encodable(codec, data)
      ensures r.Success? ==>
                && r.value.hash == codec.name(data)
                && Holds(codec.name(data), data)
                && r.value.compressedSize == |files[r.value.hash]| > 0
                && (r.value.written <==> codec.name(data) !in old(files))
                && files == old(files)[codec.name(data) := files[codec.name(data)]]
      ensures forall h :: h in old(files) ==> h in files && files[h] == old(files)[h]
    {
      if locked {
        return Failure(Locked);
      }
      if data == [] {
        return Failure(EmptyChunk);
      }
      var hash := codec.name(data);
      if hash in files && |files[hash]| > 0 {
        assert codec.decode(files[hash]).value == data;
        return Success(PutOutcome(hash, |files[hash]|, false));
      }
      var temp := (hash, UniqueSuffix(pid, count));
      count := NextCount(count);
      var size, nonce := WriteTemp(temp, data);
      LeftAfterRemoval(codec, data, temp, old(temps), temps);
      var renamed := *;
      if size.Failure? || (faulty && !renamed) {
        var removed := *;
        if removed {
          temps := temps - {temp};
        }
        return Failure(if size.Failure? then size.error else Io);
      }
      Publish(temp);
      assert PublishedAs(codec, data, temp, old(View()), View(), nonce);
      return Success(PutOutcome(hash, size.value, true));
    }

    /** The rename onto the final name. */
    method Publish(temp: TempName)
      requires Valid() && temp in temps && temp.0 !in files && GoodFile(codec, known, temp.0, temps[temp])
      modifies this`files, this`temps, this`renames
      ensures Valid() && files == old(files)[temp.0 := old(temps)[temp]]
      ensures View() == StoreView(old(renames) + [(temp.0, old(temps)[temp])], old(temps) - {temp}, count)
    {
      FinalsGrow(renames, (temp.0, temps[temp]));
      NamedOnceMore(renames, (temp.0, temps[temp]));
      files := files[temp.0 := temps[temp]];
      renames := renames + [(temp.0, temps[temp])];
      temps := temps - {temp};
    }

    /** Writes the encoded chunk under a temporary name and syncs it. */
    method WriteTemp(temp: TempName, data: Bytes) returns (r: Result<u64, StoreError>, ghost nonce: nat)
      requires Valid()
      modifies this`temps
      ensures r.Failure? ==> r.error == Io && (faulty || !Encodable(codec, data))
      ensures LeftBehind(codec, data, temp, old(temps), temps)
      ensures r.Success? ==>
                && temps == old(temps)[temp := codec.encode(data, nonce)]
                && codec.decode(temps[temp]) == Some(data)
                && r.value == |temps[temp]| > 0
      ensures forall t :: t != temp ==> (t in temps <==> t in old(temps)) && (t in temps ==> temps[t] == old(temps)[t])
    {
      nonce := 0;
      var created := *;
      if faulty && !created {
        return Failure(Io), nonce;
      }
      var drawn: nat :| 0 <= drawn;
      nonce := drawn;
      var stored := codec.encode(data, drawn);
      var reached :| 0 <= reached <= |stored|;
      temps := temps[temp := stored[..reached]];
      assert IsPartial(codec, data, temp, old(temps), temps, nonce, reached);
      var wroteAll := *;
      if (faulty && !wroteAll) || |stored| > U64_MAX {
        return Failure(Io), nonce;
      }
      temps := temps[temp := stored];
      if |stored| == 0 {
        assert stored[..0] == stored;
        assert IsPartial(codec, data, temp, old(temps), temps, nonce, 0);
        return Failure(Io), nonce;
      }
      assert stored[..|stored|] == stored;
      assert IsPartial(codec, data, temp, old(temps), temps, nonce, |stored|);
      return Success(|stored|), nonce;
    }

    /**
     Reads a chunk back, exactly when the store is not locked and the chunk's file can
     be read and decodes to bytes of the size and the name asked for.
     */
    method Get(hash: Digest, expectedSize: u32) returns (r: Result<Bytes, StoreError>)
      ensures r.Success? ==> |r.value| == expectedSize && codec.name(r.value) == hash && Holds(hash, r.value)
      ensures r.Success? <==>
                && !locked && hash !in unreadable
                && exists data :: Holds(hash, data) && |data| == expectedSize && codec.name(data) == hash
      ensures r == Failure(Locked) <==> locked
      ensures r == Failure(Io) <==> !locked && hash in files && hash in unreadable
    {
      if locked {
        return Failure(Locked);
      }
      if hash !in files {
        return Failure(Missing);
      }
      if hash in unreadable {
        return Failure(Io);
      }
      var decoded := codec.decode(files[hash]);
      if decoded.None? {
        return Failure(Damaged);
      }
      // The decoder is stopped one byte past the size the manifest claims.
      var out := decoded.value[..Min(|decoded.value|, expectedSize + 1)];
      if |out| != expectedSize {
        return Failure(WrongSize);
      }
      assert out == decoded.value;
      if codec.name(out) != hash {
        return Failure(DigestMismatch);
      }
      return Success(out);
    }

    /** Removes leftover temporary files and touches nothing else. */
    method SweepTempFiles() returns (r: Result<nat, StoreError>)
      modifies this`temps
      ensures temps.Keys <= old(temps).Keys
      ensures r.Success? ==> temps == map[] && r.value == |old(temps)|
      ensures r.Failure? ==> faulty && temps != map[]
    {
      var removed := 0;
      while temps != map[]
        invariant temps.Keys <= old(temps).Keys
        invariant |temps| + removed == |old(temps)|
        decreases |temps|
      {
        var t :| t in temps;
        var ok := *;
        if faulty && !ok {
          return Failure(Io);
        }
        assert (temps - {t}).Keys == temps.Keys - {t};
        temps := temps - {t};
        removed := removed + 1;
      }
      return Success(removed);
    }
  }
}
