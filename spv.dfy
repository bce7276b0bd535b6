/**
 * The SPV header store (src/burnchains/bitcoin/spv.rs): a flat file of fixed-size block header
 * records, its height, random access by height, and the append that keeps the chain contiguous.
 */
module Spv {
  import opened Wrappers
  import opened BitcoinError

  /** Bytes in one stored header: the 80-byte header and its one-byte transaction count. */
  const BLOCK_HEADER_SIZE: nat := 81

  newtype byte = x: int | 0 <= x < 256

  /** One stored header, as the bytes it occupies in the file. */
  type Record = r: seq<byte> | |r| == BLOCK_HEADER_SIZE witness seq(81, _ => 0)

  /** A double-SHA256 block hash. */
  type Hash = h: seq<byte> | |h| == 32 witness seq(32, _ => 0)

  /** The declared previous-block hash: it follows the 4-byte version field. */
  function PrevHash(r: Record): Hash {
    r[4..36]
  }

  /** The file content holding the records in order, with no separators. */
  function Flatten(rs: seq<Record>): (bytes: seq<byte>)
    ensures |bytes| == BLOCK_HEADER_SIZE * |rs|
  {
    if rs == [] then [] else Flatten(rs[..|rs| - 1]) + rs[|rs| - 1]
  }

  /** The records of a file whose length is a whole number of records. */
  function Split(bytes: seq<byte>): (rs: seq<Record>)
    requires |bytes| % BLOCK_HEADER_SIZE == 0
    ensures BLOCK_HEADER_SIZE * |rs| == |bytes|
    ensures Flatten(rs) == bytes
    decreases |bytes|
  {
    if bytes == [] then []
    else
      var n := |bytes| - BLOCK_HEADER_SIZE;
      var rs := Split(bytes[..n]) + [bytes[n..]];
      assert rs[..|rs| - 1] == Split(bytes[..n]);
      rs
  }

  lemma {:induction false} FlattenAppend(a: seq<Record>, b: seq<Record>)
    ensures Flatten(a + b) == Flatten(a) + Flatten(b)
    decreases |b|
  {
    if b != [] {
      var b' := b[..|b| - 1];
      assert (a + b)[..|a + b| - 1] == a + b';
      FlattenAppend(a, b');
    } else {
      assert a + b == a;
    }
  }

  /** The record at height h occupies the 81 bytes starting at offset 81 * h. */
  lemma {:induction false} RecordAtOffset(rs: seq<Record>, h: nat)
    requires h < |rs|
    ensures Flatten(rs)[BLOCK_HEADER_SIZE * h .. BLOCK_HEADER_SIZE * h + BLOCK_HEADER_SIZE] == rs[h]
  {
    var init := rs[..|rs| - 1];
    assert Flatten(rs) == Flatten(init) + rs[|rs| - 1];
    if h < |rs| - 1 {
      RecordAtOffset(init, h);
    }
  }

  /** A file determines its records: splitting the flattened records gives them back. */
  lemma {:induction false} SplitFlatten(rs: seq<Record>)
    ensures Split(Flatten(rs)) == rs
  {
    var bytes := Flatten(rs);
    var split := Split(bytes);
    assert |split| == |rs|;
    forall h | 0 <= h < |rs| ensures split[h] == rs[h] {
      RecordAtOffset(rs, h);
      RecordAtOffset(split, h);
    }
  }

  /** Appending whole records keeps a file a whole number of records long. */
  lemma WholeRecords(size: nat, n: nat)
    requires size % BLOCK_HEADER_SIZE == 0
    ensures (size + BLOCK_HEADER_SIZE * n) % BLOCK_HEADER_SIZE == 0
  {
    assert size + BLOCK_HEADER_SIZE * n == BLOCK_HEADER_SIZE * (size / BLOCK_HEADER_SIZE + n);
  }

  /** The height formula: one less than the number of whole records in a file of `fileSize` bytes. */
  function HeightOf(fileSize: nat): (h: int)
    ensures h >= -1
    ensures BLOCK_HEADER_SIZE * (h + 1) <= fileSize < BLOCK_HEADER_SIZE * (h + 2)
  {
    fileSize / BLOCK_HEADER_SIZE - 1
  }

  /** Height counts records from 0, so an empty file is at height -1. */
  lemma HeightOfRecords(rs: seq<Record>)
    ensures HeightOf(|Flatten(rs)|) == |rs| - 1
    ensures HeightOf(0) == -1
  {
  }

  /** Appending n records raises the height by exactly n. */
  lemma HeightAfterAppend(rs: seq<Record>, batch: seq<Record>)
    ensures HeightOf(|Flatten(rs + batch)|) == HeightOf(|Flatten(rs)|) + |batch|
  {
    HeightOfRecords(rs + batch);
    HeightOfRecords(rs);
  }

  /** Each header declares the hash of the one before it as its previous hash. */
  predicate Contiguous(hs: seq<Record>, hashOf: Record -> Hash) {
    forall i :: 0 < i < |hs| ==> PrevHash(hs[i]) == hashOf(hs[i - 1])
  }

  /** A batch may follow the stored headers: nothing to check when either is empty. */
  predicate ChainsTo(stored: seq<Record>, batch: seq<Record>, hashOf: Record -> Hash) {
    stored == [] || batch == [] || PrevHash(batch[0]) == hashOf(stored[|stored| - 1])
  }

  /** A contiguous batch that chains to a contiguous chain's tip extends it to a contiguous chain. */
  lemma ContiguousAppend(stored: seq<Record>, batch: seq<Record>, hashOf: Record -> Hash)
    requires Contiguous(stored, hashOf) && Contiguous(batch, hashOf) && ChainsTo(stored, batch, hashOf)
    ensures Contiguous(stored + batch, hashOf)
  {
    var all := stored + batch;
    forall i | 0 < i < |all| ensures PrevHash(all[i]) == hashOf(all[i - 1]) {
      if i < |stored| {
        assert all[i] == stored[i] && all[i - 1] == stored[i - 1];
      } else if i == |stored| {
        assert all[i] == batch[0] && all[i - 1] == stored[|stored| - 1];
      } else {
        assert all[i] == batch[i - |stored|] && all[i - 1] == batch[i - |stored| - 1];
      }
    }
  }

  /** What appending a batch's records to a file of whole records does to its records, height and contiguity. */
  lemma AppendFacts(file: seq<byte>, batch: seq<Record>, hashOf: Record -> Hash)
    requires |file| % BLOCK_HEADER_SIZE == 0
    ensures |file + Flatten(batch)| % BLOCK_HEADER_SIZE == 0
    ensures Split(file + Flatten(batch)) == Split(file) + batch
    ensures HeightOf(|file + Flatten(batch)|) == HeightOf(|file|) + |batch|
    ensures Contiguous(Split(file), hashOf) && Contiguous(batch, hashOf) && ChainsTo(Split(file), batch, hashOf)
            ==> Contiguous(Split(file + Flatten(batch)), hashOf)
  {
    var stored := Split(file);
    WholeRecords(|file|, |batch|);
    FlattenAppend(stored, batch);
    SplitFlatten(stored + batch);
    HeightAfterAppend(stored, batch);
    if Contiguous(stored, hashOf) && Contiguous(batch, hashOf) && ChainsTo(stored, batch, hashOf) {
      ContiguousAppend(stored, batch, hashOf);
    }
  }

  /** The contiguity test over a batch, one adjacent pair at a time. */
  method CheckContiguous(hs: seq<Record>, hashOf: Record -> Hash) returns (ok: bool)
    ensures ok <==> Contiguous(hs, hashOf)
  {
    var i := 1;
    while i < |hs|
      invariant 1 <= i <= |hs| || (hs == [] && i == 1)
      invariant forall k :: 0 < k < i && k < |hs| ==> PrevHash(hs[k]) == hashOf(hs[k - 1])
    {
      if PrevHash(hs[i]) != hashOf(hs[i - 1]) {
        return false;
      }
      i := i + 1;
    }
    return true;
  }

  /** What a missing headers file reports. */
  const NotFound: IoError := IoError("entity not found", "No such file or directory (os error 2)")

  /** What a read past the end of the headers file reports. */
  const UnexpectedEof: IoError := IoError("unexpected end of file", "failed to fill whole buffer")

  /**
   * The headers file at the configured `spv_headers_path`. `present` says whether the file exists;
   * `data` is its content. Header hashing is the bitcoin library's and is passed in as `hashOf`.
   */
  class HeaderStore {
    const hashOf: Record -> Hash
    var present: bool
    var data: seq<byte>

    /** A missing file has no content, and the file holds whole records only. */
    ghost predicate Valid()
      reads this
    {
      (!present ==> data == []) && |data| % BLOCK_HEADER_SIZE == 0
    }

    /** The stored headers, in height order. */
    ghost function Records(): seq<Record>
      reads this
      requires Valid()
    {
      Split(data)
    }

    /** The store over an existing file holding `file`'s records, or over a missing file. */
    constructor (hashOf: Record -> Hash, file: Option<seq<Record>>)
      ensures Valid() && this.hashOf == hashOf
      ensures present == file.Some?
      ensures file.Some? ==> Records() == file.value
    {
      this.hashOf := hashOf;
      present := file.Some?;
      data := if file.Some? then Flatten(file.value) else [];
      new;
      if file.Some? {
        SplitFlatten(file.value);
      }
    }

    /** `get_headers_height`: a filesystem error when the file is missing, otherwise the height formula on its length. */
    function HeadersHeight(): (r: Result<int, Error>)
      reads this
      ensures !present ==> r == Err(FilesystemError(NotFound))
      ensures present ==> r == Ok(HeightOf(|data|))
    {
      if !present then Err(FilesystemError(NotFound)) else Ok(HeightOf(|data|))
    }

    /** `read_block_header`: the record starting at byte offset 81 * height. */
    function ReadBlockHeader(height: nat): (r: Result<Record, Error>)
      reads this
      ensures !present ==> r == Err(FilesystemError(NotFound))
      ensures r.Ok? ==> (BLOCK_HEADER_SIZE * height + BLOCK_HEADER_SIZE <= |data|
                         && r.value == data[BLOCK_HEADER_SIZE * height .. BLOCK_HEADER_SIZE * height + BLOCK_HEADER_SIZE])
      ensures present && BLOCK_HEADER_SIZE * height + BLOCK_HEADER_SIZE > |data| ==> r == Err(FilesystemError(UnexpectedEof))
    {
      if !present then Err(FilesystemError(NotFound))
      else
        var offset := BLOCK_HEADER_SIZE * height;
        if offset + BLOCK_HEADER_SIZE <= |data| then Ok(data[offset .. offset + BLOCK_HEADER_SIZE])
        else Err(FilesystemError(UnexpectedEof))
    }

    /** The hash of the last stored block, read at the current height; none for a missing or empty file. */
    function TipHash(): (r: Option<Hash>)
      reads this
      ensures !present || |data| < BLOCK_HEADER_SIZE ==> r == None
    {
      match HeadersHeight()
      case Ok(h) =>
        if h >= 0 then
          var rec := ReadBlockHeader(h);
          if rec.Ok? then Some(hashOf(rec.value)) else None
        else None
      case Err(_) => None
    }

    /** A file holding a whole record has as its tip the hash of the last whole record in it. */
    lemma TipBytes()
      requires present && |data| >= BLOCK_HEADER_SIZE
      ensures var last := (|data| / BLOCK_HEADER_SIZE - 1) * BLOCK_HEADER_SIZE;
        last + BLOCK_HEADER_SIZE <= |data| && TipHash() == Some(hashOf(data[last .. last + BLOCK_HEADER_SIZE]))
    {
    }

    /** On a well-formed file, the height is the index of the last record. */
    lemma HeightView()
      requires Valid() && present
      ensures HeadersHeight() == Ok(|Records()| - 1)
    {
      HeightOfRecords(Records());
    }

    /** On a well-formed file, reading at a height gives the record of that index, and only those exist. */
    lemma ReadView(height: nat)
      requires Valid() && present
      ensures ReadBlockHeader(height).Ok? <==> height < |Records()|
      ensures height < |Records()| ==> ReadBlockHeader(height) == Ok(Records()[height])
    {
      if height < |Records()| {
        RecordAtOffset(Records(), height);
      }
    }

    /** On a well-formed file, the tip hash is the last record's hash, and there is none when it is empty. */
    lemma TipView()
      requires Valid() && present
      ensures TipHash() == if Records() == [] then None else Some(hashOf(Records()[|Records()| - 1]))
    {
      HeightView();
      if Records() != [] {
        ReadView(|Records()| - 1);
      }
    }

    /**
     * `append_block_headers`: the batch must be contiguous and, unless the file is still empty, its
     * first header must name the tip's hash as its previous hash. No difficulty is checked. On
     * success the records are written at the end of the file in order; on failure nothing is written.
     */
    method AppendBlockHeaders(headers: seq<Record>) returns (r: Result<(), Error>)
      requires Valid()
      modifies this
      ensures Valid() && present == old(present)
      ensures !old(present) ==> r == Err(FilesystemError(NotFound))
      ensures old(present) && !Contiguous(headers, hashOf) ==> r == Err(InvalidReply)
      ensures old(present) && !ChainsTo(old(Records()), headers, hashOf) ==> r == Err(InvalidReply)
      ensures r.Ok? <==> old(present) && Contiguous(headers, hashOf) && ChainsTo(old(Records()), headers, hashOf)
      ensures r.Err? ==> data == old(data)
      ensures r.Ok? ==> data == old(data) + Flatten(headers) && Records() == old(Records()) + headers
      ensures r.Ok? && Contiguous(old(Records()), hashOf) ==> Contiguous(Records(), hashOf)
    {
      var height := HeadersHeight();
      if height.Err? {
        return Err(height.error);
      }
      TipView();
      var ok := CheckContiguous(headers, hashOf);
      if !ok {
        return Err(InvalidReply);
      }
      var tip := TipHash();
      if tip.Some? && headers != [] && PrevHash(headers[0]) != tip.value {
        return Err(InvalidReply);
      }
      ghost var before := data;
      WriteRecords(headers);
      AppendFacts(before, headers, hashOf);
      r := Ok(());
    }

    /** The write of `append_block_headers`: each record in turn at the end of the file. */
    method WriteRecords(headers: seq<Record>)
      requires Valid() && present
      modifies this`data
      ensures data == old(data) + Flatten(headers)
      ensures Valid()
    {
      var i := 0;
      while i < |headers|
        invariant 0 <= i <= |headers|
        invariant data == old(data) + Flatten(headers[..i])
      {
        assert headers[..i + 1][..i] == headers[..i];
        data := data + headers[i];
        i := i + 1;
      }
      assert headers[..i] == headers;
      WholeRecords(|old(data)|, |headers|);
    }
  }

  /**
   * A first batch of three chained headers appended to an existing empty file: it is accepted,
   * the height becomes 2 and the tip is the third header's hash. Only the store's contracts are used.
   */
  method AppendThreeToEmpty(hashOf: Record -> Hash, a: Record, b: Record, c: Record)
    returns (appended: Result<(), Error>, height: Result<int, Error>, tip: Option<Hash>)
    requires PrevHash(b) == hashOf(a) && PrevHash(c) == hashOf(b)
    ensures appended.Ok?
    ensures height == Ok(2) && tip == Some(hashOf(c))
  {
    var store := new HeaderStore(hashOf, Some([]));
    assert Contiguous([a, b, c], hashOf) by {
      forall i | 0 < i < 3 ensures PrevHash([a, b, c][i]) == hashOf([a, b, c][i - 1]) {
        if i == 1 { assert [a, b, c][i] == b; } else { assert [a, b, c][i] == c; }
      }
    }
    appended := store.AppendBlockHeaders([a, b, c]);
    store.HeightView();
    store.TipView();
    height := store.HeadersHeight();
    tip := store.TipHash();
  }

  /**
   * The height formula as the commented-out sketch types it: `u64` arithmetic, where the final
   * subtraction wraps (in a release build) when the file holds no whole record.
   */
  function HeightAsWrittenU64(fileSize: nat): (h: nat)
    requires fileSize < 0x1_0000_0000_0000_0000
    ensures fileSize >= BLOCK_HEADER_SIZE ==> h == HeightOf(fileSize)
    ensures fileSize < BLOCK_HEADER_SIZE ==> h == 0xFFFF_FFFF_FFFF_FFFF
  {
    (fileSize / BLOCK_HEADER_SIZE - 1) % 0x1_0000_0000_0000_0000
  }

  /** For an existing empty file the documented result is -1, but the u64 formula yields 2^64 - 1. */
  lemma HeightAsWrittenEmptyFile()
    ensures HeightAsWrittenU64(0) == 0xFFFF_FFFF_FFFF_FFFF
    ensures HeightOf(0) == -1
  {
  }
}
