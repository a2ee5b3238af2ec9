/** The path -> digest memo both scanners keep in a dictionary
    (`_file_hashes` in scanner_core.py:113-126, `file_hashes` in
    scan_engine.py:46-58): a hit answers from the dictionary without
    opening the file; a miss reads the file in 4096-byte chunks, feeds
    them to MD5 and stores the hex digest under `str(file_path)`. */
module HashCache {
  import opened Common
  import opened Host

  /** `f.read(4096)` */
  const ChunkSize: nat := 4096

  /** The digest returned (None where opening the file raised) and the
      dictionary afterwards. */
  datatype Memo = Memo(digest: Option<string>, cache: map<string, string>)

  /** `get_file_hash(f)` against dictionary `cache`. */
  function Lookup(cache: map<string, string>, f: FileRecord, md5: seq<bv8> -> string): (m: Memo)
    ensures m.digest.None? <==> f.path !in cache && f.bytes.None?
    ensures m.digest.Some? ==> f.path in m.cache && m.cache[f.path] == m.digest.value
    ensures f.path in cache ==> m.digest == Some(cache[f.path])
    ensures f.path !in cache && f.bytes.Some? ==> m.digest == Some(md5(f.bytes.value))
    ensures m.cache.Keys == cache.Keys + (if m.digest.Some? then {f.path} else {})
    ensures forall p :: p in cache ==> m.cache[p] == cache[p]
  {
    if f.path in cache then Memo(Some(cache[f.path]), cache)
    else if f.bytes.None? then Memo(None, cache)
    else
      var d := md5(f.bytes.value);
      Memo(Some(d), cache[f.path := d])
  }

  /** Asking twice gives the same digest and leaves the dictionary as the first call left it. */
  lemma LookupIdempotent(cache: map<string, string>, f: FileRecord, md5: seq<bv8> -> string)
    requires Lookup(cache, f, md5).digest.Some?
    ensures var m := Lookup(cache, f, md5); Lookup(m.cache, f, md5) == m
  {
  }

  /** A hit does not look at the file: any file with that path gets the stored digest. */
  lemma LookupHitIgnoresFile(cache: map<string, string>, f: FileRecord, g: FileRecord, md5: seq<bv8> -> string)
    requires f.path == g.path && f.path in cache
    ensures Lookup(cache, f, md5) == Lookup(cache, g, md5)
  {
  }

  /** The stored digest of `f`'s path, if any, is the digest of `f`'s bytes. */
  predicate Agrees(cache: map<string, string>, f: FileRecord, md5: seq<bv8> -> string) {
    f.path in cache ==> f.bytes.Some? && cache[f.path] == md5(f.bytes.value)
  }

  predicate AgreesAll(cache: map<string, string>, files: seq<FileRecord>, md5: seq<bv8> -> string) {
    forall k :: 0 <= k < |files| ==> Agrees(cache, files[k], md5)
  }

  /** Two entries with the same path are the same file. */
  predicate SamePathSameFile(files: seq<FileRecord>) {
    forall i, j :: 0 <= i < |files| && 0 <= j < |files| && files[i].path == files[j].path ==> files[i] == files[j]
  }

  /** While the files do not change, the memo returns what reading them would. */
  lemma LookupFresh(cache: map<string, string>, f: FileRecord, md5: seq<bv8> -> string)
    requires Agrees(cache, f, md5)
    ensures Lookup(cache, f, md5).digest == (if f.bytes.Some? then Some(md5(f.bytes.value)) else None)
    ensures Agrees(Lookup(cache, f, md5).cache, f, md5)
  {
  }

  /** Filling the memo from files that do not change keeps it truthful about all of them. */
  lemma LookupKeepsAgreement(cache: map<string, string>, files: seq<FileRecord>, f: FileRecord, md5: seq<bv8> -> string)
    requires AgreesAll(cache, files, md5) && SamePathSameFile(files) && f in files
    ensures AgreesAll(Lookup(cache, f, md5).cache, files, md5)
  {
    var m := Lookup(cache, f, md5);
    forall k | 0 <= k < |files| ensures Agrees(m.cache, files[k], md5) {
      var g := files[k];
      if g.path == f.path {
        var i :| 0 <= i < |files| && files[i] == f;
        assert g == f;
      }
    }
  }

  /** The chunked read of `get_file_hash`: the bytes handed to
      `hash_md5.update` one chunk at a time are the whole file, so the
      digest is the digest of the file. */
  method DigestInChunks(data: seq<bv8>, md5: seq<bv8> -> string) returns (digest: string)
    ensures digest == md5(data)
  {
    var fed: seq<bv8> := [];
    var pos := 0;
    while pos < |data|
      invariant pos <= |data| && fed == data[..pos]
      decreases |data| - pos
    {
      var chunk := data[pos..Min(pos + ChunkSize, |data|)];
      fed := fed + chunk;
      pos := pos + |chunk|;
    }
    assert data[..pos] == data;
    digest := md5(fed);
  }
}
