/**
 * The file-backed key/value store: one directory per storage type and identifier, one file per key.
 * The directory's files are the `files` map; the file system itself is not modelled.
 */
module Storage {
  import opened Wrappers
  import opened PyStr

  /** The storage types `get_storage` accepts for the file storage class. */
  const StorageTypes: seq<string> := ["chat_history", "web_cache", "subtitle_cache", "video_summary", "browser_state"]

  /** `os.path.join(a, b)` on POSIX: an absolute `b` replaces `a`; otherwise one `/` separates them. */
  function PathJoin(a: string, b: string): (r: string)
    ensures StartsWith(b, "/") ==> r == b
    ensures !StartsWith(b, "/") ==> EndsWith(r, b) && StartsWith(r, a)
  {
    if StartsWith(b, "/") then b
    else if a == "" || EndsWith(a, "/") then a + b
    else a + "/" + b
  }

  /** The directory of a store: `base/identifier` when the identifier is a non-empty string, else `base`. */
  function StoragePath(base: string, identifier: Option<string>): (p: string)
    ensures identifier.Some? && identifier.value != "" ==> p == PathJoin(base, identifier.value)
    ensures identifier.None? || identifier.value == "" ==> p == base
  {
    if identifier.Some? && identifier.value != "" then PathJoin(base, identifier.value) else base
  }

  /** Two stores under the same base with different relative identifiers live in different directories. */
  lemma StoragePathInjective(base: string, id1: string, id2: string)
    requires id1 != "" && id2 != "" && !StartsWith(id1, "/") && !StartsWith(id2, "/")
    requires StoragePath(base, Some(id1)) == StoragePath(base, Some(id2))
    ensures id1 == id2
  {
    var pre := if base == "" || EndsWith(base, "/") then base else base + "/";
    assert StoragePath(base, Some(id1)) == pre + id1;
    assert StoragePath(base, Some(id2)) == pre + id2;
    assert id1 == (pre + id1)[|pre|..];
    assert id2 == (pre + id2)[|pre|..];
  }

  /**
   * Where `get_storage` puts a store, or the error it raises: only the `file` class exists
   * (ValueError otherwise) and only the five storage types are accepted (AssertionError otherwise).
   */
  function StorageLocation(storageType: string, identifier: Option<string>, storageClass: string, baseDir: string): (r: Result<string>)
    ensures r.Ok? <==> storageClass == "file" && storageType in StorageTypes
    ensures storageClass != "file" ==> r == Err(ValueError)
    ensures storageClass == "file" && storageType !in StorageTypes ==> r == Err(AssertionError)
    ensures r.Ok? ==> r.value == StoragePath(PathJoin(baseDir, storageType), identifier)
  {
    if storageClass != "file" then Err(ValueError)
    else if storageType !in StorageTypes then Err(AssertionError)
    else Ok(StoragePath(PathJoin(baseDir, storageType), identifier))
  }

  /** `ContentStorage_File`: the files of one directory, keyed by file name. */
  class ContentStorageFile {
    const identifier: Option<string>
    const storagePath: string
    var files: map<string, string>

    /** Opens (or creates) the directory; `existing` is what it already holds. */
    constructor (storageBase: string, identifier: Option<string>, existing: map<string, string>)
      ensures this.identifier == identifier
      ensures storagePath == StoragePath(storageBase, identifier)
      ensures files == existing
    {
      this.identifier := identifier;
      storagePath := StoragePath(storageBase, identifier);
      files := existing;
    }

    /** The file's contents, or None when there is no such file. */
    method Load(key: string) returns (r: Option<string>)
      ensures r.Some? <==> key in files
      ensures r.Some? ==> r.value == files[key]
    {
      if key in files {
        r := Some(files[key]);
      } else {
        r := None;
      }
    }

    /** Writes (or overwrites) one file. */
    method Save(key: string, value: string)
      modifies this
      ensures files == old(files)[key := value]
    {
      files := files[key := value];
    }

    method Has(key: string) returns (r: bool)
      ensures r <==> key in files
    {
      r := key in files;
    }

    /** Every file name once, in the (unspecified) order of the directory listing. */
    method List() returns (keys: seq<string>)
      ensures forall k :: k in keys <==> k in files
      ensures forall i, j :: 0 <= i < j < |keys| ==> keys[i] != keys[j]
    {
      keys := [];
      var rest := files.Keys;
      while rest != {}
        invariant rest <= files.Keys
        invariant forall k :: k in keys <==> k in files && k !in rest
        invariant forall i, j :: 0 <= i < j < |keys| ==> keys[i] != keys[j]
        decreases |rest|
      {
        var k :| k in rest;
        keys := keys + [k];
        rest := rest - {k};
      }
    }
  }

  /** `get_storage`: a store for the given type and identifier under the configured base directory. */
  method GetStorage(storageType: string, identifier: Option<string>, storageClass: string, baseDir: string, existing: map<string, string>)
    returns (r: Result<ContentStorageFile>)
    ensures r.Ok? <==> StorageLocation(storageType, identifier, storageClass, baseDir).Ok?
    ensures r.Err? ==> r.error == StorageLocation(storageType, identifier, storageClass, baseDir).error
    ensures r.Ok? ==> fresh(r.value) && r.value.storagePath == StorageLocation(storageType, identifier, storageClass, baseDir).value
    ensures r.Ok? ==> r.value.files == existing && r.value.identifier == identifier
  {
    if storageClass != "file" {
      return Err(ValueError);
    }
    if storageType !in StorageTypes {
      return Err(AssertionError);
    }
    var s := new ContentStorageFile(PathJoin(baseDir, storageType), identifier, existing);
    r := Ok(s);
  }
}
