/**
 * The first, single-item version of the retrieval engine (`web/online_content.py`): `retrieve`
 * fetches, re-parses or serves one input from the `web_cache` directory of the retriever, and a
 * registry keeps retriever instances by name.
 */
module LegacyOnlineContent {
  import opened Wrappers
  import opened PyStr
  import OnlineContent
  import Storage

  type Meta = OnlineContent.Meta

  /** What `fetch(url_or_id)` returns: the URL, the site id, the metadata (None is JSON null) and the raw document. */
  datatype Fetched = Fetched(url: string, id: string, metadata: Option<Meta>, raw: string)

  /** The abstract members of a retriever of this version; `parse` sees only the raw document. */
  datatype Site = Site(
    url2id: string -> Result<string>,
    id2url: string -> Result<string>,
    fetch: string -> Result<Fetched>,
    parse: string -> Result<Option<string>>)

  /** `parse_url_id`: input starting with `http` is a URL, anything else an id. */
  function ParseUrlId(url2id: string -> Result<string>, id2url: string -> Result<string>, input: string): (r: Result<(string, string)>)
    ensures StartsWith(input, "http") ==>
      (r.Ok? <==> url2id(input).Ok?) && (r.Ok? ==> r.value == (input, url2id(input).value))
      && (r.Err? ==> r.error == url2id(input).error)
    ensures !StartsWith(input, "http") ==>
      (r.Ok? <==> id2url(input).Ok?) && (r.Ok? ==> r.value == (id2url(input).value, input))
      && (r.Err? ==> r.error == id2url(input).error)
  {
    if StartsWith(input, "http") then
      match url2id(input)
      case Ok(id) => Ok((input, id))
      case Err(e) => Err(e)
    else
      match id2url(input)
      case Ok(url) => Ok((url, input))
      case Err(e) => Err(e)
  }

  /** The metadata `save` writes: `url` added when the URL is a non-empty string and the key is absent. */
  function SaveMeta(url: string, metadata: Meta): (m: Meta)
    ensures url != "" && "url" !in metadata ==> m == metadata["url" := Some(url)]
    ensures url == "" || "url" in metadata ==> m == metadata
  {
    if url != "" && "url" !in metadata then metadata["url" := Some(url)] else metadata
  }

  /** `save`: the metadata file (with `url` added), the raw file and the parsed file, each only when given. */
  function SaveSpec(codec: OnlineContent.MetaCodec, store: map<string, string>, url: string, id: string,
                    metadata: Option<Meta>, raw: Option<string>, parsed: Option<string>): (r: map<string, string>)
    ensures forall k :: k != OnlineContent.MetaKey(id) && k != OnlineContent.RawKey(id) && k != OnlineContent.ParsedKey(id) ==>
      (k in r <==> k in store) && (k in r ==> r[k] == store[k])
    ensures metadata.Some? ==> OnlineContent.MetaKey(id) in r && r[OnlineContent.MetaKey(id)] == codec.dumps(SaveMeta(url, metadata.value))
    ensures raw.Some? ==> OnlineContent.RawKey(id) in r && r[OnlineContent.RawKey(id)] == raw.value
    ensures parsed.Some? ==> OnlineContent.ParsedKey(id) in r && r[OnlineContent.ParsedKey(id)] == parsed.value
    ensures metadata.None? ==>
              (OnlineContent.MetaKey(id) in r <==> OnlineContent.MetaKey(id) in store)
              && (OnlineContent.MetaKey(id) in store ==> r[OnlineContent.MetaKey(id)] == store[OnlineContent.MetaKey(id)])
    ensures raw.None? ==>
              (OnlineContent.RawKey(id) in r <==> OnlineContent.RawKey(id) in store)
              && (OnlineContent.RawKey(id) in store ==> r[OnlineContent.RawKey(id)] == store[OnlineContent.RawKey(id)])
  {
    var meta := if metadata.Some? then Some(SaveMeta(url, metadata.value)) else None;
    OnlineContent.SaveSlots(codec, store, id, meta, raw, parsed)
  }

  /** The stored file for a key, or None. */
  function LoadSpec(store: map<string, string>, key: string): Option<string> {
    if key in store then Some(store[key]) else None
  }

  /**
   * `retrieve`: with `force_fetch` or no raw file, fetch, parse, save everything (with
   * `update_cache`) and return the parse; with `force_parse`, parse the cached raw file again and
   * save only the parse; otherwise return the cached parse (None when there is none).
   */
  function RetrieveSpec(cfg: OnlineContent.Config, site: Site, codec: OnlineContent.MetaCodec, store: map<string, string>, input: string)
    : (map<string, string>, Result<Option<string>>)
  {
    match ParseUrlId(site.url2id, site.id2url, input)
    case Err(e) => (store, Err(e))
    case Ok((url, id)) =>
      if cfg.forceFetch || OnlineContent.RawKey(id) !in store then
        match site.fetch(input)
        case Err(e) => (store, Err(e))
        case Ok(f) =>
          match site.parse(f.raw)
          case Err(e) => (store, Err(e))
          case Ok(parsed) =>
            (if cfg.updateCache then SaveSpec(codec, store, f.url, f.id, f.metadata, Some(f.raw), parsed) else store, Ok(parsed))
      else if cfg.forceParse then
        match OnlineContent.LoadRawSpec(codec, store, id)
        case Err(e) => (store, Err(e))
        case Ok((_, raw)) =>
          match site.parse(raw.value)
          case Err(e) => (store, Err(e))
          case Ok(parsed) =>
            (if cfg.updateCache then SaveSpec(codec, store, url, id, None, None, parsed) else store, Ok(parsed))
      else (store, Ok(LoadSpec(store, OnlineContent.ParsedKey(id))))
  }

  /** With `force_fetch` or no cached raw file, the result is the parse of the fetched document, and everything is saved. */
  lemma RetrieveFetches(cfg: OnlineContent.Config, site: Site, codec: OnlineContent.MetaCodec, store: map<string, string>, input: string)
    requires ParseUrlId(site.url2id, site.id2url, input).Ok?
    requires var id := ParseUrlId(site.url2id, site.id2url, input).value.1;
      cfg.forceFetch || OnlineContent.RawKey(id) !in store
    requires site.fetch(input).Ok? && site.parse(site.fetch(input).value.raw).Ok?
    ensures var f := site.fetch(input).value;
      var parsed := site.parse(f.raw).value;
      var (store', r) := RetrieveSpec(cfg, site, codec, store, input);
      r == Ok(parsed)
      && (cfg.updateCache ==>
            OnlineContent.RawKey(f.id) in store' && store'[OnlineContent.RawKey(f.id)] == f.raw
            && (parsed.Some? ==> OnlineContent.ParsedKey(f.id) in store' && store'[OnlineContent.ParsedKey(f.id)] == parsed.value)
            && (f.metadata.Some? ==>
                  OnlineContent.MetaKey(f.id) in store'
                  && store'[OnlineContent.MetaKey(f.id)] == codec.dumps(SaveMeta(f.url, f.metadata.value))))
      && (!cfg.updateCache ==> store' == store)
  {
  }

  /** Re-parsing a cached raw file writes at most the parsed file, and only with `update_cache`. */
  lemma RetrieveReparses(cfg: OnlineContent.Config, site: Site, codec: OnlineContent.MetaCodec, store: map<string, string>, input: string)
    requires ParseUrlId(site.url2id, site.id2url, input).Ok?
    requires var id := ParseUrlId(site.url2id, site.id2url, input).value.1;
      !cfg.forceFetch && cfg.forceParse && OnlineContent.RawKey(id) in store
    ensures var id := ParseUrlId(site.url2id, site.id2url, input).value.1;
      var (store', r) := RetrieveSpec(cfg, site, codec, store, input);
      (forall k :: k != OnlineContent.ParsedKey(id) ==> (k in store' <==> k in store) && (k in store' ==> store'[k] == store[k]))
      && (!cfg.updateCache ==> store' == store)
      && (r.Ok? ==> r.value == site.parse(store[OnlineContent.RawKey(id)]).value)
  {
  }

  /** With the raw file cached and neither flag, the cached parse is returned and nothing is written. */
  lemma RetrieveCached(cfg: OnlineContent.Config, site: Site, codec: OnlineContent.MetaCodec, store: map<string, string>, input: string)
    requires ParseUrlId(site.url2id, site.id2url, input).Ok?
    requires var id := ParseUrlId(site.url2id, site.id2url, input).value.1;
      !cfg.forceFetch && !cfg.forceParse && OnlineContent.RawKey(id) in store
    ensures var id := ParseUrlId(site.url2id, site.id2url, input).value.1;
      RetrieveSpec(cfg, site, codec, store, input) == (store, Ok(LoadSpec(store, OnlineContent.ParsedKey(id))))
  {
  }

  /** `ContentStorage_File` of this version: the files of one directory. */
  class FileStore {
    const storagePath: string
    var files: map<string, string>

    constructor (storagePath: string, existing: map<string, string>)
      ensures this.storagePath == storagePath && files == existing
    {
      this.storagePath := storagePath;
      files := existing;
    }

    method Load(key: string) returns (r: Option<string>)
      ensures r == LoadSpec(files, key)
    {
      if key in files {
        r := Some(files[key]);
      } else {
        r := None;
      }
    }

    method Save(key: string, value: string)
      modifies this
      ensures files == old(files)[key := value]
    {
      files := files[key := value];
    }

    method Has(key: string) returns (r: bool)
      ensures r <==> key in files
    {
      r := key in files;
    }

    /** The ids that have a parsed file: every `.parsed` file name without its suffix, once each. */
    method List() returns (ids: seq<string>)
      ensures forall id :: id in ids <==> OnlineContent.ParsedKey(id) in files
      ensures forall i, j :: 0 <= i < j < |ids| ==> ids[i] != ids[j]
    {
      ids := [];
      var rest := files.Keys;
      while rest != {}
        invariant rest <= files.Keys
        invariant forall id :: id in ids <==> OnlineContent.ParsedKey(id) in files && OnlineContent.ParsedKey(id) !in rest
        invariant forall i, j :: 0 <= i < j < |ids| ==> ids[i] != ids[j]
        decreases |rest|
      {
        var f :| f in rest;
        if EndsWith(f, ".parsed") {
          var id := f[..|f| - |".parsed"|];
          assert OnlineContent.ParsedKey(id) == f;
          ParsedKeyInjective(id);
          ids := ids + [id];
        } else {
          NotParsedKey(f);
        }
        rest := rest - {f};
      }
    }
  }

  /** Only one id has a given parsed file name. */
  lemma ParsedKeyInjective(id: string)
    ensures forall other :: OnlineContent.ParsedKey(other) == OnlineContent.ParsedKey(id) ==> other == id
  {
    forall other | OnlineContent.ParsedKey(other) == OnlineContent.ParsedKey(id)
      ensures other == id
    {
      assert other == OnlineContent.ParsedKey(other)[..|other|];
      assert id == OnlineContent.ParsedKey(id)[..|id|];
    }
  }

  /** A file name without the `.parsed` suffix is nobody's parsed file. */
  lemma NotParsedKey(f: string)
    requires !EndsWith(f, ".parsed")
    ensures forall id :: OnlineContent.ParsedKey(id) != f
  {
    forall id
      ensures OnlineContent.ParsedKey(id) != f
    {
      var p := OnlineContent.ParsedKey(id);
      assert p[|p| - |".parsed"|..] == ".parsed";
    }
  }

  /** A retriever of this version, over the store `web_cache/<name>`. */
  class LegacyOnlineContent {
    const name: string
    const site: Site
    const codec: OnlineContent.MetaCodec
    const storage: FileStore

    constructor (name: string, site: Site, codec: OnlineContent.MetaCodec, existing: map<string, string>)
      ensures this.name == name && this.site == site && this.codec == codec
      ensures fresh(storage) && storage.storagePath == Storage.PathJoin("web_cache", name) && storage.files == existing
    {
      this.name := name;
      this.site := site;
      this.codec := codec;
      storage := new FileStore(Storage.PathJoin("web_cache", name), existing);
    }

    /** `save`: writes only the slots that are given. */
    method Save(url: string, id: string, metadata: Option<Meta>, raw: Option<string>, parsed: Option<string>)
      modifies storage
      ensures storage.files == SaveSpec(codec, old(storage.files), url, id, metadata, raw, parsed)
    {
      if metadata.Some? {
        var m := SaveMeta(url, metadata.value);
        storage.Save(OnlineContent.MetaKey(id), codec.dumps(m));
      }
      if raw.Some? {
        storage.Save(OnlineContent.RawKey(id), raw.value);
      }
      if parsed.Some? {
        storage.Save(OnlineContent.ParsedKey(id), parsed.value);
      }
    }

    /** `load_raw`: the URL and id of the input, its decoded metadata and its raw file. */
    method LoadRaw(input: string) returns (r: Result<(string, string, Meta, Option<string>)>)
      ensures var ids := ParseUrlId(site.url2id, site.id2url, input);
        ids.Err? ==> r == Err(ids.error)
      ensures var ids := ParseUrlId(site.url2id, site.id2url, input);
        ids.Ok? ==> match OnlineContent.LoadRawSpec(codec, storage.files, ids.value.1)
          case Err(e) => r == Err(e)
          case Ok((m, raw)) => r == Ok((ids.value.0, ids.value.1, m, raw))
    {
      var ids := ParseUrlId(site.url2id, site.id2url, input);
      if ids.Err? {
        return Err(ids.error);
      }
      var (url, id) := ids.value;
      var raw := storage.Load(OnlineContent.RawKey(id));
      var metaText := storage.Load(OnlineContent.MetaKey(id));
      if metaText.None? {
        return Err(TypeError);
      }
      var m := codec.loads(metaText.value);
      if m.Err? {
        return Err(m.error);
      }
      r := Ok((url, id, m.value, raw));
    }

    /** `load_parsed`: the parsed file of the input's id, or None. */
    method LoadParsed(input: string) returns (r: Result<Option<string>>)
      ensures var ids := ParseUrlId(site.url2id, site.id2url, input);
        r == if ids.Err? then Err(ids.error) else Ok(LoadSpec(storage.files, OnlineContent.ParsedKey(ids.value.1)))
    {
      var ids := ParseUrlId(site.url2id, site.id2url, input);
      if ids.Err? {
        return Err(ids.error);
      }
      var parsed := storage.Load(OnlineContent.ParsedKey(ids.value.1));
      r := Ok(parsed);
    }

    method Retrieve(cfg: OnlineContent.Config, input: string) returns (r: Result<Option<string>>)
      modifies storage
      ensures (storage.files, r) == RetrieveSpec(cfg, site, codec, old(storage.files), input)
    {
      var ids := ParseUrlId(site.url2id, site.id2url, input);
      if ids.Err? {
        return Err(ids.error);
      }
      var (url, id) := ids.value;
      var hasRaw := storage.Has(OnlineContent.RawKey(id));
      if cfg.forceFetch || !hasRaw {
        var f := site.fetch(input);
        if f.Err? {
          return Err(f.error);
        }
        var parsed := site.parse(f.value.raw);
        if parsed.Err? {
          return Err(parsed.error);
        }
        if cfg.updateCache {
          Save(f.value.url, f.value.id, f.value.metadata, Some(f.value.raw), parsed.value);
        }
        return Ok(parsed.value);
      }
      if cfg.forceParse {
        var loaded := LoadRaw(input);
        if loaded.Err? {
          return Err(loaded.error);
        }
        var (url', id', _, raw) := loaded.value;
        var parsed := site.parse(raw.value);
        if parsed.Err? {
          return Err(parsed.error);
        }
        if cfg.updateCache {
          Save(url', id', None, None, parsed.value);
        }
        return Ok(parsed.value);
      }
      r := LoadParsed(input);
    }

    /** `list_cache`: the ids with a parsed file. */
    method ListCache() returns (ids: seq<string>)
      ensures forall id :: id in ids <==> OnlineContent.ParsedKey(id) in storage.files
      ensures forall i, j :: 0 <= i < j < |ids| ==> ids[i] != ids[j]
    {
      ids := storage.List();
    }
  }

  /** A registered retriever: its name and whether it is an `OnlineContent` instance. */
  datatype Retriever = Retriever(name: string, isOnlineContent: bool)

  /** `all_online_retrievers`: retriever instances by name; `names` is the insertion order. */
  class Registry {
    var retrievers: map<string, Retriever>
    var names: seq<string>

    ghost predicate Valid()
      reads this
    {
      (forall n :: n in retrievers <==> n in names)
      && (forall i, j :: 0 <= i < j < |names| ==> names[i] != names[j])
    }

    constructor ()
      ensures Valid() && retrievers == map[] && names == []
    {
      retrievers := map[];
      names := [];
    }

    /** `add_online_retriever`: an OnlineContent instance under a new name (AssertionError otherwise). */
    method Add(retriever: Retriever) returns (r: Result<()>)
      requires Valid()
      modifies this
      ensures Valid()
      ensures r.Ok? <==> retriever.isOnlineContent && retriever.name !in old(retrievers)
      ensures r.Err? ==> r.error == AssertionError && retrievers == old(retrievers) && names == old(names)
      ensures r.Ok? ==> retrievers == old(retrievers)[retriever.name := retriever] && names == old(names) + [retriever.name]
    {
      if !retriever.isOnlineContent || retriever.name in retrievers {
        return Err(AssertionError);
      }
      retrievers := retrievers[retriever.name := retriever];
      names := names + [retriever.name];
      r := Ok(());
    }

    /** `get_online_retriever`: a plain dictionary lookup, KeyError for an unknown name. */
    method Get(name: string) returns (r: Result<Retriever>)
      ensures name !in retrievers ==> r == Err(KeyError)
      ensures name in retrievers ==> r == Ok(retrievers[name])
    {
      if name !in retrievers {
        return Err(KeyError);
      }
      r := Ok(retrievers[name]);
    }

    /** `list_online_retrievers`: the names, in registration order. */
    method List() returns (r: seq<string>)
      requires Valid()
      ensures r == names
      ensures forall n :: n in r <==> n in retrievers
    {
      r := names;
    }
  }
}
