/**
 The `CacheBuster` extension: configuration defaults, the per-file
 eligibility test, the bust map built from the static folder at `init_app`,
 the lookup `bust_filename` and the `url_defaults` hook that adds `q` to
 URLs for the static endpoint.

 The directory walk is the sequence `App.walk` of (relative path, content)
 records, and MD5 is the parameter `md5`, a deterministic function from
 bytes to a 32-character lowercase hex digest.
 */
module FlaskCacheBuster {
  import opened Python
  import opened PurePath

  /** Default number of digest characters kept in a version. */
  const HASH_SIZE: int := 5
  const STATIC_ENDPOINT: string := "static"
  const QUERY_KEY: string := "q"
  const FILENAME_KEY: string := "filename"
  const EXTENSIONS_KEY: string := "extensions"
  const HASH_SIZE_KEY: string := "hash_size"
  const CONFIG_TYPE_MESSAGE: string := "`config` must be an instance of dict or None"

  type Bytes = seq<bv8>

  predicate IsHexDigit(c: char) {
    '0' <= c <= '9' || 'a' <= c <= 'f'
  }

  /** What `hashlib.md5(...).hexdigest()` returns. */
  type HexDigest = s: string | |s| == 32 && forall i | 0 <= i < |s| :: IsHexDigit(s[i])
    witness "00000000000000000000000000000000"

  /** A file name as `os.walk` yields it is never empty, so neither is a
      path relative to the static folder. */
  type RelPath = p: string | p != "" witness "a"

  /** The `config` argument: absent (`None`), a dictionary, or a value of
      any other type. */
  datatype ConfigArg = NoConfig | DictConfig(entries: map<string, PyValue>) | NotADict

  /** The state a constructed `CacheBuster` keeps (its `app` is always
      `None`: see `Construct`). */
  datatype CacheBuster = CacheBuster(config: ConfigArg, extensions: PyValue, hashSize: PyValue)

  /** A regular file under the static folder: its path relative to the
      folder and its bytes. */
  datatype StaticFile = StaticFile(path: RelPath, content: Bytes)

  /** The parts of a Flask application the extension reads: its
      `static_folder` (which may be `None`) and the files `os.walk` finds
      there, in walk order (none when the folder does not exist). */
  datatype App = App(staticFolder: Option<string>, walk: seq<StaticFile>)

  /** Relative path of a static file to its version string. */
  type BustMap = map<string, string>

  /** A successful construction with an application: the extension and
      the bust map registered for that application. */
  datatype Registration = Registration(buster: CacheBuster, bustMap: Option<BustMap>)

  predicate ValidConfig(config: ConfigArg) {
    !config.NotADict?
  }

  /** Truthiness of the `config` argument: only a non-empty dict is true. */
  predicate ConfigTruthy(config: ConfigArg) {
    config.DictConfig? && |config.entries| > 0
  }

  /** `config.get(key)`: the stored value, or `None` for a missing key. */
  function ConfigGet(config: ConfigArg, key: string): PyValue
    requires config.DictConfig?
  {
    if key in config.entries then config.entries[key] else PyNone
  }

  /** The constructor `CacheBuster(app, config)` as written: a config that
      is neither `None` nor a dict raises `ValueError` before any state is
      set; an empty or absent config gives no extensions and `HASH_SIZE`;
      a non-empty one supplies both through `get`, `None` when missing.
      With an application it calls `register_cache_buster`, a method the
      class does not define, so it raises `AttributeError`. */
  function Construct(app: Option<App>, config: ConfigArg): (r: Result<CacheBuster>)
    ensures config.NotADict? ==> r == Failure(ValueError(CONFIG_TYPE_MESSAGE))
    ensures r.Success? <==> ValidConfig(config) && app.None?
    ensures ValidConfig(config) && app.Some? ==> r.Failure? && r.error.AttributeError?
    ensures r.Success? ==> r.value.config == config
    ensures r.Success? && !ConfigTruthy(config) ==>
              r.value.extensions == PyList([]) && r.value.hashSize == PyInt(HASH_SIZE)
    ensures r.Success? && ConfigTruthy(config) ==>
              (EXTENSIONS_KEY in config.entries ==> r.value.extensions == config.entries[EXTENSIONS_KEY])
              && (EXTENSIONS_KEY !in config.entries ==> r.value.extensions == PyNone)
              && (HASH_SIZE_KEY in config.entries ==> r.value.hashSize == config.entries[HASH_SIZE_KEY])
              && (HASH_SIZE_KEY !in config.entries ==> r.value.hashSize == PyNone)
  {
    if !ValidConfig(config) then
      Failure(ValueError(CONFIG_TYPE_MESSAGE))
    else
      var extensions := if ConfigTruthy(config) then ConfigGet(config, EXTENSIONS_KEY) else PyList([]);
      var hashSize := if ConfigTruthy(config) then ConfigGet(config, HASH_SIZE_KEY) else PyInt(HASH_SIZE);
      if app.Some? then
        Failure(AttributeError("'CacheBuster' object has no attribute 'register_cache_buster'"))
      else
        Success(CacheBuster(config, extensions, hashSize))
  }

  /** `extensions` can be tested with `in`: it is falsy, a list or a str. */
  predicate ExtensionsUsable(extensions: PyValue) {
    !Truthy(extensions) || extensions.PyList? || extensions.PyStr?
  }

  /** `hash_size` can bound a slice: it is `None` or an int. */
  predicate HashSizeUsable(hashSize: PyValue) {
    hashSize.PyNone? || hashSize.PyInt?
  }

  /** The eligibility rule for a file: every file when `extensions` is
      empty or unset; otherwise the files whose suffix is one of the
      extensions (a substring of them when `extensions` is a str). */
  ghost predicate ShouldBust(extensions: PyValue, path: string) {
    match extensions
    case PyNone => true
    case PyInt(i) => i == 0
    case PyList(xs) => xs == [] || Suffix(path) in xs
    case PyStr(s) => s == "" || exists i :: OccursAt(Suffix(path), s, i)
  }

  /** The private `__is_file_to_be_busted`: an empty path is never busted
      once extensions are set; a set `extensions` that is not a container
      makes the `in` test raise `TypeError`. */
  function IsFileToBeBusted(cb: CacheBuster, filepath: string): (r: Result<bool>)
    ensures !Truthy(cb.extensions) ==> r == Success(true)
    ensures Truthy(cb.extensions) && filepath == "" ==> r == Success(false)
    ensures filepath != "" ==>
              (r.Success? <==> ExtensionsUsable(cb.extensions))
              && (r.Success? ==> r.value == ShouldBust(cb.extensions, filepath))
    ensures filepath != "" && !ExtensionsUsable(cb.extensions) ==> r.Failure? && r.error.TypeError?
  {
    if !Truthy(cb.extensions) then Success(true)
    else if filepath == "" then Success(false)
    else Contains(cb.extensions, Suffix(filepath))
  }

  /** One iteration of the loop over the walk: test the rooted path and,
      when it is eligible, store the truncated digest of the content under
      the relative path. */
  function BustStep(cb: CacheBuster, root: string, m: BustMap, f: StaticFile,
                    md5: Bytes -> HexDigest): Result<BustMap>
  {
    var busted :- IsFileToBeBusted(cb, Join(root, f.path));
    if !busted then
      Success(m)
    else
      var version :- SliceTo(md5(f.content), cb.hashSize);
      Success(m[f.path := version])
  }

  /** The walk gets through the loop without an exception: it is empty, or
      the extensions can be tested and, when some file is eligible, the
      hash size can slice the digest. */
  ghost predicate WalkSucceeds(cb: CacheBuster, files: seq<StaticFile>) {
    files == []
    || (ExtensionsUsable(cb.extensions)
        && (HashSizeUsable(cb.hashSize) || forall f | f in files :: !ShouldBust(cb.extensions, f.path)))
  }

  /** No two files of the walk share a relative path. */
  ghost predicate DistinctPaths(files: seq<StaticFile>) {
    forall i, j | 0 <= i < j < |files| :: files[i].path != files[j].path
  }

  /** The set of relative paths of the eligible files. */
  ghost function EligiblePaths(cb: CacheBuster, files: seq<StaticFile>): set<string> {
    set f | f in files && ShouldBust(cb.extensions, f.path) :: f.path
  }

  /** The loop of `init_app` over the files under the static folder `root`,
      in walk order; the first exception ends it. Its keys are exactly the
      eligible relative paths, and each eligible file's entry is its digest
      cut by `hash_size`. */
  function BuildBustMap(cb: CacheBuster, root: string, files: seq<StaticFile>,
                        md5: Bytes -> HexDigest): (r: Result<BustMap>)
    ensures r.Success? <==> WalkSucceeds(cb, files)
    ensures r.Failure? ==> r.error.TypeError?
    ensures r.Success? ==> r.value.Keys == EligiblePaths(cb, files)
    ensures r.Success? && DistinctPaths(files) ==>
              forall f | f in files && ShouldBust(cb.extensions, f.path) ::
                f.path in r.value && SliceTo(md5(f.content), cb.hashSize) == Success(r.value[f.path])
    decreases |files|
  {
    if files == [] then
      Success(map[])
    else
      var prefix, last := files[..|files| - 1], files[|files| - 1];
      assert files == prefix + [last];
      var m :- BuildBustMap(cb, root, prefix, md5);
      BustStepExtends(cb, root, prefix, last, m, md5);
      BustStep(cb, root, m, last, md5)
  }

  /** Eligibility is decided on the rooted path but depends only on the
      relative one. */
  lemma RootedEligibility(cb: CacheBuster, root: string, rel: RelPath)
    ensures IsFileToBeBusted(cb, Join(root, rel)).Success? <==> ExtensionsUsable(cb.extensions)
    ensures IsFileToBeBusted(cb, Join(root, rel)).Success? ==>
              IsFileToBeBusted(cb, Join(root, rel)).value == ShouldBust(cb.extensions, rel)
  {
    var rooted := Join(root, rel);
    assert ShouldBust(cb.extensions, rooted) == ShouldBust(cb.extensions, rel) by {
      NameOfJoin(root, rel);
    }
    assert rooted != "";
  }

  /** What one iteration does, stated without the rooted path. */
  lemma BustStepOutcome(cb: CacheBuster, root: string, m: BustMap, f: StaticFile,
                        md5: Bytes -> HexDigest)
    ensures BustStep(cb, root, m, f, md5).Success? <==>
              ExtensionsUsable(cb.extensions) && (HashSizeUsable(cb.hashSize) || !ShouldBust(cb.extensions, f.path))
    ensures BustStep(cb, root, m, f, md5).Success? ==>
              BustStep(cb, root, m, f, md5).value ==
                if ShouldBust(cb.extensions, f.path)
                then m[f.path := SliceTo(md5(f.content), cb.hashSize).value]
                else m
  {
    RootedEligibility(cb, root, f.path);
  }

  /** The loop invariant: if the map built from `prefix` is characterised
      by `BuildBustMap`'s contract, so is the map after one more file. */
  lemma BustStepExtends(cb: CacheBuster, root: string, prefix: seq<StaticFile>, last: StaticFile,
                        m: BustMap, md5: Bytes -> HexDigest)
    requires WalkSucceeds(cb, prefix)
    requires m.Keys == EligiblePaths(cb, prefix)
    requires DistinctPaths(prefix) ==>
               forall f | f in prefix && ShouldBust(cb.extensions, f.path) ::
                 f.path in m && SliceTo(md5(f.content), cb.hashSize) == Success(m[f.path])
    ensures var r := BustStep(cb, root, m, last, md5);
            && (r.Success? <==> WalkSucceeds(cb, prefix + [last]))
            && (r.Success? ==> r.value.Keys == EligiblePaths(cb, prefix + [last]))
            && (r.Success? && DistinctPaths(prefix + [last]) ==>
                  forall f | f in prefix + [last] && ShouldBust(cb.extensions, f.path) ::
                    f.path in r.value && SliceTo(md5(f.content), cb.hashSize) == Success(r.value[f.path]))
  {
    var files := prefix + [last];
    var r := BustStep(cb, root, m, last, md5);
    BustStepOutcome(cb, root, m, last, md5);
    WalkSucceedsAppend(cb, prefix, last);
    assert r.Success? <==> WalkSucceeds(cb, files);
    if r.Success? {
      EligiblePathsAppend(cb, prefix, last);
      assert r.value.Keys == EligiblePaths(cb, files);
      if DistinctPaths(files) {
        DistinctPathsAppend(prefix, last);
        BustStepValues(cb, root, prefix, last, m, md5);
      }
    }
  }

  lemma BustStepValues(cb: CacheBuster, root: string, prefix: seq<StaticFile>, last: StaticFile,
                       m: BustMap, md5: Bytes -> HexDigest)
    requires DistinctPaths(prefix + [last])
    requires BustStep(cb, root, m, last, md5).Success?
    requires forall f | f in prefix && ShouldBust(cb.extensions, f.path) ::
               f.path in m && SliceTo(md5(f.content), cb.hashSize) == Success(m[f.path])
    ensures var r := BustStep(cb, root, m, last, md5).value;
            forall f | f in prefix + [last] && ShouldBust(cb.extensions, f.path) ::
              f.path in r && SliceTo(md5(f.content), cb.hashSize) == Success(r[f.path])
  {
    var r := BustStep(cb, root, m, last, md5).value;
    BustStepOutcome(cb, root, m, last, md5);
    DistinctPathsAppend(prefix, last);
    forall f | f in prefix + [last] && ShouldBust(cb.extensions, f.path)
      ensures f.path in r && SliceTo(md5(f.content), cb.hashSize) == Success(r[f.path])
    {
      if f != last {
        assert f in prefix;
      }
    }
  }

  lemma WalkSucceedsAppend(cb: CacheBuster, prefix: seq<StaticFile>, last: StaticFile)
    requires WalkSucceeds(cb, prefix)
    ensures WalkSucceeds(cb, prefix + [last]) <==>
              ExtensionsUsable(cb.extensions) && (HashSizeUsable(cb.hashSize) || !ShouldBust(cb.extensions, last.path))
  {
    assert forall f :: f in prefix + [last] <==> f in prefix || f == last;
  }

  lemma EligiblePathsAppend(cb: CacheBuster, prefix: seq<StaticFile>, last: StaticFile)
    ensures EligiblePaths(cb, prefix + [last]) ==
              EligiblePaths(cb, prefix) + if ShouldBust(cb.extensions, last.path) then {last.path} else {}
  {
    assert forall f :: f in prefix + [last] <==> f in prefix || f == last;
  }

  lemma DistinctPathsAppend(prefix: seq<StaticFile>, last: StaticFile)
    requires DistinctPaths(prefix + [last])
    ensures DistinctPaths(prefix)
    ensures forall f | f in prefix :: f.path != last.path
  {
    var files := prefix + [last];
    forall i, j | 0 <= i < j < |prefix| ensures prefix[i].path != prefix[j].path {
      assert prefix[i] == files[i] && prefix[j] == files[j];
    }
    forall f | f in prefix ensures f.path != last.path {
      var i :| 0 <= i < |prefix| && prefix[i] == f;
      assert files[i] == f && files[|files| - 1] == last;
    }
  }

  /** `init_app(app, config)`: the `config` argument is validated and then
      ignored (eligibility and truncation come from the constructor's
      settings); a `None` static folder makes `os.walk` raise `TypeError`.
      The result is the bust map the registered hook closes over. */
  function InitApp(cb: CacheBuster, app: App, config: ConfigArg,
                   md5: Bytes -> HexDigest): (r: Result<BustMap>)
    ensures config.NotADict? ==> r == Failure(ValueError(CONFIG_TYPE_MESSAGE))
    ensures r.Success? <==> ValidConfig(config) && app.staticFolder.Some? && WalkSucceeds(cb, app.walk)
    ensures ValidConfig(config) && app.staticFolder.None? ==> r.Failure? && r.error.TypeError?
    ensures ValidConfig(config) && r.Failure? ==> r.error.TypeError?
    ensures r.Success? ==> r.value.Keys == EligiblePaths(cb, app.walk)
  {
    if !ValidConfig(config) then
      Failure(ValueError(CONFIG_TYPE_MESSAGE))
    else if app.staticFolder.None? then
      Failure(TypeError("expected str, bytes or os.PathLike object, not NoneType"))
    else
      BuildBustMap(cb, app.staticFolder.value, app.walk, md5)
  }

  /** The constructor as evidently intended: with an application, register
      it through `init_app` instead of calling the missing method. */
  function ConstructAndRegister(app: Option<App>, config: ConfigArg,
                                md5: Bytes -> HexDigest): (r: Result<Registration>)
    ensures config.NotADict? ==> r == Failure(ValueError(CONFIG_TYPE_MESSAGE))
    ensures app.None? ==> (r.Success? <==> ValidConfig(config))
    ensures r.Success? ==> Construct(None, config) == Success(r.value.buster)
    ensures r.Success? ==> (r.value.bustMap.Some? <==> app.Some?)
    ensures app.Some? ==>
              (r.Success? <==> ValidConfig(config) && app.value.staticFolder.Some?
                                 && WalkSucceeds(Construct(None, config).value, app.value.walk))
    ensures r.Success? && app.Some? ==> r.value.bustMap.value.Keys == EligiblePaths(r.value.buster, app.value.walk)
  {
    var cb :- Construct(None, config);
    match app
    case None => Success(Registration(cb, None))
    case Some(a) =>
      var m :- InitApp(cb, a, config, md5);
      Success(Registration(cb, Some(m)))
  }

  /** The nested `bust_filename`: the stored version, or "" for a file
      with no entry. */
  function BustFilename(bustMap: BustMap, file: string): (r: string)
    ensures file in bustMap ==> r == bustMap[file]
    ensures file !in bustMap ==> r == ""
  {
    if file in bustMap then bustMap[file] else ""
  }

  /** The `url_defaults` hook `reverse_to_cache_busted_url`, returning the
      updated `values`: for the static endpoint it sets `q` to the version
      of `values["filename"]` (raising `KeyError` when that key is absent);
      any other endpoint leaves `values` as it is, and no key but `q` ever
      changes. */
  function ReverseToCacheBustedUrl(bustMap: BustMap, endpoint: string,
                                   values: map<string, string>): (r: Result<map<string, string>>)
    ensures endpoint != STATIC_ENDPOINT ==> r == Success(values)
    ensures endpoint == STATIC_ENDPOINT ==> (r.Success? <==> FILENAME_KEY in values)
    ensures endpoint == STATIC_ENDPOINT && FILENAME_KEY !in values ==> r == Failure(KeyError(FILENAME_KEY))
    ensures r.Success? ==> forall k | k != QUERY_KEY ::
              (k in r.value <==> k in values) && (k in values ==> r.value[k] == values[k])
    ensures r.Success? && endpoint == STATIC_ENDPOINT ==>
              QUERY_KEY in r.value && r.value[QUERY_KEY] == BustFilename(bustMap, values[FILENAME_KEY])
  {
    if endpoint == STATIC_ENDPOINT then
      if FILENAME_KEY in values then
        Success(values[QUERY_KEY := BustFilename(bustMap, values[FILENAME_KEY])])
      else
        Failure(KeyError(FILENAME_KEY))
    else
      Success(values)
  }
}
