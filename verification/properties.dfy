/**
 Properties of the cache buster that relate several operations: what the
 bust map holds under the default and partial configurations, that it does
 not depend on walk order, how lookups and the URL hook read it, and the
 scenarios the extension is meant to support.
 */
module CacheBusterProperties {
  import opened Python
  import opened PurePath
  import opened FlaskCacheBuster

  /** The relative paths of all walked files. */
  ghost function AllPaths(files: seq<StaticFile>): set<string> {
    set f | f in files :: f.path
  }

  /** With `extensions` empty or unset every walked file gets an entry. */
  lemma EmptyExtensionsBustEveryFile(cb: CacheBuster, root: string, files: seq<StaticFile>,
                                     md5: Bytes -> HexDigest)
    requires !Truthy(cb.extensions)
    requires HashSizeUsable(cb.hashSize)
    ensures BuildBustMap(cb, root, files, md5).Success?
    ensures BuildBustMap(cb, root, files, md5).value.Keys == AllPaths(files)
  {
    assert forall f | f in files :: ShouldBust(cb.extensions, f.path);
  }

  /** With an `int` hash size `n >= 0`, every version is the first
      `min(n, 32)` characters of its file's digest. */
  lemma VersionsArePrefixesOfDigest(cb: CacheBuster, root: string, files: seq<StaticFile>,
                                    md5: Bytes -> HexDigest, n: int)
    requires cb.hashSize == PyInt(n) && 0 <= n
    requires DistinctPaths(files)
    requires BuildBustMap(cb, root, files, md5).Success?
    ensures var m := BuildBustMap(cb, root, files, md5).value;
            forall f | f in files && ShouldBust(cb.extensions, f.path) ::
              f.path in m && |m[f.path]| == Min(n, 32) && m[f.path] == md5(f.content)[..Min(n, 32)]
  {
  }

  /** Constructed with no config or an empty dict, the extension busts
      every file of the static folder with the first five hex characters
      of its digest. */
  lemma DefaultConfigBustsAllWithFiveHexChars(app: App, config: ConfigArg, md5: Bytes -> HexDigest)
    requires config == NoConfig || config == DictConfig(map[])
    requires app.staticFolder.Some?
    requires DistinctPaths(app.walk)
    ensures Construct(None, config).Success?
    ensures var r := InitApp(Construct(None, config).value, app, config, md5);
            && r.Success?
            && r.value.Keys == AllPaths(app.walk)
            && forall f | f in app.walk ::
                 |r.value[f.path]| == HASH_SIZE
                 && r.value[f.path] == md5(f.content)[..HASH_SIZE]
                 && forall i | 0 <= i < HASH_SIZE :: IsHexDigit(r.value[f.path][i])
  {
    var cb := Construct(None, config).value;
    EmptyExtensionsBustEveryFile(cb, app.staticFolder.value, app.walk, md5);
    VersionsArePrefixesOfDigest(cb, app.staticFolder.value, app.walk, md5, HASH_SIZE);
  }

  /** A non-empty config without "hash_size" leaves the hash size `None`,
      so every version is the whole 32-character digest. */
  lemma MissingHashSizeKeepsWholeDigest(app: App, entries: map<string, PyValue>, md5: Bytes -> HexDigest)
    requires |entries| > 0 && HASH_SIZE_KEY !in entries
    requires EXTENSIONS_KEY in entries ==> ExtensionsUsable(entries[EXTENSIONS_KEY])
    requires app.staticFolder.Some?
    requires DistinctPaths(app.walk)
    ensures Construct(None, DictConfig(entries)).Success?
    ensures var cb := Construct(None, DictConfig(entries)).value;
            var r := InitApp(cb, app, DictConfig(entries), md5);
            && cb.hashSize == PyNone
            && r.Success?
            && forall f | f in app.walk && ShouldBust(cb.extensions, f.path) ::
                 r.value[f.path] == md5(f.content) && |r.value[f.path]| == 32
  {
  }

  /** The bust map does not depend on the order of the walk: two orders of
      the same files both succeed or both fail, and agree when they succeed. */
  lemma BuildBustMapOrderIndependent(cb: CacheBuster, root: string, files1: seq<StaticFile>,
                                     files2: seq<StaticFile>, md5: Bytes -> HexDigest)
    requires multiset(files1) == multiset(files2)
    requires DistinctPaths(files1) && DistinctPaths(files2)
    ensures BuildBustMap(cb, root, files1, md5).Success? <==> BuildBustMap(cb, root, files2, md5).Success?
    ensures BuildBustMap(cb, root, files1, md5).Success? ==>
              BuildBustMap(cb, root, files1, md5).value == BuildBustMap(cb, root, files2, md5).value
  {
    forall f ensures f in files1 <==> f in files2 {
      assert f in files1 <==> f in multiset(files1);
      assert f in files2 <==> f in multiset(files2);
    }
    SameFilesSameBustMap(cb, root, files1, files2, md5);
  }

  /** Two distinct-path walks with the same members give the same outcome. */
  lemma SameFilesSameBustMap(cb: CacheBuster, root: string, files1: seq<StaticFile>,
                             files2: seq<StaticFile>, md5: Bytes -> HexDigest)
    requires forall f :: f in files1 <==> f in files2
    requires DistinctPaths(files1) && DistinctPaths(files2)
    ensures BuildBustMap(cb, root, files1, md5).Success? <==> BuildBustMap(cb, root, files2, md5).Success?
    ensures BuildBustMap(cb, root, files1, md5).Success? ==>
              BuildBustMap(cb, root, files1, md5).value == BuildBustMap(cb, root, files2, md5).value
  {
    SameFilesSameWalk(cb, files1, files2);
    var r1, r2 := BuildBustMap(cb, root, files1, md5), BuildBustMap(cb, root, files2, md5);
    if r1.Success? {
      SameFilesSameVersions(cb, root, files1, files2, md5);
      SameEntries(r1.value, r2.value);
    }
  }

  /** Success and eligibility depend only on which files the walk holds. */
  lemma SameFilesSameWalk(cb: CacheBuster, files1: seq<StaticFile>, files2: seq<StaticFile>)
    requires forall f :: f in files1 <==> f in files2
    ensures WalkSucceeds(cb, files1) <==> WalkSucceeds(cb, files2)
    ensures EligiblePaths(cb, files1) == EligiblePaths(cb, files2)
  {
    if files1 != [] {
      assert files1[0] in files2;
    }
    if files2 != [] {
      assert files2[0] in files1;
    }
  }

  lemma SameFilesSameVersions(cb: CacheBuster, root: string, files1: seq<StaticFile>,
                              files2: seq<StaticFile>, md5: Bytes -> HexDigest)
    requires forall f :: f in files1 <==> f in files2
    requires DistinctPaths(files1) && DistinctPaths(files2)
    requires BuildBustMap(cb, root, files1, md5).Success? && BuildBustMap(cb, root, files2, md5).Success?
    requires EligiblePaths(cb, files1) == EligiblePaths(cb, files2)
    ensures var m1, m2 := BuildBustMap(cb, root, files1, md5).value, BuildBustMap(cb, root, files2, md5).value;
            m1.Keys == m2.Keys && forall k | k in m1 :: m1[k] == m2[k]
  {
    var m1, m2 := BuildBustMap(cb, root, files1, md5).value, BuildBustMap(cb, root, files2, md5).value;
    forall k | k in m1 ensures m1[k] == m2[k] {
      var f :| f in files1 && ShouldBust(cb.extensions, f.path) && f.path == k;
      assert SliceTo(md5(f.content), cb.hashSize) == Success(m1[k]) == Success(m2[k]);
    }
  }

  /** Maps with the same keys and the same value at every key are equal. */
  lemma SameEntries(m1: map<string, string>, m2: map<string, string>)
    requires m1.Keys == m2.Keys && forall k | k in m1 :: m1[k] == m2[k]
    ensures m1 == m2
  {
  }

  /** Files with identical contents get identical versions. */
  lemma SameContentSameVersion(cb: CacheBuster, root: string, files: seq<StaticFile>,
                               md5: Bytes -> HexDigest, f: StaticFile, g: StaticFile)
    requires DistinctPaths(files) && WalkSucceeds(cb, files)
    requires f in files && g in files
    requires ShouldBust(cb.extensions, f.path) && ShouldBust(cb.extensions, g.path)
    requires f.content == g.content
    ensures var m := BuildBustMap(cb, root, files, md5).value;
            f.path in m && g.path in m && m[f.path] == m[g.path]
  {
  }

  /** `init_app` validates its `config` argument but never reads it: any
      two valid configs give the same result. */
  lemma InitAppIgnoresConfigArgument(cb: CacheBuster, app: App, c1: ConfigArg, c2: ConfigArg,
                                     md5: Bytes -> HexDigest)
    requires ValidConfig(c1) && ValidConfig(c2)
    ensures InitApp(cb, app, c1, md5) == InitApp(cb, app, c2, md5)
  {
  }

  /** Looking up a walked file after `init_app` gives its version when it
      is eligible and "" otherwise; a path the walk never produced gives "". */
  lemma LookupAfterInit(cb: CacheBuster, app: App, config: ConfigArg, md5: Bytes -> HexDigest, file: string)
    requires DistinctPaths(app.walk)
    requires InitApp(cb, app, config, md5).Success?
    ensures var m := InitApp(cb, app, config, md5).value;
            forall f | f in app.walk ::
              BustFilename(m, f.path) ==
                if ShouldBust(cb.extensions, f.path) then SliceTo(md5(f.content), cb.hashSize).value else ""
    ensures file !in AllPaths(app.walk) ==> BustFilename(InitApp(cb, app, config, md5).value, file) == ""
  {
  }

  /** End to end: once `init_app` has run, a static URL for a walked file
      carries its version in `q` and a URL for any other file carries
      q="". */
  lemma StaticUrlAfterInit(cb: CacheBuster, app: App, config: ConfigArg, md5: Bytes -> HexDigest,
                           values: map<string, string>)
    requires DistinctPaths(app.walk)
    requires InitApp(cb, app, config, md5).Success?
    requires FILENAME_KEY in values
    ensures var m := InitApp(cb, app, config, md5).value;
            var r := ReverseToCacheBustedUrl(m, STATIC_ENDPOINT, values);
            && r.Success?
            && (forall f | f in app.walk && f.path == values[FILENAME_KEY] && ShouldBust(cb.extensions, f.path) ::
                  SliceTo(md5(f.content), cb.hashSize) == Success(r.value[QUERY_KEY]))
            && (values[FILENAME_KEY] !in EligiblePaths(cb, app.walk) ==> r.value[QUERY_KEY] == "")
  {
  }

  /** Running the hook again on its own output changes nothing. */
  lemma HookIdempotent(bustMap: BustMap, endpoint: string, values: map<string, string>)
    requires ReverseToCacheBustedUrl(bustMap, endpoint, values).Success?
    ensures var once := ReverseToCacheBustedUrl(bustMap, endpoint, values).value;
            ReverseToCacheBustedUrl(bustMap, endpoint, once) == Success(once)
  {
    if endpoint == STATIC_ENDPOINT {
      var once := ReverseToCacheBustedUrl(bustMap, endpoint, values).value;
      assert FILENAME_KEY != QUERY_KEY;
      assert once[FILENAME_KEY] == values[FILENAME_KEY];
      assert once[QUERY_KEY := BustFilename(bustMap, once[FILENAME_KEY])] == once;
    }
  }

  /** With `extensions` a str rather than a list, `in` is a substring test:
      ".c" files and files with no suffix at all are busted under ".css". */
  lemma StrExtensionsMatchSubstrings(cb: CacheBuster)
    requires cb.extensions == PyStr(".css")
    ensures IsFileToBeBusted(cb, "static/main.c") == Success(true)
    ensures IsFileToBeBusted(cb, "static/README") == Success(true)
    ensures IsFileToBeBusted(cb, "static/app.js") == Success(false)
  {
    SuffixOfMainC();
    SuffixOfReadme();
    SuffixOfAppJs();
    CssContains();
  }

  /** `in` on the str ".css" is a substring test. */
  lemma CssContains()
    ensures Contains(PyStr(".css"), ".c") == Success(true)
    ensures Contains(PyStr(".css"), "") == Success(true)
    ensures Contains(PyStr(".css"), ".js") == Success(false)
  {
    assert OccursAt(".c", ".css", 0);
    assert OccursAt("", ".css", 0);
    forall i ensures !OccursAt(".js", ".css", i) {
      if 0 <= i <= 1 {
        assert ".css"[i + 1] != ".js"[1];
      }
    }
  }

  lemma SuffixOfMainC()
    ensures Suffix("static/main.c") == ".c"
  {
    NameIsUnique("static/main.c", "main.c");
    SuffixIsLastDotSegment("static/main.c");
    assert IsSuffixDot("main.c", 4);
  }

  lemma SuffixOfReadme()
    ensures Suffix("static/README") == ""
  {
    NameIsUnique("static/README", "README");
  }

  lemma SuffixOfAppJs()
    ensures Suffix("static/app.js") == ".js"
  {
    NameIsUnique("static/app.js", "app.js");
    SuffixIsLastDotSegment("static/app.js");
    assert IsSuffixDot("app.js", 3);
  }

  /** As written, passing an application to the constructor can never
      succeed: the call to the undefined `register_cache_buster` raises
      `AttributeError` for every valid config, so the application is never
      registered. */
  lemma RegisterAtConstructionFails(app: App, config: ConfigArg)
    requires ValidConfig(config)
    ensures Construct(Some(app), config) ==
              Failure(AttributeError("'CacheBuster' object has no attribute 'register_cache_buster'"))
  {
  }

  /** With the constructor corrected, registering at construction is the
      same as constructing without an application and calling `init_app`
      afterwards (the factory pattern). */
  lemma RegisterAtConstructionMatchesInitApp(app: App, config: ConfigArg, md5: Bytes -> HexDigest)
    requires ValidConfig(config)
    ensures Construct(None, config).Success?
    ensures var cb := Construct(None, config).value;
            var deferred := InitApp(cb, app, config, md5);
            var r := ConstructAndRegister(Some(app), config, md5);
            && (r.Success? <==> deferred.Success?)
            && (r.Success? ==> r.value == Registration(cb, Some(deferred.value)))
            && (r.Failure? ==> r.error == deferred.error)
  {
  }

  /** Default configuration, one file "app.js" holding "X": its version is
      the first five characters of the digest of "X", a static URL for it
      carries that version and one for "missing.js" carries q="". */
  lemma AppJsScenario(md5: Bytes -> HexDigest)
    ensures var app := App(Some("static"), [StaticFile("app.js", [88])]);
            var r := ConstructAndRegister(Some(app), NoConfig, md5);
            && r.Success?
            && r.value.bustMap == Some(map["app.js" := md5([88])[..HASH_SIZE]])
            && ReverseToCacheBustedUrl(r.value.bustMap.value, STATIC_ENDPOINT, map[FILENAME_KEY := "app.js"])
               == Success(map[FILENAME_KEY := "app.js", QUERY_KEY := md5([88])[..HASH_SIZE]])
            && ReverseToCacheBustedUrl(r.value.bustMap.value, STATIC_ENDPOINT, map[FILENAME_KEY := "missing.js"])
               == Success(map[FILENAME_KEY := "missing.js", QUERY_KEY := ""])
  {
    var app := App(Some("static"), [StaticFile("app.js", [88])]);
    var cb := Construct(None, NoConfig).value;
    var m := BuildBustMap(cb, "static", app.walk, md5).value;
    assert DistinctPaths(app.walk);
    assert m.Keys == {"app.js"};
    assert m["app.js"] == md5([88])[..HASH_SIZE];
    assert m == map["app.js" := md5([88])[..HASH_SIZE]];
    assert "missing.js" !in m;
  }

  /** Config {"extensions": [".css"]} with "a.css" and "a.js": only
      "a.css" gets an entry, holding the whole digest (no "hash_size"),
      and a lookup of "a.js" gives "". */
  lemma CssOnlyScenario(md5: Bytes -> HexDigest)
    ensures var config := DictConfig(map[EXTENSIONS_KEY := PyList([".css"])]);
            var css, js := StaticFile("a.css", [1]), StaticFile("a.js", [2]);
            var r := ConstructAndRegister(Some(App(Some("static"), [css, js])), config, md5);
            && r.Success?
            && r.value.bustMap == Some(map["a.css" := md5([1])])
            && BustFilename(r.value.bustMap.value, "a.js") == ""
  {
    var config := DictConfig(map[EXTENSIONS_KEY := PyList([".css"])]);
    ListedExtensionsOnly(config.entries, PyList([".css"]));
    var cb := Construct(None, config).value;
    SuffixOfAssets();
    var css, js := StaticFile("a.css", [1]), StaticFile("a.js", [2]);
    SuffixIsExtension(".css", css.path);
    SuffixIsNotExtension(".css", js.path);
    OneOfTwoBusted(cb, "static", css, js, md5);
    RegisteredBustMap(App(Some("static"), [css, js]), config, md5);
  }

  /** A config naming only `extensions` leaves `hash_size` at `None`. */
  lemma ListedExtensionsOnly(entries: map<string, PyValue>, extensions: PyValue)
    requires entries == map[EXTENSIONS_KEY := extensions]
    ensures Construct(None, DictConfig(entries)) ==
              Success(CacheBuster(DictConfig(entries), extensions, PyNone))
  {
    assert HASH_SIZE_KEY !in entries;
  }

  /** With a static folder, the corrected constructor registers the bust
      map built from that folder. */
  lemma RegisteredBustMap(app: App, config: ConfigArg, md5: Bytes -> HexDigest)
    requires ValidConfig(config) && app.staticFolder.Some?
    requires WalkSucceeds(Construct(None, config).value, app.walk)
    ensures ConstructAndRegister(Some(app), config, md5) ==
              Success(Registration(Construct(None, config).value,
                                   Some(BuildBustMap(Construct(None, config).value, app.staticFolder.value,
                                                     app.walk, md5).value)))
  {
  }

  /** Of an eligible file and an ineligible one, only the first gets an
      entry: its digest cut by `hash_size`. */
  lemma OneOfTwoBusted(cb: CacheBuster, root: string, kept: StaticFile, skipped: StaticFile,
                       md5: Bytes -> HexDigest)
    requires ExtensionsUsable(cb.extensions) && HashSizeUsable(cb.hashSize)
    requires ShouldBust(cb.extensions, kept.path) && !ShouldBust(cb.extensions, skipped.path)
    ensures BuildBustMap(cb, root, [kept, skipped], md5) ==
              Success(map[kept.path := SliceTo(md5(kept.content), cb.hashSize).value])
  {
    var files := [kept, skipped];
    TwoFilesKeys(cb, root, files, kept, skipped, md5);
    DistinctOfTwo(kept, skipped);
    assert kept in files;
    BustedOfTwo(cb, root, files, kept, md5);
    SingletonMap(BuildBustMap(cb, root, files, md5).value, kept.path,
                 SliceTo(md5(kept.content), cb.hashSize).value);
  }

  lemma TwoFilesKeys(cb: CacheBuster, root: string, files: seq<StaticFile>, kept: StaticFile,
                     skipped: StaticFile, md5: Bytes -> HexDigest)
    requires files == [kept, skipped]
    requires ExtensionsUsable(cb.extensions) && HashSizeUsable(cb.hashSize)
    requires ShouldBust(cb.extensions, kept.path) && !ShouldBust(cb.extensions, skipped.path)
    ensures BuildBustMap(cb, root, files, md5).Success?
    ensures BuildBustMap(cb, root, files, md5).value.Keys == {kept.path}
  {
    EligibleOfTwo(cb, kept, skipped);
  }

  /** A map whose only key is `k`, bound to `v`, is the singleton map. */
  lemma SingletonMap(m: map<string, string>, k: string, v: string)
    requires m.Keys == {k} && m[k] == v
    ensures m == map[k := v]
  {
  }

  lemma DistinctOfTwo(a: StaticFile, b: StaticFile)
    requires a.path != b.path
    ensures DistinctPaths([a, b])
  {
  }

  lemma BustedOfTwo(cb: CacheBuster, root: string, files: seq<StaticFile>, kept: StaticFile,
                    md5: Bytes -> HexDigest)
    requires ShouldBust(cb.extensions, kept.path)
    requires DistinctPaths(files) && kept in files
    requires BuildBustMap(cb, root, files, md5).Success?
    ensures SliceTo(md5(kept.content), cb.hashSize) == Success(BuildBustMap(cb, root, files, md5).value[kept.path])
  {
  }

  lemma EligibleOfTwo(cb: CacheBuster, kept: StaticFile, skipped: StaticFile)
    requires ShouldBust(cb.extensions, kept.path) && !ShouldBust(cb.extensions, skipped.path)
    ensures EligiblePaths(cb, [kept, skipped]) == {kept.path}
  {
    var files := [kept, skipped];
    assert forall f | f in files && ShouldBust(cb.extensions, f.path) :: f == kept by {
      forall f | f in files && ShouldBust(cb.extensions, f.path) ensures f == kept {
        assert f == kept || f == skipped;
      }
    }
    assert kept in files;
  }

  lemma SuffixIsExtension(ext: string, p: string)
    requires Suffix(p) == ext
    ensures ShouldBust(PyList([ext]), p)
  {
  }

  lemma SuffixIsNotExtension(ext: string, p: string)
    requires Suffix(p) != ext
    ensures !ShouldBust(PyList([ext]), p)
  {
  }

  lemma SuffixOfAssets()
    ensures Suffix("a.css") == ".css"
    ensures Suffix("a.js") == ".js"
  {
    NameIsUnique("a.css", "a.css");
    SuffixIsLastDotSegment("a.css");
    assert IsSuffixDot("a.css", 1);
    NameIsUnique("a.js", "a.js");
    SuffixIsLastDotSegment("a.js");
    assert IsSuffixDot("a.js", 1);
  }
}
