# flask_cachebuster in Dafny

A model of the `CacheBuster` Flask extension, with proofs about it.
The extension computes an MD5-based version string for every eligible file under an application's static folder.
It keeps these versions in a *bust map*, which maps a path relative to the static folder to its version.
It then registers a `url_defaults` hook: `url_for('static', filename=...)` gets a `q=<version>` query argument, or `q=""` for a file with no entry.

The model has four modules:

- `Python` (`python.dfy`) covers the Python semantics the code relies on:
  - exceptions, as a `Result` whose failure names the exception;
  - the value types a config dict can hold;
  - truthiness;
  - the `in` operator on lists and strs;
  - the `s[:n]` slice.
- `PurePath` (`purepath.dfy`) covers the POSIX path functions: `str.rfind`, `PurePath.name`, `PurePath.suffix` and `os.path.join`.
- `FlaskCacheBuster` (`cachebuster.dfy`) covers:
  - the constructor's config validation and defaults;
  - the private `__is_file_to_be_busted`;
  - the bust-map loop of `init_app`;
  - `bust_filename`;
  - the `reverse_to_cache_busted_url` hook.
- `CacheBusterProperties` (`properties.dfy`) holds the lemmas that relate several operations, plus worked scenarios.

Eligibility has an independent reference definition, `ShouldBust`.
It states the rule directly in terms of the suffix and the configured extensions: sequence membership (`in` on a Dafny sequence) for a list, or a substring test when `extensions` is a str.
The bust map has the set `EligiblePaths` as its partner: its keys are exactly the eligible relative paths.

The directory walk is a parameter: `App.walk` is the sequence of files (relative path and bytes) that `os.walk` yields, in walk order.
MD5 is a parameter too: `md5`, a deterministic function from bytes to a 32-character lowercase hex digest.

`HASH_SIZE` (5) applies only to a falsy config. A non-empty dict without `"hash_size"` gives `None`, which keeps the whole digest (`MissingHashSizeKeepsWholeDigest`).

## Model

| member | source | states |
|---|---|---|
| FlaskCacheBuster.Construct | flask_cachebuster/__init__.py:9-18 | A config that is neither `None` nor a dict raises `ValueError` with the source's message. A falsy config gives extensions `[]` and `HASH_SIZE` (5). A non-empty dict gives `get()` values, `None` for a missing key. Passing an app always ends in `AttributeError`. |
| FlaskCacheBuster.IsFileToBeBusted | flask_cachebuster/__init__.py:20-27 | Falsy extensions bust everything. An empty path is never busted once extensions are set. Otherwise the result is `ShouldBust`, the suffix-membership rule, and it fails with `TypeError` exactly when `extensions` is not a container. |
| Python.Contains | flask_cachebuster/__init__.py:27 | `x in c` succeeds exactly for a list or a str. On a list it is membership; on a str it is "occurs at some index"; `None` and `int` raise `TypeError`. |
| Python.IsSubstring | flask_cachebuster/__init__.py:27 | The recursive scan is true exactly when `t` occurs in `s` at some index. |
| Python.ListContainsIsMembership | flask_cachebuster/__init__.py:27 | The front-to-back scan that `in` performs on a list finds exactly the list's members. This links `Contains` to the membership that `ShouldBust` uses. |
| PurePath.SuffixIsLastDotSegment | flask_cachebuster/__init__.py:27 | `PurePath.suffix` is non-empty exactly when the LAST dot of the final component is neither its first nor its last character. It is then the segment from that dot: a dot followed by at least one character and no other dot. |
| PurePath.NameIsFinalComponent | flask_cachebuster/__init__.py:27 | `PurePath.name` holds no `/`, ends the path, and starts right after a `/` or at the start of the path. |
| PurePath.NameOfJoin | flask_cachebuster/__init__.py:49 | `os.path.join(dirpath, filename)` keeps the final component, and hence the suffix, of the relative path. So eligibility tested on the rooted path is eligibility of the relative path. |
| PurePath.LastIndexOfConcat | flask_cachebuster/__init__.py:49 | The last `/` in `root + rel` is the last one in `rel`, shifted by the root's length. If `rel` has none, it is the last one in the root. |
| Python.SliceTo | flask_cachebuster/__init__.py:54 | `digest[:hash_size]` is always a prefix of the digest. `None` keeps all of it, and an `int` gives the Python-clamped length (negative sizes count from the end). Any other type raises `TypeError`. |
| FlaskCacheBuster.RootedEligibility | flask_cachebuster/__init__.py:49-51 | Testing `os.path.join(root, rel)` succeeds exactly when the extensions are usable, and it agrees with `ShouldBust` on `rel`. |
| FlaskCacheBuster.BustStepOutcome | flask_cachebuster/__init__.py:47-60 | One loop iteration stores `digest[:hash_size]` under the relative path exactly when the file is eligible, and leaves the map unchanged otherwise. It fails exactly when the extensions are unusable, or when the file is eligible and `hash_size` cannot slice. |
| FlaskCacheBuster.BuildBustMap | flask_cachebuster/__init__.py:41-60 | The loop succeeds exactly when no iteration raises. Every failure is a `TypeError`. Its keys are exactly the eligible relative paths. When paths are distinct, each eligible file maps to its own digest cut by `hash_size`. |
| FlaskCacheBuster.BustStepExtends | flask_cachebuster/__init__.py:46-60 | The loop invariant: the three facts of `BuildBustMap` survive one more file. |
| FlaskCacheBuster.InitApp | flask_cachebuster/__init__.py:29-60 | An invalid config raises `ValueError` before anything else. A `None` static folder makes `os.walk` raise `TypeError`. Any other failure is also a `TypeError`. Otherwise it succeeds exactly when the walk does, and its keys are the eligible paths. |
| FlaskCacheBuster.ConstructAndRegister | flask_cachebuster/__init__.py:9-18 | The corrected constructor: it validates the config, applies the same defaults as `Construct(None, config)`, and registers a bust map exactly when an app is given. It succeeds exactly when `init_app` would. |
| FlaskCacheBuster.BustFilename | flask_cachebuster/__init__.py:63-64 | The lookup returns the stored version for a key of the map and "" for any other file. |
| FlaskCacheBuster.ReverseToCacheBustedUrl | flask_cachebuster/__init__.py:66-73 | Any endpoint other than `"static"` leaves `values` as it is. For `"static"` without `"filename"` it raises `KeyError`. Otherwise `q` becomes the lookup of the filename. No key other than `q` changes. |
| CacheBusterProperties.EmptyExtensionsBustEveryFile | flask_cachebuster/__init__.py:25-26 | With empty or unset extensions and an `int` or `None` hash size, the build succeeds and every walked file gets an entry. |
| CacheBusterProperties.VersionsArePrefixesOfDigest | flask_cachebuster/__init__.py:54 | With an `int` hash size `n >= 0`, each version is the first `min(n, 32)` characters of the file's digest. |
| CacheBusterProperties.DefaultConfigBustsAllWithFiveHexChars | flask_cachebuster/__init__.py:15-16 | No config or an empty dict: every file is busted, and its version is the first 5 characters of its digest, all lowercase hex. |
| CacheBusterProperties.MissingHashSizeKeepsWholeDigest | flask_cachebuster/__init__.py:16 | A non-empty config without `"hash_size"` leaves it `None`, so every version is the whole 32-character digest. |
| CacheBusterProperties.BuildBustMapOrderIndependent | flask_cachebuster/__init__.py:46-60 | Two walk orders of the same files (equal multisets, distinct paths) both succeed or both fail, and give the same map. |
| CacheBusterProperties.SameFilesSameBustMap | flask_cachebuster/__init__.py:46-60 | Two distinct-path walks with the same members give the same outcome and the same map. |
| CacheBusterProperties.SameFilesSameWalk | flask_cachebuster/__init__.py:46-51 | Success of the walk and the set of eligible paths depend only on which files the walk holds. |
| CacheBusterProperties.SameContentSameVersion | flask_cachebuster/__init__.py:53-54 | Two eligible files with the same bytes get the same version. |
| CacheBusterProperties.InitAppIgnoresConfigArgument | flask_cachebuster/__init__.py:29-39 | `init_app` validates its `config` argument but never reads it: any two valid configs give the same result. |
| CacheBusterProperties.LookupAfterInit | flask_cachebuster/__init__.py:60-64 | After `init_app`, the lookup of a walked file is its version when the file is eligible and "" otherwise. A path the walk never produced gives "". |
| CacheBusterProperties.StaticUrlAfterInit | flask_cachebuster/__init__.py:60-73 | A static URL for an eligible walked file carries that file's version in `q`. A URL for any other filename carries `q=""`. |
| CacheBusterProperties.HookIdempotent | flask_cachebuster/__init__.py:72-73 | Running the hook again on its own output changes nothing. |
| CacheBusterProperties.StrExtensionsMatchSubstrings | flask_cachebuster/__init__.py:27 | With `extensions` the str `".css"`, `in` is a substring test. `main.c` and `README` (empty suffix) are busted; `app.js` is not. |
| CacheBusterProperties.RegisterAtConstructionFails | flask_cachebuster/__init__.py:17-18 | As written, constructing with an app raises `AttributeError` for every valid config. |
| CacheBusterProperties.RegisterAtConstructionMatchesInitApp | flask_cachebuster/__init__.py:17-18 | The corrected constructor with an app gives what constructing without one and then calling `init_app` gives: it succeeds exactly when that does, with the same registration, and otherwise raises the same exception. |
| CacheBusterProperties.RegisteredBustMap | flask_cachebuster/__init__.py:17-18 | With a valid config, a static folder and a walk that raises nothing, the corrected constructor registers the bust map built from that folder. |
| CacheBusterProperties.AppJsScenario | flask_cachebuster/__init__.py:46-73 | Default config with one file `app.js`: its version is the first 5 digest characters. The static URL for it carries that version, and `missing.js` gets `q=""`. |
| CacheBusterProperties.CssOnlyScenario | flask_cachebuster/__init__.py:46-64 | Config `{"extensions": [".css"]}` with `a.css` and `a.js`: only `a.css` gets an entry, holding the whole digest, and `a.js` looks up "". |
| CacheBusterProperties.OneOfTwoBusted | flask_cachebuster/__init__.py:46-60 | Of one eligible and one ineligible file, only the first gets an entry: its digest cut by `hash_size`. |
| CacheBusterProperties.ListedExtensionsOnly | flask_cachebuster/__init__.py:15-16 | A config naming only `"extensions"` keeps that value and leaves `hash_size` at `None`. |

## Left out

- File I/O. `os.walk` and `open(...).read()` are replaced by `App.walk`, the sequence of (relative path, bytes) the walk produces. Unreadable files and symlink handling are not modelled.
- A static folder that does not exist: `os.walk` swallows the `OSError` that listing it raises, so the model treats it as an empty `App.walk`, which gives an empty map.
- `os.path.relpath`: the model stores the relative path the walk produced. This equals `relpath(join(dirpath, filename), static_folder)` for the normalised paths `os.walk` yields.
- MD5 itself: `md5` is an arbitrary deterministic function with 32-character hex results. No collision properties are claimed.
- `app.logger.debug` calls, and the registration of the hook through `@app.url_defaults`. The hook is modelled as the function from `(endpoint, values)` to the updated `values`. Flask's own URL building is not part of this model.
- Config values of other types (`bool`, `float`, `dict`, `tuple`, `set`). The model covers `None`, `int`, `str` and lists of strings; a set of strings behaves like the list.
- `Suffix` follows the `PurePath.suffix` rule of Python 3.13 and earlier, where `"file."` has suffix `""`. Python 3.14 gives `"."` for a trailing single dot, and that rule is not modelled.
- Windows paths, and `PurePath` normalisation of `.`, `..`, repeated separators and trailing separators. `PurePath("a/b.js/").suffix` is `.js`, but `Suffix` gives `""` there. Walked file names are never empty and hold no `/`, so no walked path ends in one.
- FlaskCacheBuster.BuildBustMap: the value of each entry is stated only for walks whose relative paths are distinct, as `os.walk` always yields them. With a repeated path, the last eligible file would win.
- URL values of types other than `str`: Flask's `values` dict may hold any type, and `filename` need not be a str. The hook models `values` as a map from strings to strings.
- Mutation of `self.app` and `self.config` after construction is not modelled: `CacheBuster` is an immutable value.

## Findings

| source | as written | input that shows it | evidently intended | confidence | as-written member | corrected member |
|---|---|---|---|---|---|---|
| flask_cachebuster/__init__.py:17-18 | The constructor calls `self.register_cache_buster(app, config)`, a method the class does not define. | `CacheBuster(app=some_app)`, with any `None` or dict config, raises `AttributeError`. | Register the app through `init_app(app, config)`, as the factory pattern does. | not executed | CacheBusterProperties.RegisterAtConstructionFails | CacheBusterProperties.RegisterAtConstructionMatchesInitApp |
