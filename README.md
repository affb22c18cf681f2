# POMOdoro translation cache, modelled in Dafny

POMOdoro is a WordPress plugin that caches translation lookups. It hooks
`override_load_textdomain`. For each readable mofile it installs a
`MoCache_Translation` object as the textdomain's entry in the global `$l10n`.
That object keeps an in-memory map from cache keys to translated strings.

- **Loading.** The map is filled from a cache file, a PHP script in the
  temporary directory, unless the file is missing or older than the mofile.
- **Lookups.** A miss is answered by the previous `$l10n` entry (the
  override) or, if there is none, by a lazily built `Mo` upstream. The answer
  is stored and the cache is marked busted.
- **Shutdown.** A closure rewrites the cache file when the cache is busted, or
  when the map is empty and no file existed. The commit writes
  `<file>.test`, checks that the file ends with the end marker (it reads
  the line that starts `strlen(END)` bytes before the end), and then renames
  the file over the cache file or unlinks it.

Files:

- `php.dfy` (module `Php`): the PHP values the plugin passes around, string
  truthiness, `abs($count) == 1`, the `%d` conversion and `untrailingslashit`.
- `files.dfy` (module `Files`): the file system as a map from path to bytes,
  the outcome of a write (complete, cut short, or failed), and the
  `fopen`/`fseek`/`fgets` tail check. The check is proved equal to a suffix
  comparison.
- `commit.dfy` (module `Commit`): the write-verify-publish commit, both as a
  function on the file map and as a method that takes the same steps as the
  shutdown closure.
- `pomodoro.dfy` (module `Pomodoro`): the runtime oracles, the cache key and
  cache file name, the invalidation and persist rules, and the cache script.
  It also holds the classes `MoCacheTranslation`, `Pomodoro` (the static
  `$tmp_dir_path`) and `TextDomains` (the global `$l10n`).
- `scenario.dfy` (module `Scenario`): what a caller observes, proved from
  the contracts alone. A repeated lookup hits, and the next run answers from
  the cache file without forwarding anything.

How the model is built:

- **Translators.** A foreign translations object is an oracle from
  (method, argument list) to a string. An override can also be another
  `MoCacheTranslation`, which happens when a textdomain is loaded twice. A
  miss then calls that wrapper's `Translate`/`TranslatePlural`, which
  recurses down the chain. `Valid()` keeps the chain acyclic through the
  ghost footprint `Repr`.
- **Ghost bookkeeping.** The ghost log `delegated` records every forwarded
  call. The ghost counter `imports` counts how often the `Mo` upstream was
  built.
- **Answer.** The ghost function `Answer` says what a lookup returns in the
  current state.
- **Oracles.** `md5(serialize(..))`, `var_export`, `include`,
  `apply_filters`, `get_home_url`, `wp_mkdir_p`, WordPress's `get_temp_dir`
  and `Mo::import_from_file` are uninterpreted functions gathered in the
  `Runtime` datatype. Modification times are a map that stays fixed for the
  whole run.

Points where the code's behaviour is easy to misread:

- **Staleness.** A cache file is invalidated only when its stamp is missing
  or strictly older than the mofile's `filemtime` (`pomodoro.php:120`). An
  unequal but newer stamp keeps the cache.
- **File name.** The cache file is `<dir>/<md5>.mocache`, with no namespace
  prefix (`pomodoro.php:100-102`).
- **Plural count -1.** `abs($count) == 1` selects the singular, so a count
  of -1 also selects it.
- **Stale file, no miss.** A stale cache file with no miss in the run is not
  rewritten. The file exists, so the persist rule is false.
- **`translate` keys.** `translate` keys on the arguments as passed, so an
  explicit null context hashes as a different value from an omitted one.
  `translate_plural` keys on `[$text, $count, $context]` with the context
  defaulted, and that key holds only the form selected by `abs($count)`
  (`PluralKeySharedByUnselectedForm`).

Two weaknesses of the plugin are kept on record.

- **Plural collisions.** The plural key holds only the selected form, but a
  `Mo` answers a plural lookup by its singular. With a count other than 1 or
  -1, `translate_plural` calls that share the plural text but have different
  singulars get one cached answer. The second call returns the translation
  of the first call's singular, which is wrong whenever the translator tells
  the two apart (`Scenario.PluralFormsCollide`). The model keeps the
  plugin's key as written.
- **Inner end marker.** The end-marker check only looks at the bytes just
  before the end of the file. If a cached translation contains the marker
  text, a write cut right after that text passes the check, and the
  truncated script is published (`MarkerInPayloadDefeatsCheck`). `TornWriteKeepsTarget`
  therefore assumes that the marker occurs only at the end of the payload.

## Model

| member | source | states |
|---|---|---|
| Php.NatDigits | pomodoro.php:137 | the digits of a natural number: non-empty, all decimal digits, no leading zero, and they read back to the number |
| Php.Decimal | pomodoro.php:137 | `%d` of an integer: a leading minus sign exactly for negative numbers, digits after it, and the text reads back to the integer |
| Php.Untrailingslashit | pomodoro.php:102 | the result is a prefix of the input that does not end in '/' or '\', and every character removed is one of those |
| Files.AfterWrite | pomodoro.php:134-144 | a write changes only its own path; a complete write stores the data, a cut-short one stores a prefix of it, and a failed one changes nothing |
| Files.Renamed | pomodoro.php:152 | renaming moves the source's bytes to the destination, removes the source and leaves every other path alone; a missing source changes nothing |
| Files.ReadLine | pomodoro.php:151 | `fgets` without a length: nothing at the end of the text; otherwise a non-empty prefix with no newline before its last character, which is a newline unless the prefix is the whole text |
| Files.ReadLineWithoutNewline | pomodoro.php:151 | `fgets` at the start of a text returns a given newline-free line exactly when that line is the whole text |
| Files.TailLineIsSuffix | pomodoro.php:147-151 | seeking back `strlen(END)` bytes from the end and reading a line yields the marker exactly when the content ends with the marker, including when the file is shorter than the marker and the seek fails |
| Files.FileSystem.PutContents | pomodoro.php:134-144 | `file_put_contents` leaves the file map as `AfterWrite` of the old one |
| Files.FileSystem.TailLineEquals | pomodoro.php:147-151 | the check is true exactly when the file exists and the line read after the tail seek is the marker |
| Files.FileSystem.Rename | pomodoro.php:152 | the file map becomes `Renamed` of the old one |
| Files.FileSystem.Unlink | pomodoro.php:155 | the file map loses the path and nothing else |
| Commit.TestPath | pomodoro.php:132 | the scratch path extends the cache path as a proper prefix, so the two never coincide |
| Commit.AfterPublish | pomodoro.php:146-156 | no `.test` file remains; a passing `.test` file's bytes become the cache file; a failing one leaves the cache file as it was, or absent; no other path changes |
| Commit.CommitFile | pomodoro.php:132-156 | the write, the tail check and the rename or unlink leave the files as `AfterPublish` of `AfterWrite` |
| Commit.CompleteWritePublishes | pomodoro.php:134-152 | an uninterrupted write of a payload ending in the marker publishes exactly that payload and leaves no `.test` file |
| Commit.TornWriteKeepsTarget | pomodoro.php:146-156 | a write cut short before its last byte, for a payload whose only occurrence of the marker is at its end, leaves every file except `.test` as it was (the cache file byte for byte) and removes `.test` |
| Commit.MarkerInPayloadDefeatsCheck | pomodoro.php:146-156 | a payload holding the marker before its end, written only up to that inner marker, passes the check and that prefix replaces the cache file |
| Pomodoro.CacheFilePath | pomodoro.php:102 | the cache path lies inside the untrailingslashed temporary directory |
| Pomodoro.Payload | pomodoro.php:134-144 | the cache script always ends with the end marker, and is the script template around the `%d` rendering of the stamp, 0 for a failed `filemtime` |
| Pomodoro.ResolveTempDir | pomodoro.php:27-46 | a truthy stored directory is returned unchanged |
| Pomodoro.LoadedCache | pomodoro.php:106-123 | no cache file, a missing `$_mtime`, or a stamp strictly older than the mofile's give an empty map; an equal or newer stamp, or a failed `filemtime`, adopts the included `$_cache` |
| Pomodoro.DispatchByArity | pomodoro.php:176 | a miss forwards `translate_plural` for every `translate_plural` call, `translate` for a `translate` call with one or two arguments, and always with an argument list the forwarded method accepts |
| Pomodoro.PluralSelection | pomodoro.php:208 | counts 1 and -1 select the singular; 0 and 2 select the plural |
| Pomodoro.TranslateKeysOnPassedArguments | pomodoro.php:200-201 | the keys of `translate($text)` and `translate($text, null)` are the hashes of two different serialized values, so with an injective hash the two keys differ |
| Pomodoro.CacheKeySeparatesLookups | pomodoro.php:216-218 | with an injective hash, two lookups share a cache key exactly when they pass the same arguments in the same domain |
| Pomodoro.CacheFileSeparatesLoads | pomodoro.php:100 | with an injective hash, two loads share a cache file name exactly when domain and filtered mofile agree |
| Pomodoro.StaleOnlyWhenOlder | pomodoro.php:120 | a missing stamp is stale; with both times known a stamp is stale exactly when strictly older; a failed `filemtime` makes no stamped cache stale |
| Pomodoro.PersistWhenNewOrFirst | pomodoro.php:131 | the shutdown rewrite happens after any new value and on a first run with no file and an empty map, and never when nothing was added and either the file exists or the map is non-empty |
| Pomodoro.PluralKeyIgnoresOmittedContext | pomodoro.php:207-210 | `translate_plural` with an omitted context and with an explicit null context use the same key |
| Pomodoro.PluralKeySharedByUnselectedForm | pomodoro.php:208-210 | plural calls that differ only in the form `abs($count)` does not select share one cache key |
| Pomodoro.TempDirSettles | pomodoro.php:27-46 | resolving the temporary directory again gives the same directory |
| Pomodoro.EndMarkerIsOneLine | pomodoro.php:84 | the end marker is non-empty and holds no newline, so `fgets` can read it whole |
| Pomodoro.UninterruptedCommitPublishes | pomodoro.php:134-152 | an uninterrupted write of the cache script passes the check: the cache file then holds the script and no `.test` file remains |
| Pomodoro.MoCacheTranslation.constructor | pomodoro.php:93-123 | the filtered mofile, the cache path from the resolved temporary directory and the name hash, the mofile's `filemtime`, and whether the cache file exists; the map is `LoadedCache` of the included script; not busted, no upstream, nothing forwarded |
| Pomodoro.MoCacheTranslation.GetTranslation | pomodoro.php:163-195 | a hit returns the stored value and changes nothing in the wrapper or its chain; a miss sets `busted`, adds exactly the key with the delegate's answer, logs one forwarded call of the arity-chosen method, and builds the upstream only when there is no override and none was built before; every wrapper in the chain keeps every entry it had |
| Pomodoro.MoCacheTranslation.Translate | pomodoro.php:200-202 | returns `Answer` for the arguments as passed, and afterwards `Answer` for the same arguments is that value; hit and miss effects as for `get_translation` under that key, and every wrapper in the chain keeps every entry it had |
| Pomodoro.MoCacheTranslation.TranslatePlural | pomodoro.php:207-211 | the same for the key `[$text, $count, $context]`; a miss always forwards `translate_plural` |
| Pomodoro.MoCacheTranslation.Finalize | pomodoro.php:127-160 | when busted, or when the map is empty and no file existed, the files become the commit of the cache script to the cache file; otherwise nothing changes |
| Pomodoro.Pomodoro.constructor | pomodoro.php:22 | the stored temporary directory starts empty |
| Pomodoro.Pomodoro.GetTempDir | pomodoro.php:27-46 | returns `ResolveTempDir` of the stored directory and stores what it returns |
| Pomodoro.Pomodoro.OverrideLoadTextdomain | pomodoro.php:52-65 | false with `$l10n` and the directory untouched for an unreadable mofile; otherwise true, the stored directory is resolved, and only `$l10n[$domain]` changes, to a fresh valid wrapper for that domain whose override is the previous entry, or none, with every field the constructor sets: cache path, `filemtime`, file existence, loaded map, not busted, no upstream, nothing forwarded |
| Scenario.CommittedCacheReloads | pomodoro.php:106-144 | if `include` binds the stamp to the integer its literal denotes and the map to the exported map, a just-committed cache file loads back to exactly the committed map, its stamp read back through `Decimal` |
| Scenario.RepeatedLookup | pomodoro.php:167-194 | two identical lookups return the same value, forward exactly one call on a miss and none on a hit, add at most the lookup's key, and keep every existing entry |
| Scenario.LookupThenShutdown | pomodoro.php:93-160 | after one lookup and an uninterrupted shutdown, the cache file exists and loads back to a map holding the answer under the lookup's key |
| Scenario.NextRunHits | pomodoro.php:93-194 | a second run over the files the first run left answers the same lookup identically and forwards nothing |
| Scenario.PluralFormsCollide | pomodoro.php:163-211 | with a foreign translator and a count other than 1 or -1, a plural lookup after another with the same plural and a different singular returns the first answer, which is right exactly when the translator gives both singulars the same answer |

Helpers without a row of their own are covered by the rows that use them:
`Files.SeekFromEnd` and `Files.TailLineIs` by `Files.TailLineIsSuffix`,
`Files.FileSystem.FileMtime` (pomodoro.php:104) by the wrapper's
constructor, `Pomodoro.Dispatch` (pomodoro.php:176) by
`Pomodoro.DispatchByArity`, `Pomodoro.PluralText` and
`Pomodoro.PluralKeyArgs` (pomodoro.php:208-210) by `Pomodoro.PluralSelection`
and the plural-key lemmas, `Pomodoro.CacheKey` (pomodoro.php:216-218) and
`Pomodoro.KeyFor` by `Pomodoro.CacheKeySeparatesLookups` and the key lemmas,
`Pomodoro.Script` by `Pomodoro.Payload`, `Pomodoro.CacheFileName` by `Pomodoro.CacheFileSeparatesLoads`,
`Pomodoro.Stale` by `Pomodoro.StaleOnlyWhenOlder`, `Pomodoro.ShouldPersist`
by `Pomodoro.PersistWhenNewOrFirst`, and `Pomodoro.TempDirFor`
(pomodoro.php:32-43) by `Pomodoro.ResolveTempDir` and
`Pomodoro.Pomodoro.GetTempDir`.

## Left out

- Real I/O. OPcache, `LOCK_EX`, cross-process locking and concurrent
  writers are not modelled. The file system is a map that one process
  changes step by step.
- PHP internals. `md5`, `serialize`, `var_export` and `include` are
  uninterpreted functions. Only `Scenario` assumes how `include` reads a cache
  script (`IncludeReadsBack`): the stamp is the integer its literal denotes,
  and the map reads back as exported. A cache script that fails to
  parse, and is therefore fatal, is not modelled.
- WordPress and `Mo` collaborators. `Mo::import_from_file` and the
  translators' answers are oracles. `do_action('load_textdomain')`, the
  `add_filter` registration in `Pomodoro::init`, and the side effects of
  `wp_mkdir_p` are not modelled. Neither are the `trigger_error` diagnostic
  and `fclose`.
- Shutdown timing. `register_shutdown_function` becomes an explicit
  `Finalize` call. The write outcome (complete, cut short, or failed) is
  passed in as a parameter.
- A process that dies during the shutdown closure. The model always runs
  the end-marker check and the rename or unlink after the write, so a
  `.test` file left behind by a crash mid-write is not modelled.
- Failing `rename` and `unlink`. The closure ignores their `false` results
  (pomodoro.php:152, 155); the model assumes both succeed, so a `.test`
  file left behind by a failed call is not modelled.
- Hash collisions. The key and file-name separation lemmas assume an
  injective `md5(serialize(..))` (`Md5Injective`); every other result holds
  for any hash.
- PHP reference aliasing (`pomodoro.php:115`, `pomodoro.php:125`). The
  wrapper owns its map.
- Unused parameters. `$plugin_override` of `override_load_textdomain` and
  `$text` of `get_translation` are never read, so they are dropped.
- Failed `fopen`. When the `.test` file cannot be opened, the check counts
  as failed and the file is unlinked. That is PHP 7's warning behaviour. PHP 8
  instead throws a TypeError from `fseek`.
- AbsIsOne: `abs($count)` is modelled for integer counts only. Any other
  count is treated as not equal to one, with no numeric-string or float
  coercion.
- Null translations. Translators return strings, so `isset` on a stored
  entry is the same as key membership. A translator returning null, which
  PHP would treat as a miss again, is not modelled.
- `tests/wpunit/bootstrap.php` and `tests/wpunit/src/BaseWpTest.php`. They
  are test-harness setup and hold none of the plugin's logic.
