/** The translation cache: `MoCache_Translation`, a per-textdomain memo in
    front of a translation lookup, and `Pomodoro`, which installs it as the
    textdomain's entry in WordPress's `$l10n` and resolves the cache directory. */
module Pomodoro {
  import opened Php
  import opened Files
  import opened Commit

  /** `MoCache_Translation::END`, the marker every cache script ends with:
      POMODORO_END_e867edfb-4a36-4643-8ad4-b95507068e44. It is spelled as a
      concatenation of shorter literals so that `EndMarkerIsOneLine` can see
      that none of its characters is a newline. */
  const END: string := "POMODORO_END_" + "e867edfb-" + "4a36-" + "4643-" + "8ad4-" + "b95507068e44"

  /** The two lookup methods a translations object answers. */
  datatype Fn = TranslateFn | TranslatePluralFn

  /** One call forwarded to the override or to the `Mo` upstream. */
  datatype Call = Call(fn: Fn, args: seq<Value>)

  /** A translations object outside the plugin (a `Mo`, a `NOOP_Translations`,
      ...): what `call_user_func_array([$t, $fn], $args)` returns. */
  datatype Translator = Translator(call: (Fn, seq<Value>) -> string)

  /** The variables a cache script binds when it is included: `$_mtime`
      (None when it is not set) and `$_cache` (empty when it is not set). */
  datatype Bindings = Bindings(mtime: Option<int>, cache: map<string, string>)

  /** Everything the plugin asks of PHP and WordPress beyond the file system. */
  datatype Runtime = Runtime(
    md5: Value -> string,                     // md5(serialize($v))
    varExport: Value -> string,               // var_export($v, true)
    includeScript: seq<char> -> Bindings,     // the bindings of `include` on a script
    filterMofile: (string, string) -> string, // apply_filters('load_textdomain_mofile', $mofile, $domain)
    homeUrl: string,                          // get_home_url()
    loadMo: string -> Translator,             // a new Mo after import_from_file($mofile)
    cacheDir: Option<string>,                 // POMODORO_CACHE_DIR, when defined
    mkdir: string -> bool,                    // wp_mkdir_p($path)
    wpTempDir: string)                        // WordPress get_temp_dir()

  /** An entry of `$l10n`: a foreign translations object or a cache wrapper. */
  datatype Entry = Foreign(t: Translator) | Cached(w: MoCacheTranslation)

  /** The argument lists each lookup method accepts: its required parameters. */
  predicate Accepts(fn: Fn, args: seq<Value>) {
    match fn
    case TranslateFn => |args| >= 1
    case TranslatePluralFn => |args| >= 3
  }

  /** The method a miss forwards to: the plural lookup when more than two
      arguments were passed, the singular one otherwise. */
  function Dispatch(args: seq<Value>): Fn {
    if |args| > 2 then TranslatePluralFn else TranslateFn
  }

  /** The text a plural lookup selects: the singular form exactly when the
      count's absolute value is one. */
  function PluralText(singular: Value, plural: Value, count: Value): Value {
    if AbsIsOne(count) then singular else plural
  }

  /** What a plural lookup keys on: the selected text, the count and the
      context, which is null when the caller omits it. */
  function PluralKeyArgs(args: seq<Value>): seq<Value>
    requires |args| >= 3
  {
    [PluralText(args[0], args[1], args[2]), args[2], if |args| > 3 then args[3] else Null]
  }

  /** The cache key: the md5 of the serialized pair of arguments and domain. */
  function CacheKey(rt: Runtime, domain: string, args: seq<Value>): string {
    rt.md5(List([List(args), Str(domain)]))
  }

  /** The key a lookup method files its answer under: `translate` keys on the
      arguments as passed, `translate_plural` on `PluralKeyArgs`. */
  function KeyFor(rt: Runtime, domain: string, fn: Fn, args: seq<Value>): string
    requires Accepts(fn, args)
  {
    match fn
    case TranslateFn => CacheKey(rt, domain, args)
    case TranslatePluralFn => CacheKey(rt, domain, PluralKeyArgs(args))
  }

  /** The cache file: the name with a `.mocache` extension, inside the
      temporary directory stripped of its trailing slashes. */
  function CacheFilePath(tempDir: string, filename: string): (path: string)
    ensures Untrailingslashit(tempDir) + "/" < path
  {
    Untrailingslashit(tempDir) + "/" + filename + ".mocache"
  }

  /** The cache file name hash: md5(serialize([get_home_url(), $domain, $mofile])). */
  function CacheFileName(rt: Runtime, domain: string, mofile: string): string {
    rt.md5(List([Str(rt.homeUrl), Str(domain), Str(mofile)]))
  }

  /** The invalidation rule: a cache with no stamp, or one strictly older than
      the translation file, is stale. A failed `filemtime` is false, and no
      integer compares below false. */
  predicate Stale(stored: Option<int>, current: Option<int>) {
    stored.None? || (current.Some? && stored.value < current.value)
  }

  /** The persist decision: the cache gained an entry, or it is empty and no
      cache file exists yet. */
  predicate ShouldPersist(busted: bool, cache: map<string, string>, fileExists: bool) {
    busted || (|cache| == 0 && !fileExists)
  }

  /** The cache script around an already printed stamp: assignments of the
      stamp, the domain and the exported map, then a comment holding the end
      marker. */
  function Script(rt: Runtime, stamp: string, domain: string, cache: map<string, string>): (p: string)
    ensures HasSuffix(p, END)
  {
    var head := "<?php $_mtime = " + stamp + "; $_domain = " + rt.varExport(Str(domain))
      + "; $_cache = " + rt.varExport(Dict(cache)) + "; // ";
    SuffixOfConcat(head, END);
    head + END
  }

  /** The script the shutdown closure writes: the stamp is printed by `%d`,
      which prints a failed `filemtime` (false) as 0. */
  function Payload(rt: Runtime, mtime: Option<int>, domain: string, cache: map<string, string>): (p: string)
    ensures HasSuffix(p, END)
    ensures p == Script(rt, Decimal(match mtime case Some(m) => m case None => 0), domain, cache)
  {
    var stamp := match mtime case Some(m) => m case None => 0;
    Script(rt, Decimal(stamp), domain, cache)
  }

  /** The directory `Pomodoro::get_temp_dir` settles on when nothing is stored yet. */
  function TempDirFor(rt: Runtime): string {
    if rt.cacheDir.Some? && Truthy(rt.cacheDir.value) && rt.mkdir(rt.cacheDir.value) then rt.cacheDir.value
    else rt.wpTempDir
  }

  /** `Pomodoro::get_temp_dir` given the stored `$tmp_dir_path`. */
  function ResolveTempDir(stored: string, rt: Runtime): (path: string)
    ensures Truthy(stored) ==> path == stored
  {
    if Truthy(stored) then stored else TempDirFor(rt)
  }

  /** The map the constructor starts from: the included `$_cache` when the
      file exists and is not stale, else empty. */
  function LoadedCache(fileExists: bool, loaded: Bindings, mtime: Option<int>): (c: map<string, string>)
    ensures !fileExists ==> c == map[]
    ensures fileExists && loaded.mtime.None? ==> c == map[]
    ensures fileExists && loaded.mtime.Some? && mtime.Some? && loaded.mtime.value < mtime.value ==> c == map[]
    ensures fileExists && loaded.mtime.Some? && (mtime.None? || mtime.value <= loaded.mtime.value) ==> c == loaded.cache
  {
    if fileExists && !Stale(loaded.mtime, mtime) then loaded.cache else map[]
  }

  /** A miss forwards `translate_plural` exactly when more than two arguments
      were passed: always from `translate_plural`, and also from a `translate`
      given extra arguments. */
  lemma DispatchByArity(args: seq<Value>)
    ensures Accepts(TranslatePluralFn, args) ==> Dispatch(args) == TranslatePluralFn
    ensures 1 <= |args| <= 2 ==> Dispatch(args) == TranslateFn
    ensures Accepts(TranslateFn, args) ==> Accepts(Dispatch(args), args)
  {
  }

  /** `abs($count) == 1` picks the singular, so -1 does too; 0 and 2 pick the plural. */
  lemma PluralSelection(singular: Value, plural: Value)
    ensures PluralText(singular, plural, Int(1)) == singular
    ensures PluralText(singular, plural, Int(-1)) == singular
    ensures PluralText(singular, plural, Int(0)) == plural
    ensures PluralText(singular, plural, Int(2)) == plural
  {
  }

  /** `translate` keys on the arguments as passed: an explicit null context
      is hashed as a different value from an omitted one. */
  lemma TranslateKeysOnPassedArguments(rt: Runtime, domain: string, text: Value)
    ensures KeyFor(rt, domain, TranslateFn, [text]) == rt.md5(List([List([text]), Str(domain)]))
    ensures KeyFor(rt, domain, TranslateFn, [text, Null]) == rt.md5(List([List([text, Null]), Str(domain)]))
    ensures List([List([text]), Str(domain)]) != List([List([text, Null]), Str(domain)])
    ensures Md5Injective(rt) ==> KeyFor(rt, domain, TranslateFn, [text]) != KeyFor(rt, domain, TranslateFn, [text, Null])
  {
    assert |[text]| != |[text, Null]|;
  }

  /** An idealised `md5(serialize(..))` that never maps two values to one
      hash; real md5 only makes collisions unlikely. */
  ghost predicate Md5Injective(rt: Runtime) {
    forall a, b :: rt.md5(a) == rt.md5(b) ==> a == b
  }

  /** With an injective hash, two lookups share a cache key exactly when they
      hash the same arguments in the same domain. */
  lemma CacheKeySeparatesLookups(rt: Runtime, d1: string, d2: string, a1: seq<Value>, a2: seq<Value>)
    requires Md5Injective(rt)
    ensures CacheKey(rt, d1, a1) == CacheKey(rt, d2, a2) <==> a1 == a2 && d1 == d2
  {
    if CacheKey(rt, d1, a1) == CacheKey(rt, d2, a2) {
      assert List([List(a1), Str(d1)]) == List([List(a2), Str(d2)]);
      assert [List(a1), Str(d1)][0] == [List(a2), Str(d2)][0];
      assert [List(a1), Str(d1)][1] == [List(a2), Str(d2)][1];
    }
  }

  /** With an injective hash, two textdomain loads share a cache file name
      exactly when they have the same domain and the same filtered mofile. */
  lemma CacheFileSeparatesLoads(rt: Runtime, d1: string, d2: string, m1: string, m2: string)
    requires Md5Injective(rt)
    ensures CacheFileName(rt, d1, m1) == CacheFileName(rt, d2, m2) <==> d1 == d2 && m1 == m2
  {
    if CacheFileName(rt, d1, m1) == CacheFileName(rt, d2, m2) {
      var v1 := [Str(rt.homeUrl), Str(d1), Str(m1)];
      var v2 := [Str(rt.homeUrl), Str(d2), Str(m2)];
      assert List(v1) == List(v2);
      assert v1[1] == v2[1] && v1[2] == v2[2];
    }
  }

  /** Only a missing stamp or a strictly older one invalidates: an equal or
      newer stamp is kept, and a failed `filemtime` invalidates nothing that
      carries a stamp. */
  lemma StaleOnlyWhenOlder(stored: Option<int>, current: Option<int>)
    ensures stored.None? ==> Stale(stored, current)
    ensures stored.Some? && current.Some? ==> (Stale(stored, current) <==> stored.value < current.value)
    ensures stored.Some? && current.None? ==> !Stale(stored, current)
  {
  }

  /** The shutdown rewrite happens for every run that found a new value, for
      a first run with no cache file even when nothing was looked up, and
      never for a run that added nothing to a cache file that exists. */
  lemma PersistWhenNewOrFirst(busted: bool, cache: map<string, string>, fileExists: bool)
    ensures busted ==> ShouldPersist(busted, cache, fileExists)
    ensures !fileExists && cache == map[] ==> ShouldPersist(busted, cache, fileExists)
    ensures !busted && fileExists ==> !ShouldPersist(busted, cache, fileExists)
    ensures !busted && cache != map[] ==> !ShouldPersist(busted, cache, fileExists)
  {
  }

  /** `translate_plural` keys on `$context` with its default, so an explicit
      null context and an omitted one share a key. */
  lemma PluralKeyIgnoresOmittedContext(rt: Runtime, domain: string, singular: Value, plural: Value, count: Value)
    ensures KeyFor(rt, domain, TranslatePluralFn, [singular, plural, count])
         == KeyFor(rt, domain, TranslatePluralFn, [singular, plural, count, Null])
  {
  }

  /** The plural key holds only the selected form: two calls that differ only
      in the form `abs($count)` does not select share a key. */
  lemma PluralKeySharedByUnselectedForm(rt: Runtime, domain: string, s1: Value, s2: Value, p1: Value, p2: Value, count: Value, rest: seq<Value>)
    ensures AbsIsOne(count) ==>
              KeyFor(rt, domain, TranslatePluralFn, [s1, p1, count] + rest)
                == KeyFor(rt, domain, TranslatePluralFn, [s1, p2, count] + rest)
    ensures !AbsIsOne(count) ==>
              KeyFor(rt, domain, TranslatePluralFn, [s1, p1, count] + rest)
                == KeyFor(rt, domain, TranslatePluralFn, [s2, p1, count] + rest)
  {
    assert ([s1, p1, count] + rest)[2] == count;
    assert |rest| > 0 ==> ([s1, p1, count] + rest)[3] == rest[0];
    assert |rest| > 0 ==> ([s1, p2, count] + rest)[3] == rest[0];
    assert |rest| > 0 ==> ([s2, p1, count] + rest)[3] == rest[0];
  }

  /** Once resolved, the temporary directory stays what it is: a second call
      of `get_temp_dir` answers the same. */
  lemma TempDirSettles(stored: string, rt: Runtime)
    ensures ResolveTempDir(ResolveTempDir(stored, rt), rt) == ResolveTempDir(stored, rt)
  {
  }

  lemma EndMarkerIsOneLine()
    ensures END != [] && '\n' !in END
  {
  }

  /** An uninterrupted write of the cache script passes the end-marker check:
      the cache file then holds the script and no `.test` file is left. */
  lemma UninterruptedCommitPublishes(rt: Runtime, files: Files, cacheFile: string, mtime: Option<int>,
                                     domain: string, cache: map<string, string>)
    ensures var script := Payload(rt, mtime, domain, cache);
            AfterPublish(AfterWrite(files, TestPath(cacheFile), script, Complete), cacheFile, END)
              == (files - {TestPath(cacheFile)})[cacheFile := script]
  {
    EndMarkerIsOneLine();
    CompleteWritePublishes(files, cacheFile, Payload(rt, mtime, domain, cache), END);
  }

  ghost function EntryRepr(override: Option<Entry>): set<MoCacheTranslation>
    reads if override.Some? && override.value.Cached? then {override.value.w} else {}
  {
    if override.Some? && override.value.Cached? then override.value.w.Repr else {}
  }

  /** `MoCache_Translation`: one textdomain's cache over its mofile. */
  class MoCacheTranslation {
    const rt: Runtime
    const domain: string
    const mofile: string
    const override: Option<Entry>
    /** Values the constructor computes and the shutdown closure captures. */
    const cacheFile: string
    const mtime: Option<int>
    const fileExists: bool

    var cache: map<string, string>
    var busted: bool
    var upstream: Option<Translator>

    /** How many times a `Mo` upstream was built and imported. */
    ghost var imports: nat
    /** The calls forwarded to the override or the upstream, in order. */
    ghost var delegated: seq<Call>
    /** This wrapper and every wrapper down its override chain. */
    ghost var Repr: set<MoCacheTranslation>

    ghost predicate Valid()
      reads this, Repr
      decreases Repr
    {
      && this in Repr
      && imports == (if upstream.Some? then 1 else 0)
      && (upstream.Some? ==> upstream.value == rt.loadMo(mofile))
      && (override.Some? ==> upstream.None?)
      && (override.Some? && override.value.Cached? ==>
            var w := override.value.w;
            w in Repr && w.Repr <= Repr && this !in w.Repr && w.Valid())
    }

    /** What a call of `fn` with `args` on this wrapper returns in the current
        state: the cached value under its key, or else the delegate's answer. */
    ghost function Answer(fn: Fn, args: seq<Value>): string
      requires Valid() && Accepts(fn, args)
      reads this, Repr
      decreases Repr, 1
    {
      var key := KeyFor(rt, domain, fn, args);
      if key in cache then cache[key] else Delegate(Dispatch(args), args)
    }

    /** What the override, or else the `Mo` upstream, answers to `fn` with `args`. */
    ghost function Delegate(fn: Fn, args: seq<Value>): string
      requires Valid() && Accepts(fn, args)
      reads this, Repr
      decreases Repr, 0
    {
      match override
      case Some(Foreign(t)) => t.call(fn, args)
      case Some(Cached(w)) => w.Answer(fn, args)
      case None => rt.loadMo(mofile).call(fn, args)
    }

    /** The constructor: resolve the file names, then load the cache file
        unless it is missing or stale. */
    constructor (p: Pomodoro, fs: FileSystem, rt: Runtime, mofile: string, domain: string, override: Option<Entry>)
      requires override.Some? && override.value.Cached? ==> override.value.w.Valid()
      modifies p
      ensures Valid() && Repr == {this} + EntryRepr(override)
      ensures this.rt == rt && this.domain == domain && this.override == override
      ensures this.mofile == rt.filterMofile(mofile, domain)
      ensures p.tmpDirPath == ResolveTempDir(old(p.tmpDirPath), rt)
      ensures cacheFile == CacheFilePath(p.tmpDirPath, CacheFileName(rt, domain, this.mofile))
      ensures mtime == fs.FileMtime(this.mofile)
      ensures fileExists == (cacheFile in fs.files)
      ensures cache == LoadedCache(fileExists, if fileExists then rt.includeScript(fs.files[cacheFile]) else Bindings(None, map[]), mtime)
      ensures !busted && upstream.None? && imports == 0 && delegated == []
    {
      this.rt := rt;
      var filtered := rt.filterMofile(mofile, domain);
      this.mofile := filtered;
      this.domain := domain;
      this.override := override;
      var tempDir := p.GetTempDir(rt);
      var path := CacheFilePath(tempDir, CacheFileName(rt, domain, filtered));
      this.cacheFile := path;
      var stamp := fs.FileMtime(filtered);
      this.mtime := stamp;
      var found := path in fs.files;
      this.fileExists := found;
      var loaded := Bindings(None, map[]);
      if found {
        loaded := rt.includeScript(fs.files[path]);
      }
      cache := loaded.cache;
      if found && Stale(loaded.mtime, stamp) {
        cache := map[];
      }
      busted := false;
      upstream := None;
      imports := 0;
      delegated := [];
      Repr := {this} + EntryRepr(override);
    }

    /** `get_translation`: answer from the cache, or mark the cache busted,
        ask the override (else the lazily built `Mo` upstream) and store
        the answer under `key`. */
    method GetTranslation(key: string, args: seq<Value>) returns (r: string)
      requires Valid() && |args| >= 1
      modifies Repr
      decreases Repr, 0
      ensures Valid() && Repr == old(Repr)
      ensures forall v :: v in old(Repr) ==>
                forall k :: k in old(v.cache) ==> k in v.cache && v.cache[k] == old(v.cache[k])
      ensures key in old(cache) ==> r == old(cache[key]) && unchanged(Repr)
      ensures key !in old(cache) ==>
                && r == old(Delegate(Dispatch(args), args))
                && busted
                && cache == old(cache)[key := r]
                && delegated == old(delegated) + [Call(Dispatch(args), args)]
                && imports == old(imports) + (if override.None? && old(upstream).None? then 1 else 0)
    {
      if key in cache {
        return cache[key];
      }
      busted := true;
      var fn := Dispatch(args);
      delegated := delegated + [Call(fn, args)];
      if override.Some? {
        match override.value
        case Foreign(t) =>
          r := t.call(fn, args);
        case Cached(w) =>
          match fn
          case TranslateFn => r := w.Translate(args);
          case TranslatePluralFn => r := w.TranslatePlural(args);
      } else {
        if upstream.None? {
          upstream := Some(rt.loadMo(mofile));
          imports := imports + 1;
        }
        r := upstream.value.call(fn, args);
      }
      cache := cache[key := r];
    }

    /** `translate($text, $context = null)`, keyed on the arguments as passed. */
    method Translate(args: seq<Value>) returns (r: string)
      requires Valid() && Accepts(TranslateFn, args)
      modifies Repr
      decreases Repr, 1
      ensures Valid() && Repr == old(Repr)
      ensures forall v :: v in old(Repr) ==>
                forall k :: k in old(v.cache) ==> k in v.cache && v.cache[k] == old(v.cache[k])
      ensures r == old(Answer(TranslateFn, args)) && Answer(TranslateFn, args) == r
      ensures var key := KeyFor(rt, domain, TranslateFn, args);
              key in old(cache) ==> unchanged(Repr)
      ensures var key := KeyFor(rt, domain, TranslateFn, args);
              key !in old(cache) ==>
                && busted
                && cache == old(cache)[key := r]
                && delegated == old(delegated) + [Call(Dispatch(args), args)]
                && imports == old(imports) + (if override.None? && old(upstream).None? then 1 else 0)
    {
      r := GetTranslation(CacheKey(rt, domain, args), args);
    }

    /** `translate_plural($singular, $plural, $count, $context = null)`. */
    method TranslatePlural(args: seq<Value>) returns (r: string)
      requires Valid() && Accepts(TranslatePluralFn, args)
      modifies Repr
      decreases Repr, 1
      ensures Valid() && Repr == old(Repr)
      ensures forall v :: v in old(Repr) ==>
                forall k :: k in old(v.cache) ==> k in v.cache && v.cache[k] == old(v.cache[k])
      ensures r == old(Answer(TranslatePluralFn, args)) && Answer(TranslatePluralFn, args) == r
      ensures var key := KeyFor(rt, domain, TranslatePluralFn, args);
              key in old(cache) ==> unchanged(Repr)
      ensures var key := KeyFor(rt, domain, TranslatePluralFn, args);
              key !in old(cache) ==>
                && busted
                && cache == old(cache)[key := r]
                && delegated == old(delegated) + [Call(TranslatePluralFn, args)]
                && imports == old(imports) + (if override.None? && old(upstream).None? then 1 else 0)
    {
      var text := PluralText(args[0], args[1], args[2]);
      var context := if |args| > 3 then args[3] else Null;
      r := GetTranslation(CacheKey(rt, domain, [text, args[2], context]), args);
    }

    /** The shutdown closure: when the cache should be persisted, commit its
        script to the cache file. */
    method Finalize(fs: FileSystem, outcome: WriteOutcome)
      modifies fs
      ensures ShouldPersist(busted, cache, fileExists) ==>
                fs.files == AfterPublish(AfterWrite(old(fs.files), TestPath(cacheFile),
                                                    Payload(rt, mtime, domain, cache), outcome), cacheFile, END)
      ensures !ShouldPersist(busted, cache, fileExists) ==> fs.files == old(fs.files)
    {
      if busted || (|cache| == 0 && !fileExists) {
        CommitFile(fs, cacheFile, Payload(rt, mtime, domain, cache), END, outcome);
      }
    }
  }

  /** The static state of class `Pomodoro`: `$tmp_dir_path`. */
  class Pomodoro {
    var tmpDirPath: string

    constructor ()
      ensures tmpDirPath == ""
    {
      tmpDirPath := "";
    }

    /** `Pomodoro::get_temp_dir`: the stored path if it is truthy, else
        POMODORO_CACHE_DIR when defined, truthy and creatable, else
        WordPress's temporary directory; the result is stored. */
    method GetTempDir(rt: Runtime) returns (path: string)
      modifies this
      ensures path == ResolveTempDir(old(tmpDirPath), rt) && tmpDirPath == path
    {
      if Truthy(tmpDirPath) {
        return tmpDirPath;
      }
      if rt.cacheDir.Some? && Truthy(rt.cacheDir.value) {
        var pathExists := rt.mkdir(rt.cacheDir.value);
        if pathExists {
          tmpDirPath := rt.cacheDir.value;
          return tmpDirPath;
        }
      }
      tmpDirPath := rt.wpTempDir;
      return tmpDirPath;
    }

    /** `Pomodoro::override_load_textdomain`: for a readable mofile, install a
        new wrapper as `$l10n[$domain]`, chaining the previous entry as its
        override, and report true; otherwise report false. */
    method OverrideLoadTextdomain(l10n: TextDomains, fs: FileSystem, rt: Runtime, domain: string, mofile: string)
      returns (ok: bool)
      requires domain in l10n.entries && l10n.entries[domain].Cached? ==> l10n.entries[domain].w.Valid()
      modifies this, l10n
      ensures ok <==> mofile in fs.files
      ensures !ok ==> l10n.entries == old(l10n.entries) && tmpDirPath == old(tmpDirPath)
      ensures ok ==> domain in l10n.entries && l10n.entries[domain].Cached?
      ensures ok ==> l10n.entries == old(l10n.entries)[domain := l10n.entries[domain]]
      ensures ok ==> tmpDirPath == ResolveTempDir(old(tmpDirPath), rt)
      ensures ok ==>
                var w := l10n.entries[domain].w;
                && fresh(w) && w.Valid() && w.domain == domain && w.rt == rt
                && w.mofile == rt.filterMofile(mofile, domain)
                && w.override == (if domain in old(l10n.entries) then Some(old(l10n.entries[domain])) else None)
                && w.Repr == {w} + EntryRepr(w.override)
                && w.cacheFile == CacheFilePath(tmpDirPath, CacheFileName(rt, domain, w.mofile))
                && w.mtime == fs.FileMtime(w.mofile)
                && w.fileExists == (w.cacheFile in fs.files)
                && w.cache == LoadedCache(w.fileExists, if w.fileExists then rt.includeScript(fs.files[w.cacheFile]) else Bindings(None, map[]), w.mtime)
                && !w.busted && w.upstream.None? && w.imports == 0 && w.delegated == []
    {
      if mofile !in fs.files {
        return false;
      }
      var upstream := if domain in l10n.entries then Some(l10n.entries[domain]) else None;
      var mo := new MoCacheTranslation(this, fs, rt, mofile, domain, upstream);
      l10n.entries := l10n.entries[domain := Cached(mo)];
      return true;
    }
  }

  /** WordPress's global `$l10n`: the translations object of each textdomain. */
  class TextDomains {
    var entries: map<string, Entry>

    constructor (entries: map<string, Entry>)
      ensures this.entries == entries
    {
      this.entries := entries;
    }
  }
}
