/** What a caller observes across lookups and across runs, proved from the
    contracts of the cache alone. */
module Scenario {
  import opened Php
  import opened Files
  import opened Commit
  import opened Pomodoro

  /** PHP's `include` of a cache script binds `$_mtime` to the integer its
      literal denotes and `$_cache` to the exported map; the domain is bound
      too but never read. */
  ghost predicate IncludeReadsBack(rt: Runtime) {
    forall stamp, domain, cache :: Numeral(stamp) ==>
      rt.includeScript(Script(rt, stamp, domain, cache)) == Bindings(Some(DecimalValue(stamp)), cache)
  }

  /** Under that reading, a cache file just committed is loaded back whole:
      `%d` prints the stamp so that it reads back as the current `filemtime`
      (0 for a failed one), so it is never stale. */
  lemma CommittedCacheReloads(rt: Runtime, mtime: Option<int>, domain: string, cache: map<string, string>)
    requires IncludeReadsBack(rt)
    ensures LoadedCache(true, rt.includeScript(Payload(rt, mtime, domain, cache)), mtime) == cache
  {
    var stamp := match mtime case Some(m) => m case None => 0;
    var printed := Decimal(stamp);
    assert Payload(rt, mtime, domain, cache) == Script(rt, printed, domain, cache);
    var loaded := rt.includeScript(Script(rt, printed, domain, cache));
    assert loaded == Bindings(Some(DecimalValue(printed)), cache);
    assert loaded.mtime == Some(stamp);
    assert !Stale(loaded.mtime, mtime);
  }

  /** Within one run a second identical lookup is a hit: the same answer,
      and only the first lookup, when it misses, forwards a call. */
  method RepeatedLookup(w: MoCacheTranslation, args: seq<Value>) returns (first: string, second: string)
    requires w.Valid() && Accepts(TranslateFn, args)
    modifies w.Repr
    ensures w.Valid()
    ensures second == first
    ensures |w.delegated| == |old(w.delegated)| + (if KeyFor(w.rt, w.domain, TranslateFn, args) in old(w.cache) then 0 else 1)
    ensures w.cache.Keys <= old(w.cache.Keys) + {KeyFor(w.rt, w.domain, TranslateFn, args)}
    ensures forall k :: k in old(w.cache) ==> k in w.cache && w.cache[k] == old(w.cache[k])
  {
    first := w.Translate(args);
    ghost var between := w.delegated;
    second := w.Translate(args);
    assert w.delegated == between;
  }

  /** One run that looks `args` up once and shuts down with an uninterrupted
      write: afterwards its cache file exists and loads back to a map that
      holds the run's answer under the lookup's key. */
  method LookupThenShutdown(rt: Runtime, fs: FileSystem, mofile: string, domain: string, args: seq<Value>)
    returns (first: string, ghost file: string, ghost kept: map<string, string>)
    requires IncludeReadsBack(rt) && Accepts(TranslateFn, args)
    modifies fs
    ensures file == CacheFilePath(ResolveTempDir("", rt), CacheFileName(rt, domain, rt.filterMofile(mofile, domain)))
    ensures file in fs.files
    ensures kept == LoadedCache(true, rt.includeScript(fs.files[file]), fs.FileMtime(rt.filterMofile(mofile, domain)))
    ensures var key := KeyFor(rt, domain, TranslateFn, args); key in kept && kept[key] == first
  {
    var p := new Pomodoro();
    var w := new MoCacheTranslation(p, fs, rt, mofile, domain, None);
    ghost var before := fs.files;
    var key := KeyFor(rt, domain, TranslateFn, args);
    ghost var wasHit := key in w.cache;
    first := w.Translate(args);
    w.Finalize(fs, Complete);
    file := w.cacheFile;
    kept := w.cache;
    if !wasHit {
      UninterruptedCommitPublishes(rt, before, file, w.mtime, domain, kept);
      CommittedCacheReloads(rt, w.mtime, domain, kept);
    }
  }

  /** Two runs over the same files: whatever the first run answers and
      commits without interruption, the next run answers from its cache file,
      forwarding nothing. */
  method NextRunHits(rt: Runtime, fs: FileSystem, mofile: string, domain: string, args: seq<Value>)
    returns (first: string, second: string, ghost forwarded: seq<Call>)
    requires IncludeReadsBack(rt) && Accepts(TranslateFn, args)
    modifies fs
    ensures second == first && forwarded == []
  {
    ghost var file, kept;
    first, file, kept := LookupThenShutdown(rt, fs, mofile, domain, args);
    var p := new Pomodoro();
    var w := new MoCacheTranslation(p, fs, rt, mofile, domain, None);
    assert w.cache == kept;
    second := w.Translate(args);
    forwarded := w.delegated;
  }

  /** The plural key holds the selected form only, but a `Mo` answers a
      plural lookup by its singular. So with a count other than 1 or -1, two
      calls with the same plural and different singulars share one cached
      answer: the second gets the translation of the first call's singular,
      which is wrong whenever the translator tells the two apart. */
  method PluralFormsCollide(w: MoCacheTranslation, s1: Value, s2: Value, plural: Value, count: Value)
    returns (first: string, second: string)
    requires w.Valid() && w.override.Some? && w.override.value.Foreign?
    requires !AbsIsOne(count) && KeyFor(w.rt, w.domain, TranslatePluralFn, [s1, plural, count]) !in w.cache
    modifies w.Repr
    ensures first == w.override.value.t.call(TranslatePluralFn, [s1, plural, count])
    ensures second == first
    ensures var t := w.override.value.t;
            (second == t.call(TranslatePluralFn, [s2, plural, count])) <==>
            (t.call(TranslatePluralFn, [s1, plural, count]) == t.call(TranslatePluralFn, [s2, plural, count]))
  {
    first := w.TranslatePlural([s1, plural, count]);
    PluralKeySharedByUnselectedForm(w.rt, w.domain, s1, s2, plural, plural, count, []);
    assert [s1, plural, count] + [] == [s1, plural, count];
    assert [s2, plural, count] + [] == [s2, plural, count];
    second := w.TranslatePlural([s2, plural, count]);
  }
}
