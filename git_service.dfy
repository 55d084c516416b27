/** The workspace side of internal/services/git.go: the clone cache and the
    per-URL rate limiter that GitService keeps in two maps, and the pure parts
    of the helpers around git's output. Git subprocesses are answers passed in,
    the clock is an integer number of nanoseconds, and the file system is a map
    from full paths to contents. */
module Git {
  import opened Text
  import opened Effects

  const Minute: int := 60_000_000_000                 // time.Minute in nanoseconds
  const MinCloneInterval: int := 5 * Minute           // checkRateLimit's minInterval
  const CacheLifetime: int := 30 * Minute             // getCachedRepo's expiry
  const DefaultWorkDir: Bytes := Ascii("/tmp/webhook-demo")
  const RepoDirPrefix: Bytes := Ascii("repo_")

  // ---------------------------------------------------------------------
  // Paths

  /** filepath.Join of two non-empty, already clean elements. */
  function PathJoin(dir: Bytes, name: Bytes): (r: Bytes)
    ensures HasPrefix(r, dir) && HasSuffix(r, name)
  {
    if dir != [] && dir[|dir| - 1] == Slash then dir + name else dir + [Slash] + name
  }

  // ---------------------------------------------------------------------
  // The cache key

  /** The input generateCacheKey hashes: url, ':' and the branch. The md5 digest
      is taken to be injective, so this input stands for the key. */
  function CacheKey(url: Bytes, branch: Bytes): (key: Bytes)
    ensures |key| == |url| + 1 + |branch|
  {
    url + [Colon] + branch
  }

  /** For URLs without ':' the key determines the URL and the branch. */
  lemma CacheKeyInjective(url1: Bytes, branch1: Bytes, url2: Bytes, branch2: Bytes)
    requires Colon !in url1 && Colon !in url2
    requires CacheKey(url1, branch1) == CacheKey(url2, branch2)
    ensures url1 == url2 && branch1 == branch2
  {
    var key := CacheKey(url1, branch1);
    assert key[..|url1|] == url1 && key[|url1|] == Colon;
    assert key[..|url2|] == url2 && key[|url2|] == Colon;
    IndexByteAt(key, Colon, |url1|);
    IndexByteAt(key, Colon, |url2|);
    assert key[|url1| + 1..] == branch1;
    assert key[|url2| + 1..] == branch2;
  }

  /** Every real clone URL has a ':' in its scheme, and then two different
      (url, branch) pairs can share one key. */
  lemma CacheKeyCollision()
    ensures CacheKey(Ascii("h:a"), Ascii("b")) == CacheKey(Ascii("h"), Ascii("a:b"))
    ensures Ascii("h:a") != Ascii("h")
  {
    assert Ascii("h:a") == [104, Colon, 97];
    assert Ascii("h") == [104];
    assert Ascii("a:b") == [97, Colon, 98];
    assert Ascii("b") == [98];
  }

  // ---------------------------------------------------------------------
  // The cache and the rate limiter

  /** One cache entry; lastUpdate is a clock reading. */
  datatype CachedRepo = CachedRepo(path: Bytes, url: Bytes, branch: Bytes, lastUpdate: int, valid: bool)

  /** checkRateLimit: a URL cloned less than five minutes ago must wait for
      the rest of those five minutes. */
  function RateLimit(lastClone: map<Bytes, int>, url: Bytes, now: int): (r: Option<Failure>)
    ensures r.Some? <==> url in lastClone && now - lastClone[url] < MinCloneInterval
    ensures r.Some? ==> r.value == RateLimited(MinCloneInterval - (now - lastClone[url])) && r.value.wait > 0
  {
    if url in lastClone && now - lastClone[url] < MinCloneInterval
    then Some(RateLimited(MinCloneInterval - (now - lastClone[url])))
    else None
  }

  /** getCachedRepo's test: present, valid, at most thirty minutes old, and
      its directory still exists. */
  predicate Usable(cache: map<Bytes, CachedRepo>, key: Bytes, now: int, present: Bytes -> bool)
  {
    key in cache && cache[key].valid && now - cache[key].lastUpdate <= CacheLifetime && present(cache[key].path)
  }

  /** Where GitService.CloneRepository takes a clone from at time now: the
      rate limit is checked first, then the cache; otherwise git clones. */
  datatype CloneStep = Limited(failure: Failure) | FromCache(path: Bytes) | Fresh

  function NextClone(lastClone: map<Bytes, int>, cache: map<Bytes, CachedRepo>, url: Bytes, branch: Bytes,
                     now: int, present: Bytes -> bool): (r: CloneStep)
    ensures r.Limited? <==> RateLimit(lastClone, url, now).Some?
    ensures r.Limited? ==> r.failure == RateLimit(lastClone, url, now).value
    ensures r.FromCache? <==> RateLimit(lastClone, url, now).None? && Usable(cache, CacheKey(url, branch), now, present)
    ensures r.FromCache? ==> r.path == cache[CacheKey(url, branch)].path
  {
    if RateLimit(lastClone, url, now).Some? then Limited(RateLimit(lastClone, url, now).value)
    else if Usable(cache, CacheKey(url, branch), now, present) then FromCache(cache[CacheKey(url, branch)].path)
    else Fresh
  }

  /** Within five minutes of recording a clone of a URL, asking again for it is
      refused, whatever the cache holds. */
  lemma RecentCloneLimited(lastClone: map<Bytes, int>, url: Bytes, at: int, now: int)
    requires at <= now < at + MinCloneInterval
    ensures RateLimit(lastClone[url := at], url, now) == Some(RateLimited(MinCloneInterval - (now - at)))
  {
  }

  /** A clone recorded at time at and cached at time done (at <= done) is served
      from the cache at time now only if now is at least five minutes after at
      and at most thirty minutes after done. */
  lemma CacheServesOnlyInWindow(lastClone: map<Bytes, int>, cache: map<Bytes, CachedRepo>,
                                url: Bytes, branch: Bytes, path: Bytes, at: int, done: int, now: int,
                                present: Bytes -> bool)
    requires at <= done
    requires NextClone(lastClone[url := at], cache[CacheKey(url, branch) := CachedRepo(path, url, branch, done, true)],
                       url, branch, now, present).FromCache?
    ensures at + MinCloneInterval <= now <= done + CacheLifetime
  {
    var lc := lastClone[url := at];
    assert RateLimit(lc, url, now).None?;
  }

  /** The state GitService holds: the work directory and the two maps. */
  class GitService {
    var workDir: Bytes
    var repoCache: map<Bytes, CachedRepo>
    var lastCloneMap: map<Bytes, int>

    /** NewGitService: an empty cache in the given or the default directory. */
    constructor (dir: Bytes)
      ensures workDir == (if dir == [] then DefaultWorkDir else dir)
      ensures repoCache == map[] && lastCloneMap == map[]
    {
      workDir := if dir == [] then DefaultWorkDir else dir;
      repoCache := map[];
      lastCloneMap := map[];
    }

    /** checkRateLimit reads the clone times only. */
    method CheckRateLimit(url: Bytes, now: int) returns (err: Option<Failure>)
      ensures err == RateLimit(lastCloneMap, url, now)
    {
      if url in lastCloneMap {
        var elapsed := now - lastCloneMap[url];
        if elapsed < MinCloneInterval {
          return Some(RateLimited(MinCloneInterval - elapsed));
        }
      }
      return None;
    }

    /** recordCloneTime overwrites the URL's clone time. */
    method RecordCloneTime(url: Bytes, now: int)
      modifies this
      ensures lastCloneMap == old(lastCloneMap)[url := now]
      ensures repoCache == old(repoCache) && workDir == old(workDir)
    {
      lastCloneMap := lastCloneMap[url := now];
    }

    /** getCachedRepo: the entry when it is usable; the cache is never changed,
        even for an expired or vanished entry. */
    method GetCachedRepo(key: Bytes, now: int, present: Bytes -> bool) returns (r: Option<CachedRepo>)
      ensures r.Some? <==> Usable(repoCache, key, now, present)
      ensures r.Some? ==> r.value == repoCache[key]
    {
      if key !in repoCache || !repoCache[key].valid {
        return None;
      }
      var cached := repoCache[key];
      if now - cached.lastUpdate > CacheLifetime {
        return None;
      }
      if !present(cached.path) {
        return None;
      }
      return Some(cached);
    }

    /** cacheRepo overwrites exactly one key. */
    method CacheRepo(key: Bytes, repo: CachedRepo)
      modifies this
      ensures repoCache == old(repoCache)[key := repo]
      ensures lastCloneMap == old(lastCloneMap) && workDir == old(workDir)
    {
      repoCache := repoCache[key := repo];
    }

    /** ClearCache: removes the directory of every entry that has a path and
        empties the cache; the clone times stay. The directories removed are
        returned. */
    method ClearCache() returns (removed: set<Bytes>)
      modifies this
      ensures repoCache == map[]
      ensures lastCloneMap == old(lastCloneMap) && workDir == old(workDir)
      ensures removed == CachedPaths(old(repoCache))
    {
      removed := {};
      while repoCache != map[]
        invariant removed + CachedPaths(repoCache) == CachedPaths(old(repoCache))
        invariant lastCloneMap == old(lastCloneMap) && workDir == old(workDir)
        decreases repoCache.Keys
      {
        var key :| key in repoCache;
        var repo := repoCache[key];
        CachedPathsRemove(repoCache, key);
        if repo.path != [] {
          removed := removed + {repo.path};
        }
        repoCache := repoCache - {key};
      }
      assert CachedPaths(map[]) == {};
    }

    /** CloneRepository: refuses within five minutes of the last clone of the
        URL (before looking at the cache), serves a usable cache entry, and
        otherwise records the time, clones into workDir/repo_<stamp> and caches
        the result only when the clone succeeded. The clock is read at now and,
        after the clone, at done; attempt is git clone. */
    method CloneRepository(url: Bytes, branch: Bytes, now: int, done: int, stamp: Bytes,
                           present: Bytes -> bool, attempt: (Bytes, Bytes, Bytes) -> Answer)
      returns (r: Outcome<Bytes>)
      modifies this
      ensures workDir == old(workDir)
      ensures var step := NextClone(old(lastCloneMap), old(repoCache), url, branch, now, present);
        var path := PathJoin(old(workDir), RepoDirPrefix + stamp);
        var answer := attempt(url, branch, path);
        match step
        case Limited(f) => r == Fail(f) && lastCloneMap == old(lastCloneMap) && repoCache == old(repoCache)
        case FromCache(p) => r == Ok(p) && lastCloneMap == old(lastCloneMap) && repoCache == old(repoCache)
        case Fresh =>
          lastCloneMap == old(lastCloneMap)[url := now] &&
          (answer.Refused? ==> (r == Fail(CloneAttemptFailed(answer.message)) && repoCache == old(repoCache))) &&
          (answer.Done? ==>
             (r == Ok(path) && repoCache == old(repoCache)[CacheKey(url, branch) := CachedRepo(path, url, branch, done, true)]))
    {
      var limited := CheckRateLimit(url, now);
      if limited.Some? {
        return Fail(limited.value);
      }
      var key := CacheKey(url, branch);
      var cached := GetCachedRepo(key, now, present);
      if cached.Some? {
        return Ok(cached.value.path);
      }
      var path := PathJoin(workDir, RepoDirPrefix + stamp);
      RecordCloneTime(url, now);
      var answer := attempt(url, branch, path);
      if answer.Refused? {
        return Fail(CloneAttemptFailed(answer.message));
      }
      CacheRepo(key, CachedRepo(path, url, branch, done, true));
      return Ok(path);
    }
  }

  /** The non-empty directories of the cache entries. */
  function CachedPaths(cache: map<Bytes, CachedRepo>): set<Bytes>
  {
    set k | k in cache && cache[k].path != [] :: cache[k].path
  }

  /** Taking one entry out of the cache takes out at most its directory. */
  lemma CachedPathsRemove(cache: map<Bytes, CachedRepo>, key: Bytes)
    requires key in cache
    ensures CachedPaths(cache) == CachedPaths(cache - {key}) + (if cache[key].path != [] then {cache[key].path} else {})
  {
    var rest := cache - {key};
    forall p | p in CachedPaths(cache)
      ensures p in CachedPaths(rest) || (cache[key].path != [] && p == cache[key].path)
    {
      var k :| k in cache && cache[k].path != [] && cache[k].path == p;
      if k != key {
        assert k in rest;
      }
    }
  }

  // ---------------------------------------------------------------------
  // Reading git's output

  /** HasChanges on the output of git diff --cached --name-only: the output
      holds a byte that is not white space. */
  predicate HasChanges(output: Bytes)
  {
    exists k :: 0 <= k < |output| && !IsSpace(output[k])
  }

  /** HasChanges is the source's test that the trimmed output is not empty. */
  lemma HasChangesTrimmed(output: Bytes)
    ensures HasChanges(output) <==> TrimSpace(output) != []
  {
    TrimSpaceEmpty(output);
  }

  /** GetModifiedFiles on the same output: no files for blank output, else its
      lines once trimmed. */
  function ModifiedFiles(output: Bytes): (files: seq<Bytes>)
  {
    var lines := Split(TrimSpace(output), Newline);
    if |lines| == 1 && lines[0] == [] then [] else lines
  }

  /** The files, joined back with newlines, are the trimmed output; there are
      none exactly when HasChanges says there is nothing staged. */
  lemma ModifiedFilesLines(output: Bytes)
    ensures Join(ModifiedFiles(output), Newline) == TrimSpace(output)
    ensures ModifiedFiles(output) == [] <==> !HasChanges(output)
    ensures forall k :: 0 <= k < |ModifiedFiles(output)| ==> Newline !in ModifiedFiles(output)[k]
  {
    var t := TrimSpace(output);
    var lines := Split(t, Newline);
    JoinSplit(t, Newline);
    SplitPieces(t, Newline);
    HasChangesTrimmed(output);
    assert Join([[]], Newline) == [];
    if t == [] {
      assert lines == [[]];
    }
  }

  const DiffLimit: nat := 10000
  const NoDiffChanges: Bytes := [0x50, 0x52, 0xE6, 0x97, 0xA0, 0xE4, 0xBB, 0xA3, 0xE7, 0xA0, 0x81, 0xE5, 0x8F, 0x98, 0xE6, 0x9B, 0xB4]  // PR无代码变更
  const DiffUnavailable: Bytes := [0xE6, 0x97, 0xA0, 0xE6, 0xB3, 0x95, 0xE8, 0x8E, 0xB7, 0xE5, 0x8F, 0x96, 0x50, 0x52, 0xE4, 0xBB, 0xA3, 0xE7, 0xA0, 0x81, 0xE5, 0xB7, 0xAE, 0xE5, 0xBC, 0x82]  // 无法获取PR代码差异
  const HistoryUnavailable: Bytes := [0xE6, 0x97, 0xA0, 0xE6, 0xB3, 0x95, 0xE8, 0x8E, 0xB7, 0xE5, 0x8F, 0x96, 0x50, 0x52, 0xE5, 0xB7, 0xAE, 0xE5, 0xBC, 0x82, 0xE4, 0xBF, 0xA1, 0xE6, 0x81, 0xAF]  // 无法获取PR差异信息
  const TruncationMarker: Bytes := [0x0A, 0x0A, 0x2E, 0x2E, 0x2E, 0x20, 0x28, 0x64, 0x69, 0x66, 0x66, 0xE5, 0x86, 0x85, 0xE5, 0xAE, 0xB9, 0xE8, 0xBF, 0x87, 0xE9, 0x95, 0xBF, 0xEF, 0xBC, 0x8C, 0xE5, 0xB7, 0xB2, 0xE6, 0x88, 0xAA, 0xE6, 0x96, 0xAD, 0x29]  // \n\n... (diff内容过长，已截断)

  /** A diff longer than 10000 bytes keeps its first 10000 and the marker. */
  function TruncateDiff(diff: Bytes): (r: Bytes)
    ensures |diff| <= DiffLimit ==> r == diff
    ensures |diff| > DiffLimit ==> |r| == DiffLimit + |TruncationMarker| && HasPrefix(r, diff[..DiffLimit]) && HasSuffix(r, TruncationMarker)
  {
    if |diff| > DiffLimit then diff[..DiffLimit] + TruncationMarker else diff
  }

  /** GetPullRequestDiff, given the answers of git fetch, git diff and (the
      fallback) git log --stat: the text and the error returned. */
  function PullRequestDiff(fetch: Answer, diff: Answer, history: Answer): (r: (Bytes, Option<Failure>))
    ensures fetch.Refused? ==> r == (if history.Done? then (history.text, None) else (HistoryUnavailable, Some(Remote(history.message))))
    ensures fetch.Done? ==> r.1 == None
    ensures fetch.Done? && diff.Refused? ==> r.0 == DiffUnavailable
    ensures fetch.Done? && diff.Done? && diff.text == [] ==> r.0 == NoDiffChanges
    ensures fetch.Done? && diff.Done? && diff.text != [] ==> r.0 == TruncateDiff(diff.text)
  {
    if fetch.Refused? then
      if history.Done? then (history.text, None) else (HistoryUnavailable, Some(Remote(history.message)))
    else if diff.Refused? then (DiffUnavailable, None)
    else if diff.text == [] then (NoDiffChanges, None)
    else (TruncateDiff(diff.text), None)
  }

  /** Only the first 10000 bytes of a long diff show. */
  lemma TruncatedDiffsAgree(d1: Bytes, d2: Bytes)
    requires |d1| > DiffLimit && |d2| > DiffLimit && d1[..DiffLimit] == d2[..DiffLimit]
    ensures TruncateDiff(d1) == TruncateDiff(d2)
  {
  }

  // ---------------------------------------------------------------------
  // The working copy's files

  /** The files of the working copies, by full path. */
  class Workspace {
    var files: map<Bytes, Bytes>

    constructor (initial: map<Bytes, Bytes>)
      ensures files == initial
    {
      files := initial;
    }

    /** WriteFile: the file at repoPath/file gets the whole new content. */
    method WriteFile(repoPath: Bytes, file: Bytes, content: Bytes)
      modifies this
      ensures files == old(files)[PathJoin(repoPath, file) := content]
    {
      files := files[PathJoin(repoPath, file) := content];
    }

    /** DeleteFile: a missing file counts as deleted. */
    method DeleteFile(repoPath: Bytes, file: Bytes) returns (err: Option<Failure>)
      modifies this
      ensures err == None
      ensures files == Without(old(files), PathJoin(repoPath, file))
    {
      var full := PathJoin(repoPath, file);
      if full !in files {
        return None;
      }
      files := Without(files, full);
      return None;
    }

    /** GetFileContent: the content of an existing file of at most maxSize bytes. */
    method FileContent(repoPath: Bytes, file: Bytes, maxSize: int) returns (r: Outcome<Bytes>)
      ensures r == ReadLimited(files, PathJoin(repoPath, file), maxSize)
    {
      var full := PathJoin(repoPath, file);
      if full !in files {
        return Fail(FileMissing(full));
      }
      var content := files[full];
      if |content| > maxSize {
        return Fail(FileTooLarge(|content|, maxSize));
      }
      return Ok(content);
    }
  }

  /** The files with one path removed. */
  function Without(files: map<Bytes, Bytes>, path: Bytes): (r: map<Bytes, Bytes>)
    ensures path !in r
    ensures forall p :: p in r <==> p in files && p != path
    ensures forall p :: p in r ==> r[p] == files[p]
  {
    map p | p in files && p != path :: files[p]
  }

  /** Deleting twice is deleting once, and deleting a missing file changes nothing. */
  lemma DeleteIdempotent(files: map<Bytes, Bytes>, path: Bytes)
    ensures Without(Without(files, path), path) == Without(files, path)
    ensures path !in files ==> Without(files, path) == files
  {
  }

  /** The size check of GetFileContent. */
  function ReadLimited(files: map<Bytes, Bytes>, path: Bytes, maxSize: int): (r: Outcome<Bytes>)
    ensures r.Ok? <==> path in files && |files[path]| <= maxSize
    ensures r.Ok? ==> r.value == files[path]
    ensures path in files && |files[path]| > maxSize ==> r == Fail(FileTooLarge(|files[path]|, maxSize))
  {
    if path !in files then Fail(FileMissing(path))
    else if |files[path]| > maxSize then Fail(FileTooLarge(|files[path]|, maxSize))
    else Ok(files[path])
  }
}
