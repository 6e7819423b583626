/**
 * The trust analysis of one dependency: locate its GitHub repository from
 * the `repository.url` of its package, read the repository's statistics from
 * a time-expiring cache or from GitHub, and classify the repository as
 * highly trusted, little trusted or indeterminate.
 *
 * The GitHub client is a `Remote` function given by the caller, and
 * `Date.now()` becomes the `Instants` the caller passes in. The imperative
 * operations (`GetRepoData`, `Analyze`) are proved against the pure
 * functions `RepoDataRun` and `AnalyzeRun`, which also list the effects on
 * the cache and the network in order.
 */
module RepoAnalysis {
  import opened Wrappers
  import opened Arborist
  import opened RepoUrl

  // Time constants for cache expiration, in milliseconds.
  const MILLISECONDS: int := 1
  const SECONDS: int := 1000 * MILLISECONDS
  const MINUTES: int := 60 * SECONDS
  const HOURS: int := 60 * MINUTES
  const DAYS: int := 24 * HOURS

  /** How far a dependency's repository is trusted. */
  datatype Trust = Low | High | Indeterminate

  /** What the analysis records about a repository. */
  datatype RepoData = RepoData(url: string, owner: string, repo: string, forks: nat, stars: nat,
                               version: string, dependencies: nat)

  datatype Assessment = Assessment(trust: Trust, data: RepoData)

  /** `None` stands for the analysis `null`: no usable repository data. */
  type Analysis = Option<Assessment>

  /** The fields of GitHub's "get a repository" response the analysis reads. */
  datatype RepoResponse = RepoResponse(cloneUrl: string, ownerLogin: string, name: string,
                                       forksCount: nat, stargazersCount: nat)

  datatype CacheEntry = CacheEntry(timestamp: int, data: RepoResponse)

  /** The answer of the GitHub API for one repository: the response, or a
      failure (the client throws). */
  datatype Fetched = Fetched(response: RepoResponse) | FetchFailed

  type Remote = (string, string) -> Fetched

  /** The two readings of the clock during one lookup: the freshness check,
      and the timestamp stored after a fetch. */
  datatype Instants = Instants(check: int, stamp: int)

  /** How an asynchronous operation settles: with a value, or rejected. */
  datatype Outcome<T> = Returned(value: T) | Threw

  /** The observable steps of a lookup, in the order they happen. */
  datatype Effect = CacheRead(key: string) | Fetch(owner: string, repo: string) | CacheWrite(key: string, entry: CacheEntry)

  /** The result of a run of the pipeline, the cache it leaves and its effects. */
  datatype Run<T> = Run(result: Outcome<T>, entries: map<string, CacheEntry>, effects: seq<Effect>)

  /** The version a node declares, "0.0.0" when its package has none. */
  function DeclaredVersion(pkg: Package): (v: string)
    ensures pkg.version.Some? ==> v == pkg.version.value
    ensures pkg.version.None? ==> v == "0.0.0"
  {
    pkg.version.GetOr("0.0.0")
  }

  /** `version.split(".")[0]`: the text before the first '.', or all of it. */
  function MajorComponent(v: string): (r: string)
    ensures |r| <= |v| && r == v[..|r|]
    ensures '.' !in r
    ensures |r| < |v| ==> v[|r|] == '.'
  {
    if v == [] || v[0] == '.' then [] else [v[0]] + MajorComponent(v[1..])
  }

  /** The rule chain of `Analyze`: popular repositories are trusted, then
      repositories without forks or stars, or at a 0.x version, are not. */
  function Classify(data: RepoData, version: string): (t: Trust)
    ensures t == High <==> data.forks >= 500 || data.stars >= 500
    ensures t == Low <==>
      && data.forks < 500 && data.stars < 500
      && (data.forks == 0 || data.stars == 0 || MajorComponent(version) == "0")
  {
    if data.forks >= 500 || data.stars >= 500 then High
    else if data.forks == 0 || data.stars == 0 || MajorComponent(version) == "0" then Low
    else Indeterminate
  }

  /** `extractRepoData`: the record combines GitHub's own spelling of the
      repository (its clone URL, owner login and name, not the lower-cased
      parts of the package's URL) and its statistics with the node's own
      version and out-edge count. */
  function ExtractRepoData(data: RepoResponse, node: Node): (r: RepoData)
    ensures r.url == data.cloneUrl && r.owner == data.ownerLogin && r.repo == data.name
    ensures r.forks == data.forksCount && r.stars == data.stargazersCount
    ensures r.version == DeclaredVersion(node.package)
    ensures r.dependencies == |node.edgesOut|
  {
    RepoData(data.cloneUrl, data.ownerLogin, data.name, data.forksCount, data.stargazersCount,
             DeclaredVersion(node.package), |node.edgesOut|)
  }

  function CacheKey(r: RepoRef): (k: string)
    ensures |k| == 8 + |r.owner| + |r.repo| && k[..7] == "github/"
    ensures k[7..7 + |r.owner|] == r.owner && k[7 + |r.owner|] == '/' && k[8 + |r.owner|..] == r.repo
  {
    "github/" + r.owner + "/" + r.repo
  }

  /** A cached entry is reused while less than a day has passed since it was
      stored. */
  predicate IsFresh(entry: CacheEntry, now: int) {
    now < entry.timestamp + 1 * DAYS
  }

  /** `getRepoData`, as a function of the cache contents it starts from. */
  function RepoDataRun(node: Node, url: string, entries: map<string, CacheEntry>, remote: Remote, t: Instants)
    : (run: Run<Option<RepoData>>)
    ensures run.result == Returned(None) <==> Locate(url).None?
    ensures run.effects == [] <==> Locate(url).None?
    ensures run.result.Threw? ==> run.entries == entries
    ensures run.result.Returned? && run.result.value.Some? ==>
      run.result.value.value.version == DeclaredVersion(node.package)
      && run.result.value.value.dependencies == |node.edgesOut|
  {
    match Locate(url)
    case None => Run(Returned(None), entries, [])
    case Some(ref) =>
      var key := CacheKey(ref);
      if key in entries && IsFresh(entries[key], t.check) then
        Run(Returned(Some(ExtractRepoData(entries[key].data, node))), entries, [CacheRead(key)])
      else
        match remote(ref.owner, ref.repo)
        case FetchFailed => Run(Threw, entries, [CacheRead(key), Fetch(ref.owner, ref.repo)])
        case Fetched(response) =>
          var entry := CacheEntry(t.stamp, response);
          Run(Returned(Some(ExtractRepoData(response, node))), entries[key := entry],
              [CacheRead(key), Fetch(ref.owner, ref.repo), CacheWrite(key, entry)])
  }

  /** The repository URL a node's package declares, when it is non-empty. */
  function RepositoryUrl(node: Node): (r: Option<string>)
    ensures r.Some? <==>
      node.package.repository.Some? && node.package.repository.value.url.Some?
      && node.package.repository.value.url.value != ""
    ensures r.Some? ==> r.value == node.package.repository.value.url.value
  {
    match node.package.repository
    case None => None
    case Some(repository) =>
      if repository.url.None? || repository.url.value == "" then None else repository.url
  }

  /** `Analyze`, as a function of the cache contents it starts from. */
  function AnalyzeRun(node: Option<Node>, entries: map<string, CacheEntry>, remote: Remote, t: Instants)
    : Run<Analysis>
  {
    if node.None? then Run(Returned(None), entries, [])
    else
      match RepositoryUrl(node.value)
      case None => Run(Returned(None), entries, [])
      case Some(url) =>
        var data := RepoDataRun(node.value, url, entries, remote, t);
        match data.result
        case Threw => Run(Threw, data.entries, data.effects)
        case Returned(None) => Run(Returned(None), data.entries, data.effects)
        case Returned(Some(d)) =>
          Run(Returned(Some(Assessment(Classify(d, DeclaredVersion(node.value.package)), d))), data.entries, data.effects)
  }

  /** The persistent key-value store the extension keeps across sessions,
      holding cache entries. */
  class Cache {
    var entries: map<string, CacheEntry>

    constructor(entries: map<string, CacheEntry>)
      ensures this.entries == entries
    {
      this.entries := entries;
    }

    function Get(key: string): (r: Option<CacheEntry>)
      reads this
      ensures r.Some? <==> key in entries
      ensures r.Some? ==> r.value == entries[key]
    {
      if key in entries then Some(entries[key]) else None
    }

    method Update(key: string, value: CacheEntry)
      modifies this
      ensures entries == old(entries)[key := value]
    {
      entries := entries[key := value];
    }
  }

  /** `getRepoData`: parse the URL, then reuse a fresh cache entry or fetch the
      repository and cache the response. */
  method GetRepoData(node: Node, url: string, cache: Cache, remote: Remote, t: Instants)
    returns (result: Outcome<Option<RepoData>>, ghost effects: seq<Effect>)
    modifies cache
    ensures var run := RepoDataRun(node, url, old(cache.entries), remote, t);
      result == run.result && cache.entries == run.entries && effects == run.effects
  {
    var located := Locate(url);
    if located.None? {
      return Returned(None), [];
    }
    var ref := located.value;
    var key := CacheKey(ref);
    var cached := cache.Get(key);
    effects := [CacheRead(key)];
    if cached.Some? && IsFresh(cached.value, t.check) {
      return Returned(Some(ExtractRepoData(cached.value.data, node))), effects;
    }
    var fetched := remote(ref.owner, ref.repo);
    effects := effects + [Fetch(ref.owner, ref.repo)];
    if fetched.FetchFailed? {
      return Threw, effects;
    }
    var toCache := CacheEntry(t.stamp, fetched.response);
    cache.Update(key, toCache);
    effects := effects + [CacheWrite(key, toCache)];
    result := Returned(Some(ExtractRepoData(fetched.response, node)));
  }

  /** `Analyze`: the trust assessment of a node, or `None` when the node has
      no usable repository. */
  method Analyze(node: Option<Node>, cache: Cache, remote: Remote, t: Instants)
    returns (result: Outcome<Analysis>, ghost effects: seq<Effect>)
    modifies cache
    ensures var run := AnalyzeRun(node, old(cache.entries), remote, t);
      result == run.result && cache.entries == run.entries && effects == run.effects
  {
    if node.None? {
      return Returned(None), [];
    }
    var url := RepositoryUrl(node.value);
    if url.None? {
      return Returned(None), [];
    }
    var data;
    data, effects := GetRepoData(node.value, url.value, cache, remote, t);
    if data.Threw? {
      return Threw, effects;
    }
    if data.value.None? {
      return Returned(None), effects;
    }
    var version := DeclaredVersion(node.value.package);
    var d := data.value.value;
    result := Returned(Some(Assessment(Classify(d, version), d)));
  }

  // ---------------------------------------------------------------------
  // Properties of the classifier and of the record

  function Rank(t: Trust): nat {
    match t
    case Low => 0
    case Indeterminate => 1
    case High => 2
  }

  /** More forks and stars never lower the trust in a repository. */
  lemma ClassifyMonotone(d1: RepoData, d2: RepoData, version: string)
    requires d1.forks <= d2.forks && d1.stars <= d2.stars
    ensures Rank(Classify(d1, version)) <= Rank(Classify(d2, version))
  {
  }

  /** A package without a version counts as 0.x, so it is little trusted
      unless its repository is popular. */
  lemma MissingVersionIsLow(data: RepoData, pkg: Package)
    requires pkg.version.None? && data.forks < 500 && data.stars < 500
    ensures Classify(data, DeclaredVersion(pkg)) == Low
  {
    assert MajorComponent("0.0.0") == "0" by {
      assert "0.0.0"[1] == '.';
    }
  }

  /** Only the text before the first '.' decides: "0.9.1" is a 0.x version,
      "10.0.0" and a version without a '.' other than "0" are not. */
  lemma MajorComponentExamples()
    ensures MajorComponent("0.9.1") == "0"
    ensures MajorComponent("10.0.0") == "10"
    ensures MajorComponent("01") == "01"
    ensures MajorComponent("") == ""
  {
    assert "0.9.1"[1] == '.';
    assert "10.0.0"[2] == '.';
  }

  /** The record's version and dependency count are the node's own: they do
      not depend on what GitHub answered. */
  lemma ExtractKeepsNodeFacts(d1: RepoResponse, d2: RepoResponse, node: Node)
    ensures ExtractRepoData(d1, node).version == ExtractRepoData(d2, node).version
    ensures ExtractRepoData(d1, node).dependencies == ExtractRepoData(d2, node).dependencies
    ensures ExtractRepoData(d1, node).dependencies >= |ProdTargets(node.edgesOut)|
  {
  }

  // ---------------------------------------------------------------------
  // Properties of the cache

  /** One day is 86,400,000 milliseconds, and an entry is fresh for exactly
      that long after its timestamp. */
  lemma ReuseWindow(entry: CacheEntry, now: int)
    ensures DAYS == 86_400_000
    ensures IsFresh(entry, now) <==> now - entry.timestamp < 86_400_000
  {
  }

  /** Parsed owners and repositories hold no '/', so distinct repositories
      never share a cache key. */
  lemma CacheKeyInjective(a: RepoRef, b: RepoRef)
    requires '/' !in a.owner && '/' !in b.owner
    requires CacheKey(a) == CacheKey(b)
    ensures a == b
  {
    var s := CacheKey(a);
    if |a.owner| < |b.owner| {
      ShorterOwnerKey(a, b);
    } else if |b.owner| < |a.owner| {
      ShorterOwnerKey(b, a);
    } else {
      assert a.owner == s[7..7 + |a.owner|] == b.owner;
      assert a.repo == s[8 + |a.owner|..] == b.repo;
    }
  }

  /** Where the shorter owner ends, its key has a '/' the other does not. */
  lemma ShorterOwnerKey(a: RepoRef, b: RepoRef)
    requires |a.owner| < |b.owner| && '/' !in b.owner
    ensures CacheKey(a) != CacheKey(b)
  {
    assert CacheKey(a)[7 + |a.owner|] == '/';
    assert CacheKey(b)[7 + |a.owner|] == b.owner[|a.owner|];
  }

  /** A URL that is rejected is rejected before the cache or the network is
      touched. */
  lemma RejectedUrlHasNoEffects(node: Node, url: string, entries: map<string, CacheEntry>, remote: Remote, t: Instants)
    requires Locate(url).None?
    ensures RepoDataRun(node, url, entries, remote, t) == Run(Returned(None), entries, [])
  {
  }

  /** A fresh entry is used as it is: one read, no fetch, no write. */
  lemma FreshEntryReused(node: Node, url: string, entries: map<string, CacheEntry>, remote: Remote, t: Instants)
    requires Locate(url).Some?
    requires var key := CacheKey(Locate(url).value); key in entries && IsFresh(entries[key], t.check)
    ensures var key := CacheKey(Locate(url).value);
      RepoDataRun(node, url, entries, remote, t)
      == Run(Returned(Some(ExtractRepoData(entries[key].data, node))), entries, [CacheRead(key)])
  {
  }

  function Fetches(effects: seq<Effect>): nat {
    if effects == [] then 0 else (if effects[0].Fetch? then 1 else 0) + Fetches(effects[1..])
  }

  function Writes(effects: seq<Effect>): nat {
    if effects == [] then 0 else (if effects[0].CacheWrite? then 1 else 0) + Writes(effects[1..])
  }

  /** A missing or stale entry causes exactly one fetch; when the fetch
      succeeds, exactly one write of the same key with the stamp time and the
      response, and when it fails, no write at all and a rejection. */
  lemma StaleEntryRefetched(node: Node, url: string, entries: map<string, CacheEntry>, remote: Remote, t: Instants)
    requires Locate(url).Some?
    requires var key := CacheKey(Locate(url).value); key !in entries || !IsFresh(entries[key], t.check)
    ensures var ref := Locate(url).value;
      var key := CacheKey(ref);
      var run := RepoDataRun(node, url, entries, remote, t);
      && Fetches(run.effects) == 1
      && run.effects[..2] == [CacheRead(key), Fetch(ref.owner, ref.repo)]
      && match remote(ref.owner, ref.repo)
         case FetchFailed =>
           && run.result == Threw && run.entries == entries && Writes(run.effects) == 0
           && run.effects == [CacheRead(key), Fetch(ref.owner, ref.repo)]
         case Fetched(response) =>
           && run.result == Returned(Some(ExtractRepoData(response, node)))
           && run.entries == entries[key := CacheEntry(t.stamp, response)]
           && Writes(run.effects) == 1
           && run.effects == [CacheRead(key), Fetch(ref.owner, ref.repo), CacheWrite(key, CacheEntry(t.stamp, response))]
  {
    var ref := Locate(url).value;
    var key := CacheKey(ref);
    var run := RepoDataRun(node, url, entries, remote, t);
    match remote(ref.owner, ref.repo)
    case FetchFailed =>
      assert run.effects == [CacheRead(key), Fetch(ref.owner, ref.repo)];
      assert run.effects[1..] == [Fetch(ref.owner, ref.repo)];
      assert run.effects[1..][1..] == [];
      assert Fetches(run.effects[1..]) == 1 && Writes(run.effects[1..]) == 0;
    case Fetched(response) =>
      var entry := CacheEntry(t.stamp, response);
      assert run.effects == [CacheRead(key), Fetch(ref.owner, ref.repo), CacheWrite(key, entry)];
      assert run.effects[1..] == [Fetch(ref.owner, ref.repo), CacheWrite(key, entry)];
      assert run.effects[1..][1..] == [CacheWrite(key, entry)];
      assert run.effects[1..][1..][1..] == [];
      assert Fetches(run.effects[1..][1..]) == 0 && Writes(run.effects[1..][1..]) == 1;
      assert Fetches(run.effects[1..]) == 1 && Writes(run.effects[1..]) == 1;
  }

  /** Whatever the cache holds, a lookup writes at most the key of the
      repository it was asked for, and keeps every other entry. */
  lemma OtherKeysUntouched(node: Node, url: string, entries: map<string, CacheEntry>, remote: Remote, t: Instants,
                           other: string)
    requires Locate(url).None? || other != CacheKey(Locate(url).value)
    ensures var run := RepoDataRun(node, url, entries, remote, t);
      (other in run.entries <==> other in entries) && (other in entries ==> run.entries[other] == entries[other])
  {
  }

  /** Upper-case letters in the host, owner or repository do not change the
      cache key. */
  lemma CaseInsensitiveKey()
    ensures Locate("https://github.com/foo/bar.git").Some?
    ensures Locate("git://x@GITHUB.COM/Foo/Bar.git").Some?
    ensures CacheKey(Locate("https://github.com/foo/bar.git").value) == "github/foo/bar"
    ensures CacheKey(Locate("git://x@GITHUB.COM/Foo/Bar.git").value) == "github/foo/bar"
  {
    PlainHttpsUrl();
    UserAndUpperCaseUrl();
    FooBarKey();
  }

  lemma FooBarKey()
    ensures CacheKey(RepoRef("foo", "bar")) == "github/foo/bar"
  {
  }

  // ---------------------------------------------------------------------
  // Properties of the analysis

  /** A node without a non-empty repository URL is not analysed, and the
      cache is not touched. */
  lemma NoUrlNoAnalysis(node: Option<Node>, entries: map<string, CacheEntry>, remote: Remote, t: Instants)
    requires node.None? || RepositoryUrl(node.value).None?
    ensures AnalyzeRun(node, entries, remote, t) == Run(Returned(None), entries, [])
  {
  }

  /** An analysis has the effects and leaves the cache of the `getRepoData`
      it runs, is rejected exactly when that is, and every assessment carries
      the record `getRepoData` produced, with the trust the rule chain gives
      it at the node's declared version. */
  lemma AssessmentOfRecord(node: Node, entries: map<string, CacheEntry>, remote: Remote, t: Instants)
    requires RepositoryUrl(node).Some?
    ensures var run := AnalyzeRun(Some(node), entries, remote, t);
      var data := RepoDataRun(node, RepositoryUrl(node).value, entries, remote, t);
      && run.entries == data.entries && run.effects == data.effects
      && (run.result.Threw? <==> data.result.Threw?)
      && (run.result.Threw? ==> run.entries == entries)
      && (run.result == Returned(None) <==> data.result == Returned(None))
      && (run.result.Returned? && run.result.value.Some? ==>
            && data.result == Returned(Some(run.result.value.value.data))
            && run.result.value.value.trust == Classify(run.result.value.value.data, run.result.value.value.data.version))
  {
  }
}
