/** The caching wrapper around a plugin client (pkg/plugins/cache.go). */
module PluginCache {
  import opened Wrappers
  import opened Text

  datatype CompatibilityInfo = CompatibilityInfo(minecraftVersions: seq<string>, paperVersions: seq<string>)

  datatype Request = Versions(project: string) | Compatibility(project: string, version: string)

  datatype Answer = VersionList(versions: seq<string>) | Info(compat: CompatibilityInfo)

  datatype CacheEntry = CacheEntry(answer: Answer, expiresAt: int)

  /** An answer of the wrapped client, and when it was put into the cache. */
  datatype Fetched = Fetched(request: Request, answer: Answer, at: int)

  function KeyOf(r: Request): string {
    match r
    case Versions(p) => "versions:" + p
    case Compatibility(p, v) => "compat:" + p + ":" + v
  }

  // ---------------------------------------------------------------- keys

  lemma KindsApart(project: string, other: string)
    ensures !("compat:" + other <= "versions:" + project)
  {
    assert ("compat:" + other)[0] == 'c' && ("versions:" + project)[0] == 'v';
  }

  /** Two requests share a key exactly when they are equal, or when one project and its colon begin the other project. */
  lemma KeysEqualIff(r: Request, s: Request)
    ensures KeyOf(r) == KeyOf(s) <==>
              match (r, s)
              case (Versions(p), Versions(q)) => p == q
              case (Compatibility(p, v), Compatibility(q, w)) => p + ":" + v == q + ":" + w
              case _ => false
  {
    match (r, s)
    case (Versions(p), Versions(q)) => CancelPrefix("versions:", p, q);
    case (Compatibility(p, v), Compatibility(q, w)) =>
      assert KeyOf(r) == "compat:" + (p + ":" + v) && KeyOf(s) == "compat:" + (q + ":" + w);
      CancelPrefix("compat:", p + ":" + v, q + ":" + w);
    case (Versions(p), Compatibility(q, w)) =>
      KindsApart(p, q + ":" + w);
      assert KeyOf(s) == "compat:" + (q + ":" + w);
    case (Compatibility(q, w), Versions(p)) =>
      KindsApart(p, q + ":" + w);
      assert KeyOf(r) == "compat:" + (q + ":" + w);
  }

  /** For project names without a colon the key determines the request. */
  lemma KeyIsInjective(r: Request, s: Request)
    requires ':' !in r.project && ':' !in s.project
    ensures KeyOf(r) == KeyOf(s) <==> r == s
  {
    KeysEqualIff(r, s);
    if r.Compatibility? && s.Compatibility? {
      SplitAtFirst(':', r.project, r.version, s.project, s.version);
    }
  }

  /**
    Two different projects can share a compatibility key exactly when one of them begins with the
    other and a colon.
   */
  lemma ProjectsCollideIff(p: string, q: string)
    requires p != q
    ensures (exists v, w :: KeyOf(Compatibility(p, v)) == KeyOf(Compatibility(q, w))) <==> (p + ":" <= q || q + ":" <= p)
  {
    if v, w :| KeyOf(Compatibility(p, v)) == KeyOf(Compatibility(q, w)) {
      KeysEqualIff(Compatibility(p, v), Compatibility(q, w));
      SharedPrefix(p, v, q, w);
    }
    if p + ":" <= q {
      var v := CollidingVersion(p, q);
    } else if q + ":" <= p {
      var v := CollidingVersion(q, p);
    }
  }

  lemma CollidingVersion(p: string, q: string) returns (v: string)
    requires p + ":" <= q
    ensures KeyOf(Compatibility(p, v)) == KeyOf(Compatibility(q, ""))
  {
    v := q[|p| + 1..] + ":";
    assert q == p + ":" + q[|p| + 1..];
    assert p + ":" + v == q + ":" + "";
    KeysEqualIff(Compatibility(p, v), Compatibility(q, ""));
  }

  lemma SharedPrefix(p: string, v: string, q: string, w: string)
    requires p != q
    ensures p + ":" + v == q + ":" + w ==> p + ":" <= q || q + ":" <= p
  {
    var whole := p + ":" + v;
    if whole == q + ":" + w {
      assert whole[..|p|] == p && whole[..|q|] == q && whole[..|p| + 1] == p + ":" && whole[..|q| + 1] == q + ":";
      if |p| < |q| {
        assert q[..|p| + 1] == whole[..|p| + 1];
      } else if |q| < |p| {
        assert p[..|q| + 1] == whole[..|q| + 1];
      }
    }
  }

  // ---------------------------------------------------------------- clearing a project

  predicate Cleared(project: string, key: string) {
    key == "versions:" + project || "compat:" + project + ":" <= key
  }

  /** Which requests lose their entry when a project is cleared. */
  lemma ClearedIff(project: string, r: Request)
    ensures Cleared(project, KeyOf(r)) <==>
              match r
              case Versions(p) => p == project
              case Compatibility(p, v) => project + ":" <= p + ":" + v
  {
    assert "compat:" + project + ":" == "compat:" + (project + ":");
    match r
    case Versions(p) =>
      KindsApart(p, project + ":");
      CancelPrefix("versions:", p, project);
    case Compatibility(p, v) =>
      assert KeyOf(r) == "compat:" + (p + ":" + v);
      KindsApart(project, p + ":" + v);
      CancelPrefix("compat:", project + ":", p + ":" + v);
  }

  /** Without colons in project names: the entries of the project and nobody else's. */
  lemma ClearsOwnEntriesOnly(project: string, r: Request)
    requires ':' !in project && ':' !in r.project
    ensures Cleared(project, KeyOf(r)) <==> r.project == project
  {
    ClearedIff(project, r);
    if r.Compatibility? {
      SplitAtFirst(':', project, "", r.project, r.version);
    }
  }

  /** A project never keeps an entry of its own; another one loses some exactly when its name begins with this one and a colon. */
  lemma ClearsForeignEntriesIff(project: string, other: string)
    requires project != other
    ensures (exists r: Request :: r.project == other && Cleared(project, KeyOf(r))) <==> (project + ":" <= other || other + ":" <= project)
    ensures forall r: Request | r.project == project :: Cleared(project, KeyOf(r))
  {
    forall r: Request | r.project == project ensures Cleared(project, KeyOf(r)) {
      ClearedIff(project, r);
    }
    forall r: Request | r.project == other && Cleared(project, KeyOf(r)) ensures project + ":" <= other || other + ":" <= project {
      ClearedIff(project, r);
      var v := (other + ":" + r.version)[|project| + 1..];
      assert project + ":" + v == other + ":" + r.version;
      SharedPrefix(project, v, other, r.version);
    }
    if project + ":" <= other || other + ":" <= project {
      ProjectsCollideIff(project, other);
      var v, w :| KeyOf(Compatibility(project, v)) == KeyOf(Compatibility(other, w));
      var r := Compatibility(other, w);
      assert Cleared(project, KeyOf(Compatibility(project, v)));
      assert r.project == other && Cleared(project, KeyOf(r));
    }
  }

  // ---------------------------------------------------------------- the client

  /** A wrapper around a client whose n-th call answers `answers(n)`. */
  class CachedPluginClient {
    const ttl: int
    const versionAnswers: nat -> Option<seq<string>>
    const compatAnswers: nat -> Option<CompatibilityInfo>
    var calls: nat
    var cache: map<string, CacheEntry>
    ghost var log: seq<Fetched>

    /** Every entry is an answer that the client gave for a request with that key. */
    ghost predicate Valid()
      reads this
    {
      forall key | key in cache :: exists f :: f in log && Backs(f, key, cache[key])
    }

    ghost predicate Backs(f: Fetched, key: string, e: CacheEntry) {
      KeyOf(f.request) == key && f.answer == e.answer && e.expiresAt == f.at + ttl && (f.request.Versions? <==> f.answer.VersionList?)
    }

    predicate Fresh(key: string, now: int)
      reads this
    {
      key in cache && now < cache[key].expiresAt
    }

    constructor (ttl: int, versionAnswers: nat -> Option<seq<string>>, compatAnswers: nat -> Option<CompatibilityInfo>)
      ensures Valid() && cache == map[] && log == []
    {
      this.ttl, this.versionAnswers, this.compatAnswers := ttl, versionAnswers, compatAnswers;
      calls, cache, log := 0, map[], [];
    }

    /** Keeps a new answer. */
    method Store(request: Request, answer: Answer, now: int)
      requires Valid() && (request.Versions? <==> answer.VersionList?)
      modifies this
      ensures Valid() && calls == old(calls)
      ensures log == old(log) + [Fetched(request, answer, now)]
      ensures cache == old(cache)[KeyOf(request) := CacheEntry(answer, now + ttl)]
    {
      ghost var f := Fetched(request, answer, now);
      cache := cache[KeyOf(request) := CacheEntry(answer, now + ttl)];
      log := log + [f];
      assert f in log && Backs(f, KeyOf(request), cache[KeyOf(request)]);
      forall key | key in cache && key != KeyOf(request) ensures exists g :: g in log && Backs(g, key, cache[key]) {
        var g :| g in old(log) && Backs(g, key, old(cache)[key]);
        assert g in log;
      }
    }

    /** A stored answer to the request that is still valid. */
    ghost predicate Recorded(f: Fetched, key: string, answer: Answer, now: int)
      reads this
    {
      f in log && KeyOf(f.request) == key && f.answer == answer && now < f.at + ttl
    }

    /** A fresh entry exists only where the client gave its answer less than one TTL ago. */
    lemma FreshIsRecorded(request: Request, now: int)
      requires Valid() && Fresh(KeyOf(request), now)
      ensures cache[KeyOf(request)].answer.VersionList? <==> request.Versions?
      ensures exists f :: Recorded(f, KeyOf(request), cache[KeyOf(request)].answer, now) &&
                          (request.Versions? || (':' !in request.project && ':' !in f.request.project) ==> f.request == request)
    {
      var key := KeyOf(request);
      var f :| f in log && Backs(f, key, cache[key]);
      KeysEqualIff(f.request, request);
      if ':' !in request.project && ':' !in f.request.project {
        KeyIsInjective(f.request, request);
      }
      assert Recorded(f, key, cache[key].answer, now);
    }

    /**
      A fresh entry answers with what the client said for this very project; without one the client
      is asked, and its answer kept.  A failing call changes nothing else.
     */
    method GetVersions(project: string, now: int, later: int) returns (r: Option<seq<string>>)
      requires Valid() && now <= later
      modifies this
      ensures Valid()
      ensures old(Fresh(KeyOf(Versions(project)), now)) ==>
                && r.Some? && log == old(log) && cache == old(cache) && calls == old(calls)
                && exists f :: Recorded(f, KeyOf(Versions(project)), VersionList(r.value), now) && f.request == Versions(project)
      ensures !old(Fresh(KeyOf(Versions(project)), now)) ==>
                && calls == old(calls) + 1 && r == versionAnswers(old(calls))
                && log == old(log) + (if r.Some? then [Fetched(Versions(project), VersionList(r.value), later)] else [])
                && cache == if r.Some? then old(cache)[KeyOf(Versions(project)) := CacheEntry(VersionList(r.value), later + ttl)] else old(cache)
    {
      var key := KeyOf(Versions(project));
      if Fresh(key, now) {
        FreshIsRecorded(Versions(project), now);
      }
      if key in cache && cache[key].answer.VersionList? && now < cache[key].expiresAt {
        return Some(cache[key].answer.versions);
      }
      r := versionAnswers(calls);
      calls := calls + 1;
      if r.Some? {
        Store(Versions(project), VersionList(r.value), later);
      }
    }

    /** The same for one version; only project names with colons can be mistaken for another. */
    method GetCompatibility(project: string, version: string, now: int, later: int) returns (r: Option<CompatibilityInfo>)
      requires Valid() && now <= later
      modifies this
      ensures Valid()
      ensures old(Fresh(KeyOf(Compatibility(project, version)), now)) ==>
                && r.Some? && log == old(log) && cache == old(cache) && calls == old(calls)
                && exists f :: Recorded(f, KeyOf(Compatibility(project, version)), Info(r.value), now) &&
                               (':' !in project && ':' !in f.request.project ==> f.request == Compatibility(project, version))
      ensures !old(Fresh(KeyOf(Compatibility(project, version)), now)) ==>
                && calls == old(calls) + 1 && r == compatAnswers(old(calls))
                && log == old(log) + (if r.Some? then [Fetched(Compatibility(project, version), Info(r.value), later)] else [])
                && cache == if r.Some? then old(cache)[KeyOf(Compatibility(project, version)) := CacheEntry(Info(r.value), later + ttl)] else old(cache)
    {
      var key := KeyOf(Compatibility(project, version));
      if Fresh(key, now) {
        FreshIsRecorded(Compatibility(project, version), now);
      }
      if key in cache && cache[key].answer.Info? && now < cache[key].expiresAt {
        return Some(cache[key].answer.compat);
      }
      r := compatAnswers(calls);
      calls := calls + 1;
      if r.Some? {
        Store(Compatibility(project, version), Info(r.value), later);
      }
    }

    method ClearCache()
      requires Valid()
      modifies this
      ensures Valid() && cache == map[] && log == old(log)
    {
      cache := map[];
    }

    /** Removes the keys of the project and keeps all others, in any order of the map. */
    method ClearProject(project: string)
      requires Valid()
      modifies this
      ensures Valid() && log == old(log)
      ensures cache == map key | key in old(cache) && !Cleared(project, key) :: old(cache)[key]
    {
      var todo := cache.Keys;
      while todo != {}
        invariant todo <= old(cache).Keys && log == old(log)
        invariant cache == map key | key in old(cache) && (key in todo || !Cleared(project, key)) :: old(cache)[key]
        decreases todo
      {
        var key :| key in todo;
        todo := todo - {key};
        if Cleared(project, key) {
          cache := cache - {key};
        }
      }
    }
  }
}
