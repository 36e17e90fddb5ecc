/**
 The wiki bundler's link closure: a worklist walk over the repository's files
 from the seed documents. Only markdown files are expanded. Link extraction and
 resolution are part of the given repository: each markdown file carries its
 non-external links, already resolved to repository paths.
*/
module WikiClosure {
  import opened Lexical

  type Path = string

  datatype Node = Directory | Regular(size: nat, links: seq<Path>)

  /** How paths are read: their canonical spelling, and which of them the bundle may hold and expand. */
  datatype Rules = Rules(canonical: Path -> Path, allowed: Path -> bool, markdown: Path -> bool)

  datatype Repo = Repo(nodes: map<Path, Node>, rules: Rules)

  /** Canonical spellings are their own canonical spelling. */
  ghost predicate Sound(rules: Rules) {
    forall p {:trigger rules.canonical(rules.canonical(p))} :: rules.canonical(rules.canonical(p)) == rules.canonical(p)
  }

  datatype Entry = Entry(path: Path, size: nat, isMarkdown: bool, fromSeed: bool, linksOut: seq<Path>)

  datatype Closure =
    | Bundle(files: seq<Entry>, totalBytes: nat)
    | LinkRot
    | TooManyFiles(got: nat)
    | TooManyBytes(got: nat)

  const MAX_FILES := 100
  const MAX_TOTAL_BYTES := 4 * 1024 * 1024

  // ---------------------------------------------------------------------------
  // What the closure is
  // ---------------------------------------------------------------------------

  ghost predicate IsFile(repo: Repo, p: Path) {
    repo.rules.allowed(p) && p in repo.nodes && repo.nodes[p].Regular?
  }

  /** The document carries this link, and it is of a kind the bundle follows. */
  ghost predicate HasLink(repo: Repo, doc: Path, link: Path) {
    IsFile(repo, doc) && repo.rules.markdown(doc) && link in repo.nodes[doc].links && repo.rules.allowed(link)
  }

  ghost predicate LinksTo(repo: Repo, doc: Path, p: Path) {
    exists link :: HasLink(repo, doc, link) && repo.rules.canonical(link) == p
  }

  ghost predicate IsSeed(repo: Repo, seeds: seq<Path>, p: Path) {
    exists k :: 0 <= k < |seeds| && repo.rules.canonical(seeds[k]) == p
  }

  /** A walk that starts at a seed and follows one link at a time. */
  ghost predicate Walk(repo: Repo, seeds: seq<Path>, walk: seq<Path>) {
    && walk != [] && IsSeed(repo, seeds, walk[0])
    && forall k :: 0 < k < |walk| ==> LinksTo(repo, walk[k - 1], walk[k])
  }

  ghost predicate Reaches(repo: Repo, seeds: seq<Path>, p: Path) {
    exists walk :: Walk(repo, seeds, walk) && walk[|walk| - 1] == p
  }

  ghost predicate Belongs(repo: Repo, seeds: seq<Path>, p: Path) {
    Reaches(repo, seeds, p) && IsFile(repo, p)
  }

  /** Some reachable reference is missing: a reached path, or a link as it is written. */
  ghost predicate Rotten(repo: Repo, seeds: seq<Path>) {
    || (exists p :: Reaches(repo, seeds, p) && repo.rules.allowed(p) && p !in repo.nodes)
    || (exists doc, link :: Reaches(repo, seeds, doc) && HasLink(repo, doc, link) && link !in repo.nodes)
  }

  function TotalSize(files: seq<Entry>): nat {
    if files == [] then 0 else TotalSize(files[..|files| - 1]) + files[|files| - 1].size
  }

  function Paths(files: seq<Entry>): seq<Path> {
    seq(|files|, i requires 0 <= i < |files| => files[i].path)
  }

  ghost predicate EntryOk(repo: Repo, seeds: seq<Path>, e: Entry) {
    && e.path in repo.nodes && repo.nodes[e.path].Regular?
    && e.size == repo.nodes[e.path].size
    && e.isMarkdown == repo.rules.markdown(e.path)
    && (e.fromSeed <==> IsSeed(repo, seeds, e.path))
    && Ascending(e.linksOut)
    && multiset(e.linksOut) == multiset(if e.isMarkdown then Followed(repo, repo.nodes[e.path].links) else [])
  }

  /** The links that lead to files the bundle may hold, in document order. */
  function Followed(repo: Repo, links: seq<Path>): (r: seq<Path>)
    ensures forall link :: link in r <==> link in links && repo.rules.allowed(link)
  {
    if links == [] then []
    else
      var last := links[|links| - 1];
      Followed(repo, links[..|links| - 1]) + if repo.rules.allowed(last) then [last] else []
  }

  /** The manifest lists each file that belongs exactly once, in path order. */
  ghost predicate IsManifest(repo: Repo, seeds: seq<Path>, files: seq<Entry>) {
    && StrictlyAscending(Paths(files))
    && (forall p :: p in Paths(files) <==> Belongs(repo, seeds, p))
    && forall i :: 0 <= i < |files| ==> EntryOk(repo, seeds, files[i])
  }

  /** Only the set of canonical seeds matters: their order and repetitions do not show in the manifest. */
  lemma ManifestIsUnique(repo: Repo, seeds: seq<Path>, other: seq<Path>, a: seq<Entry>, b: seq<Entry>)
    requires IsManifest(repo, seeds, a) && IsManifest(repo, other, b)
    requires forall p :: IsSeed(repo, seeds, p) <==> IsSeed(repo, other, p)
    ensures a == b
  {
    forall p ensures Belongs(repo, seeds, p) <==> Belongs(repo, other, p) {
      forall walk ensures Walk(repo, seeds, walk) <==> Walk(repo, other, walk) {}
    }
    AscendingUnique(Paths(a), Paths(b));
    assert |Paths(a)| == |Paths(b)|;
    forall i | 0 <= i < |a| ensures a[i] == b[i] {
      assert Paths(a)[i] == Paths(b)[i];
      assert EntryOk(repo, seeds, a[i]) && EntryOk(repo, other, b[i]);
      SortedUnique(a[i].linksOut, b[i].linksOut);
    }
  }

  // ---------------------------------------------------------------------------
  // The walk
  // ---------------------------------------------------------------------------

  lemma SeedsReach(repo: Repo, seeds: seq<Path>, p: Path)
    requires IsSeed(repo, seeds, p)
    ensures Reaches(repo, seeds, p)
  {
    assert Walk(repo, seeds, [p]);
  }

  lemma LinksReach(repo: Repo, seeds: seq<Path>, doc: Path, p: Path)
    requires Reaches(repo, seeds, doc) && LinksTo(repo, doc, p)
    ensures Reaches(repo, seeds, p)
  {
    var walk :| Walk(repo, seeds, walk) && walk[|walk| - 1] == doc;
    assert Walk(repo, seeds, walk + [p]);
  }

  /** `p` needs no further attention: visited, skipped for good, or still queued. */
  ghost predicate Covered(repo: Repo, visited: map<Path, Entry>, queue: seq<Path>, p: Path) {
    || p in visited
    || !repo.rules.allowed(p)
    || (p in repo.nodes && repo.nodes[p].Directory?)
    || exists k :: 0 <= k < |queue| && repo.rules.canonical(queue[k]) == p
  }

  /** With the queue empty, everything reachable is visited or skipped. */
  lemma {:induction false} WalksEndCovered(repo: Repo, seeds: seq<Path>, visited: map<Path, Entry>, walk: seq<Path>)
    requires Walk(repo, seeds, walk)
    requires forall p :: IsSeed(repo, seeds, p) ==> Covered(repo, visited, [], p)
    requires forall doc, p :: doc in visited && LinksTo(repo, doc, p) ==> Covered(repo, visited, [], p)
    ensures Covered(repo, visited, [], walk[|walk| - 1])
    decreases |walk|
  {
    if |walk| > 1 {
      var shorter := walk[..|walk| - 1];
      assert Walk(repo, seeds, shorter);
      WalksEndCovered(repo, seeds, visited, shorter);
      assert LinksTo(repo, walk[|walk| - 2], walk[|walk| - 1]);
    }
  }

  /** Every followed link of the document is recorded and lies in the queue unless already visited. */
  method FollowLinks(repo: Repo, visited: set<Path>, queue: seq<Path>, links: seq<Path>)
    returns (rot: bool, linksOut: seq<Path>, longer: seq<Path>)
    ensures rot <==> exists link :: link in Followed(repo, links) && link !in repo.nodes
    ensures !rot ==> linksOut == Followed(repo, links)
    ensures !rot ==> forall x :: x in longer ==> x in queue || x in Followed(repo, links)
    ensures !rot ==> forall x :: x in queue ==> x in longer
    ensures !rot ==> forall link :: link in Followed(repo, links) ==> link in visited || link in longer
  {
    linksOut, longer := [], queue;
    for i := 0 to |links|
      invariant linksOut == Followed(repo, links[..i])
      invariant forall link :: link in Followed(repo, links[..i]) ==> link in repo.nodes && (link in visited || link in longer)
      invariant forall x :: x in longer ==> x in queue || x in Followed(repo, links[..i])
      invariant forall x :: x in queue ==> x in longer
    {
      var resolved := links[i];
      assert links[..i + 1][..i] == links[..i];
      if repo.rules.allowed(resolved) {
        if resolved !in repo.nodes {
          assert resolved in Followed(repo, links);
          return true, [], [];
        }
        linksOut := linksOut + [resolved];
        if resolved !in visited {
          longer := longer + [resolved];
        }
      }
    }
    assert links[..|links|] == links;
    rot := false;
  }

  ghost predicate EntriesOk(repo: Repo, seeds: seq<Path>, visited: map<Path, Entry>) {
    forall p :: p in visited ==>
      Belongs(repo, seeds, p) && repo.rules.canonical(p) == p && visited[p].path == p && EntryOk(repo, seeds, visited[p])
  }

  ghost predicate QueueOk(repo: Repo, seeds: seq<Path>, queue: seq<Path>) {
    forall k :: 0 <= k < |queue| ==> Reaches(repo, seeds, repo.rules.canonical(queue[k]))
  }

  ghost predicate AllCovered(repo: Repo, seeds: seq<Path>, visited: map<Path, Entry>, queue: seq<Path>) {
    && (forall p :: IsSeed(repo, seeds, p) ==> Covered(repo, visited, queue, p))
    && (forall doc, p :: doc in visited && LinksTo(repo, doc, p) ==> Covered(repo, visited, queue, p))
  }

  ghost predicate LinksExist(repo: Repo, visited: map<Path, Entry>) {
    forall doc, link :: doc in visited && HasLink(repo, doc, link) ==> link in repo.nodes
  }

  /** What holds between two turns of the walk, wherever it stands. */
  ghost predicate WalkInv(repo: Repo, seeds: seq<Path>, visited: map<Path, Entry>, queue: seq<Path>) {
    EntriesOk(repo, seeds, visited) && QueueOk(repo, seeds, queue) && AllCovered(repo, seeds, visited, queue)
    && LinksExist(repo, visited)
  }

  lemma StillCovered(repo: Repo, visited: map<Path, Entry>, queue: seq<Path>, p: Path)
    requires queue != [] && Covered(repo, visited, queue, p)
    ensures p == repo.rules.canonical(queue[0]) || Covered(repo, visited, queue[1..], p)
  {
    if k :| 0 <= k < |queue| && repo.rules.canonical(queue[k]) == p {
      assert k > 0 ==> queue[1..][k - 1] == queue[k];
    }
  }

  /** A path already dealt with, or to be skipped, may be dropped from the queue. */
  lemma SkipKeeps(repo: Repo, seeds: seq<Path>, visited: map<Path, Entry>, queue: seq<Path>)
    requires WalkInv(repo, seeds, visited, queue) && queue != []
    requires Covered(repo, visited, [], repo.rules.canonical(queue[0]))
    ensures WalkInv(repo, seeds, visited, queue[1..])
  {
    var rest := queue[1..];
    forall p | Covered(repo, visited, queue, p) ensures Covered(repo, visited, rest, p) {
      StillCovered(repo, visited, queue, p);
    }
    forall k | 0 <= k < |rest| ensures Reaches(repo, seeds, repo.rules.canonical(rest[k])) {
      assert rest[k] == queue[k + 1];
    }
  }

  /** The queue after a visit: what was left of it, and the visited document's links not seen before. */
  ghost predicate Extends(repo: Repo, visited: map<Path, Entry>, rest: seq<Path>, current: Path, longer: seq<Path>) {
    && (forall x :: x in rest ==> x in longer)
    && (forall x :: x in longer ==> x in rest || HasLink(repo, current, x))
    && (forall link :: HasLink(repo, current, link) ==> link in repo.nodes && (link in visited || link in longer))
  }

  lemma VisitCovers(repo: Repo, visited: map<Path, Entry>, queue: seq<Path>, entry: Entry, longer: seq<Path>, p: Path)
    requires queue != [] && entry.path == repo.rules.canonical(queue[0])
    requires forall x :: x in queue[1..] ==> x in longer
    requires Covered(repo, visited, queue, p)
    ensures Covered(repo, visited[entry.path := entry], longer, p)
  {
    StillCovered(repo, visited, queue, p);
    if k :| 0 <= k < |queue[1..]| && repo.rules.canonical(queue[1..][k]) == p {
      assert queue[1..][k] in longer;
    }
  }

  lemma VisitReaches(repo: Repo, seeds: seq<Path>, visited: map<Path, Entry>, queue: seq<Path>, longer: seq<Path>, x: Path)
    requires WalkInv(repo, seeds, visited, queue) && queue != [] && x in longer
    requires forall x :: x in longer ==> x in queue[1..] || HasLink(repo, repo.rules.canonical(queue[0]), x)
    ensures Reaches(repo, seeds, repo.rules.canonical(x))
  {
    if x in queue[1..] {
      var m :| 0 <= m < |queue[1..]| && queue[1..][m] == x;
      assert queue[m + 1] == x;
    } else {
      assert LinksTo(repo, repo.rules.canonical(queue[0]), repo.rules.canonical(x));
      LinksReach(repo, seeds, repo.rules.canonical(queue[0]), repo.rules.canonical(x));
    }
  }

  lemma LinksCovered(repo: Repo, visited: map<Path, Entry>, longer: seq<Path>, current: Path, p: Path)
    requires LinksTo(repo, current, p)
    requires forall x :: x in visited ==> repo.rules.canonical(x) == x
    requires forall link :: HasLink(repo, current, link) ==> link in visited || link in longer
    ensures Covered(repo, visited, longer, p)
  {
    var link :| HasLink(repo, current, link) && repo.rules.canonical(link) == p;
  }

  lemma VisitKeepsCovered(repo: Repo, seeds: seq<Path>, visited: map<Path, Entry>, queue: seq<Path>, entry: Entry, longer: seq<Path>)
    requires AllCovered(repo, seeds, visited, queue) && queue != [] && entry.path == repo.rules.canonical(queue[0])
    requires forall x :: x in visited[entry.path := entry] ==> repo.rules.canonical(x) == x
    requires Extends(repo, visited[entry.path := entry], queue[1..], entry.path, longer)
    ensures AllCovered(repo, seeds, visited[entry.path := entry], longer)
  {
    var seen := visited[entry.path := entry];
    forall p | Covered(repo, visited, queue, p) ensures Covered(repo, seen, longer, p) {
      VisitCovers(repo, visited, queue, entry, longer, p);
    }
    forall p | LinksTo(repo, entry.path, p) ensures Covered(repo, seen, longer, p) {
      LinksCovered(repo, seen, longer, entry.path, p);
    }
  }

  lemma VisitKeepsEntries(repo: Repo, seeds: seq<Path>, visited: map<Path, Entry>, queue: seq<Path>, entry: Entry)
    requires Sound(repo.rules) && EntriesOk(repo, seeds, visited) && QueueOk(repo, seeds, queue) && queue != []
    requires entry.path == repo.rules.canonical(queue[0]) && IsFile(repo, entry.path) && EntryOk(repo, seeds, entry)
    ensures EntriesOk(repo, seeds, visited[entry.path := entry])
  {
    assert repo.rules.canonical(repo.rules.canonical(queue[0])) == entry.path;
    assert Reaches(repo, seeds, repo.rules.canonical(queue[0]));
  }

  /** Visiting a file and queueing its links keeps the walk on course. */
  lemma VisitKeeps(repo: Repo, seeds: seq<Path>, visited: map<Path, Entry>, queue: seq<Path>, entry: Entry, longer: seq<Path>)
    requires Sound(repo.rules) && WalkInv(repo, seeds, visited, queue) && queue != []
    requires entry.path == repo.rules.canonical(queue[0]) && IsFile(repo, entry.path) && EntryOk(repo, seeds, entry)
    requires Extends(repo, visited[entry.path := entry], queue[1..], entry.path, longer)
    ensures WalkInv(repo, seeds, visited[entry.path := entry], longer)
  {
    VisitKeepsEntries(repo, seeds, visited, queue, entry);
    VisitKeepsCovered(repo, seeds, visited, queue, entry, longer);
    forall k | 0 <= k < |longer| ensures Reaches(repo, seeds, repo.rules.canonical(longer[k])) {
      VisitReaches(repo, seeds, visited, queue, longer, longer[k]);
    }
  }

  /** When the queue is empty the visited files are exactly those that belong, and nothing is missing. */
  lemma WalkIsComplete(repo: Repo, seeds: seq<Path>, visited: map<Path, Entry>)
    requires WalkInv(repo, seeds, visited, [])
    ensures !Rotten(repo, seeds)
    ensures forall p :: p in visited <==> Belongs(repo, seeds, p)
  {
    forall p | Reaches(repo, seeds, p) ensures Covered(repo, visited, [], p) {
      var walk :| Walk(repo, seeds, walk) && walk[|walk| - 1] == p;
      WalksEndCovered(repo, seeds, visited, walk);
    }
  }

  predicate WithinCaps(files: seq<Entry>) {
    |files| <= MAX_FILES && TotalSize(files) <= MAX_TOTAL_BYTES
  }

  /** The error names the cap that is exceeded, and by what. */
  predicate OverCap(files: seq<Entry>, r: Closure) {
    || (r == TooManyFiles(|files|) && |files| > MAX_FILES)
    || (r == TooManyBytes(TotalSize(files)) && |files| <= MAX_FILES && TotalSize(files) > MAX_TOTAL_BYTES)
  }

  method CanonicalSeeds(repo: Repo, seeds: seq<Path>) returns (r: seq<Path>)
    requires Sound(repo.rules)
    ensures WalkInv(repo, seeds, map[], r)
    ensures forall p :: p in r <==> IsSeed(repo, seeds, p)
  {
    r := [];
    for i := 0 to |seeds|
      invariant |r| == i && forall k :: 0 <= k < i ==> r[k] == repo.rules.canonical(seeds[k])
    {
      r := r + [repo.rules.canonical(seeds[i])];
    }
    StartsCovered(repo, seeds, r);
  }

  /** The file's manifest entry, and the queue with its unseen links at the end. */
  method Describe(repo: Repo, seeds: seq<Path>, canonicalSeeds: seq<Path>, visited: map<Path, Entry>, rest: seq<Path>, current: Path)
    returns (rot: bool, entry: Entry, longer: seq<Path>)
    requires IsFile(repo, current)
    requires forall p :: p in canonicalSeeds <==> IsSeed(repo, seeds, p)
    ensures rot ==> exists link :: HasLink(repo, current, link) && link !in repo.nodes
    ensures !rot ==> entry.path == current && EntryOk(repo, seeds, entry)
    ensures !rot ==> Extends(repo, visited[entry.path := entry], rest, current, longer)
  {
    var linksOut := [];
    rot, longer := false, rest;
    if repo.rules.markdown(current) {
      rot, linksOut, longer := FollowLinks(repo, visited.Keys + {current}, rest, repo.nodes[current].links);
      linksOut := Sort(linksOut);
    }
    entry := Entry(current, repo.nodes[current].size, repo.rules.markdown(current), current in canonicalSeeds, linksOut);
  }

  /** One file: it is seen, and its unseen links go to the end of the queue. */
  method Visit(repo: Repo, seeds: seq<Path>, canonicalSeeds: seq<Path>, visited: map<Path, Entry>, queue: seq<Path>)
    returns (rot: bool, seen: map<Path, Entry>, left: seq<Path>)
    requires Sound(repo.rules) && WalkInv(repo, seeds, visited, queue)
    requires queue != [] && IsFile(repo, repo.rules.canonical(queue[0])) && repo.rules.canonical(queue[0]) !in visited
    requires forall p :: p in canonicalSeeds <==> IsSeed(repo, seeds, p)
    ensures rot ==> Rotten(repo, seeds)
    ensures !rot ==> WalkInv(repo, seeds, seen, left) && Unseen(repo, seen) < Unseen(repo, visited)
  {
    var entry;
    rot, entry, left := Describe(repo, seeds, canonicalSeeds, visited, queue[1..], repo.rules.canonical(queue[0]));
    seen := visited[entry.path := entry];
    if rot {
      RotIsReachable(repo, seeds, visited, queue);
    } else {
      VisitKeeps(repo, seeds, visited, queue, entry, left);
      Shrinks(repo, visited, entry);
    }
  }

  /**
   One turn: take the head of the queue, and skip it or visit it. Either nothing new
   is seen and the queue shrinks, or one more file is seen.
  */
  method Turn(repo: Repo, seeds: seq<Path>, canonicalSeeds: seq<Path>, visited: map<Path, Entry>, queue: seq<Path>)
    returns (rot: bool, seen: map<Path, Entry>, left: seq<Path>)
    requires Sound(repo.rules) && WalkInv(repo, seeds, visited, queue) && queue != []
    requires forall p :: p in canonicalSeeds <==> IsSeed(repo, seeds, p)
    ensures rot ==> Rotten(repo, seeds)
    ensures !rot ==> WalkInv(repo, seeds, seen, left)
    ensures !rot ==> (seen == visited && |left| < |queue|) || Unseen(repo, seen) < Unseen(repo, visited)
  {
    var current := repo.rules.canonical(queue[0]);
    rot, seen, left := false, visited, queue[1..];
    if current in visited || !repo.rules.allowed(current) || (current in repo.nodes && repo.nodes[current].Directory?) {
      SkipKeeps(repo, seeds, visited, queue);
    } else if current !in repo.nodes {
      MissingIsRot(repo, seeds, visited, queue);
      rot := true;
    } else {
      rot, seen, left := Visit(repo, seeds, canonicalSeeds, visited, queue);
    }
  }

  method ComputeClosure(repo: Repo, seeds: seq<Path>) returns (r: Closure)
    requires Sound(repo.rules)
    ensures r.LinkRot? <==> Rotten(repo, seeds)
    ensures r.Bundle? ==> IsManifest(repo, seeds, r.files) && WithinCaps(r.files) && r.totalBytes == TotalSize(r.files)
    ensures !r.Bundle? && !r.LinkRot? ==> exists files :: IsManifest(repo, seeds, files) && OverCap(files, r)
  {
    var canonicalSeeds := CanonicalSeeds(repo, seeds);
    var visited: map<Path, Entry>, queue := map[], canonicalSeeds;
    while queue != []
      invariant WalkInv(repo, seeds, visited, queue)
      decreases Unseen(repo, visited), |queue|
    {
      var rot;
      rot, visited, queue := Turn(repo, seeds, canonicalSeeds, visited, queue);
      if rot {
        return LinkRot;
      }
    }
    r := Close(repo, seeds, visited);
  }

  /** The finished walk as a manifest, unless it exceeds a cap. */
  method Close(repo: Repo, seeds: seq<Path>, visited: map<Path, Entry>) returns (r: Closure)
    requires WalkInv(repo, seeds, visited, [])
    ensures !r.LinkRot? && !Rotten(repo, seeds)
    ensures r.Bundle? ==> IsManifest(repo, seeds, r.files) && WithinCaps(r.files) && r.totalBytes == TotalSize(r.files)
    ensures !r.Bundle? ==> exists files :: IsManifest(repo, seeds, files) && OverCap(files, r)
  {
    WalkIsComplete(repo, seeds, visited);
    var sorted, files, total := Materialise(visited);
    ListedIsManifest(repo, seeds, visited, sorted, files);
    if |files| > MAX_FILES {
      return TooManyFiles(|files|);
    }
    if total > MAX_TOTAL_BYTES {
      return TooManyBytes(total);
    }
    return Bundle(files, total);
  }

  /** How many paths of the repository have not been seen: what the walk uses up. */
  ghost function Unseen(repo: Repo, visited: map<Path, Entry>): nat {
    |repo.nodes.Keys - visited.Keys|
  }

  lemma Shrinks(repo: Repo, visited: map<Path, Entry>, entry: Entry)
    requires entry.path in repo.nodes && entry.path !in visited
    ensures Unseen(repo, visited[entry.path := entry]) < Unseen(repo, visited)
  {
    var seen := visited[entry.path := entry];
    assert repo.nodes.Keys - visited.Keys == (repo.nodes.Keys - seen.Keys) + {entry.path};
  }

  lemma StartsCovered(repo: Repo, seeds: seq<Path>, canonicalSeeds: seq<Path>)
    requires Sound(repo.rules)
    requires |canonicalSeeds| == |seeds| && forall k :: 0 <= k < |seeds| ==> canonicalSeeds[k] == repo.rules.canonical(seeds[k])
    ensures WalkInv(repo, seeds, map[], canonicalSeeds)
    ensures forall p :: p in canonicalSeeds <==> IsSeed(repo, seeds, p)
  {
    forall k | 0 <= k < |seeds|
      ensures repo.rules.canonical(canonicalSeeds[k]) == canonicalSeeds[k] && Reaches(repo, seeds, canonicalSeeds[k])
    {
      SeedsReach(repo, seeds, canonicalSeeds[k]);
    }
  }

  lemma MissingIsRot(repo: Repo, seeds: seq<Path>, visited: map<Path, Entry>, queue: seq<Path>)
    requires WalkInv(repo, seeds, visited, queue) && queue != []
    requires repo.rules.allowed(repo.rules.canonical(queue[0])) && repo.rules.canonical(queue[0]) !in repo.nodes
    ensures Rotten(repo, seeds)
  {
    assert Reaches(repo, seeds, repo.rules.canonical(queue[0]));
  }

  /** A rotten link of the document at the head of the queue is a reachable one. */
  lemma RotIsReachable(repo: Repo, seeds: seq<Path>, visited: map<Path, Entry>, queue: seq<Path>)
    requires WalkInv(repo, seeds, visited, queue) && queue != []
    requires exists link :: HasLink(repo, repo.rules.canonical(queue[0]), link) && link !in repo.nodes
    ensures Rotten(repo, seeds)
  {
    assert Reaches(repo, seeds, repo.rules.canonical(queue[0]));
  }

  method SortedKeys(keys: set<Path>) returns (r: seq<Path>)
    ensures StrictlyAscending(r) && forall p :: p in r <==> p in keys
  {
    var paths, rest := [], keys;
    while rest != {}
      invariant rest <= keys
      invariant forall p :: p in paths <==> p in keys && p !in rest
      invariant forall i, j :: 0 <= i < j < |paths| ==> paths[i] != paths[j]
    {
      var p :| p in rest;
      paths, rest := paths + [p], rest - {p};
    }
    r := Sort(paths);
    SortedDistinct(paths, r);
    DistinctAscending(r);
  }

  lemma ListedIsManifest(repo: Repo, seeds: seq<Path>, visited: map<Path, Entry>, sorted: seq<Path>, files: seq<Entry>)
    requires WalkInv(repo, seeds, visited, []) && forall p :: p in visited <==> Belongs(repo, seeds, p)
    requires StrictlyAscending(sorted) && forall p :: p in sorted <==> p in visited
    requires |files| == |sorted| && forall k :: 0 <= k < |files| ==> sorted[k] in visited && files[k] == visited[sorted[k]]
    ensures IsManifest(repo, seeds, files)
  {
    forall k | 0 <= k < |files| ensures files[k].path == sorted[k] && EntryOk(repo, seeds, files[k]) {
      assert sorted[k] in visited;
    }
    assert Paths(files) == sorted;
  }

  /** The visited entries in path order, with their total size. */
  method Materialise(visited: map<Path, Entry>) returns (sorted: seq<Path>, files: seq<Entry>, total: nat)
    ensures StrictlyAscending(sorted) && forall p :: p in sorted <==> p in visited
    ensures |files| == |sorted| && forall k :: 0 <= k < |files| ==> sorted[k] in visited && files[k] == visited[sorted[k]]
    ensures total == TotalSize(files)
  {
    sorted := SortedKeys(visited.Keys);
    files, total := [], 0;
    for i := 0 to |sorted|
      invariant |files| == i && forall k :: 0 <= k < i ==> sorted[k] in visited && files[k] == visited[sorted[k]]
      invariant total == TotalSize(files)
    {
      assert sorted[i] in sorted;
      var e := visited[sorted[i]];
      TotalAppends(files, e);
      files, total := files + [e], total + e.size;
    }
  }

  lemma TotalAppends(files: seq<Entry>, e: Entry)
    ensures TotalSize(files + [e]) == TotalSize(files) + e.size
  {
    assert (files + [e])[..|files|] == files;
  }

  // ---------------------------------------------------------------------------
  // Links inside the bundle
  // ---------------------------------------------------------------------------

  lemma {:induction false} ReachedIsCanonical(repo: Repo, seeds: seq<Path>, p: Path)
    requires Sound(repo.rules) && Reaches(repo, seeds, p)
    ensures repo.rules.canonical(p) == p
  {
    var walk :| Walk(repo, seeds, walk) && walk[|walk| - 1] == p;
    if |walk| == 1 {
      var k :| 0 <= k < |seeds| && repo.rules.canonical(seeds[k]) == p;
      assert repo.rules.canonical(repo.rules.canonical(seeds[k])) == p;
    } else {
      assert LinksTo(repo, walk[|walk| - 2], p);
      var link :| HasLink(repo, walk[|walk| - 2], link) && repo.rules.canonical(link) == p;
      assert repo.rules.canonical(repo.rules.canonical(link)) == p;
    }
  }

  /** A link recorded in the manifest leads to a bundled file exactly when it is spelled canonically and names a file. */
  lemma LinkShipsExactly(repo: Repo, seeds: seq<Path>, files: seq<Entry>, e: Entry, link: Path)
    requires Sound(repo.rules) && !Rotten(repo, seeds) && IsManifest(repo, seeds, files)
    requires e in files && link in e.linksOut
    ensures link in repo.nodes
    ensures link in Paths(files) <==> repo.rules.canonical(link) == link && repo.nodes[link].Regular?
  {
    var i :| 0 <= i < |files| && files[i] == e;
    assert EntryOk(repo, seeds, files[i]);
    assert Paths(files)[i] == e.path && Belongs(repo, seeds, e.path);
    assert link in multiset(e.linksOut);
    assert HasLink(repo, e.path, link);
    if link in Paths(files) {
      ReachedIsCanonical(repo, seeds, link);
    } else if repo.rules.canonical(link) == link {
      assert LinksTo(repo, e.path, link);
      LinksReach(repo, seeds, e.path, link);
      assert Reaches(repo, seeds, link);
    }
  }
}
