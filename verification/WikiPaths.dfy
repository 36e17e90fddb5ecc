/** The paths of the repository as the bundler reads them. */
module WikiPaths {
  import opened WikiClosure
  import Lexical

  /** Backslashes become slashes. */
  function Canonical(p: Path): (r: Path)
    ensures |r| == |p|
  {
    seq(|p|, i requires 0 <= i < |p| => if p[i] == '\\' then '/' else p[i])
  }

  lemma CanonicalIdempotent(p: Path)
    ensures Canonical(Canonical(p)) == Canonical(p)
  {
  }

  /** The suffix from the last dot of the last path element, in lower case; empty without a dot. */
  function Extension(p: Path): string {
    if p == "" || p[|p| - 1] == '/' then ""
    else if p[|p| - 1] == '.' then "."
    else
      var shorter := Extension(p[..|p| - 1]);
      if shorter == "" then "" else shorter + [Lower(p[|p| - 1])]
  }

  function Lower(c: char): char {
    if 'A' <= c <= 'Z' then c - 'A' + 'a' else c
  }

  predicate IsMarkdown(p: Path) {
    Extension(p) == ".md"
  }

  predicate AllowedFile(p: Path) {
    Extension(p) in {".md", ".go", ".sql", ".sh", ".json", ".yaml", ".yml", ".txt"}
  }

  function RepoRules(): Rules {
    Rules(Canonical, AllowedFile, IsMarkdown)
  }

  method BundleWiki(nodes: map<Path, Node>, seeds: seq<Path>) returns (r: Closure)
    ensures r.LinkRot? <==> Rotten(Repo(nodes, RepoRules()), seeds)
    ensures r.Bundle? ==>
              IsManifest(Repo(nodes, RepoRules()), seeds, r.files) && WithinCaps(r.files) && r.totalBytes == TotalSize(r.files)
    ensures !r.Bundle? && !r.LinkRot? ==> exists files :: IsManifest(Repo(nodes, RepoRules()), seeds, files) && OverCap(files, r)
  {
    RulesAreSound();
    r := ComputeClosure(Repo(nodes, RepoRules()), seeds);
  }

  lemma RulesAreSound()
    ensures Sound(RepoRules())
  {
    forall p ensures Canonical(Canonical(p)) == Canonical(p) { CanonicalIdempotent(p); }
  }

  /** A link written with a backslash passes the existence check as written, yet the file it names is never bundled. */
  lemma BackslashLinkIsLost(nodes: map<Path, Node>, seeds: seq<Path>, files: seq<Entry>, e: Entry, link: Path)
    requires !Rotten(Repo(nodes, RepoRules()), seeds) && IsManifest(Repo(nodes, RepoRules()), seeds, files)
    requires e in files && link in e.linksOut && '\\' in link
    ensures link in nodes && link !in Paths(files)
  {
    RulesAreSound();
    LinkShipsExactly(Repo(nodes, RepoRules()), seeds, files, e, link);
    var i :| 0 <= i < |link| && link[i] == '\\';
    assert Canonical(link)[i] == '/';
  }

  // ---------------------------------------------------------------------------
  // Such a repository
  // ---------------------------------------------------------------------------

  const DOC: Path := "d.md"
  const WRITTEN: Path := "x\\y.md"
  const TWIN: Path := "x/y.md"

  /** A document that links to a file whose name contains the backslash; its slash twin exists as well. */
  const Twins: map<Path, Node> := map[DOC := Regular(1, [WRITTEN]), WRITTEN := Regular(1, []), TWIN := Regular(1, [])]

  const DocEntry: Entry := Entry(DOC, 1, true, true, [WRITTEN])
  const TwinEntry: Entry := Entry(TWIN, 1, true, false, [])

  lemma Names()
    ensures Canonical(WRITTEN) == TWIN && Canonical(DOC) == DOC && Canonical(TWIN) == TWIN
    ensures Extension(DOC) == ".md" && Extension(WRITTEN) == ".md" && Extension(TWIN) == ".md"
  {
  }

  lemma OnlyLink(doc: Path, link: Path)
    requires HasLink(Repo(Twins, RepoRules()), doc, link)
    ensures doc == DOC && link == WRITTEN
  {
  }

  lemma TwinsReached()
    ensures HasLink(Repo(Twins, RepoRules()), DOC, WRITTEN)
    ensures Belongs(Repo(Twins, RepoRules()), [DOC], DOC) && Belongs(Repo(Twins, RepoRules()), [DOC], TWIN)
  {
    Names();
    var repo, seeds := Repo(Twins, RepoRules()), [DOC];
    assert repo.rules.canonical(seeds[0]) == DOC;
    assert IsSeed(repo, seeds, DOC);
    SeedsReach(repo, seeds, DOC);
    assert HasLink(repo, DOC, WRITTEN);
    assert LinksTo(repo, DOC, TWIN);
    LinksReach(repo, seeds, DOC, TWIN);
  }

  lemma TwinsEntries()
    ensures EntryOk(Repo(Twins, RepoRules()), [DOC], DocEntry) && EntryOk(Repo(Twins, RepoRules()), [DOC], TwinEntry)
  {
    Names();
    var repo, seeds := Repo(Twins, RepoRules()), [DOC];
    assert repo.rules.canonical(seeds[0]) == DOC;
    assert Followed(repo, [WRITTEN]) == Followed(repo, []) + [WRITTEN];
    assert DOC[0] != TWIN[0];
  }

  /** A repository in which the seed is one file, every link leads to another, and no link is broken. */
  lemma TwoFiles(repo: Repo, seeds: seq<Path>, a: Entry, b: Entry)
    requires Lexical.Less(a.path, b.path) && a.path != b.path
    requires Belongs(repo, seeds, a.path) && repo.rules.canonical(a.path) == a.path && EntryOk(repo, seeds, a)
    requires Belongs(repo, seeds, b.path) && repo.rules.canonical(b.path) == b.path && EntryOk(repo, seeds, b)
    requires forall p :: IsSeed(repo, seeds, p) ==> p == a.path
    requires forall doc, p :: LinksTo(repo, doc, p) ==> p == b.path
    requires forall doc, link :: HasLink(repo, doc, link) ==> link in repo.nodes
    ensures !Rotten(repo, seeds) && IsManifest(repo, seeds, [a, b])
  {
    var visited := map[a.path := a, b.path := b];
    assert EntriesOk(repo, seeds, visited) && LinksExist(repo, visited);
    assert AllCovered(repo, seeds, visited, []);
    WalkIsComplete(repo, seeds, visited);
    ListedIsManifest(repo, seeds, visited, [a.path, b.path], [a, b]);
  }

  lemma TwinsLinks()
    ensures forall doc, p :: LinksTo(Repo(Twins, RepoRules()), doc, p) ==> p == TWIN
    ensures forall doc, link :: HasLink(Repo(Twins, RepoRules()), doc, link) ==> link in Twins
    ensures forall p :: IsSeed(Repo(Twins, RepoRules()), [DOC], p) ==> p == DOC
  {
    Names();
    var repo := Repo(Twins, RepoRules());
    forall doc, p | LinksTo(repo, doc, p) ensures p == TWIN {
      var link :| HasLink(repo, doc, link) && repo.rules.canonical(link) == p;
      OnlyLink(doc, link);
    }
    forall doc, link | HasLink(repo, doc, link) ensures link in Twins {
      OnlyLink(doc, link);
    }
  }

  /** No link rot is reported and the manifest lists the document with its link and the twin. */
  lemma TwinsBundle()
    ensures !Rotten(Repo(Twins, RepoRules()), [DOC])
    ensures IsManifest(Repo(Twins, RepoRules()), [DOC], [DocEntry, TwinEntry])
  {
    Names();
    TwinsReached();
    TwinsEntries();
    TwinsLinks();
    assert DOC[0] < TWIN[0];
    TwoFiles(Repo(Twins, RepoRules()), [DOC], DocEntry, TwinEntry);
  }

  /** So the file that the recorded link names is lost. */
  lemma TwinsLoseALink()
    ensures !Rotten(Repo(Twins, RepoRules()), [DOC])
    ensures IsManifest(Repo(Twins, RepoRules()), [DOC], [DocEntry, TwinEntry])
    ensures WRITTEN in DocEntry.linksOut && WRITTEN in Twins && WRITTEN !in Paths([DocEntry, TwinEntry])
  {
    TwinsBundle();
    assert WRITTEN[1] == '\\';
    BackslashLinkIsLost(Twins, [DOC], [DocEntry, TwinEntry], DocEntry, WRITTEN);
  }

  /** Rewriting backslashes does not change the extension of a file the bundle may hold. */
  lemma {:induction false} CanonicalKeepsExtension(p: Path)
    requires Extension(p) != "" && '\\' !in Extension(p)
    ensures Extension(Canonical(p)) == Extension(p)
    decreases |p|
  {
    var last := |p| - 1;
    if p[last] != '.' {
      assert Canonical(p)[..last] == Canonical(p[..last]);
      assert Extension(p) == Extension(p[..last]) + [Lower(p[last])];
      assert Lower(p[last]) in Extension(p);
      assert forall c :: c in Extension(p[..last]) ==> c in Extension(p);
      CanonicalKeepsExtension(p[..last]);
    }
  }

  /** Without the twin the same link is reported as rot. */
  lemma WithoutTwinRots(nodes: map<Path, Node>, seeds: seq<Path>, doc: Path, link: Path)
    requires Reaches(Repo(nodes, RepoRules()), seeds, doc) && HasLink(Repo(nodes, RepoRules()), doc, link)
    requires Canonical(link) !in nodes
    ensures Rotten(Repo(nodes, RepoRules()), seeds)
  {
    var repo := Repo(nodes, RepoRules());
    CanonicalKeepsExtension(link);
    assert LinksTo(repo, doc, Canonical(link));
    LinksReach(repo, seeds, doc, Canonical(link));
    assert repo.rules.allowed(Canonical(link));
  }
}
