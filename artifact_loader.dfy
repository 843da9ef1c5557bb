/**
 * The artifact registry: turns the modules found under `../artifacts/`
 * into artifacts keyed by id, memoises that map, and derives from it the
 * visible list, the tag and folder lists and the lookup by id. Also the
 * fallback site configuration.
 *
 * The two `import.meta.glob` results are given as sequences of
 * (path, module) pairs in the order the bundler lists them.
 */
module ArtifactLoader {
  import opened Wrappers
  import opened JsStrings
  import opened OrderedMaps
  import opened Sorting
  import opened Types

  /** One imported module: its `metadata` export and its default export. */
  datatype ArtifactModule = ArtifactModule(metadata: Option<Metadata>, component: Option<Component>)

  const ArtifactsDir: string := "../artifacts/"
  const IndexFile: string := "/index.tsx"
  const Extension: string := ".tsx"

  /** `` `../artifacts/${id}.tsx` `` */
  function DirectPath(id: string): string {
    ArtifactsDir + id + Extension
  }

  /** `` `../artifacts/${id}/index.tsx` `` */
  function SubdirPath(id: string): string {
    ArtifactsDir + id + IndexFile
  }

  /**
   * The capture group of `/\.\.\/artifacts\/(.+)\/index\.tsx/`: the match
   * starts at the first `../artifacts/`, and the greedy `.+` runs to the
   * last `/index.tsx` that leaves it at least one character.
   */
  function SubdirMatch(path: string): Option<string> {
    match (IndexOf(path, ArtifactsDir), LastIndexOf(path, IndexFile))
    case (Some(i), Some(j)) =>
      if i + |ArtifactsDir| < j then Some(path[i + |ArtifactsDir|..j]) else None
    case _ => None
  }

  /** `getArtifactIdFromPath` */
  function ArtifactIdFromPath(path: string): string {
    if Includes(path, IndexFile) then
      match SubdirMatch(path)
      case Some(id) => id
      case None => path
    else
      RemoveFirst(RemoveFirst(path, ArtifactsDir), Extension)
  }

  /** A subdirectory module `../artifacts/<n>/index.tsx` gets the id `<n>`. */
  lemma SubdirPathRoundTrip(n: string)
    requires |n| > 0
    ensures ArtifactIdFromPath(SubdirPath(n)) == n
  {
    var p := SubdirPath(n);
    var at := |ArtifactsDir| + |n|;
    assert p[..|ArtifactsDir|] == ArtifactsDir;
    assert OccursAt(p, ArtifactsDir, 0);
    assert p[at..at + |IndexFile|] == IndexFile;
    assert OccursAt(p, IndexFile, at);
    assert IndexOf(p, ArtifactsDir) == Some(0);
    var last := LastIndexOf(p, IndexFile);
    assert last == Some(at);
    assert Includes(p, IndexFile);
    assert p[|ArtifactsDir|..at] == n;
  }

  /**
   * A name `n` whose file `../artifacts/<n>.tsx` the registry reads as a
   * direct module: no `/` (the glob `*.tsx` does not descend), no `.tsx`
   * inside it, and not `index` (that file would hold `/index.tsx`).
   */
  predicate DirectName(n: string) {
    '/' !in n && !Includes(n, Extension) && n != "index"
  }

  /**
   * Within `n` followed by a `.`, no `.tsx` starts inside `n`: it would lie
   * within `n`, or run over the `.`, which no later letter of `.tsx` is.
   */
  lemma ExtensionNotInName(n: string, q: string, j: nat)
    requires !Includes(n, Extension)
    requires |n| < |q| && q[..|n|] == n && q[|n|] == '.'
    requires j < |n|
    ensures !OccursAt(q, Extension, j)
  {
    if j + |Extension| <= |n| {
      assert q[j..j + |Extension|] == n[j..j + |Extension|];
      assert !OccursAt(n, Extension, j) by { IncludesIff(n, Extension); }
    } else if j + |Extension| <= |q| {
      assert q[j..j + |Extension|][|n| - j] == '.';
    }
  }

  /** A direct module's path never contains `/index.tsx`. */
  lemma DirectPathExcludesIndexFile(n: string)
    requires DirectName(n)
    ensures !Includes(DirectPath(n), IndexFile)
  {
    var p := DirectPath(n);
    assert p[..|ArtifactsDir|] == ArtifactsDir;
    assert p[|ArtifactsDir|..|ArtifactsDir| + |n|] == n;
    assert p[|ArtifactsDir| + |n|] == '.';
    NoIndexFileAfterName(p, n);
    IncludesIff(p, IndexFile);
  }

  lemma NoIndexFileAfterName(p: string, n: string)
    requires |p| == |ArtifactsDir| + |n| + |Extension|
    requires p[..|ArtifactsDir|] == ArtifactsDir
    requires p[|ArtifactsDir|..|ArtifactsDir| + |n|] == n
    requires p[|ArtifactsDir| + |n|] == '.'
    requires DirectName(n)
    ensures forall k: nat :: !OccursAt(p, IndexFile, k)
  {
    var d := |ArtifactsDir|;
    assert forall i :: 0 <= i < d ==> p[i] == p[..d][i];
    var name := p[d..d + |n|];
    assert forall i :: 0 <= i < |n| ==> p[d + i] == name[i];
    forall k: nat | k + |IndexFile| <= |p| ensures !OccursAt(p, IndexFile, k) {
      var w := p[k..k + |IndexFile|];
      if k + 6 < d {
        assert w[6] == ArtifactsDir[k + 6] != IndexFile[6];
      } else if k + 6 < d + |n| {
        NoIndexFileInName(p, n, k);
      } else if k < d && |n| != 5 {
        assert w[0] == ArtifactsDir[k] != IndexFile[0];
      } else if k < d {
        var index := "index";
        assert n != index;
        var i :| 0 <= i < 5 && n[i] != index[i];
        assert w[1 + i] == n[i] != IndexFile[1 + i];
      } else {
        assert w[0] == n[k - d] != IndexFile[0];
      }
    }
  }

  /** A `/index.tsx` whose `.tsx` would start inside the name is ruled out by `ExtensionNotInName`. */
  lemma NoIndexFileInName(p: string, n: string, k: nat)
    requires |p| == |ArtifactsDir| + |n| + |Extension|
    requires p[|ArtifactsDir|..|ArtifactsDir| + |n|] == n
    requires p[|ArtifactsDir| + |n|] == '.'
    requires !Includes(n, Extension)
    requires |ArtifactsDir| <= k + 6 < |ArtifactsDir| + |n|
    ensures !OccursAt(p, IndexFile, k)
  {
    var d := |ArtifactsDir|;
    var q := p[d..];
    assert q[..|n|] == n;
    ExtensionNotInName(n, q, k + 6 - d);
    assert q[k + 6 - d..k + 10 - d] == p[k + 6..k + 10];
    if k + |IndexFile| <= |p| {
      assert p[k..k + 10][6..] == p[k + 6..k + 10];
    }
  }

  /**
   * A direct module `../artifacts/<n>.tsx` gets the id `<n>`, dots in the
   * name included (`chart.v2.tsx` gets `chart.v2`).
   */
  lemma DirectPathRoundTrip(n: string)
    requires DirectName(n)
    ensures ArtifactIdFromPath(DirectPath(n)) == n
  {
    var p := DirectPath(n);
    DirectPathExcludesIndexFile(n);
    assert !Includes(p, IndexFile);
    assert OccursAt(p, ArtifactsDir, 0);
    assert IndexOf(p, ArtifactsDir) == Some(0);
    var q := RemoveFirst(p, ArtifactsDir);
    assert q == n + Extension;
    assert OccursAt(q, Extension, |n|);
    assert q[..|n|] == n && q[|n|] == '.';
    forall j: nat | j < |n| ensures !OccursAt(q, Extension, j) {
      ExtensionNotInName(n, q, j);
    }
    assert IndexOf(q, Extension) == Some(|n|);
  }

  /**
   * A direct module named `index.tsx` contains `/index.tsx` but does not
   * match the subdirectory pattern, so its id is its whole path.
   */
  lemma TopLevelIndexKeepsPath()
    ensures ArtifactIdFromPath("../artifacts/index.tsx") == "../artifacts/index.tsx"
  {
    var p := "../artifacts/index.tsx";
    assert OccursAt(p, IndexFile, 12);
    assert OccursAt(p, ArtifactsDir, 0);
    assert IndexOf(p, ArtifactsDir) == Some(0);
    assert LastIndexOf(p, IndexFile) == Some(12);
  }

  const PlaceholderDescription: string := "Auto-generated placeholder description"
  const PlaceholderTag: string := "auto-generated"

  /** The metadata made up for a module that exports none, stamped with the clock reading `now`. */
  function Placeholder(id: string, now: int): Metadata {
    Metadata(id, Some(PlaceholderDescription), React, Some([PlaceholderTag]), None, now, now, None, None, None)
  }

  /** The metadata the registry uses for a module: its own, or a placeholder. */
  function MetadataOf(m: ArtifactModule, id: string, now: int): Metadata {
    if m.metadata.None? then Placeholder(id, now) else m.metadata.value
  }

  /** The artifact built from metadata (lines 89-99). */
  function MakeArtifact(id: string, md: Metadata): Artifact {
    Artifact(id, md.title, Some(Or(md.description, "")), md.kind, md.tags.GetOr([]), md.folder, "",
             md.createdAt, md.updatedAt)
  }

  /** The map entry one imported module contributes. */
  function EntryOf(path: string, m: ArtifactModule, now: int): (string, Artifact) {
    var id := ArtifactIdFromPath(path);
    (id, MakeArtifact(id, MetadataOf(m, id, now)))
  }

  function Entries(imports: seq<(string, ArtifactModule)>, now: int): (es: seq<(string, Artifact)>)
    ensures |es| == |imports|
    ensures forall i :: 0 <= i < |imports| ==> es[i] == EntryOf(imports[i].0, imports[i].1, now)
  {
    seq(|imports|, i requires 0 <= i < |imports| => EntryOf(imports[i].0, imports[i].1, now))
  }

  /** The id -> artifact map `getAllArtifacts` builds from the combined imports. */
  function BuildAll(imports: seq<(string, ArtifactModule)>, now: int): seq<(string, Artifact)> {
    FromPairs(Entries(imports, now))
  }

  /** `{ ...directArtifactsImports, ...subdirArtifactsImports }` */
  function CombinedImports(direct: seq<(string, ArtifactModule)>, subdir: seq<(string, ArtifactModule)>)
    : seq<(string, ArtifactModule)>
  {
    FromPairs(direct + subdir)
  }

  /** The last import whose path yields `id`. */
  function LastImportFor(imports: seq<(string, ArtifactModule)>, id: string): (r: Option<(string, ArtifactModule)>)
    ensures r.Some? ==> r.value in imports && ArtifactIdFromPath(r.value.0) == id
    ensures r.None? <==> forall p :: p in imports ==> ArtifactIdFromPath(p.0) != id
  {
    if |imports| == 0 then None
    else
      var last := imports[|imports| - 1];
      assert imports == imports[..|imports| - 1] + [last];
      if ArtifactIdFromPath(last.0) == id then Some(last) else LastImportFor(imports[..|imports| - 1], id)
  }

  /**
   * What the registry holds under `id`: nothing when no import yields `id`;
   * otherwise the artifact built from the LAST import that yields it, with
   * id, title, type, folder and timestamps copied from its metadata,
   * description `''` and tags `[]` when missing, and empty code.
   */
  lemma {:induction false} CachedArtifact(imports: seq<(string, ArtifactModule)>, now: int, id: string)
    ensures Get(BuildAll(imports, now), id).Some? <==> LastImportFor(imports, id).Some?
    ensures LastImportFor(imports, id).Some? ==>
      var md := MetadataOf(LastImportFor(imports, id).value.1, id, now);
      var a := Get(BuildAll(imports, now), id).value;
      && a.id == id && a.title == md.title && a.kind == md.kind && a.folder == md.folder
      && a.createdAt == md.createdAt && a.updatedAt == md.updatedAt
      && a.description == Some(if md.description.Some? then md.description.value else "")
      && a.tags == (if md.tags.Some? then md.tags.value else [])
      && a.code == ""
  {
    FromPairsLastWins(Entries(imports, now), id);
    LastValueOfEntries(imports, now, id);
  }

  lemma {:induction false} LastValueOfEntries(imports: seq<(string, ArtifactModule)>, now: int, id: string)
    ensures LastValue(Entries(imports, now), id) ==
      match LastImportFor(imports, id)
      case None => None
      case Some(p) => Some(MakeArtifact(id, MetadataOf(p.1, id, now)))
  {
    if |imports| > 0 {
      var init := imports[..|imports| - 1];
      assert Entries(imports, now)[..|imports| - 1] == Entries(init, now);
      LastValueOfEntries(init, now, id);
    }
  }

  /**
   * `{ ...direct, ...subdir }` over two globs that share no path lists the
   * direct imports first, then the subdirectory ones.
   */
  lemma CombinedImportsOrder(direct: seq<(string, ArtifactModule)>, subdir: seq<(string, ArtifactModule)>)
    requires UniqueKeys(direct) && UniqueKeys(subdir)
    requires forall p, q :: p in direct && q in subdir ==> p.0 != q.0
    ensures CombinedImports(direct, subdir) == direct + subdir
  {
    var s := direct + subdir;
    forall i, j | 0 <= i < j < |s| ensures s[i].0 != s[j].0 {
      if j < |direct| {
        assert s[i] == direct[i] && s[j] == direct[j];
      } else if i >= |direct| {
        assert s[i] == subdir[i - |direct|] && s[j] == subdir[j - |direct|];
      } else {
        assert s[i] == direct[i] && s[j] == subdir[j - |direct|];
        assert s[i] in direct && s[j] in subdir;
      }
    }
    FromPairsOfUnique(s);
  }

  lemma {:induction false} LastImportForAppend(a: seq<(string, ArtifactModule)>, b: seq<(string, ArtifactModule)>, id: string)
    ensures LastImportFor(a + b, id) == if LastImportFor(b, id).Some? then LastImportFor(b, id) else LastImportFor(a, id)
  {
    if |b| == 0 {
      assert a + b == a;
    } else {
      assert (a + b)[..|a + b| - 1] == a + b[..|b| - 1];
      LastImportForAppend(a, b[..|b| - 1], id);
    }
  }

  /**
   * When a name has both a direct file and a subdirectory, the registry
   * holds the artifact built from the subdirectory's module (it comes
   * later and overwrites the direct one).
   */
  lemma SubdirWinsCollision(
    direct: seq<(string, ArtifactModule)>, subdir: seq<(string, ArtifactModule)>, now: int,
    n: string, fromFile: ArtifactModule, fromDir: ArtifactModule)
    requires UniqueKeys(direct) && UniqueKeys(subdir)
    requires forall p, q :: p in direct && q in subdir ==> p.0 != q.0
    requires forall q :: q in subdir && ArtifactIdFromPath(q.0) == n ==> q.0 == SubdirPath(n)
    requires |n| > 0
    requires (DirectPath(n), fromFile) in direct && (SubdirPath(n), fromDir) in subdir
    ensures Get(BuildAll(CombinedImports(direct, subdir), now), n) == Some(MakeArtifact(n, MetadataOf(fromDir, n, now)))
  {
    SubdirLastImport(direct, subdir, n, fromDir);
    BuiltFromLastImport(direct + subdir, now, n, (SubdirPath(n), fromDir));
    CombinedImportsOrder(direct, subdir);
  }

  /** Appending the subdirectory imports makes the subdirectory module the last import for `n`. */
  lemma SubdirLastImport(
    direct: seq<(string, ArtifactModule)>, subdir: seq<(string, ArtifactModule)>, n: string, fromDir: ArtifactModule)
    requires UniqueKeys(subdir)
    requires forall q :: q in subdir && ArtifactIdFromPath(q.0) == n ==> q.0 == SubdirPath(n)
    requires |n| > 0
    requires (SubdirPath(n), fromDir) in subdir
    ensures LastImportFor(direct + subdir, n) == Some((SubdirPath(n), fromDir))
  {
    LastImportForAppend(direct, subdir, n);
    OnlySubdirImport(subdir, n, fromDir);
  }

  /** The registry entry for `id` is built from the last import that yields `id`. */
  lemma BuiltFromLastImport(imports: seq<(string, ArtifactModule)>, now: int, id: string, p: (string, ArtifactModule))
    requires LastImportFor(imports, id) == Some(p)
    ensures Get(BuildAll(imports, now), id) == Some(MakeArtifact(id, MetadataOf(p.1, id, now)))
  {
    LastValueOfEntries(imports, now, id);
    FromPairsLastWins(Entries(imports, now), id);
  }

  /**
   * `getArtifact` looks for the component in the direct file first, so on
   * such a collision it pairs the subdirectory's artifact with the direct
   * file's component.
   */
  lemma CollisionComponentFromFile(
    direct: seq<(string, ArtifactModule)>, subdir: seq<(string, ArtifactModule)>, n: string, fromFile: ArtifactModule)
    requires UniqueKeys(direct)
    requires (DirectPath(n), fromFile) in direct
    ensures ComponentFor(direct, subdir, n) == fromFile.component
  {
    GetOfUnique(direct, DirectPath(n), fromFile);
  }

  /** The one subdirectory import that yields `n` is the last import for `n`. */
  lemma OnlySubdirImport(subdir: seq<(string, ArtifactModule)>, n: string, fromDir: ArtifactModule)
    requires UniqueKeys(subdir)
    requires forall q :: q in subdir && ArtifactIdFromPath(q.0) == n ==> q.0 == SubdirPath(n)
    requires |n| > 0
    requires (SubdirPath(n), fromDir) in subdir
    ensures LastImportFor(subdir, n) == Some((SubdirPath(n), fromDir))
  {
    SubdirPathRoundTrip(n);
    var last := LastImportFor(subdir, n);
    assert last.Some?;
    var i :| 0 <= i < |subdir| && subdir[i] == last.value;
    var k :| 0 <= k < |subdir| && subdir[k] == (SubdirPath(n), fromDir);
    assert subdir[i].0 == subdir[k].0;
  }

  /** A module without metadata is listed under a placeholder: its id as title, type react, one tag. */
  lemma PlaceholderArtifact(imports: seq<(string, ArtifactModule)>, now: int, id: string)
    requires LastImportFor(imports, id).Some? && LastImportFor(imports, id).value.1.metadata.None?
    ensures Get(BuildAll(imports, now), id).Some?
    ensures var a := Get(BuildAll(imports, now), id).value;
      && a.title == id && a.kind == React && a.tags == ["auto-generated"]
      && a.description == Some("Auto-generated placeholder description")
      && a.folder == None && a.createdAt == now && a.updatedAt == now
  {
    CachedArtifact(imports, now, id);
  }

  /** Every cached artifact is stored under its own id. */
  lemma CachedUnderOwnId(imports: seq<(string, ArtifactModule)>, now: int)
    ensures forall p :: p in BuildAll(imports, now) ==> p.1.id == p.0
  {
    FromPairsPairs(Entries(imports, now));
  }

  /** `artifactsImports[path] || artifactsImports[subdirPath]` for a cached id. */
  function ModuleFor(imports: seq<(string, ArtifactModule)>, id: string): Option<ArtifactModule> {
    var direct := Get(imports, DirectPath(id));
    if direct.Some? then direct else Get(imports, SubdirPath(id))
  }

  /** `importedModule?.metadata?.hidden` is truthy. */
  predicate IsHidden(imports: seq<(string, ArtifactModule)>, id: string) {
    var m := ModuleFor(imports, id);
    m.Some? && m.value.metadata.Some? && m.value.metadata.value.hidden == Some(true)
  }

  /** The artifacts of `cache`, in map order, whose module is not hidden. */
  function Visible(cache: seq<(string, Artifact)>, imports: seq<(string, ArtifactModule)>): (r: seq<Artifact>)
    ensures |r| <= |cache|
    ensures forall a :: a in r <==> exists p :: p in cache && p.1 == a && !IsHidden(imports, p.0)
  {
    if |cache| == 0 then []
    else
      var init, last := cache[..|cache| - 1], cache[|cache| - 1];
      assert cache == init + [last];
      var prefix := Visible(init, imports);
      if IsHidden(imports, last.0) then prefix else prefix + [last.1]
  }

  /**
   * A module whose metadata says `hidden` is left out of the visible list
   * but stays in the registry, so a lookup by id still finds it.
   */
  lemma HiddenArtifactStaysReachable(
    direct: seq<(string, ArtifactModule)>, subdir: seq<(string, ArtifactModule)>, now: int, n: string, m: ArtifactModule)
    requires UniqueKeys(direct) && UniqueKeys(subdir)
    requires forall p :: p in subdir ==> Includes(p.0, IndexFile)
    requires DirectName(n)
    requires (DirectPath(n), m) in direct
    requires m.metadata.Some? && m.metadata.value.hidden == Some(true)
    ensures var imports := CombinedImports(direct, subdir);
      && Get(BuildAll(imports, now), n).Some?
      && forall a :: a in Visible(BuildAll(imports, now), imports) ==> a.id != n
  {
    var imports := CombinedImports(direct, subdir);
    var all := BuildAll(imports, now);
    var dp := DirectPath(n);
    DirectModuleWins(direct, subdir, n, m);
    assert IsHidden(imports, n);
    DirectPathRoundTrip(n);
    ImportedIdIsCached(imports, now, dp, m);
    CachedUnderOwnId(imports, now);
    forall a | a in Visible(all, imports) ensures a.id != n {
      var p :| p in all && p.1 == a && !IsHidden(imports, p.0);
    }
  }

  /** When a direct module exists for `n`, the combined imports hold it under its path. */
  lemma DirectModuleWins(
    direct: seq<(string, ArtifactModule)>, subdir: seq<(string, ArtifactModule)>, n: string, m: ArtifactModule)
    requires UniqueKeys(direct)
    requires forall p :: p in subdir ==> Includes(p.0, IndexFile)
    requires DirectName(n)
    requires (DirectPath(n), m) in direct
    ensures Get(CombinedImports(direct, subdir), DirectPath(n)) == Some(m)
  {
    var dp := DirectPath(n);
    var k :| 0 <= k < |direct| && direct[k] == (dp, m);
    assert dp in Keys(direct + subdir) by { assert (direct + subdir)[k].0 == dp; }
    FromPairsKeys(direct + subdir);
    var got := Get(CombinedImports(direct, subdir), dp).value;
    assert (dp, got) in direct + subdir by { FromPairsPairs(direct + subdir); }
    assert (dp, got) !in subdir by { DirectPathExcludesIndexFile(n); }
    GetOfUnique(direct, dp, got);
    GetOfUnique(direct, dp, m);
  }

  /** A path among the imports makes its id a key of the registry. */
  lemma ImportedIdIsCached(imports: seq<(string, ArtifactModule)>, now: int, path: string, m: ArtifactModule)
    requires Get(imports, path) == Some(m)
    ensures Get(BuildAll(imports, now), ArtifactIdFromPath(path)).Some?
  {
    CachedArtifact(imports, now, ArtifactIdFromPath(path));
  }

  /** `getArtifact`'s component: the direct file's default export, else the subdirectory one's. */
  function ComponentFor(direct: seq<(string, ArtifactModule)>, subdir: seq<(string, ArtifactModule)>, name: string)
    : Option<Component>
  {
    match Get(direct, DirectPath(name))
    case Some(m) => m.component
    case None =>
      match Get(subdir, SubdirPath(name))
      case Some(m) => m.component
      case None => None
  }

  /** All tags of `arts`, in order, with repetitions. */
  function TagsOf(arts: seq<Artifact>): (r: seq<string>)
    ensures forall t :: t in r <==> exists a :: a in arts && t in a.tags
  {
    if |arts| == 0 then []
    else
      var init := arts[..|arts| - 1];
      assert arts == init + [arts[|arts| - 1]];
      TagsOf(init) + arts[|arts| - 1].tags
  }

  /** The non-empty folders of `arts`, in order, with repetitions. */
  function FoldersOf(arts: seq<Artifact>): (r: seq<string>)
    ensures forall f :: f in r <==> exists a :: a in arts && a.folder == Some(f) && f != ""
  {
    if |arts| == 0 then []
    else
      var init, last := arts[..|arts| - 1], arts[|arts| - 1];
      assert arts == init + [last];
      FoldersOf(init) + (if Truthy(last.folder) then [last.folder.value] else [])
  }

  /** `Array.from(set).sort()` */
  function SortedList(s: seq<string>): seq<string> {
    InsertionSort(Distinct(s), CodeUnitLe)
  }

  /** `getAllTags` over the visible artifacts. */
  function TagList(visible: seq<Artifact>): seq<string> {
    SortedList(TagsOf(visible))
  }

  /** `getAllFolders` over the visible artifacts. */
  function FolderList(visible: seq<Artifact>): seq<string> {
    SortedList(FoldersOf(visible))
  }

  /** The result of `Array.from(set).sort()` is strictly increasing and holds exactly the set. */
  lemma SortedListSpec(s: seq<string>)
    ensures var r := SortedList(s);
      && (forall i, j :: 0 <= i < j < |r| ==> CodeUnitLe(r[i], r[j]) && r[i] != r[j])
      && (forall x :: x in r <==> x in s)
  {
    var d := Distinct(s);
    var r := SortedList(s);
    CodeUnitOrderIsTotal();
    InsertionSortSorted(d, CodeUnitLe);
    PermutationKeepsDistinct(d, r);
    forall x ensures x in r <==> x in s {
      assert x in r <==> x in multiset(r);
      assert x in d <==> x in multiset(d);
    }
  }

  /** A permutation of a sequence without repetitions has none either. */
  lemma {:induction false} PermutationKeepsDistinct<T>(a: seq<T>, b: seq<T>)
    requires multiset(a) == multiset(b)
    requires forall i, j :: 0 <= i < j < |a| ==> a[i] != a[j]
    ensures forall i, j :: 0 <= i < j < |b| ==> b[i] != b[j]
  {
    DistinctCountsOne(a);
    forall i, j | 0 <= i < j < |b| ensures b[i] != b[j] {
      var x := b[i];
      assert b[..j + 1] == b[..j] + [b[j]];
      assert b == b[..j + 1] + b[j + 1..];
      assert x in b[..j];
      assert multiset(b)[x] == multiset(b[..j])[x] + multiset([b[j]])[x] + multiset(b[j + 1..])[x];
    }
  }

  lemma {:induction false} DistinctCountsOne<T>(a: seq<T>)
    requires forall i, j :: 0 <= i < j < |a| ==> a[i] != a[j]
    ensures forall x :: multiset(a)[x] <= 1
  {
    if |a| > 0 {
      var init := a[..|a| - 1];
      DistinctCountsOne(init);
      assert a == init + [a[|a| - 1]];
      assert a[|a| - 1] !in init;
    }
  }

  /** `getAllTags`: sorted, without repetitions, exactly the tags of the visible artifacts. */
  lemma TagListSpec(visible: seq<Artifact>)
    ensures var r := TagList(visible);
      && (forall i, j :: 0 <= i < j < |r| ==> CodeUnitLe(r[i], r[j]) && r[i] != r[j])
      && (forall t :: t in r <==> exists a :: a in visible && t in a.tags)
  {
    SortedListSpec(TagsOf(visible));
  }

  /** `getAllFolders`: sorted, without repetitions, exactly the non-empty folders of the visible artifacts. */
  lemma FolderListSpec(visible: seq<Artifact>)
    ensures var r := FolderList(visible);
      && (forall i, j :: 0 <= i < j < |r| ==> CodeUnitLe(r[i], r[j]) && r[i] != r[j])
      && (forall f :: f in r <==> exists a :: a in visible && a.folder == Some(f) && f != "")
  {
    SortedListSpec(FoldersOf(visible));
  }

  /** How `fetch('/TOYBOX_CONFIG.json')` went. */
  datatype FetchOutcome =
    | NetworkError
      /** `body` is `None` when `response.json()` rejects. */
    | HttpResponse(ok: bool, body: Option<ToyboxConfig>)

  /** `loadToyboxConfig` */
  function LoadToyboxConfig(response: FetchOutcome): (c: ToyboxConfig)
    ensures response.HttpResponse? && response.ok && response.body.Some? ==> c == response.body.value
    ensures !(response.HttpResponse? && response.ok && response.body.Some?) ==>
      c == ToyboxConfig("My TOYBOX", Some("A collection of my Claude-generated artifacts"), Auto, Grid, None, true)
  {
    match response
    case HttpResponse(true, Some(config)) => config
    case _ => ToyboxConfig("My TOYBOX", Some("A collection of my Claude-generated artifacts"), Auto, Grid, None, true)
  }

  lemma EntriesStep(imports: seq<(string, ArtifactModule)>, i: nat, now: int)
    requires i < |imports|
    ensures var e := EntryOf(imports[i].0, imports[i].1, now);
      FromPairs(Entries(imports[..i + 1], now)) == Put(FromPairs(Entries(imports[..i], now)), e.0, e.1)
  {
    assert Entries(imports[..i + 1], now)[..i] == Entries(imports[..i], now);
  }

  /** One iteration of `getAllArtifacts`: the id of a path and the artifact built from its module. */
  method MakeEntry(path: string, m: ArtifactModule, now: int) returns (id: string, artifact: Artifact)
    ensures (id, artifact) == EntryOf(path, m, now)
  {
    id := ArtifactIdFromPath(path);
    var md: Metadata;
    if m.metadata.None? {
      md := Placeholder(id, now);
    } else {
      md := m.metadata.value;
    }
    artifact := MakeArtifact(id, md);
  }

  /** The loop of `getAllArtifacts`: each import, in order, sets its id to its artifact. */
  method BuildMap(imports: seq<(string, ArtifactModule)>, now: int) returns (entries: seq<(string, Artifact)>)
    ensures entries == BuildAll(imports, now)
  {
    entries := [];
    var i := 0;
    while i < |imports|
      invariant 0 <= i <= |imports|
      invariant entries == FromPairs(Entries(imports[..i], now))
    {
      var id, artifact := MakeEntry(imports[i].0, imports[i].1, now);
      EntriesStep(imports, i, now);
      entries := Put(entries, id, artifact);
      i := i + 1;
    }
    assert imports[..i] == imports;
  }

  lemma VisibleStep(all: seq<(string, Artifact)>, imports: seq<(string, ArtifactModule)>, i: nat)
    requires i < |all|
    ensures Visible(all[..i + 1], imports)
      == Visible(all[..i], imports) + (if IsHidden(imports, all[i].0) then [] else [all[i].1])
  {
    assert all[..i + 1][..i] == all[..i];
  }

  /** The loop of `loadArtifacts`: keeps, in map order, the artifacts whose module is not hidden. */
  method FilterVisible(all: seq<(string, Artifact)>, imports: seq<(string, ArtifactModule)>)
    returns (artifacts: seq<Artifact>)
    ensures artifacts == Visible(all, imports)
  {
    artifacts := [];
    var i := 0;
    while i < |all|
      invariant 0 <= i <= |all|
      invariant artifacts == Visible(all[..i], imports)
    {
      var (id, artifact) := all[i];
      VisibleStep(all, imports, i);
      var m := Get(imports, DirectPath(id));
      if m.None? {
        m := Get(imports, SubdirPath(id));
      }
      assert m == ModuleFor(imports, id);
      if m.Some? && m.value.metadata.Some? && m.value.metadata.value.hidden == Some(true) {
        i := i + 1;
        continue;
      }
      artifacts := artifacts + [artifact];
      i := i + 1;
    }
    assert all[..i] == all;
  }

  lemma TagsStep(artifacts: seq<Artifact>, i: nat)
    requires i < |artifacts|
    ensures TagsOf(artifacts[..i + 1]) == TagsOf(artifacts[..i]) + artifacts[i].tags
  {
    assert artifacts[..i + 1][..i] == artifacts[..i];
  }

  /** `tags.forEach(tag => tagsSet.add(tag))`, with `seen` the set filled from `before`. */
  method AddAll(seen: seq<string>, before: seq<string>, tags: seq<string>) returns (r: seq<string>)
    requires seen == Distinct(before)
    ensures r == Distinct(before + tags)
  {
    r := seen;
    var j := 0;
    assert before + tags[..j] == before;
    while j < |tags|
      invariant 0 <= j <= |tags|
      invariant r == Distinct(before + tags[..j])
    {
      DistinctAppendStep(before, tags, j);
      if tags[j] !in r {
        r := r + [tags[j]];
      }
      j := j + 1;
    }
    assert tags[..j] == tags;
  }

  /** The loop of `getAllTags` that adds every tag of every artifact to a `Set`. */
  method CollectTags(artifacts: seq<Artifact>) returns (seen: seq<string>)
    ensures seen == Distinct(TagsOf(artifacts))
  {
    seen := [];
    var i := 0;
    while i < |artifacts|
      invariant 0 <= i <= |artifacts|
      invariant seen == Distinct(TagsOf(artifacts[..i]))
    {
      TagsStep(artifacts, i);
      seen := AddAll(seen, TagsOf(artifacts[..i]), artifacts[i].tags);
      i := i + 1;
    }
    assert artifacts[..i] == artifacts;
  }

  lemma FoldersStep(artifacts: seq<Artifact>, i: nat)
    requires i < |artifacts|
    ensures var f := artifacts[i].folder;
      FoldersOf(artifacts[..i + 1]) == FoldersOf(artifacts[..i]) + (if Truthy(f) then [f.value] else [])
  {
    assert artifacts[..i + 1][..i] == artifacts[..i];
  }

  /** The loop of `getAllFolders` that adds every non-empty folder to a `Set`. */
  method CollectFolders(artifacts: seq<Artifact>) returns (seen: seq<string>)
    ensures seen == Distinct(FoldersOf(artifacts))
  {
    seen := [];
    var i := 0;
    while i < |artifacts|
      invariant 0 <= i <= |artifacts|
      invariant seen == Distinct(FoldersOf(artifacts[..i]))
    {
      FoldersStep(artifacts, i);
      var folder := artifacts[i].folder;
      if folder.Some? && folder.value != "" {
        DistinctSnoc(FoldersOf(artifacts[..i]), folder.value);
        if folder.value !in seen {
          seen := seen + [folder.value];
        }
      } else {
        assert FoldersOf(artifacts[..i]) + [] == FoldersOf(artifacts[..i]);
      }
      i := i + 1;
    }
    assert artifacts[..i] == artifacts;
  }

  /**
   * The registry: the two import maps and the memoised id -> artifact map
   * (`_allArtifactsCache`), built on first use and kept from then on.
   */
  class Registry {
    const direct: seq<(string, ArtifactModule)>
    const subdir: seq<(string, ArtifactModule)>
    var cache: Option<seq<(string, Artifact)>>
    /** The clock reading taken when the cache was built. */
    ghost var builtAt: int

    ghost predicate Valid()
      reads this
    {
      && UniqueKeys(direct) && UniqueKeys(subdir)
      && (cache.Some? ==> cache.value == Built())
    }

    /** The registry as it stands: the map built at `builtAt`. */
    ghost function Built(): seq<(string, Artifact)>
      reads this
    {
      BuildAll(CombinedImports(direct, subdir), builtAt)
    }

    /** `direct` and `subdir` are the two glob results, each keyed by path. */
    constructor(direct: seq<(string, ArtifactModule)>, subdir: seq<(string, ArtifactModule)>)
      requires UniqueKeys(direct) && UniqueKeys(subdir)
      ensures Valid()
      ensures this.direct == direct && this.subdir == subdir && cache == None
    {
      this.direct := direct;
      this.subdir := subdir;
      cache := None;
    }

    /** `getAllArtifacts`: builds the map at the first call (reading the clock as `now`), then returns it. */
    method GetAllArtifacts(now: int) returns (all: seq<(string, Artifact)>)
      requires Valid()
      modifies this
      ensures Valid() && cache == Some(all) && all == Built()
      ensures old(cache).Some? ==> all == old(cache).value && builtAt == old(builtAt)
      ensures old(cache).None? ==> builtAt == now
    {
      if cache.Some? {
        return cache.value;
      }
      all := BuildMap(CombinedImports(direct, subdir), now);
      cache := Some(all);
      builtAt := now;
    }

    /** `loadArtifacts`: the cached artifacts whose module is not hidden, in map order. */
    method LoadArtifacts(now: int) returns (artifacts: seq<Artifact>)
      requires Valid()
      modifies this
      ensures Valid() && cache.Some?
      ensures old(cache).Some? ==> cache == old(cache) && builtAt == old(builtAt)
      ensures old(cache).None? ==> builtAt == now
      ensures artifacts == Visible(Built(), CombinedImports(direct, subdir))
    {
      var all := GetAllArtifacts(now);
      artifacts := FilterVisible(all, CombinedImports(direct, subdir));
    }

    /** `getArtifact`: the artifact (hidden ones too) and its component, or neither. */
    method GetArtifact(name: string, now: int) returns (artifact: Option<Artifact>, component: Option<Component>)
      requires Valid()
      modifies this
      ensures Valid() && cache.Some?
      ensures old(cache).Some? ==> cache == old(cache) && builtAt == old(builtAt)
      ensures old(cache).None? ==> builtAt == now
      ensures artifact == Get(Built(), name)
      ensures component == if artifact.None? then None else ComponentFor(direct, subdir, name)
    {
      var all := GetAllArtifacts(now);
      artifact := Get(all, name);
      if artifact.None? {
        return None, None;
      }
      var d := Get(direct, DirectPath(name));
      if d.Some? {
        component := d.value.component;
      } else {
        var s := Get(subdir, SubdirPath(name));
        component := if s.Some? then s.value.component else None;
      }
    }

    /** `getAllTags` */
    method GetAllTags(now: int) returns (tags: seq<string>)
      requires Valid()
      modifies this
      ensures Valid() && cache.Some?
      ensures old(cache).Some? ==> cache == old(cache) && builtAt == old(builtAt)
      ensures old(cache).None? ==> builtAt == now
      ensures tags == TagList(Visible(Built(), CombinedImports(direct, subdir)))
    {
      var artifacts := LoadArtifacts(now);
      var seen := CollectTags(artifacts);
      tags := InsertionSort(seen, CodeUnitLe);
    }

    /** `getAllFolders` */
    method GetAllFolders(now: int) returns (folders: seq<string>)
      requires Valid()
      modifies this
      ensures Valid() && cache.Some?
      ensures old(cache).Some? ==> cache == old(cache) && builtAt == old(builtAt)
      ensures old(cache).None? ==> builtAt == now
      ensures folders == FolderList(Visible(Built(), CombinedImports(direct, subdir)))
    {
      var artifacts := LoadArtifacts(now);
      var seen := CollectFolders(artifacts);
      folders := InsertionSort(seen, CodeUnitLe);
    }
  }
}
