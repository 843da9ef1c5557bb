# TOYBOX gallery, modelled in Dafny

TOYBOX is a static gallery of small artifacts: React components, SVG drawings
and Mermaid diagrams. Each artifact lives either in `src/artifacts/<name>.tsx`
or in `src/artifacts/<name>/index.tsx`. This project models the logic around
them:

- **Artifact registry** (`artifact_loader.dfy`, module `ArtifactLoader`). It
  turns module paths into artifact ids and fills in placeholder metadata for
  a module that exports none. It builds the memoised id → artifact map, which
  includes hidden artifacts, as a class `Registry` with an optional cache
  field. From that map it derives the visible list, the sorted tag and
  folder lists, and the lookup by id. It also gives the fallback site
  configuration.
- **Gallery page** (`gallery.dfy`, module `Gallery`). It covers the
  filter-and-sort pipeline: the type filter, the tag filter, a
  case-insensitive search, then a sort by title or by date in either
  direction. It also covers the page state (`GalleryView`) that the
  clear-filters and sort-direction controls update, and the choice of the
  empty-state message.
- **Artifact page** (`runner.dfy`, module `Runner`). It covers the state that
  `loadArtifact` updates step by step (`ArtifactRunner`), and the pure choice
  of what the page shows: spinner, error panel, or the artifact standalone
  or framed.
- **Site configuration** (`site_config.dfy`, `github_urls.dfy`). This is the
  base URL, the GitHub names injected at build time, the addresses derived
  from them, and `getUrl`.
- **Build-script configuration** (`config_loader.dfy`). `loadConfig` takes
  the defaults, then `github.config.json`, then the environment, then the
  derived values. The module also has `getBaseUrl` and `validateConfig`.
  `LoadConfig` and `ConfigOf` follow the script as written, so a file that
  sets any customization key loses the other default keys (see
  "## Findings"). The intended merge is modelled beside it as
  `ConfigOfIntended`.
- **Example calculator** (`calculator.dfy`). This is its input line, its
  numbered history of expression and result lines, the angle mode, and
  insertion at the selection.

Supporting modules:

- `js_strings.dfy`: JavaScript string operations over `seq<char>`.
- `ordered_maps.dfy`: JavaScript's insertion-ordered `Map`, plain objects and
  `Set`, as sequences of pairs. Setting an existing key keeps its place; a
  new key goes last.
- `sorting.dfy`: `Array.prototype.sort` as a stable insertion sort, with the
  default string order.
- `types.dfy`: the records.
- `wrappers.dfy`: `Option` and `Result`.

The environment enters as parameters:

- the two `import.meta.glob` results are sequences of (path, module) pairs;
- the clock reading is `now`;
- the fetch of `TOYBOX_CONFIG.json` is a `FetchOutcome`;
- `import.meta.env` is `BuildEnv`;
- `process.env` is `ProcessEnv`;
- reading `github.config.json` is a `FileRead`;
- `toLowerCase` and `localeCompare` are the parameters `lower` and `collate`;
- the calculator's evaluator is a function parameter.

## Model

| member | source | states |
|---|---|---|
| ArtifactLoader.SubdirPathRoundTrip | src/lib/artifactLoader.ts:42-47 | `../artifacts/<n>/index.tsx` gets the id `<n>` for every non-empty `n` |
| ArtifactLoader.ArtifactIdFromPath | src/lib/artifactLoader.ts:42-51 | defines the id of a module path: with `/index.tsx` in the path, the `(.+)` capture from the first `../artifacts/` to the last `/index.tsx`, or the whole path when that does not match; otherwise the path with its first `../artifacts/` and then its first `.tsx` removed. The round trips below pin it down |
| ArtifactLoader.DirectPathRoundTrip | src/lib/artifactLoader.ts:42-51 | `../artifacts/<n>.tsx` gets the id `<n>` for every name the `*.tsx` glob yields (no `/`), dotted names such as `chart.v2` included, except `index` and names that themselves contain `.tsx` |
| ArtifactLoader.DirectPathExcludesIndexFile | src/lib/artifactLoader.ts:44 | the path of such a name, dots allowed, never takes the `/index.tsx` branch |
| ArtifactLoader.TopLevelIndexKeepsPath | src/lib/artifactLoader.ts:44-46 | `../artifacts/index.tsx` contains `/index.tsx` but does not match the pattern, so its id is the whole path |
| ArtifactLoader.LastImportFor | src/lib/artifactLoader.ts:66-101 | the import that decides an id is one of the imports and yields that id; there is none exactly when no import yields the id |
| ArtifactLoader.CachedArtifact | src/lib/artifactLoader.ts:59-102 | the map holds an id iff some import yields it; the artifact comes from the last such import, copies id, title, type, folder and timestamps, has description `''` and tags `[]` when missing, and has empty code |
| ArtifactLoader.Placeholder | src/lib/artifactLoader.ts:77-84 | defines the placeholder metadata, stamped with the clock reading `now`; `PlaceholderArtifact` states the artifact built from it |
| ArtifactLoader.MetadataOf | src/lib/artifactLoader.ts:73-87 | defines the metadata used for a module: its own when it exports some, else the placeholder; `CachedArtifact` and `PlaceholderArtifact` state its use |
| ArtifactLoader.MakeArtifact | src/lib/artifactLoader.ts:89-99 | defines the artifact object built from metadata, with `''` for a missing description, `[]` for missing tags, and empty code; `CachedArtifact` states each field |
| ArtifactLoader.EntryOf | src/lib/artifactLoader.ts:66-101 | defines the (id, artifact) pair one import contributes; `MakeEntry` is the loop body proved equal to it |
| ArtifactLoader.Entries | src/lib/artifactLoader.ts:66-101 | the pairs of all imports in order: one per import, each equal to `EntryOf` of that import |
| ArtifactLoader.BuildAll | src/lib/artifactLoader.ts:59-102 | defines the map as those pairs filled into an ordered map; `BuildMap` is the loop proved equal to it, and `CachedArtifact`, `CachedUnderOwnId` and `SubdirWinsCollision` state its contents |
| ArtifactLoader.CombinedImports | src/lib/artifactLoader.ts:17-20 | defines the spread of the two globs as their pairs filled into an ordered map; `CombinedImportsOrder`, `SubdirWinsCollision` and `DirectModuleWins` state its contents |
| ArtifactLoader.PlaceholderArtifact | src/lib/artifactLoader.ts:73-84 | a module without metadata is listed with its id as title, type react, tags `['auto-generated']`, the placeholder description, no folder, and the clock reading `now` as both timestamps |
| ArtifactLoader.CachedUnderOwnId | src/lib/artifactLoader.ts:89-101 | every artifact in the map is stored under its own id |
| ArtifactLoader.CombinedImportsOrder | src/lib/artifactLoader.ts:17-20 | spreading two globs with no common path lists the direct imports first, then the subdirectory ones |
| ArtifactLoader.SubdirWinsCollision | src/lib/artifactLoader.ts:17-20 | when a name has both a direct file and a subdirectory, the map holds the artifact built from the subdirectory module |
| ArtifactLoader.CollisionComponentFromFile | src/lib/artifactLoader.ts:148-155 | the component is taken from the direct file whenever there is one, even when the artifact came from the subdirectory |
| ArtifactLoader.Visible | src/lib/artifactLoader.ts:110-129 | the visible list is at most as long as the map; an artifact is in it iff some map entry holds it and that entry's module is not hidden |
| ArtifactLoader.ModuleFor | src/lib/artifactLoader.ts:116-119 | defines the module `loadArtifacts` consults for an id: the direct file's when the imports hold it, else the subdirectory one's; `DirectModuleWins` and `Visible` state its consequences |
| ArtifactLoader.IsHidden | src/lib/artifactLoader.ts:121-123 | defines the hidden test: that module exists, has metadata, and its `hidden` is `true`; `Visible` and `HiddenArtifactStaysReachable` state its consequences |
| ArtifactLoader.ComponentFor | src/lib/artifactLoader.ts:148-155 | defines `getArtifact`'s component: the direct file's default export, else the subdirectory module's, else none; `CollisionComponentFromFile` and `Registry.GetArtifact` state its use |
| ArtifactLoader.HiddenArtifactStaysReachable | src/lib/artifactLoader.ts:114-145 | a module marked hidden stays in the map, so lookup by id finds it, but no artifact with its id is in the visible list |
| ArtifactLoader.DirectModuleWins | src/lib/artifactLoader.ts:116-119 | the combined imports hold a direct module under its path, since no subdirectory path can equal it |
| ArtifactLoader.TagsOf | src/lib/artifactLoader.ts:183-185 | the collected tags are exactly the tags of the given artifacts |
| ArtifactLoader.FoldersOf | src/lib/artifactLoader.ts:167-171 | the collected folders are exactly the non-empty folders of the given artifacts |
| ArtifactLoader.SortedListSpec | src/lib/artifactLoader.ts:173 | `Array.from(set).sort()` is strictly increasing in code-unit order and holds exactly the set's elements |
| ArtifactLoader.SortedList | src/lib/artifactLoader.ts:173 | defines `Array.from(set).sort()` as the set's first-insertion sequence sorted by code units; `SortedListSpec` states it |
| ArtifactLoader.TagList | src/lib/artifactLoader.ts:179-188 | defines `getAllTags` over the visible artifacts; `TagListSpec` states it |
| ArtifactLoader.FolderList | src/lib/artifactLoader.ts:163-174 | defines `getAllFolders` over the visible artifacts; `FolderListSpec` states it |
| ArtifactLoader.TagListSpec | src/lib/artifactLoader.ts:179-188 | the tag list is sorted, has no repetitions, and is exactly the union of the visible artifacts' tags |
| ArtifactLoader.FolderListSpec | src/lib/artifactLoader.ts:163-174 | the folder list is sorted, has no repetitions, and is exactly the non-empty folders of the visible artifacts |
| ArtifactLoader.LoadToyboxConfig | src/lib/artifactLoader.ts:193-211 | an ok response's body is returned as is; a failed fetch, a non-ok response or an unreadable body gives the fixed default configuration |
| ArtifactLoader.MakeEntry | src/lib/artifactLoader.ts:67-99 | one loop iteration yields the path's id and the artifact built from its metadata, or from the placeholder when there is none |
| ArtifactLoader.BuildMap | src/lib/artifactLoader.ts:64-102 | the loop of `Map.set` calls yields the specified map |
| ArtifactLoader.FilterVisible | src/lib/artifactLoader.ts:114-126 | the loop that skips hidden modules yields the specified visible list |
| ArtifactLoader.AddAll | src/lib/artifactLoader.ts:184 | adding tags to a `Set` one by one gives the set of the tags seen so far, in first-insertion order |
| ArtifactLoader.CollectTags | src/lib/artifactLoader.ts:181-185 | the `forEach` over the artifacts fills the set with every tag |
| ArtifactLoader.CollectFolders | src/lib/artifactLoader.ts:165-171 | the `forEach` over the artifacts fills the set with every non-empty folder |
| ArtifactLoader.Registry.constructor | src/lib/artifactLoader.ts:54 | the registry starts with no cache |
| ArtifactLoader.Registry.GetAllArtifacts | src/lib/artifactLoader.ts:59-105 | the first call builds the map with the clock reading of that call and caches it; later calls return the cached map unchanged |
| ArtifactLoader.Registry.LoadArtifacts | src/lib/artifactLoader.ts:110-129 | returns the visible list of the cached map |
| ArtifactLoader.Registry.GetArtifact | src/lib/artifactLoader.ts:135-158 | returns the map's artifact under the name, hidden or not; for an unknown name, no artifact and no component; otherwise the direct file's component, else the subdirectory one's |
| ArtifactLoader.Registry.GetAllTags | src/lib/artifactLoader.ts:179-188 | returns the tag list of the visible artifacts |
| ArtifactLoader.Registry.GetAllFolders | src/lib/artifactLoader.ts:163-174 | returns the folder list of the visible artifacts |
| OrderedMaps.Put | src/lib/artifactLoader.ts:101 | `Map.set` keeps an existing key's place and appends a new key at the end |
| OrderedMaps.PutGet | src/lib/artifactLoader.ts:101 | after `Map.set`, reading the key gives the stored value and every other key reads as before |
| OrderedMaps.PutUnique | src/lib/artifactLoader.ts:101 | `Map.set` never makes a key appear twice |
| OrderedMaps.FromPairsLastWins | src/lib/artifactLoader.ts:17-20 | filling a map (or spreading objects) keeps the last value given for each key |
| Gallery.Keep | src/components/ArtifactGallery.tsx:46-70 | defines the filter predicate: the selected type if any, the selected tag if any, and a non-empty search term found in the lower-cased title, description or a tag; `TypeFilterSound`, `TagFilterSound` and `SearchFilterExact` state it on the shown list |
| Gallery.Filtered | src/components/ArtifactGallery.tsx:46-70 | an artifact is kept iff it passes the type, tag and search tests; nothing is added or duplicated |
| Gallery.FilteredKeepsOrder | src/components/ArtifactGallery.tsx:46-70 | `filter` keeps the artifacts it keeps in their input order: the result is a subsequence of the input |
| Gallery.Precedes | src/components/ArtifactGallery.tsx:73-87 | defines the sort comparator as "may precede": `localeCompare` of the lower-cased titles, or the date difference, swapped when descending; `ComparatorsAreOrders`, `TitleOrder` and `DateOrder` state its properties |
| Gallery.Displayed | src/components/ArtifactGallery.tsx:44-88 | defines the shown list as the stable sort of the filtered list by that comparator; `DisplayedIsFilteredPermutation` and the order lemmas state its properties |
| Gallery.DisplayedIsFilteredPermutation | src/components/ArtifactGallery.tsx:44-88 | the shown list is a permutation of the filtered artifacts, so it shows exactly the artifacts that pass the filter |
| Gallery.TypeFilterSound | src/components/ArtifactGallery.tsx:48-50 | with a type selected, every artifact shown has that type |
| Gallery.TagFilterSound | src/components/ArtifactGallery.tsx:53-55 | with a tag selected, every artifact shown carries it |
| Gallery.SearchFilterExact | src/components/ArtifactGallery.tsx:58-66 | a search term keeps exactly the artifacts whose lower-cased title, description or some tag contains the lower-cased term; an empty term filters nothing |
| Gallery.NoFiltersKeepAll | src/components/ArtifactGallery.tsx:46-70 | with every filter at its default, the filter keeps every artifact in its place |
| Gallery.NoFiltersShowAll | src/components/ArtifactGallery.tsx:44-88 | with every filter at its default, the page shows a reordering of all the artifacts |
| Gallery.ComparatorsAreOrders | src/components/ArtifactGallery.tsx:73-87 | every comparator of the page is a total preorder, and the descending one is the ascending one with its arguments swapped |
| Gallery.TitleOrder | src/components/ArtifactGallery.tsx:75-80 | by title, any two shown artifacts are in `localeCompare` order of their lower-cased titles, reversed when descending |
| Gallery.DateOrder | src/components/ArtifactGallery.tsx:82-86 | by a date, timestamps are non-decreasing ascending and non-increasing descending |
| Gallery.Flipped | src/components/ArtifactGallery.tsx:194 | the arrow button always changes the direction |
| Gallery.FlipTwice | src/components/ArtifactGallery.tsx:194 | pressing the arrow button twice restores the direction |
| Gallery.ToggleReverses | src/components/ArtifactGallery.tsx:78-85 | when no two shown artifacts tie, the other direction shows the same list reversed |
| Gallery.EmptyMessage | src/components/ArtifactGallery.tsx:203-265 | no message while something is shown; with nothing shown, "No projects found" iff there are no artifacts at all, otherwise "No projects match" |
| Gallery.NoMatchMeansFiltersActive | src/components/ArtifactGallery.tsx:261-277 | "No projects match" only appears with some filter active, so the clear button is always offered beside it |
| Gallery.GalleryView.constructor | src/components/ArtifactGallery.tsx:8-20 | the page starts loading, with no artifacts, no filter, and newest updated first |
| Gallery.FetchData | src/components/ArtifactGallery.tsx:24-32 | the loaded artifacts are the visible artifacts of the registry just built, the configuration is the fetched or default one, and the tags are those of the loaded artifacts |
| Gallery.GalleryView.ShowLoaded | src/components/ArtifactGallery.tsx:30-36 | the three setters store the loaded artifacts, configuration and tags, `finally` clears loading, and the filters and sort are untouched |
| Gallery.GalleryView.Mount | src/components/ArtifactGallery.tsx:22-41 | after loading, the page holds the visible artifacts of the built registry, the fetched or default configuration and the tag list of those artifacts, and is no longer loading; filters and sort are untouched |
| Gallery.GalleryView.ClearFilters | src/components/ArtifactGallery.tsx:161-165 | the type, tag and search are reset to their defaults; sort key, sort direction and everything else are unchanged; the page then shows a reordering of all loaded artifacts |
| Gallery.GalleryView.ToggleSortOrder | src/components/ArtifactGallery.tsx:194 | only the sort direction changes, to the other one; when no two shown artifacts tie, the page then shows the previous list reversed |
| Runner.Loaded | src/components/ArtifactRunner.tsx:24-71 | every run ends not loading; a run that finds the artifact stores it and leaves the error as it was |
| Runner.MissingNameShowsError | src/components/ArtifactRunner.tsx:25-29 | without a name the page shows "No artifact name provided", and what a lookup would return does not matter |
| Runner.UnknownIdShowsError | src/components/ArtifactRunner.tsx:33-39 | on a first run (from the initial state), an unknown id shows "Artifact not found" and there is no artifact data |
| Runner.UnknownIdKeepsEarlierData | src/components/ArtifactRunner.tsx:24-39 | on any run, an unknown id sets the error to "Artifact not found" and leaves the artifact data, rendered element and render error of an earlier run as they were |
| Runner.Dispatched | src/components/ArtifactRunner.tsx:41-60 | defines the render step by the artifact's type; `DispatchByKind` states each case |
| Runner.DispatchByKind | src/components/ArtifactRunner.tsx:41-60 | on a first run (from the initial state), SVG and Mermaid render from the code; React renders its component, or shows "Failed to load component" without one |
| Runner.EarlierRenderErrorPersists | src/components/ArtifactRunner.tsx:41-60 | a run never clears an earlier render error: for a later artifact the page shows that error instead of the new element, unless the new artifact is React without a component, which sets "Failed to load component" |
| Runner.EarlierErrorPersists | src/components/ArtifactRunner.tsx:23-74 | a run never clears an earlier error, so the page keeps showing it even for an artifact that exists |
| Runner.View | src/components/ArtifactRunner.tsx:76-194 | defines the page for a state; `ViewPrecedence`, `RenderErrorReplacesComponent` and `FramedHeader` state what it shows |
| Runner.ViewPrecedence | src/components/ArtifactRunner.tsx:76-120 | the spinner shows exactly while loading, the error panel exactly when loading is over and there is an error, otherwise the artifact |
| Runner.RenderErrorReplacesComponent | src/components/ArtifactRunner.tsx:103-194 | a render error replaces the rendered element in both layouts |
| Runner.FramedHeader | src/components/ArtifactRunner.tsx:127-160 | the framed page links to `/standalone/<name>` and shows the folder badge exactly when the artifact has a non-empty folder |
| Runner.ArtifactRunner.constructor | src/components/ArtifactRunner.tsx:17-21 | the page starts loading, with no error and nothing rendered |
| Runner.ArtifactRunner.LoadArtifact | src/components/ArtifactRunner.tsx:24-71 | the new state is the specified transition for the registry's artifact and component; without a name the registry is not consulted |
| Runner.ArtifactRunner.Render | src/components/ArtifactRunner.tsx:44-60 | the render step sets the element for the artifact's type, or the render error |
| GitHubUrls.PlaceholdersAreNotConfigured | src/lib/config.ts:30-32 | either placeholder name makes the configuration not configured |
| GitHubUrls.RepoUrlInjective | src/lib/config.ts:39 | different names (a username has no `/`) give different repository addresses |
| SiteConfig.GetBaseUrl | src/lib/config.ts:20-22 | the base URL is the environment's when it is set and non-empty, else `/`; it is never empty |
| SiteConfig.GetGitHubConfig | src/lib/config.ts:28-42 | defines `getGitHubConfig` from the build environment; `GitHubConfigSpec` states it |
| SiteConfig.GitHubConfigSpec | src/lib/config.ts:28-42 | configured iff neither name contains `YOUR_`; a missing name is never configured; the homepage and repository URL are built from the names when configured, else both `''`; the base URL is `getBaseUrl()` |
| SiteConfig.CleanPath | src/lib/config.ts:56 | the cleaned path is the path with at most one leading `/` removed, and one is removed iff the path starts with `/` |
| SiteConfig.CleanPathStripsAtMostOne | src/lib/config.ts:56 | a path starting with `//` keeps its second `/` |
| SiteConfig.GetUrl | src/lib/config.ts:54-58 | defines `getUrl`; `GetUrlShape` states the result's shape |
| SiteConfig.GetUrlShape | src/lib/config.ts:54-58 | the URL starts with the base and ends with the cleaned path, joined by exactly one `/` |
| ConfigLoader.AsWrittenReplacesCustomization | scripts/config-loader.js:32-37 | as written, a file's `customization` replaces the default one outright |
| ConfigLoader.AsWrittenDropsDefaults | scripts/config-loader.js:32-37 | as written, a file that sets only `siteName` loses the other three default customization keys |
| ConfigLoader.MergeFileSpec | scripts/config-loader.js:29-37 | each top-level key the file has replaces the default, and each customization key is the file's when present and the default's otherwise |
| ConfigLoader.Spread | scripts/config-loader.js:32 | defines `{ ...config, ...fileConfig }`: each key the file has replaces the configuration's; `AsWrittenReplacesCustomization` and `MergeFileSpec` state its effect |
| ConfigLoader.MergeCustomization | scripts/config-loader.js:36 | defines the customization spread: a key of the later object wins, a missing one keeps the earlier's; `MergeKeepsKeys` and `MergeFileSpec` state it |
| ConfigLoader.WithEnv | scripts/config-loader.js:43-56 | defines the environment override of the names followed by the derived values; `NamePriority` and `DerivedValues` state it |
| ConfigLoader.MergeKeepsKeys | scripts/config-loader.js:36 | the key-by-key merge keeps every key of the base customization |
| ConfigLoader.MergeFileAsWritten | scripts/config-loader.js:32-37 | defines the file step as written: the spread, then the file's customization merged over the spread's, which already is the file's; `AsWrittenReplacesCustomization` states the outcome |
| ConfigLoader.MergeFile | scripts/config-loader.js:32-37 | defines the file step as the comment on line 34 intends, the customization merged over the defaults; `MergeFileSpec` states it key by key |
| ConfigLoader.Derive | scripts/config-loader.js:51-56 | defines the derived values; `DerivedValues` states them |
| ConfigLoader.ConfigOf | scripts/config-loader.js:12-59 | defines `loadConfig` as written: environment names over the file over the defaults, with the file step of lines 32-36, then the derived values; the lemmas below state its properties |
| ConfigLoader.ConfigOfIntended | scripts/config-loader.js:12-59 | the same with the intended file step |
| ConfigLoader.IntendedDiffersOnlyInCustomization | scripts/config-loader.js:32-37 | the intended configuration equals the one as written except for the customization, equals it outright when the file has no customization, and always has all four customization keys |
| ConfigLoader.LoadedCustomizationLosesDefaults | scripts/config-loader.js:28-37 | loading a file that sets only `customization.siteName`: as written the customization is that one key; as intended it is the defaults with that key replaced |
| ConfigLoader.LoadConfig | scripts/config-loader.js:12-59 | the step-by-step build, as the script writes it (the customization merged with itself after the spread), yields `ConfigOf` |
| ConfigLoader.NoInputsGiveDefaults | scripts/config-loader.js:16-26 | with no readable file and no environment names, the result is the placeholder configuration, not configured |
| ConfigLoader.NamePriority | scripts/config-loader.js:43-49 | each name comes from the environment when set, else from the file, else from the default |
| ConfigLoader.UnparsableIsMissing | scripts/config-loader.js:38-40 | a file that cannot be parsed counts as no file |
| ConfigLoader.DerivedValues | scripts/config-loader.js:51-56 | configured iff neither name contains `YOUR_`; then the base path is `/<repo>/` and the git URL is the repository URL plus `.git`; otherwise `/` and empty addresses |
| ConfigLoader.GetBaseUrl | scripts/config-loader.js:66-78 | defines `getBaseUrl`: `/` in development, else `BASE_URL` when set, else the loaded configuration's base path; `BaseUrlShape` states the result |
| ConfigLoader.BaseUrlShape | scripts/config-loader.js:66-78 | in development the base is `/`; in production it is `BASE_URL` when set, else a path that starts and ends with `/` |
| ConfigLoader.ValidateConfig | scripts/config-loader.js:84-97 | succeeds iff the given (or freshly loaded) configuration is configured and then returns it unchanged; otherwise fails with the exact message |
| ConfigLoader.ValidateFresh | scripts/config-loader.js:84-94 | validating a fresh configuration fails exactly when a name still holds a placeholder |
| Calculator.SafeEvaluate | src/artifacts/scientific-calculator.tsx:84-91 | the answer is the number's text for a non-NaN number and `'Error'` for a throw, a non-number or NaN |
| Calculator.Splice | src/artifacts/scientific-calculator.tsx:125-126 | defines the new text as the slice before the selection, the inserted text and the slice after it; `SpliceReplacesSelection` states the result |
| Calculator.SpliceReplacesSelection | src/artifacts/scientific-calculator.tsx:125-126 | the new expression keeps the text before and after the selection and puts the inserted text in its place |
| Calculator.TI83Calculator.constructor | src/artifacts/scientific-calculator.tsx:20-23 | the calculator starts with an empty input and history, in radians, and the counter at 0 |
| Calculator.TI83Calculator.HandleCalculate | src/artifacts/scientific-calculator.tsx:94-107 | a blank expression changes nothing; otherwise the expression and its result are appended with the next two ids, the counter grows by 2 and the input is cleared; the counter always equals the number of lines, numbered from 0 |
| Calculator.TI83Calculator.HandleKeyPress | src/artifacts/scientific-calculator.tsx:115-119 | Enter does what `handleCalculate` does: nothing on a blank expression, otherwise the expression and its result appended as the next two numbered lines, the counter up by two, the input cleared, the angle mode kept; any other key changes nothing |
| Calculator.TI83Calculator.InsertFunction | src/artifacts/scientific-calculator.tsx:121-135 | the selection is replaced by the inserted text and the caret is placed after it, clamped to the text; without an input element nothing changes |
| Calculator.TI83Calculator.ClearDisplay | src/artifacts/scientific-calculator.tsx:137-141 | the history and input are emptied and numbering restarts at 0 |
| Calculator.TI83Calculator.ClearLine | src/artifacts/scientific-calculator.tsx:344 | only the input is emptied |
| Calculator.TI83Calculator.ToggleAngleMode | src/artifacts/scientific-calculator.tsx:154 | only the angle mode changes, to the other one |

## Left out

- JSX, styling and routing. The rendered elements are datatypes (`Rendered`, `Screen`). The links to `/a/<id>`, the project count and the artifact cards are not modelled.
- The cache is an ordered sequence of (id, artifact) pairs rather than a Dafny `map`. The order of a JavaScript `Map` decides the order of the visible list.
- The `catch` branches of `loadArtifact` ("Failed to render artifact", "Failed to load artifact") and of the gallery's `fetchData` ("Error loading data"). The modelled operations cannot throw, so these branches are unreachable in the model.
- The `.` of the subdirectory regular expression does not match line terminators. The model lets it match any character; glob paths hold no line terminators.
- `sort()` without a comparator compares UTF-16 code units. The model compares Dafny characters, which differs only for characters outside the Basic Multilingual Plane.
- One clock reading `now` stands for every `new Date().toISOString()` of a build. The source reads the clock twice per placeholder (artifactLoader.ts:82-83) and again for each later placeholder, so its readings may differ; the model's equal `createdAt` and `updatedAt`, and the one timestamp shared by all placeholders, hold only under this abstraction.
- `createdAt`/`updatedAt` are ISO date strings in the source and integers (milliseconds) here. `new Date(...).getTime()` parsing, and NaN for a malformed date, are not modelled. `new Date().toISOString()` for placeholders is the `now` parameter.
- `toLowerCase` and `localeCompare` are parameters. Title sorting is proved under the assumption that `localeCompare` acts as a total order (`IsCollation`).
- The JSON of `TOYBOX_CONFIG.json` is taken to be a well-formed `ToyboxConfig`. A body of another shape is not modelled.
- In `github.config.json`, values that are not strings, `customization` values that are not objects, and extra keys are not modelled. Existence and reading of the file are the `FileRead` input; console warnings are dropped.
- `safeEvaluate`'s rewriting of the expression and its `new Function` evaluation are the `evaluate` parameter. The floating-point result is reduced to "NaN or not" and its text.
- The calculator's `setTimeout` scrolling and focusing. The caret placement after `setSelectionRange` is modelled, with the browser's clamping to the new length.
- The gallery's input setters (search at ArtifactGallery.tsx:118, type at 129, tag at 145, sort key at 184). Each one overwrites one field with the control's value; the filters and sort they feed are modelled.
- The gallery header and footer text taken from the configuration (ArtifactGallery.tsx:103-104, 281-283).
- The `fullscreen` and `underMaintenance` metadata flags. They are carried in `Metadata`, but the core never reads them.
- `isProduction` in config.ts and the command-line output of config-loader.js. The first reads a build flag; the second only prints.

## Findings

| source | as written | input that shows it | evidently intended | confidence | as-written member | corrected member |
|---|---|---|---|---|---|---|
| scripts/config-loader.js:32-36 | after `{ ...config, ...fileConfig }`, `config.customization` already is the file's object, so line 36 merges the file's customization with itself and the four default keys are lost | a `github.config.json` of `{"customization": {"siteName": "X"}}` gives a customization with only `siteName` | each default customization key is kept unless the file sets it, as the comment on line 34 says | not executed | ConfigLoader.LoadedCustomizationLosesDefaults | ConfigLoader.IntendedDiffersOnlyInCustomization |
