/**
 * The site's run-time configuration: the base URL the build was given,
 * the GitHub names injected at build time with the addresses derived from
 * them, and the joining of the base URL with an in-site path.
 */
module SiteConfig {
  import opened Wrappers
  import opened JsStrings
  import opened GitHubUrls

  /** The build-time variables the site reads: `BASE_URL`, `VITE_GITHUB_USERNAME`, `VITE_GITHUB_REPOSITORY`. */
  datatype BuildEnv = BuildEnv(baseUrl: Option<string>, username: Option<string>, repository: Option<string>)

  /** `GitHubConfig` */
  datatype GitHubConfig = GitHubConfig(
    username: string,
    repository: string,
    baseUrl: string,
    homepage: string,
    repoUrl: string,
    isConfigured: bool)

  /** `getBaseUrl`: the configured base URL, `/` when it is missing or empty. */
  function GetBaseUrl(env: BuildEnv): (r: string)
    ensures r != ""
    ensures Truthy(env.baseUrl) ==> r == env.baseUrl.value
    ensures !Truthy(env.baseUrl) ==> r == "/"
  {
    Or(env.baseUrl, "/")
  }

  /** `getGitHubConfig` */
  function GetGitHubConfig(env: BuildEnv): GitHubConfig {
    var username := Or(env.username, PlaceholderUsername);
    var repository := Or(env.repository, PlaceholderRepository);
    var configured := IsConfigured(username, repository);
    GitHubConfig(
      username,
      repository,
      GetBaseUrl(env),
      if configured then Homepage(username, repository) else "",
      if configured then RepoUrl(username, repository) else "",
      configured)
  }

  /**
   * The names fall back to the placeholders, so a missing name is never
   * configured; when configured the two addresses are built from the
   * names, otherwise both are empty; the base URL is `getBaseUrl()`.
   */
  lemma GitHubConfigSpec(env: BuildEnv)
    ensures var c := GetGitHubConfig(env);
      && (c.isConfigured <==> IsConfigured(c.username, c.repository))
      && (!Truthy(env.username) || !Truthy(env.repository) ==> !c.isConfigured)
      && (Truthy(env.username) ==> c.username == env.username.value)
      && (Truthy(env.repository) ==> c.repository == env.repository.value)
      && (c.isConfigured ==>
            c.homepage == Homepage(c.username, c.repository) && c.repoUrl == RepoUrl(c.username, c.repository))
      && (!c.isConfigured ==> c.homepage == "" && c.repoUrl == "")
      && c.baseUrl == GetBaseUrl(env)
  {
    PlaceholdersAreNotConfigured(Or(env.username, PlaceholderUsername), Or(env.repository, PlaceholderRepository));
  }

  /** `path` without one leading `/`. */
  function CleanPath(path: string): (r: string)
    ensures path == r || path == "/" + r
    ensures StartsWith(path, "/") <==> path == "/" + r
  {
    if StartsWith(path, "/") then path[1..] else path
  }

  /** `getUrl`: the base URL and the cleaned path joined by one `/`. */
  function GetUrl(env: BuildEnv, path: string): string {
    var base := GetBaseUrl(env);
    var clean := CleanPath(path);
    if EndsWith(base, "/") then base + clean else base + "/" + clean
  }

  /** `base` without one trailing `/`. */
  function WithoutTrailingSlash(base: string): string {
    if EndsWith(base, "/") then base[..|base| - 1] else base
  }

  /**
   * The URL starts with the base and ends with the cleaned path, and it is
   * the base without its trailing `/`, one `/`, then the cleaned path: a
   * single leading `/` of the path is never doubled.
   */
  lemma GetUrlShape(env: BuildEnv, path: string)
    ensures var r := GetUrl(env, path);
      var base := GetBaseUrl(env);
      && StartsWith(r, base)
      && EndsWith(r, CleanPath(path))
      && r == WithoutTrailingSlash(base) + "/" + CleanPath(path)
      && (EndsWith(base, "/") ==> r == base + CleanPath(path))
      && (!EndsWith(base, "/") ==> r == base + "/" + CleanPath(path))
  {
    var r := GetUrl(env, path);
    var base := GetBaseUrl(env);
    var clean := CleanPath(path);
    if EndsWith(base, "/") {
      assert base == base[..|base| - 1] + "/";
      assert r[..|base|] == base;
    } else {
      assert r == base + ("/" + clean);
      assert r[..|base|] == base;
    }
    assert r[|r| - |clean|..] == clean;
  }

  /** A path that begins with two slashes keeps the second one. */
  lemma CleanPathStripsAtMostOne(path: string)
    requires StartsWith(path, "//")
    ensures StartsWith(CleanPath(path), "/")
  {
    assert path[..2] == "//";
    assert path[1] == '/';
  }
}
