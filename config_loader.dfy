/**
 * The build scripts' configuration: defaults, overridden by the keys of
 * `github.config.json`, overridden in turn by the `GITHUB_USERNAME` and
 * `GITHUB_REPOSITORY` environment variables, followed by the values
 * derived from the two names. The file and the environment are inputs.
 */
module ConfigLoader {
  import opened Wrappers
  import opened JsStrings
  import opened GitHubUrls

  /** The `customization` object; `None` is a key that is not there. */
  datatype Customization = Customization(
    siteName: Option<string>,
    siteDescription: Option<string>,
    showGitHubLink: Option<bool>,
    defaultTheme: Option<string>)

  const DefaultCustomization: Customization :=
    Customization(Some("TOYBOX"), Some("A collection of Claude-generated artifacts"), Some(true), Some("auto"))

  /** The keys of a parsed `github.config.json`; `None` is a key that is not there. */
  datatype FileConfig = FileConfig(
    username: Option<string>,
    repository: Option<string>,
    description: Option<string>,
    customization: Option<Customization>)

  /** What reading `github.config.json` gave. */
  datatype FileRead = Missing | Unparsable | Parsed(file: FileConfig)

  /** The environment variables the scripts read. */
  datatype ProcessEnv = ProcessEnv(githubUsername: Option<string>, githubRepository: Option<string>, baseUrl: Option<string>)

  /** The configuration before the derived values are added. */
  datatype Settings = Settings(username: string, repository: string, description: string, customization: Customization)

  const Defaults: Settings :=
    Settings(PlaceholderUsername, PlaceholderRepository, "Configuration for GitHub deployment.", DefaultCustomization)

  /** The configuration `loadConfig` returns. */
  datatype LoaderConfig = LoaderConfig(
    username: string,
    repository: string,
    description: string,
    customization: Customization,
    isConfigured: bool,
    baseUrl: string,
    homepage: string,
    repoUrl: string,
    gitUrl: string)

  /** `{ ...base, ...over }` on customization objects: a key of `over` wins, a missing one keeps `base`'s. */
  function MergeCustomization(base: Customization, over: Customization): Customization {
    Customization(
      if over.siteName.Some? then over.siteName else base.siteName,
      if over.siteDescription.Some? then over.siteDescription else base.siteDescription,
      if over.showGitHubLink.Some? then over.showGitHubLink else base.showGitHubLink,
      if over.defaultTheme.Some? then over.defaultTheme else base.defaultTheme)
  }

  /** `{ ...config, ...fileConfig }`: every key of the file replaces the configuration's. */
  function Spread(config: Settings, file: FileConfig): Settings {
    Settings(
      file.username.GetOr(config.username),
      file.repository.GetOr(config.repository),
      file.description.GetOr(config.description),
      file.customization.GetOr(config.customization))
  }

  /**
   * The file step as the script has it: after the spread,
   * `config.customization` already is the file's, so merging the file's
   * customization over it merges it with itself.
   */
  function MergeFileAsWritten(config: Settings, file: FileConfig): Settings {
    var spread := Spread(config, file);
    if file.customization.Some? then
      spread.(customization := MergeCustomization(spread.customization, file.customization.value))
    else spread
  }

  /** As written, a file customization replaces the default one outright. */
  lemma AsWrittenReplacesCustomization(config: Settings, file: FileConfig)
    requires file.customization.Some?
    ensures MergeFileAsWritten(config, file).customization == file.customization.value
  {
  }

  /** A file that sets only `customization.siteName` loses the three other default keys. */
  lemma AsWrittenDropsDefaults()
    ensures var file := FileConfig(None, None, None, Some(Customization(Some("X"), None, None, None)));
      var merged := MergeFileAsWritten(Defaults, file).customization;
      && merged == Customization(Some("X"), None, None, None)
      && merged.siteDescription.None? && DefaultCustomization.siteDescription.Some?
  {
  }

  /** The file step with the customization merged key by key over the configuration's. */
  function MergeFile(config: Settings, file: FileConfig): Settings {
    var spread := Spread(config, file);
    if file.customization.Some? then
      spread.(customization := MergeCustomization(config.customization, file.customization.value))
    else spread
  }

  /**
   * Merging a file: each top-level key the file has replaces the
   * configuration's, and each customization key is the file's when it has
   * it and the configuration's otherwise, so no default key is lost.
   */
  lemma MergeFileSpec(config: Settings, file: FileConfig)
    ensures var m := MergeFile(config, file);
      var c := if file.customization.Some? then file.customization.value else Customization(None, None, None, None);
      && m.username == (if file.username.Some? then file.username.value else config.username)
      && m.repository == (if file.repository.Some? then file.repository.value else config.repository)
      && m.description == (if file.description.Some? then file.description.value else config.description)
      && m.customization.siteName == (if c.siteName.Some? then c.siteName else config.customization.siteName)
      && m.customization.siteDescription
           == (if c.siteDescription.Some? then c.siteDescription else config.customization.siteDescription)
      && m.customization.showGitHubLink
           == (if c.showGitHubLink.Some? then c.showGitHubLink else config.customization.showGitHubLink)
      && m.customization.defaultTheme
           == (if c.defaultTheme.Some? then c.defaultTheme else config.customization.defaultTheme)
  {
  }

  /** Every key the base customization has, the merged one has too. */
  lemma MergeKeepsKeys(base: Customization, over: Customization)
    ensures var m := MergeCustomization(base, over);
      && (base.siteName.Some? ==> m.siteName.Some?)
      && (base.siteDescription.Some? ==> m.siteDescription.Some?)
      && (base.showGitHubLink.Some? ==> m.showGitHubLink.Some?)
      && (base.defaultTheme.Some? ==> m.defaultTheme.Some?)
  {
  }

  /** The derived values: configured iff no placeholder, then the base path and the three addresses. */
  function Derive(s: Settings): LoaderConfig {
    var configured := IsConfigured(s.username, s.repository);
    var repoUrl := if configured then RepoUrl(s.username, s.repository) else "";
    LoaderConfig(
      s.username, s.repository, s.description, s.customization,
      configured,
      if configured then "/" + s.repository + "/" else "/",
      if configured then Homepage(s.username, s.repository) else "",
      repoUrl,
      if configured then repoUrl + ".git" else "")
  }

  /** Environment names over the file step's settings, then the derived values. */
  function WithEnv(fromFile: Settings, env: ProcessEnv): LoaderConfig {
    Derive(fromFile.(
      username := Or(env.githubUsername, fromFile.username),
      repository := Or(env.githubRepository, fromFile.repository)))
  }

  /** `loadConfig` as written: environment over file over defaults, with the file step of lines 32-36. */
  function ConfigOf(read: FileRead, env: ProcessEnv): LoaderConfig {
    WithEnv(if read.Parsed? then MergeFileAsWritten(Defaults, read.file) else Defaults, env)
  }

  /** `loadConfig` with the customization merged over the defaults, as the comment on line 34 intends. */
  function ConfigOfIntended(read: FileRead, env: ProcessEnv): LoaderConfig {
    WithEnv(if read.Parsed? then MergeFile(Defaults, read.file) else Defaults, env)
  }

  /**
   * The two differ only in the customization: the intended one keeps
   * every default key, and where the file has no customization they agree.
   */
  lemma IntendedDiffersOnlyInCustomization(read: FileRead, env: ProcessEnv)
    ensures var c, i := ConfigOf(read, env), ConfigOfIntended(read, env);
      && i == c.(customization := i.customization)
      && (!read.Parsed? || read.file.customization.None? ==> i == c)
      && i.customization.siteName.Some? && i.customization.siteDescription.Some?
      && i.customization.showGitHubLink.Some? && i.customization.defaultTheme.Some?
  {
    if read.Parsed? && read.file.customization.Some? {
      MergeKeepsKeys(DefaultCustomization, read.file.customization.value);
    }
  }

  /** Loading a file that sets only `customization.siteName`: as written the other three defaults are gone. */
  lemma LoadedCustomizationLosesDefaults(env: ProcessEnv)
    ensures var read := Parsed(FileConfig(None, None, None, Some(Customization(Some("X"), None, None, None))));
      && ConfigOf(read, env).customization == Customization(Some("X"), None, None, None)
      && ConfigOfIntended(read, env).customization == DefaultCustomization.(siteName := Some("X"))
  {
    var file := FileConfig(None, None, None, Some(Customization(Some("X"), None, None, None)));
    AsWrittenReplacesCustomization(Defaults, file);
    MergeFileSpec(Defaults, file);
  }

  /** `loadConfig`: the configuration object built step by step, as the script does. */
  method LoadConfig(read: FileRead, env: ProcessEnv) returns (config: LoaderConfig)
    ensures config == ConfigOf(read, env)
  {
    var settings := Defaults;
    if read.Parsed? {
      var file := read.file;
      settings := Spread(settings, file);
      if file.customization.Some? {
        settings := settings.(customization := MergeCustomization(settings.customization, file.customization.value));
      }
    }
    if Truthy(env.githubUsername) {
      settings := settings.(username := env.githubUsername.value);
    }
    if Truthy(env.githubRepository) {
      settings := settings.(repository := env.githubRepository.value);
    }
    var isConfigured := !Includes(settings.username, PlaceholderMarker)
                        && !Includes(settings.repository, PlaceholderMarker);
    var baseUrl := if isConfigured then "/" + settings.repository + "/" else "/";
    var homepage := if isConfigured then Homepage(settings.username, settings.repository) else "";
    var repoUrl := if isConfigured then RepoUrl(settings.username, settings.repository) else "";
    var gitUrl := if isConfigured then repoUrl + ".git" else "";
    config := LoaderConfig(
      settings.username, settings.repository, settings.description, settings.customization,
      isConfigured, baseUrl, homepage, repoUrl, gitUrl);
  }

  /** With no readable file and no environment values, the result is the placeholder configuration. */
  lemma NoInputsGiveDefaults(read: FileRead, env: ProcessEnv)
    requires !read.Parsed?
    requires !Truthy(env.githubUsername) && !Truthy(env.githubRepository)
    ensures ConfigOf(read, env) == LoaderConfig(
      PlaceholderUsername, PlaceholderRepository, "Configuration for GitHub deployment.", DefaultCustomization,
      false, "/", "", "", "")
  {
    PlaceholdersAreNotConfigured(PlaceholderUsername, PlaceholderRepository);
  }

  /**
   * The names come from the environment when it sets them, else from the
   * file when it has them, else from the defaults.
   */
  lemma NamePriority(read: FileRead, env: ProcessEnv)
    ensures var c := ConfigOf(read, env);
      && c.username == (if Truthy(env.githubUsername) then env.githubUsername.value
                        else if read.Parsed? && read.file.username.Some? then read.file.username.value
                        else PlaceholderUsername)
      && c.repository == (if Truthy(env.githubRepository) then env.githubRepository.value
                          else if read.Parsed? && read.file.repository.Some? then read.file.repository.value
                          else PlaceholderRepository)
  {
  }

  /** A file that cannot be parsed counts as no file. */
  lemma UnparsableIsMissing(env: ProcessEnv)
    ensures ConfigOf(Unparsable, env) == ConfigOf(Missing, env)
  {
  }

  /**
   * The derived values: configured iff neither name holds `YOUR_`; then
   * the base path is `/<repository>/` and `gitUrl` is `repoUrl` with
   * `.git`; otherwise the base path is `/` and the addresses are empty.
   */
  lemma DerivedValues(read: FileRead, env: ProcessEnv)
    ensures var c := ConfigOf(read, env);
      && (c.isConfigured <==> IsConfigured(c.username, c.repository))
      && (c.isConfigured ==> c.baseUrl == "/" + c.repository + "/"
                             && c.homepage == Homepage(c.username, c.repository)
                             && c.repoUrl == RepoUrl(c.username, c.repository)
                             && c.gitUrl == c.repoUrl + ".git")
      && (!c.isConfigured ==> c.baseUrl == "/" && c.homepage == "" && c.repoUrl == "" && c.gitUrl == "")
  {
  }

  /** `getBaseUrl(isProduction)` */
  function GetBaseUrl(isProduction: bool, read: FileRead, env: ProcessEnv): string {
    if !isProduction then "/"
    else if Truthy(env.baseUrl) then env.baseUrl.value
    else ConfigOf(read, env).baseUrl
  }

  /**
   * In development the base path is `/`; in production it is `BASE_URL`
   * when set, and otherwise a path that starts and ends with `/`.
   */
  lemma BaseUrlShape(isProduction: bool, read: FileRead, env: ProcessEnv)
    ensures !isProduction ==> GetBaseUrl(isProduction, read, env) == "/"
    ensures isProduction && Truthy(env.baseUrl) ==> GetBaseUrl(isProduction, read, env) == env.baseUrl.value
    ensures !Truthy(env.baseUrl) ==>
      var b := GetBaseUrl(isProduction, read, env);
      StartsWith(b, "/") && EndsWith(b, "/")
  {
    var c := ConfigOf(read, env);
    if c.isConfigured {
      var b := "/" + c.repository + "/";
      assert b[..1] == "/";
      assert b[|b| - 1..] == "/";
    }
  }

  const InvalidConfigMessage: string :=
    "Invalid configuration: github.config.json contains placeholder values.\n"
    + "Please update github.config.json with your actual GitHub username and repository name."

  /** `validateConfig(config)`: the configuration given, or a fresh one, unless it is not configured. */
  function ValidateConfig(config: Option<LoaderConfig>, read: FileRead, env: ProcessEnv): (r: Result<LoaderConfig>)
    ensures var c := if config.Some? then config.value else ConfigOf(read, env);
      && (r.Ok? <==> c.isConfigured)
      && (r.Ok? ==> r.value == c)
      && (r.Throws? ==> r.message == InvalidConfigMessage)
  {
    var c := if config.None? then ConfigOf(read, env) else config.value;
    if !c.isConfigured then Throws(InvalidConfigMessage) else Ok(c)
  }

  /** Validating a freshly loaded configuration fails exactly when a name is still a placeholder. */
  lemma ValidateFresh(read: FileRead, env: ProcessEnv)
    ensures var c := ConfigOf(read, env);
      ValidateConfig(None, read, env).Ok? <==> IsConfigured(c.username, c.repository)
    ensures !read.Parsed? && !Truthy(env.githubUsername) ==> ValidateConfig(None, read, env).Throws?
  {
    var c := ConfigOf(read, env);
    PlaceholdersAreNotConfigured(c.username, c.repository);
  }
}
