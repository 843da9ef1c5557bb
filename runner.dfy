/**
 * The page that shows one artifact: the state `loadArtifact` updates when
 * the route's artifact name is known, and the choice of what the page
 * shows for that state, standalone or inside the gallery frame.
 */
module Runner {
  import opened Wrappers
  import opened JsStrings
  import opened OrderedMaps
  import opened Types
  import opened ArtifactLoader

  /** The element set as `renderedComponent`. */
  datatype Rendered =
    | SvgView(code: string)
    | MermaidView(code: string)
    | ComponentView(component: Component)

  /** The five state fields of the page. */
  datatype RunnerState = RunnerState(
    loading: bool,
    error: string,
    renderedComponent: Option<Rendered>,
    renderError: Option<string>,
    artifactData: Option<Artifact>)

  /** The state before `loadArtifact` has run. */
  const Initial: RunnerState := RunnerState(true, "", None, None, None)

  const NoNameError: string := "No artifact name provided"
  const NotFoundError: string := "Artifact not found"
  const NoComponentError: string := "Failed to load component"

  /**
   * The state `loadArtifact` leaves, given the route's name, what
   * `getArtifact` found under it and the component it returned. Fields
   * the run does not set keep their earlier values.
   */
  function Loaded(s: RunnerState, name: Option<string>, found: Option<Artifact>, component: Option<Component>)
    : (r: RunnerState)
    ensures !r.loading
    ensures Truthy(name) && found.Some? ==> r.error == s.error && r.artifactData == found
  {
    if !Truthy(name) then s.(error := NoNameError, loading := false)
    else if found.None? then s.(error := NotFoundError, loading := false)
    else Dispatched(s.(artifactData := found), found.value, component).(loading := false)
  }

  /** The render step for artifact `a`: by its type, and for React by whether there is a component. */
  function Dispatched(s: RunnerState, a: Artifact, component: Option<Component>): RunnerState {
    match a.kind
    case Svg => s.(renderedComponent := Some(SvgView(a.code)))
    case Mermaid => s.(renderedComponent := Some(MermaidView(a.code)))
    case React =>
      if component.Some? then s.(renderedComponent := Some(ComponentView(component.value)))
      else s.(renderError := Some(NoComponentError))
  }

  /** What is shown where the artifact goes. */
  datatype Body = RenderFailure(message: string) | Content(rendered: Option<Rendered>)

  /** The title line of the framed page. */
  datatype Header = Header(title: string, kind: Option<ArtifactType>, folderBadge: Option<string>, standaloneLink: string)

  /** What the page shows. */
  datatype Screen =
    | Spinner
    | ErrorPanel(message: string)
    | Standalone(body: Body)
    | Framed(header: Header, description: Option<string>, tags: seq<string>, body: Body)

  /** The artifact area: the render error when there is one, else the rendered element. */
  function BodyOf(s: RunnerState): Body {
    if Truthy(s.renderError) then RenderFailure(s.renderError.value) else Content(s.renderedComponent)
  }

  /** The framed page's header for the route's `name` (`undefined` when there is none). */
  function HeaderOf(s: RunnerState, name: Option<string>): Header {
    var data := s.artifactData;
    Header(
      Or(if data.Some? then Some(data.value.title) else None, "Untitled Artifact"),
      if data.Some? then Some(data.value.kind) else None,
      if data.Some? && Truthy(data.value.folder) then data.value.folder else None,
      "/standalone/" + (if name.Some? then name.value else "undefined"))
  }

  /** The page for state `s`: spinner, then error, then the artifact alone or in its frame. */
  function View(s: RunnerState, standalone: bool, name: Option<string>): Screen {
    if s.loading then Spinner
    else if s.error != "" then ErrorPanel(s.error)
    else if standalone then Standalone(BodyOf(s))
    else
      var data := s.artifactData;
      Framed(
        HeaderOf(s, name),
        if data.Some? && Truthy(data.value.description) then data.value.description else None,
        if data.Some? then data.value.tags else [],
        BodyOf(s))
  }

  /** The body of a page that shows the artifact. */
  function ScreenBody(v: Screen): Option<Body> {
    match v
    case Standalone(b) => Some(b)
    case Framed(_, _, _, b) => Some(b)
    case _ => None
  }

  /**
   * The spinner shows exactly while loading; the error panel exactly when
   * loading is over and there is an error; otherwise the artifact area.
   */
  lemma ViewPrecedence(s: RunnerState, standalone: bool, name: Option<string>)
    ensures View(s, standalone, name) == Spinner <==> s.loading
    ensures View(s, standalone, name).ErrorPanel? <==> !s.loading && s.error != ""
    ensures View(s, standalone, name).ErrorPanel? ==> View(s, standalone, name).message == s.error
    ensures ScreenBody(View(s, standalone, name)).Some? <==> !s.loading && s.error == ""
    ensures View(s, standalone, name).Standalone? <==> !s.loading && s.error == "" && standalone
  {
  }

  /** A render error replaces the rendered element, in both layouts. */
  lemma RenderErrorReplacesComponent(s: RunnerState, standalone: bool, name: Option<string>)
    requires !s.loading && s.error == ""
    ensures ScreenBody(View(s, standalone, name)).Some?
    ensures Truthy(s.renderError) ==> ScreenBody(View(s, standalone, name)) == Some(RenderFailure(s.renderError.value))
    ensures !Truthy(s.renderError) ==> ScreenBody(View(s, standalone, name)) == Some(Content(s.renderedComponent))
  {
  }

  /**
   * In the frame, the standalone link is `/standalone/` followed by the
   * route's name, and the folder badge appears exactly when the artifact
   * has a non-empty folder.
   */
  lemma FramedHeader(s: RunnerState, name: string)
    requires !s.loading && s.error == ""
    ensures var v := View(s, false, Some(name));
      && v.Framed?
      && v.header.standaloneLink == "/standalone/" + name
      && (v.header.folderBadge.Some? <==> s.artifactData.Some? && Truthy(s.artifactData.value.folder))
      && (v.header.folderBadge.Some? ==> v.header.folderBadge == s.artifactData.value.folder)
  {
  }

  /** Without a name, the first run shows the error panel and never looks anything up. */
  lemma MissingNameShowsError(name: Option<string>, found: Option<Artifact>, component: Option<Component>, standalone: bool)
    requires !Truthy(name)
    ensures View(Loaded(Initial, name, found, component), standalone, name) == ErrorPanel(NoNameError)
    ensures Loaded(Initial, name, found, component) == Loaded(Initial, name, None, None)
  {
  }

  /** An id the registry does not hold shows "Artifact not found" and no artifact data. */
  lemma UnknownIdShowsError(name: string, component: Option<Component>, standalone: bool)
    requires name != ""
    ensures var s := Loaded(Initial, Some(name), None, component);
      View(s, standalone, Some(name)) == ErrorPanel(NotFoundError) && s.artifactData == None
  {
  }

  /**
   * On a first run that finds the artifact: an SVG or Mermaid artifact is
   * rendered from its code; a React artifact renders its component, or
   * shows "Failed to load component" when there is none.
   */
  lemma DispatchByKind(name: string, a: Artifact, component: Option<Component>, standalone: bool)
    requires name != ""
    ensures var s := Loaded(Initial, Some(name), Some(a), component);
      var body := ScreenBody(View(s, standalone, Some(name)));
      && s.artifactData == Some(a)
      && (a.kind == Svg ==> body == Some(Content(Some(SvgView(a.code)))))
      && (a.kind == Mermaid ==> body == Some(Content(Some(MermaidView(a.code)))))
      && (a.kind == React && component.Some? ==> body == Some(Content(Some(ComponentView(component.value)))))
      && (a.kind == React && component.None? ==> body == Some(RenderFailure(NoComponentError)))
  {
  }

  /**
   * `loadArtifact` never clears an earlier error: once the page has shown
   * an error, a later run for an artifact that exists still shows it.
   */
  lemma EarlierErrorPersists(s: RunnerState, name: string, a: Artifact, component: Option<Component>, standalone: bool)
    requires s.error != "" && name != ""
    ensures View(Loaded(s, Some(name), Some(a), component), standalone, Some(name)) == ErrorPanel(s.error)
  {
  }

  /**
   * A run that does not find its id sets only the error: the artifact
   * data of an earlier run stays.
   */
  lemma UnknownIdKeepsEarlierData(s: RunnerState, name: string, component: Option<Component>)
    requires name != ""
    ensures var r := Loaded(s, Some(name), None, component);
      r.error == NotFoundError && r.artifactData == s.artifactData
      && r.renderedComponent == s.renderedComponent && r.renderError == s.renderError
  {
  }

  /**
   * `loadArtifact` never clears `renderError` either: after a React
   * artifact without a component, a later run for any artifact that is
   * not such a React one still shows "Failed to load component" (or
   * whatever render error was there) in place of the new element.
   */
  lemma EarlierRenderErrorPersists(
    s: RunnerState, name: string, a: Artifact, component: Option<Component>, standalone: bool)
    requires s.error == "" && Truthy(s.renderError) && name != ""
    ensures var r := Loaded(s, Some(name), Some(a), component);
      var stale := if a.kind == React && component.None? then NoComponentError else s.renderError.value;
      ScreenBody(View(r, standalone, Some(name))) == Some(RenderFailure(stale))
  {
  }

  /** The artifact page. */
  class ArtifactRunner {
    var loading: bool
    var error: string
    var renderedComponent: Option<Rendered>
    var renderError: Option<string>
    var artifactData: Option<Artifact>

    function State(): RunnerState
      reads this
    {
      RunnerState(loading, error, renderedComponent, renderError, artifactData)
    }

    constructor()
      ensures State() == Initial
    {
      loading := true;
      error := "";
      renderedComponent := None;
      renderError := None;
      artifactData := None;
    }

    /** `loadArtifact` for the route's `artifactName`. */
    method LoadArtifact(registry: Registry, name: Option<string>, now: int)
      requires registry.Valid()
      modifies this, registry
      ensures registry.Valid()
      ensures !Truthy(name) ==> State() == Loaded(old(State()), name, None, None) && unchanged(registry)
      ensures Truthy(name) ==>
        && registry.cache.Some?
        && (old(registry.cache).Some? ==> registry.cache == old(registry.cache) && registry.builtAt == old(registry.builtAt))
        && (old(registry.cache).None? ==> registry.builtAt == now)
        && State() == Loaded(old(State()), name, Get(registry.Built(), name.value),
                             ComponentFor(registry.direct, registry.subdir, name.value))
    {
      if name.None? || name.value == "" {
        error := NoNameError;
        loading := false;
        return;
      }
      var artifact, component := registry.GetArtifact(name.value, now);
      if artifact.None? {
        error := NotFoundError;
        loading := false;
        return;
      }
      artifactData := artifact;
      Render(artifact.value, component);
      loading := false;
    }

    /** The `try` block that sets the element to render, or the render error. */
    method Render(a: Artifact, component: Option<Component>)
      modifies this
      ensures State() == Dispatched(old(State()), a, component)
    {
      if a.kind == Svg {
        renderedComponent := Some(SvgView(a.code));
      } else if a.kind == Mermaid {
        renderedComponent := Some(MermaidView(a.code));
      } else {
        if component.Some? {
          renderedComponent := Some(ComponentView(component.value));
        } else {
          renderError := Some(NoComponentError);
        }
      }
    }
  }
}
