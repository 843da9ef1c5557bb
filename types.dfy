/**
 * The records the gallery passes around: artifact metadata as a module
 * exports it, the normalised artifact, and the site configuration.
 * Timestamps are milliseconds since the epoch.
 */
module Types {
  import opened Wrappers

  /** `'react' | 'svg' | 'mermaid'` */
  datatype ArtifactType = React | Svg | Mermaid

  /** A reference to the component a module exports by default. */
  datatype Component = Component(name: string)

  /** `ArtifactMetadata`: what an artifact module exports as `metadata`. */
  datatype Metadata = Metadata(
    title: string,
    description: Option<string>,
    kind: ArtifactType,
    tags: Option<seq<string>>,
    folder: Option<string>,
    createdAt: int,
    updatedAt: int,
    hidden: Option<bool>,
    fullscreen: Option<bool>,
    underMaintenance: Option<bool>)

  /** `Artifact`: one gallery item, keyed by `id`. */
  datatype Artifact = Artifact(
    id: string,
    title: string,
    description: Option<string>,
    kind: ArtifactType,
    tags: seq<string>,
    folder: Option<string>,
    code: string,
    createdAt: int,
    updatedAt: int)

  datatype Theme = Light | Dark | Auto

  datatype Layout = Grid | List

  /** `ToyboxConfig`: the site configuration the gallery fetches. */
  datatype ToyboxConfig = ToyboxConfig(
    title: string,
    description: Option<string>,
    theme: Theme,
    layout: Layout,
    customDomain: Option<string>,
    showFooter: bool)
}
