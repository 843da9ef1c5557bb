/**
 * The GitHub Pages addresses both the site and the build scripts derive
 * from a username and a repository name, and the test for placeholders
 * that says whether those names have been filled in.
 */
module GitHubUrls {
  import opened Wrappers
  import opened JsStrings

  /** The marker every placeholder name carries. */
  const PlaceholderMarker: string := "YOUR_"
  const PlaceholderUsername: string := "YOUR_GITHUB_USERNAME"
  const PlaceholderRepository: string := "YOUR_REPO_NAME"

  /** `!username.includes('YOUR_') && !repository.includes('YOUR_')` */
  predicate IsConfigured(username: string, repository: string) {
    !Includes(username, PlaceholderMarker) && !Includes(repository, PlaceholderMarker)
  }

  /** `https://<username>.github.io/<repository>` */
  function Homepage(username: string, repository: string): string {
    "https://" + username + ".github.io/" + repository
  }

  /** `https://github.com/<username>/<repository>` */
  function RepoUrl(username: string, repository: string): string {
    "https://github.com/" + username + "/" + repository
  }

  /** Either placeholder name on its own makes the configuration unconfigured. */
  lemma PlaceholdersAreNotConfigured(username: string, repository: string)
    ensures !IsConfigured(PlaceholderUsername, repository)
    ensures !IsConfigured(username, PlaceholderRepository)
  {
    assert OccursAt(PlaceholderUsername, PlaceholderMarker, 0);
    assert OccursAt(PlaceholderRepository, PlaceholderMarker, 0);
    IncludesIff(PlaceholderUsername, PlaceholderMarker);
    IncludesIff(PlaceholderRepository, PlaceholderMarker);
  }

  /**
   * The two addresses determine the names: different names give
   * different repository addresses.
   */
  lemma RepoUrlInjective(u1: string, r1: string, u2: string, r2: string)
    requires '/' !in u1 && '/' !in u2
    requires RepoUrl(u1, r1) == RepoUrl(u2, r2)
    ensures u1 == u2 && r1 == r2
  {
    var p := "https://github.com/";
    var a, b := RepoUrl(u1, r1), RepoUrl(u2, r2);
    assert a[|p|..] == u1 + "/" + r1;
    assert b[|p|..] == u2 + "/" + r2;
    SplitAtFirstSlash(u1, r1, u2, r2);
  }

  lemma SplitAtFirstSlash(u1: string, r1: string, u2: string, r2: string)
    requires '/' !in u1 && '/' !in u2
    requires u1 + "/" + r1 == u2 + "/" + r2
    ensures u1 == u2 && r1 == r2
  {
    var s := u1 + "/" + r1;
    FirstSlash(u1, r1);
    FirstSlash(u2, r2);
    assert u1 == s[..|u1|] == u2;
    assert r1 == s[|u1| + 1..] == r2;
  }

  /** The first `/` of `u + "/" + r` is the one after `u` when `u` has none. */
  lemma FirstSlash(u: string, r: string)
    requires '/' !in u
    ensures IndexOf(u + "/" + r, "/") == Some(|u|)
  {
    var s := u + "/" + r;
    assert OccursAt(s, "/", |u|);
    forall j: nat | j < |u| ensures !OccursAt(s, "/", j) {
      assert s[j..j + 1][0] == u[j];
    }
  }
}
