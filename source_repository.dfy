/** The source-repository identifier that `add_module_plus.py` derives from a
    module's source URL: `github:<owner>/<repo>` for a GitHub URL, the empty
    string for any other URL. */
module SourceRepository {
  import opened StrSplit

  datatype Result<+T> = Ok(value: T) | Err(error: Error)

  /** Python raises `IndexError` when the split URL has no segment at `index`. */
  datatype Error = IndexOutOfRange(index: nat)

  const GITHUB_PREFIX: string := "https://github.com/"
  const GITHUB_SCHEME: string := "github:"

  /** The text of a GitHub URL after the prefix: `<owner>/<repo>...`. */
  function Path(url: string): string
    requires GITHUB_PREFIX <= url
  {
    url[|GITHUB_PREFIX|..]
  }

  /** The URL `https://github.com/<owner>/<repo><rest>`. */
  function GitHubUrl(owner: string, repo: string, rest: string): string
  {
    GITHUB_PREFIX + owner + "/" + repo + rest
  }

  /** `owner` and `repo` are whole path segments and `rest` is empty or a
      further path starting with `/`. */
  predicate WellFormed(owner: string, repo: string, rest: string)
  {
    '/' !in owner && '/' !in repo && (rest == [] || rest[0] == '/')
  }

  /** The derivation as written: a URL with the GitHub prefix is split on
      `/` and segments 3 and 4 are joined; any other URL gives `""`. */
  function DeriveSourceRepository(url: string): (r: Result<string>)
    ensures !(GITHUB_PREFIX <= url) ==> r == Ok("")
    ensures r.Ok? && r.value != "" ==> GITHUB_PREFIX <= url && GITHUB_SCHEME <= r.value
  {
    if GITHUB_PREFIX <= url then
      var parts := SplitOn(url, '/');
      if |parts| <= 3 then Err(IndexOutOfRange(3))
      else if |parts| <= 4 then Err(IndexOutOfRange(4))
      else Ok(GITHUB_SCHEME + parts[3] + "/" + parts[4])
    else Ok("")
  }

  /** Splitting a GitHub URL always yields the three segments of the prefix
      (`https:`, the empty segment between the two slashes, `github.com`)
      followed by the segments of its path; so segment 3 always exists. */
  lemma SplitGitHubUrl(url: string)
    requires GITHUB_PREFIX <= url
    ensures SplitOn(url, '/') == ["https:", "", "github.com"] + SplitOn(Path(url), '/')
    ensures |SplitOn(url, '/')| >= 4
  {
    var path := Path(url);
    assert url == "https:" + ['/'] + ("" + ['/'] + ("github.com" + ['/'] + path));
    SplitThreeSegments("https:", "", "github.com", '/', path);
  }

  /** Three separator-free segments in front of `path` split off as they are. */
  lemma SplitThreeSegments(a: string, b: string, c: string, sep: char, path: string)
    requires sep !in a && sep !in b && sep !in c
    ensures SplitOn(a + [sep] + (b + [sep] + (c + [sep] + path)), sep) == [a, b, c] + SplitOn(path, sep)
  {
    SplitAtSeparator(c, sep, path);
    SplitAtSeparator(b, sep, c + [sep] + path);
    SplitAtSeparator(a, sep, b + [sep] + (c + [sep] + path));
  }

  /** The access to segment 3 never fails; the derivation fails exactly when
      the path after the prefix has no further `/`, and then at segment 4. */
  lemma DeriveFailsIff(url: string)
    ensures DeriveSourceRepository(url).Err?
        <==> GITHUB_PREFIX <= url && '/' !in Path(url)
    ensures DeriveSourceRepository(url).Err?
        ==> DeriveSourceRepository(url).error == IndexOutOfRange(4)
  {
    if GITHUB_PREFIX <= url {
      SplitGitHubUrl(url);
      SplitSingleIff(Path(url), '/');
    }
  }

  /** A well-formed GitHub URL yields `github:<owner>/<repo>`, whatever
      follows the repository segment. */
  lemma DeriveWellFormed(owner: string, repo: string, rest: string)
    requires WellFormed(owner, repo, rest)
    ensures DeriveSourceRepository(GitHubUrl(owner, repo, rest))
         == Ok(GITHUB_SCHEME + owner + "/" + repo)
  {
    var url := GitHubUrl(owner, repo, rest);
    assert GITHUB_PREFIX <= url;
    assert Path(url) == owner + ['/'] + (repo + rest);
    SplitGitHubUrl(url);
    SplitAtSeparator(owner, '/', repo + rest);
    if rest == [] {
      assert repo + rest == repo;
      SplitWithoutSeparator(repo, '/');
    } else {
      assert repo + rest == repo + ['/'] + rest[1..];
      SplitAtSeparator(repo, '/', rest[1..]);
    }
  }

  /** A path holding a `/` splits into owner, repository and the rest. */
  lemma SplitPath(path: string) returns (owner: string, repo: string, rest: string)
    requires '/' in path
    ensures WellFormed(owner, repo, rest) && path == owner + "/" + repo + rest
  {
    owner := SplitOn(path, '/')[0];
    FirstSegment(path, '/');
    SplitSingleIff(path, '/');
    assert |owner| < |path|;
    var after := path[|owner| + 1..];
    assert path == owner + ['/'] + after;
    repo := SplitOn(after, '/')[0];
    FirstSegment(after, '/');
    rest := after[|repo|..];
    assert after == repo + rest;
  }

  /** A GitHub URL whose path holds a `/` has the shape of `GitHubUrl`. */
  lemma Decompose(url: string) returns (owner: string, repo: string, rest: string)
    requires GITHUB_PREFIX <= url && '/' in Path(url)
    ensures WellFormed(owner, repo, rest) && url == GitHubUrl(owner, repo, rest)
  {
    owner, repo, rest := SplitPath(Path(url));
    assert url == GITHUB_PREFIX + Path(url);
  }

  /** Conversely, every non-empty result comes from a well-formed GitHub URL
      and names its owner and repository segments. */
  lemma DeriveSucceedsOnlyOnWellFormed(url: string)
    requires DeriveSourceRepository(url).Ok? && DeriveSourceRepository(url).value != ""
    ensures exists owner, repo, rest ::
              WellFormed(owner, repo, rest) && url == GitHubUrl(owner, repo, rest)
              && DeriveSourceRepository(url).value == GITHUB_SCHEME + owner + "/" + repo
  {
    DeriveFailsIff(url);
    var owner, repo, rest := Decompose(url);
    DeriveWellFormed(owner, repo, rest);
  }

  /** The empty result means exactly "not a GitHub URL". */
  lemma EmptyIffNotGitHub(url: string)
    ensures DeriveSourceRepository(url) == Ok("") <==> !(GITHUB_PREFIX <= url)
  {
  }

  /** A non-empty result is `github:` followed by exactly two segments, so it
      holds exactly one `/` after the scheme. */
  lemma IdentifierShape(url: string)
    requires DeriveSourceRepository(url).Ok? && DeriveSourceRepository(url).value != ""
    ensures var id := DeriveSourceRepository(url).value;
            GITHUB_SCHEME <= id && Count(id[|GITHUB_SCHEME|..], '/') == 1
  {
    var id := DeriveSourceRepository(url).value;
    var parts := SplitOn(url, '/');
    SplitGitHubUrl(url);
    var body := id[|GITHUB_SCHEME|..];
    assert body == Join([parts[3], parts[4]], '/');
    SplitJoin([parts[3], parts[4]], '/');
    SplitLength(body, '/');
  }

  /** `https://github.com/acme` has no repository segment: `parts[4]` fails. */
  lemma OwnerOnlyUrlFails()
    ensures DeriveSourceRepository("https://github.com/acme") == Err(IndexOutOfRange(4))
  {
    var url := "https://github.com/acme";
    DeriveFailsIff(url);
    assert Path(url) == "acme";
  }

  /** A trailing slash after the owner is accepted and yields an empty
      repository name. */
  lemma TrailingSlashGivesEmptyRepo()
    ensures DeriveSourceRepository("https://github.com/acme/") == Ok("github:acme/")
  {
    var owner, repo := "acme", "";
    assert GitHubUrl(owner, repo, "") == "https://github.com/acme/";
    DeriveWellFormed(owner, repo, "");
    assert GITHUB_SCHEME + owner + "/" + repo == "github:acme/";
  }
}
