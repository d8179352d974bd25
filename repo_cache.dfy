/** The local cache of bare clones under `repos/`: `checkout_repo` builds the
    GitHub URL, `checkout_repo_url_commit` derives the cache entry's name from it
    and issues `git clone --bare` only when that entry does not exist yet. The
    git commands themselves are not modelled; the directory is a set of names. */
module RepoCache {
  import opened Base
  import opened Text

  const GithubPrefix: string := "https://github.com/"

  /** `checkout_repo`: the URL of a dataset entry's `repo` ("owner/name"). */
  function GithubUrl(repo: string): string {
    GithubPrefix + repo
  }

  /** The URL's last slash-separated segment: its characters after the last `/`. */
  function LastSegment(url: string): string
    decreases |url|
  {
    if url == [] || url[|url| - 1] == '/' then [] else LastSegment(url[..|url| - 1]) + [url[|url| - 1]]
  }

  /** The segment's characters before its first `.`. */
  function Stem(segment: string): string
    decreases |segment|
  {
    if segment == [] || segment[0] == '.' then [] else [segment[0]] + Stem(segment[1..])
  }

  /** The cache entry's name: `url.split("/")[-1].split(".")[0] + ".git"`. */
  function RepoName(url: string): (name: string)
    ensures |name| >= 4 && name[|name| - 4..] == ".git"
  {
    Stem(LastSegment(url)) + ".git"
  }

  /** The last segment is the slash-free tail of the URL that starts right after a `/` (or at
      the start). */
  lemma {:induction false} LastSegmentTail(url: string)
    ensures |LastSegment(url)| <= |url|
    ensures var k := |url| - |LastSegment(url)|;
      LastSegment(url) == url[k..] && (k == 0 || url[k - 1] == '/') && '/' !in url[k..]
    decreases |url|
  {
    if url != [] && url[|url| - 1] != '/' {
      var init := url[..|url| - 1];
      LastSegmentTail(init);
      var k := |init| - |LastSegment(init)|;
      assert url[k..] == init[k..] + [url[|url| - 1]];
    }
  }

  /** The stem is the dot-free head of the segment that ends at its first `.` (or at its end). */
  lemma {:induction false} StemHead(segment: string)
    ensures |Stem(segment)| <= |segment|
    ensures var j := |Stem(segment)|;
      Stem(segment) == segment[..j] && '.' !in segment[..j] && (j == |segment| || segment[j] == '.')
    decreases |segment|
  {
    if segment != [] && segment[0] != '.' {
      StemHead(segment[1..]);
      var j := |Stem(segment[1..])|;
      assert segment[..j + 1] == [segment[0]] + segment[1..][..j];
    }
  }

  /** The name is what Python's `str.split` computes: the last piece of splitting the URL at
      `/`, then the first piece of splitting that at `.`, then `.git`. */
  lemma RepoNameIsSplit(url: string)
    ensures var segments := Split(url, '/');
      RepoName(url) == Split(segments[|segments| - 1], '.')[0] + ".git"
  {
    LastSegmentTail(url);
    var segment := LastSegment(url);
    LastPiece(url, '/', |url| - |segment|);
    StemHead(segment);
    FirstPiece(segment, '.', |Stem(segment)|);
  }

  /** The name is a slash- and dot-free stem followed by `.git`. */
  lemma RepoNameShape(url: string)
    ensures var name := RepoName(url);
      |name| >= 4 && name[|name| - 4..] == ".git" && '/' !in name[..|name| - 4] && '.' !in name[..|name| - 4]
  {
    LastSegmentTail(url);
    var segment := LastSegment(url);
    StemHead(segment);
    var stem := Stem(segment);
    assert '/' !in stem by {
      forall i | 0 <= i < |stem| ensures stem[i] != '/' {
        assert stem[i] == segment[i] == url[|url| - |segment| + i];
      }
    }
    var name := stem + ".git";
    assert name[..|name| - 4] == stem;
  }

  /** The name is the URL's last slash-separated segment up to its first dot, then `.git`:
      for the start `k` of the last segment and the end `j` of its dot-free head. */
  lemma RepoNameIs(url: string, k: nat, j: nat)
    requires k <= j <= |url|
    requires k == 0 || url[k - 1] == '/'
    requires '/' !in url[k..]
    requires '.' !in url[k..j]
    requires j == |url| || url[j] == '.'
    ensures RepoName(url) == url[k..j] + ".git"
  {
    var last := url[k..];
    LastPiece(url, '/', k);
    assert last[..j - k] == url[k..j];
    assert j - k == |last| || last[j - k] == '.';
    FirstPiece(last, '.', j - k);
    RepoNameIsSplit(url);
  }

  /** For a dataset entry "owner/name" whose name has no dot, the entry is `name.git`. */
  lemma GithubRepoName(owner: string, name: string)
    requires '/' !in name && '.' !in name
    ensures RepoName(GithubUrl(owner + "/" + name)) == name + ".git"
  {
    var url := GithubUrl(owner + "/" + name);
    var k := |url| - |name|;
    assert url[k..] == name;
    assert url[k - 1] == '/';
    RepoNameIs(url, k, |url|);
  }

  /** The name ignores the owner: two different repositories with the same name share one
      cache entry, so the second reuses the first one's bare clone. */
  lemma OwnerIgnored(owner1: string, owner2: string, name: string)
    requires '/' !in name && '.' !in name
    requires owner1 != owner2
    ensures GithubUrl(owner1 + "/" + name) != GithubUrl(owner2 + "/" + name)
    ensures RepoName(GithubUrl(owner1 + "/" + name)) == RepoName(GithubUrl(owner2 + "/" + name))
  {
    GithubRepoName(owner1, name);
    GithubRepoName(owner2, name);
    if |owner1| == |owner2| {
      var i :| 0 <= i < |owner1| && owner1[i] != owner2[i];
      assert GithubUrl(owner1 + "/" + name)[|GithubPrefix| + i] == owner1[i];
      assert GithubUrl(owner2 + "/" + name)[|GithubPrefix| + i] == owner2[i];
    } else {
      assert |GithubUrl(owner1 + "/" + name)| != |GithubUrl(owner2 + "/" + name)|;
    }
  }

  /** The `repos/` directory: the names present in it, and the bare clones this run issued. */
  class BareRepoCache {
    var present: set<string>
    var bareClones: seq<string>

    /** Every bare clone this run issued is present, and none was issued twice. */
    ghost predicate Valid()
      reads this
    {
      NoDuplicates(bareClones) && forall name :: name in bareClones ==> name in present
    }

    /** Since the state `present0`, `clones0`, the entry `name` has been provisioned: it is
        present, and was cloned once exactly when it was missing from `present0`. */
    ghost predicate Provisioned(present0: set<string>, clones0: seq<string>, name: string)
      reads this
    {
      present == present0 + {name} && bareClones == clones0 + (if name in present0 then [] else [name])
    }

    /** Since the state `present0`, `clones0`, the entry `name` has been provisioned when
        `used` holds, and nothing has changed otherwise. */
    ghost predicate ProvisionedIf(used: bool, present0: set<string>, clones0: seq<string>, name: string)
      reads this
    {
      if used then Provisioned(present0, clones0, name) else present == present0 && bareClones == clones0
    }

    /** The cache as found on disk at start-up. */
    constructor (onDisk: set<string>)
      ensures Valid()
      ensures present == onDisk && bareClones == []
    {
      present := onDisk;
      bareClones := [];
    }

    /** `checkout_repo_url_commit`: make sure the bare clone exists, then (abstractly) clone it
        into the sandbox and check out the commit. */
    method Checkout(url: string) returns (name: string, cloned: bool)
      requires Valid()
      modifies this
      ensures Valid()
      ensures name == RepoName(url)
      ensures cloned <==> name !in old(present)
      ensures present == old(present) + {name}
      ensures bareClones == old(bareClones) + (if cloned then [name] else [])
    {
      name := RepoName(url);
      cloned := name !in present;
      if cloned {
        bareClones := bareClones + [name];
        present := present + {name};
      }
    }
  }
}
