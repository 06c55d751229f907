/**
  Private registry credentials: finding the record for an image
  (`getCredentialsForContainer`) and logging in with it (`loginIfRequired`).
 */
module Credentials {
  import opened Strings
  import opened Engine

  datatype Option<T> = None | Some(value: T)

  /** One entry of the credentials list handed to the extension. */
  datatype Credential = Credential(repository: string, username: string, password: string)

  /** The repository part of an image reference: every `/`-separated segment
      but the last, joined back with `/`. */
  function RepositoryOf(image: string): string
  {
    var segments := Split(image, '/');
    Join(segments[..|segments| - 1], '/')
  }

  /** The repository part is everything before the last `/`. */
  lemma RepositoryBeforeLastSlash(repo: string, last: string)
    requires '/' !in last
    ensures RepositoryOf(repo + "/" + last) == repo
  {
    SplitAround(repo, last, '/');
    SplitNoSep(last, '/');
    assert repo + "/" + last == repo + ['/'] + last;
    var segments := Split(repo + "/" + last, '/');
    assert segments[..|segments| - 1] == Split(repo, '/');
    JoinSplit(repo, '/');
  }

  /** An image without any `/` has an empty repository part. */
  lemma RepositoryOfBareImage(image: string)
    requires '/' !in image
    ensures RepositoryOf(image) == ""
  {
    SplitNoSep(image, '/');
  }

  /** Every image string falls under exactly one of the two lemmas above: a
      `/` at position `k` with none after it puts the repository at `image[..k]`. */
  lemma RepositoryAtSlash(image: string, k: int)
    requires 0 <= k < |image| && image[k] == '/'
    requires '/' !in image[k + 1..]
    ensures RepositoryOf(image) == image[..k]
  {
    assert image == image[..k] + "/" + image[k + 1..];
    RepositoryBeforeLastSlash(image[..k], image[k + 1..]);
  }

  /** The position of the first record whose repository is `repo`, or
      `|creds|` when there is none. */
  function FirstMatch(creds: seq<Credential>, repo: string): (k: nat)
    ensures k <= |creds|
    ensures forall j :: 0 <= j < k ==> creds[j].repository != repo
    ensures k < |creds| ==> creds[k].repository == repo
  {
    if creds == [] then 0
    else if creds[0].repository == repo then 0
    else 1 + FirstMatch(creds[1..], repo)
  }

  /** `getCredentialsForContainer`: the first record, in list order, whose
      repository equals the image's repository part. */
  function FindCredential(creds: seq<Credential>, image: string): (found: Option<Credential>)
    ensures creds == [] ==> found == None
    ensures found == None <==> forall j :: 0 <= j < |creds| ==> creds[j].repository != RepositoryOf(image)
    ensures found.Some? ==>
      exists k :: 0 <= k < |creds| && creds[k] == found.value
        && creds[k].repository == RepositoryOf(image)
        && forall j :: 0 <= j < k ==> creds[j].repository != RepositoryOf(image)
  {
    var k := FirstMatch(creds, RepositoryOf(image));
    if k < |creds| then Some(creds[k]) else None
  }

  /** The `docker login` arguments for a record: the user name and password,
      followed by the registry host only when the record's repository has a
      `/` in it; the host is then the text before the first `/`. */
  function LoginArgs(cred: Credential): (args: seq<string>)
    ensures |args| == 5 || |args| == 6
    ensures args[..5] == ["login", "--username", cred.username, "--password", cred.password]
    ensures |args| == 6 <==> '/' in cred.repository
    ensures |args| == 6 ==> '/' !in args[5] && args[5] + "/" <= cred.repository
  {
    var segments := Split(cred.repository, '/');
    SplitManyIffSep(cred.repository, '/');
    SplitFirstPiece(cred.repository, '/');
    assert segments[0] in segments;
    ["login", "--username", cred.username, "--password", cred.password]
      + (if |segments| > 1 then [segments[0]] else [])
  }

  /** `loginIfRequired`: one login when a record matches the image, and no
      command at all otherwise. */
  function LoginIfRequired(creds: seq<Credential>, image: string): (ops: seq<Op>)
    ensures |ops| <= 1
    ensures ops == [] <==> FindCredential(creds, image) == None
    ensures ops != [] ==> ops[0].Login? && |ops[0].args| >= 5 && ops[0].args[0] == "login"
    ensures ops != [] ==> ops[0] == Login(LoginArgs(FindCredential(creds, image).value))
  {
    match FindCredential(creds, image)
    case None => []
    case Some(cred) => [Login(LoginArgs(cred))]
  }

  /** The login check issues only well-formed commands. */
  lemma LoginWellFormed(creds: seq<Credential>, image: string)
    ensures AllWellFormed(LoginIfRequired(creds, image))
  {
  }

  /** For an image `repo/name` whose last segment has no `/`, a login happens
      exactly when some record names `repo`, and it uses the first such record. */
  lemma LoginForImage(creds: seq<Credential>, repo: string, last: string)
    requires '/' !in last
    ensures LoginIfRequired(creds, repo + "/" + last) != [] <==>
      exists j :: 0 <= j < |creds| && creds[j].repository == repo
    ensures LoginIfRequired(creds, repo + "/" + last) != [] ==>
      var k := FirstMatch(creds, repo);
      k < |creds| && LoginIfRequired(creds, repo + "/" + last) == [Login(LoginArgs(creds[k]))]
  {
    RepositoryBeforeLastSlash(repo, last);
  }
}
