/**
  Image references and the repository x tag grid every action fans out over.
 */
module Images {
  import opened Credentials

  /** `fmt.Sprintf("%v/%v:%v", repo, container, tag)`. */
  function ImageRef(repo: string, container: string, tag: string): string
  {
    repo + "/" + container + ":" + tag
  }

  /** The credential lookup sees the repository back, as long as the
      container and tag add no `/` of their own. */
  lemma ImageRefRepository(repo: string, container: string, tag: string)
    requires '/' !in container && '/' !in tag
    ensures RepositoryOf(ImageRef(repo, container, tag)) == repo
  {
    var last := container + ":" + tag;
    assert '/' !in last by {
      forall i | 0 <= i < |last| ensures last[i] != '/' {
        if i < |container| {
          assert last[i] == container[i];
        } else if i > |container| {
          assert last[i] == tag[i - |container| - 1];
        }
      }
    }
    assert ImageRef(repo, container, tag) == repo + "/" + last;
    RepositoryBeforeLastSlash(repo, last);
  }

  /** What one invocation publishes: the repositories (the first one is the
      source of the image), the additional tags, the container name, the
      sanitised build version used as default tag, and the credentials. */
  datatype Job = Job(
    repos: seq<string>,
    tags: seq<string>,
    container: string,
    defaultTag: string,
    creds: seq<Credential>)
  {
    /** `repositoriesSlice[0]` must exist. */
    predicate Valid()
    {
      |repos| > 0
    }

    /** Tags per repository: the default tag and then each additional tag. */
    function Width(): nat
    {
      1 + |tags|
    }

    /** The image built locally (build) or pulled (tag), copied everywhere else. */
    function Source(): string
      requires Valid()
    {
      ImageRef(repos[0], container, defaultTag)
    }
  }

  /** Column `j` of the grid: the default tag first, then the additional tags. */
  function TagAt(job: Job, j: nat): string
    requires j < job.Width()
  {
    if j == 0 then job.defaultTag else job.tags[j - 1]
  }

  /** The images of one repository, default tag first. */
  function Row(job: Job, repo: string): (row: seq<string>)
    ensures |row| == job.Width()
  {
    seq(job.Width(), j requires 0 <= j < job.Width() => ImageRef(repo, job.container, TagAt(job, j)))
  }

  /** `repo/container:t` for each tag `t` of `ts`, in order. */
  function TaggedImages(job: Job, repo: string, ts: seq<string>): (images: seq<string>)
    ensures |images| == |ts|
  {
    seq(|ts|, k requires 0 <= k < |ts| => ImageRef(repo, job.container, ts[k]))
  }

  /** A row is the default-tag image followed by the additional tags. */
  lemma RowSplit(job: Job, repo: string)
    ensures Row(job, repo) == [ImageRef(repo, job.container, job.defaultTag)] + TaggedImages(job, repo, job.tags)
  {
  }

  function TargetsOf(job: Job, rs: seq<string>): seq<string>
  {
    if rs == [] then [] else Row(job, rs[0]) + TargetsOf(job, rs[1..])
  }

  /** Every image a run publishes, repository by repository and, within one
      repository, default tag first and then the additional tags in order. */
  function Targets(job: Job): seq<string>
  {
    TargetsOf(job, job.repos)
  }

  lemma {:induction false} TargetsOfLength(job: Job, rs: seq<string>)
    ensures |TargetsOf(job, rs)| == |rs| * job.Width()
    decreases |rs|
  {
    if rs != [] {
      TargetsOfLength(job, rs[1..]);
      assert |rs| * job.Width() == job.Width() + (|rs| - 1) * job.Width();
    }
  }

  lemma {:induction false} TargetsOfIndex(job: Job, rs: seq<string>, i: nat, j: nat)
    requires i < |rs| && j < job.Width()
    ensures i * job.Width() + j < |TargetsOf(job, rs)|
    ensures TargetsOf(job, rs)[i * job.Width() + j] == ImageRef(rs[i], job.container, TagAt(job, j))
    decreases i
  {
    TargetsOfLength(job, rs);
    TargetsOfLength(job, rs[1..]);
    var w := job.Width();
    if i == 0 {
      assert TargetsOf(job, rs)[j] == Row(job, rs[0])[j];
    } else {
      TargetsOfIndex(job, rs[1..], i - 1, j);
      assert i * w + j == w + ((i - 1) * w + j);
      assert TargetsOf(job, rs)[i * w + j] == TargetsOf(job, rs[1..])[(i - 1) * w + j];
    }
  }

  /** There are |repos| * (1 + |tags|) targets. */
  lemma TargetsCount(job: Job)
    ensures |Targets(job)| == |job.repos| * job.Width()
  {
    TargetsOfLength(job, job.repos);
  }

  /** The target at `i * (1 + |tags|) + j` is repository `i` with tag `j`. */
  predicate CellAt(job: Job, i: nat, j: nat)
    requires i < |job.repos| && j < job.Width()
  {
    && i * job.Width() + j < |Targets(job)|
    && Targets(job)[i * job.Width() + j] == ImageRef(job.repos[i], job.container, TagAt(job, j))
  }

  /** The grid is laid out row by row, every cell in its place. */
  lemma TargetsAt(job: Job)
    ensures forall i: nat, j: nat :: i < |job.repos| && j < job.Width() ==> CellAt(job, i, j)
  {
    forall i: nat, j: nat | i < |job.repos| && j < job.Width()
      ensures CellAt(job, i, j)
    {
      TargetsOfIndex(job, job.repos, i, j);
    }
  }

  /** Past the source come the rest of the first row, then the other rows. */
  lemma TargetsAfterSource(job: Job)
    requires job.Valid()
    ensures Targets(job)[1..] == Row(job, job.repos[0])[1..] + TargetsOf(job, job.repos[1..])
  {
    var row := Row(job, job.repos[0]);
    var others := TargetsOf(job, job.repos[1..]);
    assert Targets(job) == row + others;
    assert (row + others)[1..] == row[1..] + others;
  }

  /** The first target is the source image. */
  lemma TargetsStartWithSource(job: Job)
    requires job.Valid()
    ensures |Targets(job)| >= 1 && Targets(job)[0] == job.Source()
  {
  }
}
