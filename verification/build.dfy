/**
  The `build` action: stage the build directory, log in for the first
  repository if required, and run one `docker build` that tags the image
  with every target of the grid.
 */
module BuildStep {
  import opened Strings
  import opened Engine
  import opened Credentials
  import opened Images

  /** `os.Getenv`: an unset variable reads as the empty string. */
  function Getenv(env: map<string, string>, name: string): string
  {
    if name in env then env[name] else ""
  }

  /** The items to copy into the build directory: the dockerfile is added at
      the end when the path is not `.` and the list does not name it already. */
  function CopyList(copy: seq<string>, path: string, dockerfile: string): (items: seq<string>)
    ensures items == copy || items == copy + [dockerfile]
    ensures items == copy + [dockerfile] <==> path != "." && dockerfile !in copy
    ensures path != "." ==> dockerfile in items
  {
    if path != "." && !Contains(copy, dockerfile) then copy + [dockerfile] else copy
  }

  /** `cp -r item path` for each item, in order. */
  function Copies(items: seq<string>, path: string): (ops: seq<Op>)
    ensures |ops| == |items|
    ensures forall k :: 0 <= k < |items| ==> ops[k] == Copy(items[k], path)
  {
    if items == [] then [] else [Copy(items[0], path)] + Copies(items[1..], path)
  }

  /** Each value preceded by `flag`: `flag v0 flag v1 ...`. */
  function Flagged(flag: string, values: seq<string>): seq<string>
  {
    if values == [] then [] else [flag, values[0]] + Flagged(flag, values[1..])
  }

  lemma {:induction false} FlaggedShape(flag: string, values: seq<string>)
    ensures |Flagged(flag, values)| == 2 * |values|
    ensures forall k :: 0 <= k < |values| ==>
      Flagged(flag, values)[2 * k] == flag && Flagged(flag, values)[2 * k + 1] == values[k]
    decreases |values|
  {
    if values != [] {
      FlaggedShape(flag, values[1..]);
      var rest := Flagged(flag, values[1..]);
      assert Flagged(flag, values) == [flag, values[0]] + rest;
      forall k | 1 <= k < |values|
        ensures Flagged(flag, values)[2 * k] == flag && Flagged(flag, values)[2 * k + 1] == values[k]
      {
        assert Flagged(flag, values)[2 * k] == rest[2 * (k - 1)];
        assert Flagged(flag, values)[2 * k + 1] == rest[2 * (k - 1) + 1];
        assert values[1..][k - 1] == values[k];
      }
    }
  }

  lemma {:induction false} FlaggedAppend(flag: string, a: seq<string>, b: seq<string>)
    ensures Flagged(flag, a + b) == Flagged(flag, a) + Flagged(flag, b)
    decreases |a|
  {
    if a == [] {
      assert a + b == b;
    } else {
      assert (a + b)[1..] == a[1..] + b;
      FlaggedAppend(flag, a[1..], b);
    }
  }

  /** The inner `--tag` loop over the additional tags of one repository. */
  function ExtraTagArgs(job: Job, repo: string, ts: seq<string>): seq<string>
  {
    if ts == [] then []
    else ["--tag", ImageRef(repo, job.container, ts[0])] + ExtraTagArgs(job, repo, ts[1..])
  }

  /** The outer `--tag` loop: for each repository the default tag, then the
      additional tags. */
  function TagArgs(job: Job, rs: seq<string>): seq<string>
  {
    if rs == [] then []
    else
      var first := ["--tag", ImageRef(rs[0], job.container, job.defaultTag)];
      first + ExtraTagArgs(job, rs[0], job.tags) + TagArgs(job, rs[1..])
  }

  /** The `--build-arg name=value` loop, the value read from the environment. */
  function BuildArgPairs(names: seq<string>, env: map<string, string>): seq<string>
  {
    if names == [] then []
    else ["--build-arg", names[0] + "=" + Getenv(env, names[0])] + BuildArgPairs(names[1..], env)
  }

  /** The full `docker build` argument vector, loop by loop: `build`, a
      `--tag` for every target of the grid in grid order, a `--build-arg` for
      every requested name in order, then the dockerfile and the build context. */
  function BuildArgs(job: Job, names: seq<string>, env: map<string, string>, path: string, dockerfile: string): (args: seq<string>)
    ensures args ==
      ["build"] + Flagged("--tag", Targets(job)) + Flagged("--build-arg", ArgAssignments(names, env))
        + ["--file", path + "/" + dockerfile, path]
  {
    TagArgsFlagged(job, job.repos);
    BuildArgPairsFlagged(names, env);
    ["build"] + TagArgs(job, job.repos) + BuildArgPairs(names, env) + ["--file", path + "/" + dockerfile, path]
  }

  /** The `build` action: create the directory, copy the items in, log in
      for the source image if required, build. */
  function BuildPlan(job: Job, copy: seq<string>, names: seq<string>, env: map<string, string>,
                     path: string, dockerfile: string): seq<Op>
    requires job.Valid()
  {
    [Mkdir(path)]
      + Copies(CopyList(copy, path, dockerfile), path)
      + LoginIfRequired(job.creds, job.Source())
      + [Build(BuildArgs(job, names, env, path, dockerfile))]
  }

  // ---------------------------------------------------------------------

  lemma {:induction false} ExtraTagArgsFlagged(job: Job, repo: string, ts: seq<string>)
    ensures ExtraTagArgs(job, repo, ts) == Flagged("--tag", TaggedImages(job, repo, ts))
    decreases |ts|
  {
    if ts != [] {
      ExtraTagArgsFlagged(job, repo, ts[1..]);
      assert TaggedImages(job, repo, ts)[1..] == TaggedImages(job, repo, ts[1..]);
    }
  }

  lemma {:induction false} TagArgsFlagged(job: Job, rs: seq<string>)
    ensures TagArgs(job, rs) == Flagged("--tag", TargetsOf(job, rs))
    decreases |rs|
  {
    if rs != [] {
      TagArgsFlagged(job, rs[1..]);
      ExtraTagArgsFlagged(job, rs[0], job.tags);
      var row := Row(job, rs[0]);
      var extra := TaggedImages(job, rs[0], job.tags);
      var image := ImageRef(rs[0], job.container, job.defaultTag);
      RowSplit(job, rs[0]);
      assert Flagged("--tag", [image]) == ["--tag", image] + Flagged("--tag", []);
      FlaggedAppend("--tag", [image], extra);
      FlaggedAppend("--tag", row, TargetsOf(job, rs[1..]));
    }
  }

  /** The value each `--build-arg` carries, one per requested name. */
  function ArgAssignments(names: seq<string>, env: map<string, string>): (assignments: seq<string>)
    ensures |assignments| == |names|
  {
    seq(|names|, m requires 0 <= m < |names| => names[m] + "=" + Getenv(env, names[m]))
  }

  lemma {:induction false} BuildArgPairsFlagged(names: seq<string>, env: map<string, string>)
    ensures BuildArgPairs(names, env) == Flagged("--build-arg", ArgAssignments(names, env))
    decreases |names|
  {
    if names != [] {
      BuildArgPairsFlagged(names[1..], env);
      assert ArgAssignments(names, env)[1..] == ArgAssignments(names[1..], env);
    }
  }

  /** Positions of a flagged run inside a longer vector. */
  lemma FlaggedRunAt(before: seq<string>, flag: string, xs: seq<string>, after: seq<string>)
    ensures |before + Flagged(flag, xs) + after| == |before| + 2 * |xs| + |after|
    ensures forall k :: 0 <= k < |xs| ==>
      (before + Flagged(flag, xs) + after)[|before| + 2 * k] == flag
      && (before + Flagged(flag, xs) + after)[|before| + 2 * k + 1] == xs[k]
  {
    var run := Flagged(flag, xs);
    var v := before + run + after;
    FlaggedShape(flag, xs);
    forall k | 0 <= k < |xs|
      ensures v[|before| + 2 * k] == flag && v[|before| + 2 * k + 1] == xs[k]
    {
      assert v[|before| + 2 * k] == run[2 * k];
      assert v[|before| + 2 * k + 1] == run[2 * k + 1];
    }
  }

  /** The same vector position by position. */
  lemma BuildArgsShape(job: Job, names: seq<string>, env: map<string, string>, path: string, dockerfile: string)
    ensures
      var args := BuildArgs(job, names, env, path, dockerfile);
      var targets := Targets(job);
      && |args| == 1 + 2 * |targets| + 2 * |names| + 3
      && args[0] == "build"
      && (forall k :: 0 <= k < |targets| ==> args[1 + 2 * k] == "--tag" && args[2 + 2 * k] == targets[k])
      && (forall m :: 0 <= m < |names| ==>
            args[1 + 2 * |targets| + 2 * m] == "--build-arg"
            && args[2 + 2 * |targets| + 2 * m] == names[m] + "=" + Getenv(env, names[m]))
      && args[|args| - 3..] == ["--file", path + "/" + dockerfile, path]
  {
    var tagRun := Flagged("--tag", Targets(job));
    var argRun := Flagged("--build-arg", ArgAssignments(names, env));
    var tail := ["--file", path + "/" + dockerfile, path];
    FlaggedRunAt(["build"], "--tag", Targets(job), argRun + tail);
    FlaggedRunAt(["build"] + tagRun, "--build-arg", ArgAssignments(names, env), tail);
    assert ["build"] + tagRun + argRun + tail == ["build"] + tagRun + (argRun + tail);
  }

  /** The `build` action issues, in order: `mkdir -p path`, one copy per
      item of the copy list, the login check for the source image, and the
      build. It neither tags nor pushes. */
  lemma BuildPlanShape(job: Job, copy: seq<string>, names: seq<string>, env: map<string, string>,
                       path: string, dockerfile: string)
    requires job.Valid()
    ensures
      var ops := BuildPlan(job, copy, names, env, path, dockerfile);
      var items := CopyList(copy, path, dockerfile);
      var login := LoginIfRequired(job.creds, job.Source());
      && |ops| == 2 + |items| + |login|
      && ops[0] == Mkdir(path)
      && (forall k :: 0 <= k < |items| ==> ops[1 + k] == Copy(items[k], path))
      && ops[1 + |items|..|ops| - 1] == login
      && ops[|ops| - 1] == Build(BuildArgs(job, names, env, path, dockerfile))
      && Pushed(ops) == [] && TagTargets(ops) == []
  {
    var ops := BuildPlan(job, copy, names, env, path, dockerfile);
    var items := CopyList(copy, path, dockerfile);
    var copies := Copies(items, path);
    var login := LoginIfRequired(job.creds, job.Source());
    var build := [Build(BuildArgs(job, names, env, path, dockerfile))];
    assert ops == [Mkdir(path)] + copies + login + build;
    forall k | 0 <= k < |items|
      ensures ops[1 + k] == Copy(items[k], path)
    {
      assert ops[1 + k] == copies[k];
    }
    assert ops[1 + |items|..|ops| - 1] == login;
    assert forall op :: op in ops ==> !op.Push? && !op.Tag?;
    NoPushNoTag(ops);
  }

  /** `build` issues only well-formed commands. */
  lemma BuildPlanWellFormed(job: Job, copy: seq<string>, names: seq<string>, env: map<string, string>,
                            path: string, dockerfile: string)
    requires job.Valid()
    ensures AllWellFormed(BuildPlan(job, copy, names, env, path, dockerfile))
  {
    var copies := Copies(CopyList(copy, path, dockerfile), path);
    var login := LoginIfRequired(job.creds, job.Source());
    var args := BuildArgs(job, names, env, path, dockerfile);
    assert args[0] == "build";
    assert AllWellFormed([Mkdir(path)] + copies) by {
      assert forall op :: op in copies ==> op.Copy?;
    }
    LoginWellFormed(job.creds, job.Source());
    AllWellFormedAppend([Mkdir(path)] + copies, login);
    AllWellFormedAppend([Mkdir(path)] + copies + login, [Build(args)]);
  }

  /** `build` pushes nothing, so the login-before-push order holds trivially. */
  lemma BuildPlanPublishesNothing(job: Job, copy: seq<string>, names: seq<string>, env: map<string, string>,
                                  path: string, dockerfile: string)
    requires job.Valid()
    ensures Pushed(BuildPlan(job, copy, names, env, path, dockerfile)) == []
    ensures forall op :: op in BuildPlan(job, copy, names, env, path, dockerfile) ==> !op.Push? && !op.Tag?
  {
    var ops := BuildPlan(job, copy, names, env, path, dockerfile);
    var copies := Copies(CopyList(copy, path, dockerfile), path);
    assert forall op :: op in copies ==> op.Copy?;
    assert forall op :: op in ops ==> !op.Push? && !op.Tag?;
    NoPushNoTag(ops);
  }

  lemma {:induction false} NoPushNoTag(ops: seq<Op>)
    requires forall op :: op in ops ==> !op.Push? && !op.Tag?
    ensures Pushed(ops) == [] && TagTargets(ops) == []
    decreases |ops|
  {
    if ops != [] {
      assert forall op :: op in ops[1..] ==> op in ops;
      NoPushNoTag(ops[1..]);
    }
  }
}
