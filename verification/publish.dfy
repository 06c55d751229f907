/**
  The `push` and `tag` actions: fanning the source image out over every
  repository and tag, logging in before each push when a credential matches.
 */
module Publish {
  import opened Engine
  import opened Credentials
  import opened Images

  /** Tag the source as `target`, log in if required, push `target`. */
  function TagAndPush(job: Job, target: string): seq<Op>
    requires job.Valid()
  {
    [Tag(job.Source(), target)] + LoginIfRequired(job.creds, target) + [Push(target)]
  }

  /** Log in if required and push `target` (no tag step). */
  function LoginAndPush(job: Job, target: string): seq<Op>
  {
    LoginIfRequired(job.creds, target) + [Push(target)]
  }

  /** The inner loop shared by both actions: every additional tag of `repo`. */
  function ExtraTags(job: Job, repo: string, ts: seq<string>): seq<Op>
    requires job.Valid()
  {
    if ts == [] then []
    else TagAndPush(job, ImageRef(repo, job.container, ts[0])) + ExtraTags(job, repo, ts[1..])
  }

  /** One iteration of the `push` loop: the default tag (tagged from the
      source only for `i > 0`), then the additional tags. */
  function PushRepo(job: Job, i: nat): seq<Op>
    requires job.Valid() && i < |job.repos|
  {
    var target := ImageRef(job.repos[i], job.container, job.defaultTag);
    (if i > 0 then [Tag(job.Source(), target)] else [])
      + LoginAndPush(job, target)
      + ExtraTags(job, job.repos[i], job.tags)
  }

  function PushLoop(job: Job, i: nat): seq<Op>
    requires job.Valid() && i <= |job.repos|
    decreases |job.repos| - i
  {
    if i == |job.repos| then [] else PushRepo(job, i) + PushLoop(job, i + 1)
  }

  /** The `push` action: the source image is pushed after its login check;
      then every other grid image, in grid order, is tagged from the source,
      logged in for if required, and pushed. */
  function PushPlan(job: Job): (plan: seq<Op>)
    requires job.Valid()
    ensures plan == LoginAndPush(job, Targets(job)[0]) + Publications(job, Targets(job)[1..])
  {
    PushLoopInOrder(job);
    PushLoop(job, 0)
  }

  /** One iteration of the `tag` loop: for `i > 0` the default tag is tagged
      and pushed; for `i == 0` it is skipped altogether. */
  function TagRepo(job: Job, i: nat): seq<Op>
    requires job.Valid() && i < |job.repos|
  {
    var target := ImageRef(job.repos[i], job.container, job.defaultTag);
    (if i > 0 then TagAndPush(job, target) else [])
      + ExtraTags(job, job.repos[i], job.tags)
  }

  function TagLoop(job: Job, i: nat): seq<Op>
    requires job.Valid() && i <= |job.repos|
    decreases |job.repos| - i
  {
    if i == |job.repos| then [] else TagRepo(job, i) + TagLoop(job, i + 1)
  }

  /** The `tag` action: log in for the source and pull it; then every other
      grid image, in grid order, is tagged from the source, logged in for if
      required, and pushed. */
  function TagPlan(job: Job): (plan: seq<Op>)
    requires job.Valid()
    ensures plan ==
      LoginIfRequired(job.creds, Targets(job)[0]) + [Pull(Targets(job)[0])] + Publications(job, Targets(job)[1..])
  {
    TagLoopInOrder(job);
    TargetsStartWithSource(job);
    LoginIfRequired(job.creds, job.Source()) + [Pull(job.Source())] + TagLoop(job, 0)
  }

  // ---------------------------------------------------------------------
  // What each building block publishes

  lemma LoginPublishesNothing(creds: seq<Credential>, image: string)
    ensures Pushed(LoginIfRequired(creds, image)) == []
    ensures TagTargets(LoginIfRequired(creds, image)) == []
  {
  }

  lemma LoginAndPushPublishes(job: Job, target: string)
    ensures Pushed(LoginAndPush(job, target)) == [target]
    ensures TagTargets(LoginAndPush(job, target)) == []
  {
    LoginPublishesNothing(job.creds, target);
    PushedAppend(LoginIfRequired(job.creds, target), [Push(target)]);
    TagTargetsAppend(LoginIfRequired(job.creds, target), [Push(target)]);
  }

  lemma TagAndPushPublishes(job: Job, target: string)
    requires job.Valid()
    ensures Pushed(TagAndPush(job, target)) == [target]
    ensures TagTargets(TagAndPush(job, target)) == [target]
  {
    LoginAndPushPublishes(job, target);
    assert TagAndPush(job, target) == [Tag(job.Source(), target)] + LoginAndPush(job, target);
    PushedAppend([Tag(job.Source(), target)], LoginAndPush(job, target));
    TagTargetsAppend([Tag(job.Source(), target)], LoginAndPush(job, target));
  }

  /** The additional tags of one repository are each tagged and pushed, in order. */
  lemma {:induction false} ExtraTagsPublish(job: Job, repo: string, ts: seq<string>)
    requires job.Valid()
    ensures Pushed(ExtraTags(job, repo, ts)) == TaggedImages(job, repo, ts)
    ensures TagTargets(ExtraTags(job, repo, ts)) == Pushed(ExtraTags(job, repo, ts))
    decreases |ts|
  {
    if ts != [] {
      var target := ImageRef(repo, job.container, ts[0]);
      ExtraTagsPublish(job, repo, ts[1..]);
      TagAndPushPublishes(job, target);
      PushedAppend(TagAndPush(job, target), ExtraTags(job, repo, ts[1..]));
      TagTargetsAppend(TagAndPush(job, target), ExtraTags(job, repo, ts[1..]));
    }
  }

  lemma PushRepoPublishes(job: Job, i: nat)
    requires job.Valid() && i < |job.repos|
    ensures Pushed(PushRepo(job, i)) == Row(job, job.repos[i])
    ensures TagTargets(PushRepo(job, i)) == if i > 0 then Row(job, job.repos[i]) else Row(job, job.repos[i])[1..]
  {
    var target := ImageRef(job.repos[i], job.container, job.defaultTag);
    var head: seq<Op> := if i > 0 then [Tag(job.Source(), target)] else [];
    var extra := ExtraTags(job, job.repos[i], job.tags);
    RowSplit(job, job.repos[i]);
    ExtraTagsPublish(job, job.repos[i], job.tags);
    LoginAndPushPublishes(job, target);
    PushedAppend(head, LoginAndPush(job, target));
    PushedAppend(head + LoginAndPush(job, target), extra);
    TagTargetsAppend(head, LoginAndPush(job, target));
    TagTargetsAppend(head + LoginAndPush(job, target), extra);
  }

  lemma {:induction false} PushLoopPublishes(job: Job, i: nat)
    requires job.Valid() && i <= |job.repos|
    ensures Pushed(PushLoop(job, i)) == TargetsOf(job, job.repos[i..])
    ensures i > 0 ==> TagTargets(PushLoop(job, i)) == TargetsOf(job, job.repos[i..])
    decreases |job.repos| - i
  {
    if i < |job.repos| {
      PushLoopPublishes(job, i + 1);
      PushRepoPublishes(job, i);
      PushedAppend(PushRepo(job, i), PushLoop(job, i + 1));
      TagTargetsAppend(PushRepo(job, i), PushLoop(job, i + 1));
      assert job.repos[i..][1..] == job.repos[i + 1..];
    }
  }

  /** `push` pushes every target of the grid exactly in grid order. */
  lemma PushPlanPushesTargets(job: Job)
    requires job.Valid()
    ensures Pushed(PushPlan(job)) == Targets(job)
  {
    PushLoopPublishes(job, 0);
    assert job.repos[0..] == job.repos;
  }

  lemma PushPlanFirstRepo(job: Job)
    requires job.Valid()
    ensures PushPlan(job) == PushRepo(job, 0) + PushLoop(job, 1)
  {
  }

  /** `push` tags every target except the first (the source itself), in grid order. */
  lemma PushPlanTagsTargets(job: Job)
    requires job.Valid()
    ensures TagTargets(PushPlan(job)) == Targets(job)[1..]
  {
    PushLoopPublishes(job, 1);
    PushRepoPublishes(job, 0);
    PushPlanFirstRepo(job);
    TagTargetsAppend(PushRepo(job, 0), PushLoop(job, 1));
    TargetsAfterSource(job);
  }

  /** `push` issues |repos| * (1 + |tags|) pushes and one tag fewer. */
  lemma PushPlanCounts(job: Job)
    requires job.Valid()
    ensures |Pushed(PushPlan(job))| == |job.repos| * (1 + |job.tags|)
    ensures |TagTargets(PushPlan(job))| == |job.repos| * (1 + |job.tags|) - 1
  {
    PushPlanPushesTargets(job);
    PushPlanTagsTargets(job);
    TargetsCount(job);
  }

  // ---------------------------------------------------------------------
  // `tag` against `push`

  lemma {:induction false} TagLoopIsPushLoop(job: Job, i: nat)
    requires job.Valid() && 0 < i <= |job.repos|
    ensures TagLoop(job, i) == PushLoop(job, i)
    decreases |job.repos| - i
  {
    if i < |job.repos| {
      TagLoopIsPushLoop(job, i + 1);
      var target := ImageRef(job.repos[i], job.container, job.defaultTag);
      assert TagAndPush(job, target) == [Tag(job.Source(), target)] + LoginAndPush(job, target);
    }
  }

  lemma PushRepoSource(job: Job)
    requires job.Valid()
    ensures PushRepo(job, 0) == LoginIfRequired(job.creds, job.Source()) + [Push(job.Source())]
      + ExtraTags(job, job.repos[0], job.tags)
  {
  }

  lemma TagPlanFirstRepo(job: Job)
    requires job.Valid()
    ensures TagPlan(job) == LoginIfRequired(job.creds, job.Source()) + [Pull(job.Source())]
      + (ExtraTags(job, job.repos[0], job.tags) + TagLoop(job, 1))
  {
    assert TagLoop(job, 0) == TagRepo(job, 0) + TagLoop(job, 1);
    assert TagRepo(job, 0) == ExtraTags(job, job.repos[0], job.tags);
  }

  /** What both actions do once the source is in place: the extra tags of
      the first repository, then every other repository in full. */
  function FanOut(job: Job): seq<Op>
    requires job.Valid()
  {
    ExtraTags(job, job.repos[0], job.tags) + PushLoop(job, 1)
  }

  /** `tag` differs from `push` only in its start: where `push` pushes the
      source, `tag` pulls it; after that the two issue the same commands. */
  lemma TagPlanIsPushPlanWithPull(job: Job)
    requires job.Valid()
    ensures PushPlan(job) == LoginIfRequired(job.creds, job.Source()) + [Push(job.Source())] + FanOut(job)
    ensures TagPlan(job) == LoginIfRequired(job.creds, job.Source()) + [Pull(job.Source())] + FanOut(job)
  {
    var login := LoginIfRequired(job.creds, job.Source());
    var extra := ExtraTags(job, job.repos[0], job.tags);
    TagLoopIsPushLoop(job, 1);
    TagPlanFirstRepo(job);
    PushRepoSource(job);
    PushPlanFirstRepo(job);
    RegroupTail(login, [Push(job.Source())], extra, PushLoop(job, 1));
  }

  /** Regrouping a concatenation. Stated once for sequences of commands:
      proved inline inside the plan lemmas, the same step runs out of
      resources there. */
  lemma Regroup(a: seq<Op>, b: seq<Op>, c: seq<Op>)
    ensures (a + b) + c == a + (b + c)
  {
  }

  lemma RegroupTail(a: seq<Op>, b: seq<Op>, c: seq<Op>, d: seq<Op>)
    ensures (a + b + c) + d == a + b + (c + d)
  {
  }

  // ---------------------------------------------------------------------
  // The exact order: one tag-login-push block per image after the source

  /** For each image in turn: tag it from the source, log in if required,
      push it. */
  function Publications(job: Job, images: seq<string>): seq<Op>
    requires job.Valid()
    decreases |images|
  {
    if images == [] then []
    else TagAndPush(job, images[0]) + Publications(job, images[1..])
  }

  lemma {:induction false} PublicationsAppend(job: Job, a: seq<string>, b: seq<string>)
    requires job.Valid()
    ensures Publications(job, a + b) == Publications(job, a) + Publications(job, b)
    decreases |a|
  {
    if a == [] {
      assert a + b == b;
    } else {
      assert (a + b)[1..] == a[1..] + b;
      PublicationsAppend(job, a[1..], b);
    }
  }

  /** Each block pushes and tags its own image, so the blocks for `images`
      push and tag exactly `images`. */
  lemma {:induction false} PublicationsPublish(job: Job, images: seq<string>)
    requires job.Valid()
    ensures Pushed(Publications(job, images)) == images
    ensures TagTargets(Publications(job, images)) == images
    decreases |images|
  {
    if images != [] {
      PublicationsPublish(job, images[1..]);
      TagAndPushPublishes(job, images[0]);
      PushedAppend(TagAndPush(job, images[0]), Publications(job, images[1..]));
      TagTargetsAppend(TagAndPush(job, images[0]), Publications(job, images[1..]));
    }
  }

  lemma {:induction false} ExtraTagsArePublications(job: Job, repo: string, ts: seq<string>)
    requires job.Valid()
    ensures ExtraTags(job, repo, ts) == Publications(job, TaggedImages(job, repo, ts))
    decreases |ts|
  {
    if ts != [] {
      var images := TaggedImages(job, repo, ts);
      assert images[0] == ImageRef(repo, job.container, ts[0]);
      assert images[1..] == TaggedImages(job, repo, ts[1..]);
      ExtraTagsArePublications(job, repo, ts[1..]);
    }
  }

  /** The additional tags of a repository are the blocks for its row past
      the default tag. */
  lemma RowTailIsPublications(job: Job, repo: string)
    requires job.Valid()
    ensures ExtraTags(job, repo, job.tags) == Publications(job, Row(job, repo)[1..])
  {
    RowSplit(job, repo);
    assert Row(job, repo)[1..] == TaggedImages(job, repo, job.tags);
    ExtraTagsArePublications(job, repo, job.tags);
  }

  /** With a tag-from-source block for the default tag in front, the
      additional tags are the blocks for the whole row. */
  lemma RowIsPublications(job: Job, repo: string)
    requires job.Valid()
    ensures var row := Row(job, repo);
      && row[0] == ImageRef(repo, job.container, job.defaultTag)
      && ExtraTags(job, repo, job.tags) == Publications(job, row[1..])
      && [Tag(job.Source(), row[0])] + LoginAndPush(job, row[0]) + ExtraTags(job, repo, job.tags) == Publications(job, row)
  {
    var row := Row(job, repo);
    RowTailIsPublications(job, repo);
    assert Publications(job, row) == TagAndPush(job, row[0]) + Publications(job, row[1..]);
    assert TagAndPush(job, row[0]) == [Tag(job.Source(), row[0])] + LoginAndPush(job, row[0]);
  }

  /** One iteration of the `push` loop is one tag-login-push block per image
      of the repository's row, except that the first repository's default
      image is the source, which is only pushed after its login check. */
  lemma PushRepoIsPublications(job: Job, i: nat)
    requires job.Valid() && i < |job.repos|
    ensures var row := Row(job, job.repos[i]);
      PushRepo(job, i) == if i > 0 then Publications(job, row) else LoginAndPush(job, row[0]) + Publications(job, row[1..])
  {
    RowIsPublications(job, job.repos[i]);
  }

  /** One iteration of the `tag` loop is one tag-login-push block per image
      of the repository's row, the source image (the first repository's
      default image) left out. */
  lemma TagRepoIsPublications(job: Job, i: nat)
    requires job.Valid() && i < |job.repos|
    ensures var row := Row(job, job.repos[i]);
      TagRepo(job, i) == Publications(job, if i > 0 then row else row[1..])
  {
    var row := Row(job, job.repos[i]);
    RowIsPublications(job, job.repos[i]);
    if i > 0 {
      assert TagAndPush(job, row[0]) == [Tag(job.Source(), row[0])] + LoginAndPush(job, row[0]);
    }
  }

  lemma {:induction false} PushLoopIsPublications(job: Job, i: nat)
    requires job.Valid() && 0 < i <= |job.repos|
    ensures PushLoop(job, i) == Publications(job, TargetsOf(job, job.repos[i..]))
    decreases |job.repos| - i
  {
    if i < |job.repos| {
      PushLoopIsPublications(job, i + 1);
      PushRepoIsPublications(job, i);
      assert job.repos[i..][1..] == job.repos[i + 1..];
      assert TargetsOf(job, job.repos[i..]) == Row(job, job.repos[i]) + TargetsOf(job, job.repos[i + 1..]);
      PublicationsAppend(job, Row(job, job.repos[i]), TargetsOf(job, job.repos[i + 1..]));
    }
  }

  /** After the source, both actions issue one block per remaining grid image. */
  lemma FanOutIsPublications(job: Job)
    requires job.Valid()
    ensures FanOut(job) == Publications(job, Targets(job)[1..])
  {
    var first := TaggedImages(job, job.repos[0], job.tags);
    var others := TargetsOf(job, job.repos[1..]);
    RowSplit(job, job.repos[0]);
    assert Row(job, job.repos[0])[1..] == first;
    TargetsAfterSource(job);
    ExtraTagsArePublications(job, job.repos[0], job.tags);
    PushLoopIsPublications(job, 1);
    PublicationsAppend(job, first, others);
  }

  lemma PushLoopHead(job: Job)
    requires job.Valid()
    ensures PushLoop(job, 0) == LoginAndPush(job, job.Source()) + FanOut(job)
  {
    var source := LoginAndPush(job, job.Source());
    var extra := ExtraTags(job, job.repos[0], job.tags);
    var others := PushLoop(job, 1);
    PushRepoSource(job);
    assert PushLoop(job, 0) == PushRepo(job, 0) + others;
    Regroup(source, extra, others);
  }

  lemma PushLoopInOrder(job: Job)
    requires job.Valid()
    ensures PushLoop(job, 0) == LoginAndPush(job, Targets(job)[0]) + Publications(job, Targets(job)[1..])
  {
    TargetsStartWithSource(job);
    PushLoopHead(job);
    FanOutIsPublications(job);
  }

  lemma TagLoopInOrder(job: Job)
    requires job.Valid()
    ensures TagLoop(job, 0) == Publications(job, Targets(job)[1..])
  {
    FanOutIsPublications(job);
    TagLoopIsPushLoop(job, 1);
    assert TagLoop(job, 0) == TagRepo(job, 0) + TagLoop(job, 1);
    assert TagRepo(job, 0) == ExtraTags(job, job.repos[0], job.tags);
  }

  lemma {:induction false} PublicationsWellFormed(job: Job, images: seq<string>)
    requires job.Valid()
    ensures AllWellFormed(Publications(job, images))
    decreases |images|
  {
    if images != [] {
      PublicationsWellFormed(job, images[1..]);
      LoginWellFormed(job.creds, images[0]);
    }
  }

  /** Both actions issue only well-formed commands. */
  lemma PlansWellFormed(job: Job)
    requires job.Valid()
    ensures AllWellFormed(PushPlan(job)) && AllWellFormed(TagPlan(job))
  {
    PublicationsWellFormed(job, Targets(job)[1..]);
    LoginWellFormed(job.creds, Targets(job)[0]);
  }

  /** A login check followed by a pull publishes nothing. */
  lemma PullPublishesNothing(creds: seq<Credential>, image: string)
    ensures Pushed(LoginIfRequired(creds, image) + [Pull(image)]) == []
    ensures TagTargets(LoginIfRequired(creds, image) + [Pull(image)]) == []
  {
    LoginPublishesNothing(creds, image);
    PushedAppend(LoginIfRequired(creds, image), [Pull(image)]);
    TagTargetsAppend(LoginIfRequired(creds, image), [Pull(image)]);
  }

  /** Blocks after a prefix that publishes nothing publish their images. */
  lemma PublicationsAfter(job: Job, head: seq<Op>, images: seq<string>)
    requires job.Valid()
    requires Pushed(head) == [] && TagTargets(head) == []
    ensures Pushed(head + Publications(job, images)) == images
    ensures TagTargets(head + Publications(job, images)) == images
  {
    PublicationsPublish(job, images);
    PushedAppend(head, Publications(job, images));
    TagTargetsAppend(head, Publications(job, images));
  }

  lemma TagPlanTargets(job: Job)
    requires job.Valid()
    ensures Pushed(TagPlan(job)) == Targets(job)[1..]
    ensures TagTargets(TagPlan(job)) == Targets(job)[1..]
  {
    var targets := Targets(job);
    PullPublishesNothing(job.creds, targets[0]);
    PublicationsAfter(job, LoginIfRequired(job.creds, targets[0]) + [Pull(targets[0])], targets[1..]);
  }

  /** `tag` pushes and tags every target except the source, in grid order:
      (|repos| - 1) + |repos| * |tags| of each. */
  lemma TagPlanPublishes(job: Job)
    requires job.Valid()
    ensures Pushed(TagPlan(job)) == Targets(job)[1..]
    ensures TagTargets(TagPlan(job)) == Targets(job)[1..]
    ensures |Pushed(TagPlan(job))| == (|job.repos| - 1) + |job.repos| * |job.tags|
  {
    var targets := Targets(job);
    TagPlanTargets(job);
    TargetsCount(job);
    assert |targets[1..]| == |targets| - 1;
    GridArithmetic(|job.repos|, |job.tags|);
  }

  /** Distributing the grid size; kept apart from the plan lemmas, where the
      same step in context runs out of resources. */
  lemma GridArithmetic(r: nat, t: nat)
    ensures r * (1 + t) == r + r * t
  {
  }

  // ---------------------------------------------------------------------
  // Every tag starts from the source; every push follows its login

  /** Every `docker tag` in `ops` copies `source`. */
  predicate TagsFrom(ops: seq<Op>, source: string)
  {
    forall op :: op in ops && op.Tag? ==> op.source == source
  }

  lemma {:induction false} ExtraTagsFromSource(job: Job, repo: string, ts: seq<string>)
    requires job.Valid()
    ensures TagsFrom(ExtraTags(job, repo, ts), job.Source())
    decreases |ts|
  {
    if ts != [] {
      ExtraTagsFromSource(job, repo, ts[1..]);
    }
  }

  lemma {:induction false} PushLoopTagsFromSource(job: Job, i: nat)
    requires job.Valid() && i <= |job.repos|
    ensures TagsFrom(PushLoop(job, i), job.Source())
    decreases |job.repos| - i
  {
    if i < |job.repos| {
      PushLoopTagsFromSource(job, i + 1);
      ExtraTagsFromSource(job, job.repos[i], job.tags);
    }
  }

  /** Both actions tag only from `repos[0]/container:defaultTag`. */
  lemma PlansTagFromSource(job: Job)
    requires job.Valid()
    ensures TagsFrom(PushPlan(job), job.Source())
    ensures TagsFrom(TagPlan(job), job.Source())
  {
    PushLoopTagsFromSource(job, 0);
    PushLoopTagsFromSource(job, 1);
    ExtraTagsFromSource(job, job.repos[0], job.tags);
    TagPlanIsPushPlanWithPull(job);
  }

  /** `b` is a suffix of `a`. */
  predicate EndsWith(a: seq<Op>, b: seq<Op>)
  {
    |b| <= |a| && a[|a| - |b|..] == b
  }

  /** Each push in `ops` comes right after the login `loginIfRequired` issues
      for that image (nothing, when no credential matches). */
  predicate LoginBeforeEachPush(creds: seq<Credential>, ops: seq<Op>)
  {
    forall k :: 0 <= k < |ops| && ops[k].Push? ==> EndsWith(ops[..k], LoginIfRequired(creds, ops[k].image))
  }

  lemma LoginBeforeEachPushAppend(creds: seq<Credential>, a: seq<Op>, b: seq<Op>)
    requires LoginBeforeEachPush(creds, a) && LoginBeforeEachPush(creds, b)
    ensures LoginBeforeEachPush(creds, a + b)
  {
    var ops := a + b;
    forall k | 0 <= k < |ops| && ops[k].Push?
      ensures EndsWith(ops[..k], LoginIfRequired(creds, ops[k].image))
    {
      if k < |a| {
        assert ops[k] == a[k];
        assert ops[..k] == a[..k];
      } else {
        var m := k - |a|;
        assert ops[k] == b[m];
        assert ops[..k] == a + b[..m];
        var login := LoginIfRequired(creds, b[m].image);
        assert EndsWith(b[..m], login);
        assert (a + b[..m])[|a + b[..m]| - |login|..] == b[..m][|b[..m]| - |login|..];
      }
    }
  }

  /** A block that ends with the login for `target` and its push, with no
      other push before them. */
  lemma LoginBeforePushBlock(creds: seq<Credential>, before: seq<Op>, target: string)
    requires forall op :: op in before ==> !op.Push?
    ensures LoginBeforeEachPush(creds, before + LoginIfRequired(creds, target) + [Push(target)])
  {
    var login := LoginIfRequired(creds, target);
    var ops := before + login + [Push(target)];
    forall k | 0 <= k < |ops| && ops[k].Push?
      ensures EndsWith(ops[..k], LoginIfRequired(creds, ops[k].image))
    {
      if k < |ops| - 1 {
        assert false;
      }
      assert ops[..k] == before + login;
    }
  }

  lemma {:induction false} ExtraTagsLoginBeforePush(job: Job, repo: string, ts: seq<string>)
    requires job.Valid()
    ensures LoginBeforeEachPush(job.creds, ExtraTags(job, repo, ts))
    decreases |ts|
  {
    if ts != [] {
      var target := ImageRef(repo, job.container, ts[0]);
      ExtraTagsLoginBeforePush(job, repo, ts[1..]);
      LoginBeforePushBlock(job.creds, [Tag(job.Source(), target)], target);
      LoginBeforeEachPushAppend(job.creds, TagAndPush(job, target), ExtraTags(job, repo, ts[1..]));
    }
  }

  lemma {:induction false} PushLoopLoginBeforePush(job: Job, i: nat)
    requires job.Valid() && i <= |job.repos|
    ensures LoginBeforeEachPush(job.creds, PushLoop(job, i))
    decreases |job.repos| - i
  {
    if i < |job.repos| {
      var target := ImageRef(job.repos[i], job.container, job.defaultTag);
      var head: seq<Op> := if i > 0 then [Tag(job.Source(), target)] else [];
      PushLoopLoginBeforePush(job, i + 1);
      ExtraTagsLoginBeforePush(job, job.repos[i], job.tags);
      LoginBeforePushBlock(job.creds, head, target);
      assert head + LoginAndPush(job, target) == head + LoginIfRequired(job.creds, target) + [Push(target)];
      LoginBeforeEachPushAppend(job.creds, head + LoginAndPush(job, target), ExtraTags(job, job.repos[i], job.tags));
      LoginBeforeEachPushAppend(job.creds, PushRepo(job, i), PushLoop(job, i + 1));
    }
  }

  /** In both actions every push is immediately preceded by its login check. */
  lemma PlansLoginBeforeEachPush(job: Job)
    requires job.Valid()
    ensures LoginBeforeEachPush(job.creds, PushPlan(job))
    ensures LoginBeforeEachPush(job.creds, TagPlan(job))
  {
    var login := LoginIfRequired(job.creds, job.Source());
    PushLoopLoginBeforePush(job, 0);
    PushLoopLoginBeforePush(job, 1);
    ExtraTagsLoginBeforePush(job, job.repos[0], job.tags);
    LoginBeforeEachPushAppend(job.creds, ExtraTags(job, job.repos[0], job.tags), PushLoop(job, 1));
    TagPlanIsPushPlanWithPull(job);
    assert forall op :: op in login ==> op.Login?;
    assert LoginBeforeEachPush(job.creds, login + [Pull(job.Source())]);
    LoginBeforeEachPushAppend(job.creds, login + [Pull(job.Source())], FanOut(job));
  }

  // ---------------------------------------------------------------------
  // A worked example: two repositories `r0,r1`, one extra tag `t`, container
  // `c`, default tag `d`, no credentials.

  /** Without credentials no login is ever issued. */
  lemma NoCredentialsNoLogin(job: Job, image: string)
    requires job.creds == []
    ensures LoginIfRequired(job.creds, image) == []
  {
  }

  lemma ExampleFirstRepo(job: Job, r0: string, r1: string, t: string, c: string, d: string)
    requires job == Job([r0, r1], [t], c, d, [])
    ensures PushRepo(job, 0) == [Push(ImageRef(r0, c, d)), Tag(ImageRef(r0, c, d), ImageRef(r0, c, t)), Push(ImageRef(r0, c, t))]
  {
    NoCredentialsNoLogin(job, ImageRef(r0, c, d));
    NoCredentialsNoLogin(job, ImageRef(r0, c, t));
    assert [t][1..] == [];
    assert ExtraTags(job, r0, [t]) == TagAndPush(job, ImageRef(r0, c, t)) + ExtraTags(job, r0, []);
    assert LoginAndPush(job, ImageRef(r0, c, d)) == [Push(ImageRef(r0, c, d))];
  }

  lemma ExampleSecondRepo(job: Job, r0: string, r1: string, t: string, c: string, d: string)
    requires job == Job([r0, r1], [t], c, d, [])
    ensures PushRepo(job, 1) == [
      Tag(ImageRef(r0, c, d), ImageRef(r1, c, d)), Push(ImageRef(r1, c, d)),
      Tag(ImageRef(r0, c, d), ImageRef(r1, c, t)), Push(ImageRef(r1, c, t))]
    ensures TagRepo(job, 1) == PushRepo(job, 1)
  {
    NoCredentialsNoLogin(job, ImageRef(r1, c, d));
    NoCredentialsNoLogin(job, ImageRef(r1, c, t));
    assert [t][1..] == [];
    assert ExtraTags(job, r1, [t]) == TagAndPush(job, ImageRef(r1, c, t)) + ExtraTags(job, r1, []);
    assert LoginAndPush(job, ImageRef(r1, c, d)) == [Push(ImageRef(r1, c, d))];
    assert TagAndPush(job, ImageRef(r1, c, d)) == [Tag(ImageRef(r0, c, d), ImageRef(r1, c, d)), Push(ImageRef(r1, c, d))];
  }

  /** With two repositories and one extra tag the first repository is pushed
      first, and even there the extra tag is made with `docker tag` from the
      source before it is pushed; `tag` pulls the source instead of pushing it. */
  lemma PushPlanExample(job: Job, r0: string, r1: string, t: string, c: string, d: string)
    requires job == Job([r0, r1], [t], c, d, [])
    ensures PushPlan(job) == [
      Push(ImageRef(r0, c, d)),
      Tag(ImageRef(r0, c, d), ImageRef(r0, c, t)), Push(ImageRef(r0, c, t)),
      Tag(ImageRef(r0, c, d), ImageRef(r1, c, d)), Push(ImageRef(r1, c, d)),
      Tag(ImageRef(r0, c, d), ImageRef(r1, c, t)), Push(ImageRef(r1, c, t))]
    ensures TagPlan(job) == [
      Pull(ImageRef(r0, c, d)),
      Tag(ImageRef(r0, c, d), ImageRef(r0, c, t)), Push(ImageRef(r0, c, t)),
      Tag(ImageRef(r0, c, d), ImageRef(r1, c, d)), Push(ImageRef(r1, c, d)),
      Tag(ImageRef(r0, c, d), ImageRef(r1, c, t)), Push(ImageRef(r1, c, t))]
  {
    ExampleFirstRepo(job, r0, r1, t, c, d);
    ExampleSecondRepo(job, r0, r1, t, c, d);
    NoCredentialsNoLogin(job, job.Source());
    assert PushLoop(job, 1) == PushRepo(job, 1) + PushLoop(job, 2);
    TagPlanIsPushPlanWithPull(job);
  }
}
