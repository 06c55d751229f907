/**
  The extension's entry point: checking the configuration, splitting the
  comma-separated inputs, sanitising the build version, choosing the action,
  and running the planned commands until the first failure.
 */
module Extension {
  import opened Strings
  import opened TagSanitizer
  import opened Engine
  import opened Credentials
  import opened Images
  import opened Publish
  import opened BuildStep

  /** Everything the extension reads: its flags (as their raw strings), the
      app label, the build version, the parsed credentials, and the
      environment the build arguments are read from. */
  datatype Config = Config(
    action: string,
    repositories: string,
    container: string,
    tags: string,
    path: string,
    dockerfile: string,
    copy: string,
    args: string,
    appLabel: string,
    buildVersion: string,
    credentials: seq<Credential>,
    env: map<string, string>)

  /** The two configuration mistakes that stop the extension before it
      issues any command. */
  datatype ConfigError = MissingRepositories | UnknownAction(action: string)

  datatype Result<T> = Ok(value: T) | Fatal(error: ConfigError)

  /** A comma-separated flag as a list: empty when the flag is empty,
      otherwise every piece between commas, empty pieces included. */
  function SplitList(s: string): (items: seq<string>)
    ensures s == "" <==> items == []
    ensures forall item :: item in items ==> ',' !in item
    ensures Join(items, ',') == s
  {
    if s == "" then []
    else
      JoinSplit(s, ',');
      Split(s, ',')
  }

  /** The container flag, falling back to the app label when it is empty. */
  function ContainerName(flag: string, appLabel: string): (name: string)
    ensures flag != "" ==> name == flag
    ensures flag == "" ==> name == appLabel
  {
    if flag == "" && appLabel != "" then appLabel else flag
  }

  /** The publication job a valid configuration describes. */
  function JobOf(cfg: Config): (job: Job)
    requires cfg.repositories != ""
    ensures job.Valid()
    ensures IsTag(job.defaultTag) && job.defaultTag == Tidy(cfg.buildVersion)
    ensures job.container == ContainerName(cfg.container, cfg.appLabel)
    ensures job.creds == cfg.credentials
    ensures forall r :: r in job.repos ==> ',' !in r
    ensures forall t :: t in job.tags ==> ',' !in t
    ensures cfg.tags == "" <==> job.tags == []
    ensures Join(job.repos, ',') == cfg.repositories && Join(job.tags, ',') == cfg.tags
  {
    TidyIsTag(cfg.buildVersion);
    Job(SplitList(cfg.repositories), SplitList(cfg.tags),
        ContainerName(cfg.container, cfg.appLabel), Tidy(cfg.buildVersion), cfg.credentials)
  }

  predicate KnownAction(action: string)
  {
    action == "build" || action == "push" || action == "tag"
  }

  /** The commands the extension issues, or the configuration error it stops
      with. The repositories are checked before the action is looked at. */
  function Plan(cfg: Config): (r: Result<seq<Op>>)
    ensures cfg.repositories == "" ==> r == Fatal(MissingRepositories)
    ensures cfg.repositories != "" && !KnownAction(cfg.action) ==> r == Fatal(UnknownAction(cfg.action))
    ensures r.Ok? <==> cfg.repositories != "" && KnownAction(cfg.action)
  {
    if cfg.repositories == "" then Fatal(MissingRepositories)
    else
      var job := JobOf(cfg);
      if cfg.action == "build" then
        Ok(BuildPlan(job, SplitList(cfg.copy), SplitList(cfg.args), cfg.env, cfg.path, cfg.dockerfile))
      else if cfg.action == "push" then Ok(PushPlan(job))
      else if cfg.action == "tag" then Ok(TagPlan(job))
      else Fatal(UnknownAction(cfg.action))
  }

  /** The action picks the plan. */
  lemma PlanDispatch(cfg: Config)
    requires cfg.repositories != ""
    ensures cfg.action == "push" ==> Plan(cfg) == Ok(PushPlan(JobOf(cfg)))
    ensures cfg.action == "tag" ==> Plan(cfg) == Ok(TagPlan(JobOf(cfg)))
    ensures cfg.action == "build" ==>
      Plan(cfg) == Ok(BuildPlan(JobOf(cfg), SplitList(cfg.copy), SplitList(cfg.args), cfg.env, cfg.path, cfg.dockerfile))
  {
  }

  /** What each action publishes once the configuration is accepted: `push`
      pushes the whole grid, `tag` all of it but the source, `build` nothing;
      every push comes right after its login check. */
  lemma PlanPublishes(cfg: Config)
    requires Plan(cfg).Ok?
    ensures cfg.action == "push" ==> Pushed(Plan(cfg).value) == Targets(JobOf(cfg))
    ensures cfg.action == "tag" ==> Pushed(Plan(cfg).value) == Targets(JobOf(cfg))[1..]
    ensures cfg.action == "build" ==> Pushed(Plan(cfg).value) == []
    ensures LoginBeforeEachPush(cfg.credentials, Plan(cfg).value)
  {
    var job := JobOf(cfg);
    PlanDispatch(cfg);
    if cfg.action == "push" {
      PushPlanPushesTargets(job);
      PlansLoginBeforeEachPush(job);
    } else if cfg.action == "tag" {
      TagPlanPublishes(job);
      PlansLoginBeforeEachPush(job);
    } else {
      BuildPlanPublishesNothing(job, SplitList(cfg.copy), SplitList(cfg.args), cfg.env, cfg.path, cfg.dockerfile);
    }
  }

  /** Every command an accepted configuration plans is well-formed, so no two
      different planned commands start the same process (`CommandInjective`). */
  lemma PlanWellFormed(cfg: Config)
    requires Plan(cfg).Ok?
    ensures AllWellFormed(Plan(cfg).value)
  {
    var job := JobOf(cfg);
    PlanDispatch(cfg);
    if cfg.action == "build" {
      BuildPlanWellFormed(job, SplitList(cfg.copy), SplitList(cfg.args), cfg.env, cfg.path, cfg.dockerfile);
    } else {
      PlansWellFormed(job);
    }
  }

  /** How the process ends: the commands it started, and whether it exits 0. */
  datatype Exit = Exit(started: seq<Op>, success: bool)

  /** One invocation: a configuration error exits non-zero before any
      command; otherwise the planned commands run until the first failure.
      `fails(k)` is the outcome of the `k`-th command started. */
  function Invoke(cfg: Config, fails: nat -> bool): (exit: Exit)
    ensures Plan(cfg).Fatal? ==> exit == Exit([], false)
    ensures Plan(cfg).Ok? ==> exit.started <= Plan(cfg).value
    ensures exit.success <==>
      Plan(cfg).Ok? && forall k: nat :: k < |Plan(cfg).value| ==> !fails(k)
    ensures exit.success ==> exit.started == Plan(cfg).value
    ensures Plan(cfg).Ok? && !exit.success ==>
      |exit.started| > 0 && fails(|exit.started| - 1)
      && forall k: nat :: k < |exit.started| - 1 ==> !fails(k)
  {
    match Plan(cfg)
    case Fatal(_) => Exit([], false)
    case Ok(ops) =>
      var run := Execute(ops, fails);
      Exit(run.started, !run.failed)
  }
}
