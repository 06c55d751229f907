# estafette-extension-docker, modelled in Dafny

The extension is a pipeline step that builds, pushes or re-tags a container
image by issuing `mkdir`, `cp` and `docker` commands. Its behaviour is
controlled by a handful of flags:

- `action`: `build`, `push` or `tag`;
- `repositories`, `tags`, `copy` and `args`: comma-separated lists;
- `container`: falls back to the app label when empty;
- `path` and `dockerfile`.

It also reads the build version, which it sanitises into a Docker tag, and
a list of private-registry credentials. Before each push and each pull it
logs in to the registry of the image, if one of those credentials matches.

The model treats each command as a value (`Engine.Op`). Every action becomes
a pure function from the configuration to the list of commands it issues.
Running a list means executing it fail-fast: every command runs in turn and
the first failure ends the process with a non-zero exit.

The modules follow the structure of `main.go`:

- `Strings`: Go's `strings.Split` / `strings.Join` on one separator, and `contains`.
- `TagSanitizer`: `tidyBuildVersionAsTag`. It has two forms:
  - `Tidy`, a recursive definition that replaces each run of illegal characters by one `-`;
  - `TidyScan`, a character-by-character scanner proven equal to it.
- `Engine`: the commands, their argument vectors, and fail-fast execution.
- `Credentials`: `getCredentialsForContainer` and `loginIfRequired`.
- `Images`: image references `repo/container:tag`. It also holds the reference definition `Targets`: the repository × tag grid in row-major order, default tag first.
- `Publish`: the `push` and `tag` loops, written as literally as the source writes them. They are proven equal to one tag-login-push block per grid image in grid order. The source image is the exception: `push` only pushes it and `tag` pulls it, because both loops skip it where main.go:177 and main.go:252 test `i > 0`. So `push` pushes the whole grid and tags all of it but the source, and `tag` pushes and tags all of it but the source.
- `BuildStep`: the `build` action. This covers the copy list, the `docker build` argument vector and the order of commands.
- `Extension`: the overall flow. This covers container defaulting, splitting the lists, the repositories check, the choice of action, and the exit status.

## Model

| member | source | states |
|---|---|---|
| TagSanitizer.Tidy | main.go:364-369 | the sanitiser: its contract bounds the result by the input's length; what it does to each character and run is stated by `TidyTagPrefix`, `TidyRunPrefix`, `TidyIsTag` and `TidyScan` |
| TagSanitizer.TidyIsTag | main.go:364-369 | the sanitised build version only contains letters, digits, `_`, `.` and `-` |
| TagSanitizer.TidyIdentityIff | main.go:364-369 | sanitising leaves a string unchanged exactly when it is already a legal tag |
| TagSanitizer.TidyIdempotent | main.go:364-369 | sanitising twice is the same as sanitising once |
| TagSanitizer.TidyRunPrefix | main.go:367-368 | a whole run of illegal characters is replaced by a single `-` |
| TagSanitizer.TidyTagPrefix | main.go:367-368 | legal characters are copied through unchanged |
| TagSanitizer.TidyHasNoSlash | main.go:364-369 | the sanitised version has no `/`, so it cannot move the repository boundary of an image |
| TagSanitizer.TidySeparators | main.go:364-369 | legal words separated by single illegal characters come out joined by `-` |
| TagSanitizer.TidyBranchExample | main.go:364-369 | `feature/foo bar` becomes `feature-foo-bar` |
| TagSanitizer.TidyScan | main.go:367-368 | a left-to-right scan that emits `-` on entering an illegal run gives the same result as the run-based definition |
| Strings.Contains | main.go:371-378 | `contains` is true exactly when the value is in the list |
| Strings.JoinSplit | main.go:312-313 | joining the pieces of a split back with the separator gives the original string |
| Strings.SplitJoin | main.go:66-81 | splitting a join of separator-free pieces gives the pieces back |
| Strings.SplitManyIffSep | main.go:337-338 | a split yields more than one piece exactly when the separator occurs |
| Extension.SplitList | main.go:65-81 | an empty flag gives an empty list; a non-empty one gives comma-free pieces that join back to the flag |
| Extension.ContainerName | main.go:50-53 | the container flag wins; when it is empty, the app label is used |
| Extension.JobOf | main.go:50-83 | an accepted configuration gives at least one repository; the repository and tag lists are the comma-free pieces of their flags (empty for an empty flag), joining back to the flags; the default tag is the sanitised build version; the container falls back to the app label; the credentials are passed through |
| Credentials.FindCredential | main.go:309-322 | the result is the first record whose repository equals the image's part before its last `/`; there is none when no record matches, and none for an empty list |
| Credentials.RepositoryOf | main.go:312-313 | the image split at `/` with its last piece dropped and the rest joined back with `/`; what this yields is stated by `RepositoryBeforeLastSlash`, `RepositoryOfBareImage` and `RepositoryAtSlash` |
| Credentials.RepositoryBeforeLastSlash | main.go:312-313 | the repository of `repo/last` is `repo` when `last` has no `/` |
| Credentials.RepositoryOfBareImage | main.go:312-313 | an image without `/` has an empty repository part |
| Credentials.RepositoryAtSlash | main.go:312-313 | for an image whose last `/` is at position `k`, the repository part is the text before `k` |
| Credentials.LoginWellFormed | main.go:329-335 | a login issued by the login check has arguments starting with `login` |
| Credentials.LoginArgs | main.go:329-341 | the login has 5 or 6 arguments: `login --username u --password p`, then the registry host exactly when the record's repository has a `/`; the host is the text before the first `/` |
| Credentials.LoginIfRequired | main.go:324-346 | at most one `docker login`, issued exactly when a credential matches, with the arguments of the first matching record |
| Credentials.LoginForImage | main.go:324-346 | for `repo/name`, a login happens exactly when some record names `repo`, and it uses the first such record |
| Images.ImageRef | main.go:170-175 | `repo/container:tag`, as `fmt.Sprintf("%v/%v:%v", ...)` formats it; its repository part is stated by `ImageRefRepository` |
| Images.ImageRefRepository | main.go:170-175 | the repository of `repo/container:tag` is `repo` when container and tag have no `/` |
| Images.TargetsCount | main.go:173-202 | there are \|repositories\| × (1 + \|tags\|) images in the grid |
| Images.TargetsAt | main.go:173-202 | cell `i·(1+\|tags\|)+j` is repository `i` with tag `j`, where tag 0 is the default tag |
| Images.TargetsStartWithSource | main.go:170 | the first image of the grid is the source image |
| Engine.CommandInjective | main.go:117-297 | two well-formed commands (a login's arguments start with `login`, a build's with `build`) that start the same program with the same arguments are the same command, so a plan of commands fixes exactly which processes run |
| Engine.Execute | main.go:348-362 | commands run in order until the first failure, and nothing after it runs; the run fails exactly when some command fails; each command's outcome depends on its position in the run, so identical commands may have different outcomes |
| Engine.ExecuteStopsAt | main.go:348-362 | when command `n` is the first to fail, exactly commands `0..n` are started |
| Engine.RepeatedLoginMayFailLater | main.go:189-220 | the same `docker login` issued before two pushes may succeed the first time and fail the second, and the run then ends after the second login |
| BuildStep.CopyList | main.go:121-124 | the Dockerfile is appended to the copy list exactly when the path is not `.` and the Dockerfile is not already listed |
| BuildStep.Copies | main.go:126-130 | one `cp -r item path` per copy item, in order |
| BuildStep.BuildArgs | main.go:138-157 | `build`, then `--tag` for every grid image in grid order, then `--build-arg NAME=value` for each requested name, then `--file path/dockerfile` and the path |
| BuildStep.BuildPlanWellFormed | main.go:117-158 | every command of `build` is well-formed |
| BuildStep.BuildArgsShape | main.go:138-157 | position by position: each `--tag` flag is followed by its grid image, each `--build-arg` by its assignment, and the argument vector ends with `--file` and the path |
| BuildStep.BuildPlan | main.go:117-158 | the `build` action as main.go issues it; its exact order is stated by `BuildPlanShape` |
| BuildStep.BuildPlanShape | main.go:117-158 | `build` makes the directory, copies the items, logs in for the source image, and then builds |
| BuildStep.BuildPlanPublishesNothing | main.go:117-158 | `build` neither pushes nor tags |
| Publish.PushPlan | main.go:170-222 | `push` is the source image pushed after its login check, then one block per other grid image in grid order: tag it from the source, log in if required, push it |
| Publish.TagPlan | main.go:235-296 | `tag` is a login check and a pull of the source image, then one block per other grid image in grid order: tag it from the source, log in if required, push it |
| Publish.PushRepo | main.go:173-221 | one iteration of the `push` loop, with the guard `i > 0` on the default-tag `docker tag`; its block structure is stated by `PushRepoIsPublications` |
| Publish.TagRepo | main.go:248-295 | one iteration of the `tag` loop, with the guard `i > 0` on the default-tag block; its block structure is stated by `TagRepoIsPublications` |
| Publish.PushRepoIsPublications | main.go:173-221 | one `push` iteration is a tag-login-push block per image of its row, except that the first repository's default image (the source) is only pushed after its login check |
| Publish.TagRepoIsPublications | main.go:248-295 | one `tag` iteration is a tag-login-push block per image of its row, with the source image left out |
| Publish.PublicationsPublish | main.go:200-221 | the blocks for a list of images push and tag exactly those images, in order |
| Publish.PlansWellFormed | main.go:170-296 | every command of `push` and `tag` is well-formed |
| Publish.ExtraTagsPublish | main.go:200-221 | the inner loop tags and pushes `repo/container:t` for each extra tag `t`, in order |
| Publish.PushRepoPublishes | main.go:173-221 | one outer iteration pushes its repository's row of the grid; it tags all of that row, except the default tag of the first repository |
| Publish.PushPlanPushesTargets | main.go:170-222 | `push` pushes exactly the grid, in row-major order |
| Publish.PushPlanTagsTargets | main.go:170-222 | `push` runs `docker tag` for every grid image except the source image, in order |
| Publish.PushPlanCounts | main.go:170-222 | `push` issues \|repositories\|·(1+\|tags\|) pushes and one fewer tags |
| Publish.PlansTagFromSource | main.go:170-296 | every `docker tag` in `push` and in `tag` takes the source image `repositories[0]/container:version` |
| Publish.PlansLoginBeforeEachPush | main.go:189-294 | in `push` and in `tag`, each push is immediately preceded by the login check for the pushed image (which may issue no command) |
| Publish.TagLoopIsPushLoop | main.go:248-296 | from the second repository on, the `tag` loop issues the same commands as the `push` loop |
| Publish.TagPlanIsPushPlanWithPull | main.go:235-296 | `tag` is `push` with the source push replaced by a pull: it logs in, pulls the source, and then fans out like `push` |
| Publish.TagPlanPublishes | main.go:235-296 | `tag` pushes and tags every grid image but the source image: (\|repositories\|−1) + \|repositories\|·\|tags\| pushes |
| Publish.PushPlanExample | main.go:170-296 | with two repositories and one extra tag, the exact command sequences of `push` and `tag` |
| Extension.Plan | main.go:62-307 | empty repositories are fatal before the action is looked at; an unknown action is fatal; otherwise one of the three plans is chosen |
| Extension.PlanPublishes | main.go:85-300 | `push` publishes the grid, `tag` publishes the grid without the source, `build` publishes nothing; every push follows its login check |
| Extension.PlanWellFormed | main.go:85-300 | every command an accepted configuration plans is well-formed, so distinct planned commands start distinct processes |
| Extension.Invoke | main.go:37-362 | a configuration error exits non-zero before any command; otherwise the commands started are a prefix of the plan, the exit is 0 exactly when none of the planned commands fails, and on a failure the run stops right after the first failing command |

## Left out

- Flag parsing (kingpin) and reads of the environment: the flags, the app label, the build version and the build-argument values are fields of `Extension.Config`.
- The credentials JSON is taken as an already parsed list. A malformed JSON document, which the source silently ignores, is not modelled.
- Logging (`log.Printf`) and the text of fatal messages: the model keeps only the error kind.
- Process execution is out of scope. So are the working directory `/estafette-work`, stdout/stderr and the actual behaviour of `docker`: whether each command fails is a parameter of `Engine.Execute`.
- Two commands are run without `runCommand`'s working directory and output wiring: the `docker tag` in the push loop for the default tag (main.go:185) and the `docker login` (main.go:343). In the model they are the same `Tag` and `Login` commands as the others, with the same fail-fast effect.
- TagSanitizer.Tidy: works on Dafny `char`s. Invalid UTF-8 and the regular-expression engine are not modelled. The legal-tag rule is the character class only. The 128-character limit and the no-leading-`.`/`-` rule named in the source comment are not enforced by the code, so they are not part of the model either.
- Extension.SplitList: keeps empty pieces (`a,,b` gives `a`, ``, `b`) and does not trim spaces, exactly as the source does.
- Credentials.FindCredential: for a container or tag that itself contains `/`, the repository part changes. `Images.ImageRefRepository` is stated only for the `/`-free case. The sanitised default tag never contains `/` (`TagSanitizer.TidyHasNoSlash`).
- Version, branch and revision variables, and the startup message: no behaviour to model.
