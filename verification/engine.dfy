/**
  The external commands the extension issues, as values. Every command is
  run in turn and any failure ends the process, so a run is the longest
  prefix of the planned commands that stops at the first failure.
 */
module Engine {

  /** One external command. `Login` and `Build` carry the argument vector
      handed to `docker`; the others carry the paths they name. */
  datatype Op =
    | Mkdir(dir: string)
    | Copy(source: string, dir: string)
    | Login(args: seq<string>)
    | Build(args: seq<string>)
    | Tag(source: string, target: string)
    | Push(image: string)
    | Pull(image: string)

  /** The program and argument vector each command is issued with. */
  function Command(op: Op): (cmd: (string, seq<string>))
    ensures cmd.0 == "docker" <==> !op.Mkdir? && !op.Copy?
  {
    match op
    case Mkdir(dir) => ("mkdir", ["-p", dir])
    case Copy(source, dir) => ("cp", ["-r", source, dir])
    case Login(args) => ("docker", args)
    case Build(args) => ("docker", args)
    case Tag(source, target) => ("docker", ["tag", source, target])
    case Push(image) => ("docker", ["push", image])
    case Pull(image) => ("docker", ["pull", image])
  }

  /** The argument vector of a `docker login` starts with `login`, that of a
      `docker build` with `build`; every plan issues only such commands. */
  predicate WellFormed(op: Op)
  {
    && (op.Login? ==> |op.args| > 0 && op.args[0] == "login")
    && (op.Build? ==> |op.args| > 0 && op.args[0] == "build")
  }

  predicate AllWellFormed(ops: seq<Op>)
  {
    forall op :: op in ops ==> WellFormed(op)
  }

  lemma AllWellFormedAppend(a: seq<Op>, b: seq<Op>)
    requires AllWellFormed(a) && AllWellFormed(b)
    ensures AllWellFormed(a + b)
  {
  }

  /** Distinct well-formed commands start distinct processes, so a plan of
      `Op` values determines exactly which programs run with which arguments. */
  lemma CommandInjective(a: Op, b: Op)
    requires WellFormed(a) && WellFormed(b)
    requires Command(a) == Command(b)
    ensures a == b
  {
  }

  /** The images pushed by `ops`, in order. */
  function Pushed(ops: seq<Op>): (images: seq<string>)
    ensures |images| <= |ops|
  {
    if ops == [] then []
    else (if ops[0].Push? then [ops[0].image] else []) + Pushed(ops[1..])
  }

  /** The targets of the `docker tag` commands in `ops`, in order. */
  function TagTargets(ops: seq<Op>): (targets: seq<string>)
    ensures |targets| <= |ops|
  {
    if ops == [] then []
    else (if ops[0].Tag? then [ops[0].target] else []) + TagTargets(ops[1..])
  }

  lemma {:induction false} PushedAppend(a: seq<Op>, b: seq<Op>)
    ensures Pushed(a + b) == Pushed(a) + Pushed(b)
    decreases |a|
  {
    if a == [] {
      assert a + b == b;
    } else {
      var head := if a[0].Push? then [a[0].image] else [];
      assert (a + b)[0] == a[0];
      assert (a + b)[1..] == a[1..] + b;
      PushedAppend(a[1..], b);
      assert Pushed(a + b) == head + Pushed(a[1..] + b);
      assert Pushed(a) == head + Pushed(a[1..]);
    }
  }

  lemma {:induction false} TagTargetsAppend(a: seq<Op>, b: seq<Op>)
    ensures TagTargets(a + b) == TagTargets(a) + TagTargets(b)
    decreases |a|
  {
    if a == [] {
      assert a + b == b;
    } else {
      var head := if a[0].Tag? then [a[0].target] else [];
      assert (a + b)[0] == a[0];
      assert (a + b)[1..] == a[1..] + b;
      TagTargetsAppend(a[1..], b);
      assert TagTargets(a + b) == head + TagTargets(a[1..] + b);
      assert TagTargets(a) == head + TagTargets(a[1..]);
    }
  }

  /** How far a sequence of commands got: the commands that were started and
      whether the last of them failed. */
  datatype Run = Run(started: seq<Op>, failed: bool)

  /** The position of the first failing command in `from..to`, or `to` when
      none of them fails. */
  function FirstFailure(fails: nat -> bool, from: nat, to: nat): (k: nat)
    requires from <= to
    ensures from <= k <= to
    ensures forall j: nat :: from <= j < k ==> !fails(j)
    ensures k < to ==> fails(k)
    decreases (to as int) - (from as int)
  {
    if from == to then to
    else if fails(from) then from
    else FirstFailure(fails, from + 1, to)
  }

  /** Fail-fast execution: commands run in order until one fails; the
      failing command is the last one started, and nothing after it runs.
      `fails(k)` is the outcome the engine gives the `k`-th command of the
      run (counting from 0), so two identical commands, such as the same
      `docker login` issued before two pushes, may have different outcomes. */
  function Execute(ops: seq<Op>, fails: nat -> bool): (run: Run)
    ensures run.started <= ops
    ensures !run.failed ==> run.started == ops
    ensures run.failed <==> exists k: nat :: k < |ops| && fails(k)
    ensures run.failed ==> |run.started| > 0 && fails(|run.started| - 1)
    ensures forall k: nat :: k < |run.started| - 1 ==> !fails(k)
    ensures !run.failed ==> forall k: nat :: k < |ops| ==> !fails(k)
  {
    var n := FirstFailure(fails, 0, |ops|);
    if n < |ops| then Run(ops[..n + 1], true) else Run(ops, false)
  }

  /** When command `n` is the first to fail, the run is exactly the commands
      up to and including `n`. */
  lemma ExecuteStopsAt(ops: seq<Op>, fails: nat -> bool, n: nat)
    requires n < |ops| && fails(n)
    requires forall k: nat :: k < n ==> !fails(k)
    ensures Execute(ops, fails) == Run(ops[..n + 1], true)
  {
  }

  /** The same `docker login` before two pushes: the first may succeed and
      the second fail, which ends the run after the second login. */
  lemma RepeatedLoginMayFailLater(ops: seq<Op>, login: Op, a: string, b: string, fails: nat -> bool)
    requires ops == [login, Push(a), login, Push(b)]
    requires !fails(0) && !fails(1) && fails(2)
    ensures Execute(ops, fails) == Run([login, Push(a), login], true)
  {
    ExecuteStopsAt(ops, fails, 2);
    assert ops[..3] == [login, Push(a), login];
  }
}
