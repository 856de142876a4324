/** Versioned migrations (server/deploy/migrations.py): building the chain to a
    target version, and resuming it after failures. */
module Migrations {
  import opened Collections

  datatype Semver = Semver(major: nat, minor: nat, patch: nat)

  // A version is its text, of which the registry compares all and the ordering
  // only the three numbers; pre-release and build tags make texts differ.
  datatype Version = Version(text: nat, semver: Semver)

  predicate Lt(a: Semver, b: Semver) {
    a.major < b.major || (a.major == b.major && (a.minor < b.minor || (a.minor == b.minor && a.patch < b.patch)))
  }

  predicate Older(a: Version, b: Version) {
    Lt(a.semver, b.semver)
  }

  datatype Migration = Migration(from_: Version, to: Version, breaking: bool)
  {
    // What constructing a migration insists on.
    predicate Valid() {
      Older(from_, to) && (breaking ==> from_.semver.major != to.semver.major)
    }
  }

  /** A migration leads strictly upwards, and a breaking one into a higher major version. */
  lemma BreakingRaisesMajor(m: Migration)
    ensures m.Valid() <==> Older(m.from_, m.to) && (m.breaking ==> m.to.semver.major > m.from_.semver.major)
    ensures Older(m.from_, m.to) && !m.breaking ==> m.Valid()
  {}

  type Registered = map<Version, Migration>

  ghost predicate ValidRegistry(r: Registered) {
    forall v :: v in r ==> r[v].from_ == v && r[v].Valid()
  }

  datatype ChainResult = Chain(steps: seq<Migration>) | NoMigrationFrom(stuck: Version)

  // The registered versions a walk standing at `current` may still leave from.
  function Ahead(r: Registered, current: Version): set<Version> {
    set v | v in r && !Older(v, current)
  }

  lemma AheadShrinks(r: Registered, current: Version)
    requires ValidRegistry(r) && current in r
    ensures Ahead(r, r[current].to) < Ahead(r, current)
  {
    assert current in Ahead(r, current) && current !in Ahead(r, r[current].to);
  }

  /** Following registered migrations until the target is reached or passed.
      Semantic versions alone are not well-founded upwards; what shrinks is the
      set of registered versions still ahead. */
  function ChainFrom(r: Registered, current: Version, target: Version): ChainResult
    requires ValidRegistry(r)
    decreases Ahead(r, current)
  {
    if !Older(current, target) then Chain([])
    else if current !in r then NoMigrationFrom(current)
    else
      AheadShrinks(r, current);
      match ChainFrom(r, r[current].to, target)
      case NoMigrationFrom(v) => NoMigrationFrom(v)
      case Chain(rest) => Chain([r[current]] + rest)
  }

  // Where the walk stands after n steps of a list.
  function Stop(a: Version, steps: seq<Migration>, n: nat): Version
    requires n <= |steps|
  {
    if n == 0 then a else steps[n - 1].to
  }

  // Step i is registered for where the walk stands, which is before the target.
  ghost predicate StepOk(r: Registered, a: Version, target: Version, steps: seq<Migration>, i: nat)
    requires i < |steps|
  {
    var v := Stop(a, steps, i);
    v in r && steps[i] == r[v] && Older(v, target)
  }

  ghost predicate IsWalk(r: Registered, a: Version, target: Version, steps: seq<Migration>) {
    forall i :: 0 <= i < |steps| ==> StepOk(r, a, target, steps, i)
  }

  lemma WalkTail(r: Registered, a: Version, target: Version, m: Migration, rest: seq<Migration>)
    ensures IsWalk(r, a, target, [m] + rest)
       <==> a in r && m == r[a] && Older(a, target) && IsWalk(r, m.to, target, rest)
  {
    hide Lt, Older;
    var steps := [m] + rest;
    assert StepOk(r, a, target, steps, 0) <==> a in r && m == r[a] && Older(a, target);
    forall i | 0 <= i < |rest| ensures StepOk(r, m.to, target, rest, i) <==> StepOk(r, a, target, steps, i + 1) {
      assert Stop(m.to, rest, i) == Stop(a, steps, i + 1);
    }
    if IsWalk(r, m.to, target, rest) && StepOk(r, a, target, steps, 0) {
      forall i | 0 <= i < |steps| ensures StepOk(r, a, target, steps, i) {
        if i > 0 {
          assert StepOk(r, m.to, target, rest, i - 1);
        }
      }
    }
  }

  /** A list is the chain exactly when it is a walk that ends at or past the
      target; so the chain is contiguous, only its last step reaches the target,
      and there is no other. The chain is missing exactly when a walk gets stuck
      before the target, at the version reported. */
  lemma {:induction false} ChainIffWalk(r: Registered, a: Version, target: Version, steps: seq<Migration>)
    requires ValidRegistry(r)
    ensures ChainFrom(r, a, target) == Chain(steps)
       <==> IsWalk(r, a, target, steps) && !Older(Stop(a, steps, |steps|), target)
    decreases |steps|
  {
    if steps == [] {
    } else {
      assert steps == [steps[0]] + steps[1..];
      WalkTail(r, a, target, steps[0], steps[1..]);
      ChainIffWalk(r, steps[0].to, target, steps[1..]);
      assert Stop(a, steps, |steps|) == Stop(steps[0].to, steps[1..], |steps| - 1);
    }
  }

  lemma {:induction false} StuckWalk(r: Registered, a: Version, target: Version) returns (steps: seq<Migration>)
    requires ValidRegistry(r) && ChainFrom(r, a, target).NoMigrationFrom?
    ensures IsWalk(r, a, target, steps)
    ensures var v := ChainFrom(r, a, target).stuck; Stop(a, steps, |steps|) == v && v !in r && Older(v, target)
    decreases Ahead(r, a)
  {
    if a !in r {
      steps := [];
    } else {
      AheadShrinks(r, a);
      var rest := StuckWalk(r, r[a].to, target);
      steps := [r[a]] + rest;
      WalkTail(r, a, target, r[a], rest);
    }
  }

  lemma OlderIsTransitive(a: Version, b: Version, c: Version)
    requires Older(a, b) && Older(b, c)
    ensures Older(a, c)
  {}

  /** Along a chain versions strictly increase. */
  lemma {:induction false} StopsIncrease(
    r: Registered, a: Version, target: Version, steps: seq<Migration>, i: nat, j: nat)
    requires ValidRegistry(r) && IsWalk(r, a, target, steps) && i < j <= |steps|
    ensures Older(Stop(a, steps, i), Stop(a, steps, j))
    decreases j
  {
    hide Lt, Older;
    assert Older(Stop(a, steps, j - 1), Stop(a, steps, j)) by {
      assert StepOk(r, a, target, steps, j - 1);
    }
    if i == j - 1 {
    } else {
      StopsIncrease(r, a, target, steps, i, j - 1);
      OlderIsTransitive(Stop(a, steps, i), Stop(a, steps, j - 1), Stop(a, steps, j));
    }
  }

  ghost predicate Splits(r: Registered, a: Version, b: Version, c: Version, steps: seq<Migration>)
    requires ValidRegistry(r)
  {
    exists x: seq<Migration>, y: seq<Migration> ::
      ChainFrom(r, a, b) == Chain(x) && ChainFrom(r, b, c) == Chain(y) && steps == x + y
  }

  ghost predicate StopsAt(a: Version, steps: seq<Migration>, b: Version) {
    exists k :: 0 <= k <= |steps| && Stop(a, steps, k) == b
  }

  /** A chain splits at a version before the target, chain(a, c) being
      chain(a, b) + chain(b, c), exactly when it stops there. */
  lemma ChainSplitsIff(r: Registered, a: Version, b: Version, c: Version, steps: seq<Migration>)
    requires ValidRegistry(r) && ChainFrom(r, a, c) == Chain(steps) && Older(b, c)
    ensures Splits(r, a, b, c, steps) <==> StopsAt(a, steps, b)
  {
    hide Lt, ChainFrom;
    if Splits(r, a, b, c, steps) {
      var x: seq<Migration>, y: seq<Migration> :|
        ChainFrom(r, a, b) == Chain(x) && ChainFrom(r, b, c) == Chain(y) && steps == x + y;
      ChainIffWalk(r, a, c, steps);
      ChainIffWalk(r, b, c, y);
      assert StepOk(r, b, c, y, 0) && StepOk(r, a, c, steps, |x|);
      assert Stop(a, steps, |x|) == b;
    }
    if StopsAt(a, steps, b) {
      var k :| 0 <= k <= |steps| && Stop(a, steps, k) == b;
      SplitAt(r, a, c, steps, k);
      assert steps == steps[..k] + steps[k..];
    }
  }

  // One step from 1.0.0 to 1.2.0: the chain to 1.1.0 overshoots to 1.2.0, from where
  // nothing leads on, so the chain to 1.2.0 does not split at 1.1.0.
  lemma OvershootDoesNotSplit()
    ensures exists r: Registered, a, b, c, steps ::
      && ValidRegistry(r) && Older(b, c) && ChainFrom(r, a, c) == Chain(steps)
      && ChainFrom(r, a, b) == Chain(steps) && Stop(a, steps, |steps|) == c && !Splits(r, a, b, c, steps)
  {
    var a, b, c := Version(0, Semver(1, 0, 0)), Version(1, Semver(1, 1, 0)), Version(2, Semver(1, 2, 0));
    var m := Migration(a, c, false);
    var r: Registered := map[a := m];
    assert ValidRegistry(r);
    assert ChainFrom(r, c, c) == Chain([]) && ChainFrom(r, c, b) == Chain([]);
    assert ChainFrom(r, a, c) == Chain([m]) && ChainFrom(r, a, b) == Chain([m]);
    assert !StopsAt(a, [m], b);
    ChainSplitsIff(r, a, b, c, [m]);
  }

  lemma SplitAt(r: Registered, a: Version, c: Version, steps: seq<Migration>, k: nat)
    requires ValidRegistry(r) && ChainFrom(r, a, c) == Chain(steps) && k <= |steps|
    ensures ChainFrom(r, a, Stop(a, steps, k)) == Chain(steps[..k])
    ensures ChainFrom(r, Stop(a, steps, k), c) == Chain(steps[k..])
  {
    hide Lt, ChainFrom, ValidRegistry;
    var b, x, y := Stop(a, steps, k), steps[..k], steps[k..];
    ChainIffWalk(r, a, c, steps);
    ChainIffWalk(r, a, b, x);
    ChainIffWalk(r, b, c, y);
    forall i | 0 <= i < |x| ensures StepOk(r, a, b, x, i) {
      assert Stop(a, x, i) == Stop(a, steps, i);
      assert StepOk(r, a, c, steps, i);
      StopsIncrease(r, a, c, steps, i, k);
    }
    forall i | 0 <= i < |y| ensures StepOk(r, b, c, y, i) {
      assert Stop(b, y, i) == Stop(a, steps, k + i);
      assert StepOk(r, a, c, steps, k + i);
    }
    assert Stop(b, y, |y|) == Stop(a, steps, |steps|);
    assert Stop(a, x, |x|) == b;
    NotOlderThanItself(b);
  }

  lemma NotOlderThanItself(v: Version)
    ensures !Older(v, v)
  {}

  datatype RegisterResult = Accepted | Duplicate

  class MigrationRegistry {
    var migrations: Registered

    ghost predicate Valid()
      reads this
    {
      ValidRegistry(migrations)
    }

    constructor ()
      ensures Valid() && migrations == map[]
    {
      migrations := map[];
    }

    method Register(m: Migration) returns (r: RegisterResult)
      requires Valid() && m.Valid()
      modifies this
      ensures Valid()
      ensures r == Duplicate <==> m.from_ in old(migrations)
      ensures migrations == if m.from_ in old(migrations) then old(migrations) else old(migrations)[m.from_ := m]
    {
      if m.from_ in migrations {
        return Duplicate;
      }
      migrations := migrations[m.from_ := m];
      r := Accepted;
    }

    method BuildChain(a: Version, target: Version) returns (r: ChainResult)
      requires Valid()
      ensures r == ChainFrom(migrations, a, target)
    {
      var chain := [];
      var current := a;
      while Older(current, target)
        invariant ChainFrom(migrations, a, target) == match ChainFrom(migrations, current, target)
                    case NoMigrationFrom(v) => NoMigrationFrom(v)
                    case Chain(rest) => Chain(chain + rest)
        decreases Ahead(migrations, current)
      {
        if current !in migrations {
          return NoMigrationFrom(current);
        }
        var m := migrations[current];
        AheadShrinks(migrations, current);
        assert forall rest: seq<Migration> {:trigger chain + ([m] + rest)} ::
          chain + ([m] + rest) == (chain + [m]) + rest;
        chain := chain + [m];
        current := m.to;
      }
      assert chain + [] == chain;
      r := Chain(chain);
    }
  }

  // ----- Applying a chain -----

  // How one attempt of a step ends: it succeeds, or raises leaving some state.
  datatype Attempt<S> = Succeeds | Raises(left: S)

  type Up<!S> = (Migration, S) -> S

  datatype Report = Report(applied: seq<Version>, skipped: seq<Version>, failedAt: Option<Version>, chainError: bool)

  predicate Done(last: Option<Version>, m: Migration) {
    last.Some? && !Older(last.value, m.to)
  }

  class MigrationContext<S> {
    var state: S
    var last: Option<Version>
    const dryRun: bool

    constructor (state: S, last: Option<Version>, dryRun: bool)
      ensures this.state == state && this.last == last && this.dryRun == dryRun
    {
      this.state, this.last, this.dryRun := state, last, dryRun;
    }
  }

  // The steps from position i up to j, by where they leave from.
  function Froms(chain: seq<Migration>, i: nat, j: nat): seq<Version>
    requires i <= j <= |chain|
  {
    seq(j - i, k requires 0 <= k < j - i => chain[i + k].from_)
  }

  function ApplyAll<S>(up: Up<S>, chain: seq<Migration>, i: nat, j: nat, s: S): S
    requires i <= j <= |chain|
    decreases j
  {
    if i == j then s else up(chain[j - 1], ApplyAll(up, chain, i, j - 1, s))
  }

  // The states between the steps: each comes from the one before by running its step.
  ghost predicate Passes<S>(up: Up<S>, steps: seq<Migration>, states: seq<S>) {
    |states| == |steps| + 1 && forall k :: 0 <= k < |steps| ==> states[k + 1] == up(steps[k], states[k])
  }

  // Running the steps in order, each once, leads from one state to the other.
  ghost predicate Leads<S(!new)>(up: Up<S>, steps: seq<Migration>, s: S, s': S) {
    exists states: seq<S> :: Passes(up, steps, states) && states[0] == s && states[|steps|] == s'
  }

  /** A state is what applying a part of a chain makes of another if and only if running
      that part's steps, each once and in order, leads there. */
  lemma {:induction false} ApplyAllIffLeads<S(!new)>(up: Up<S>, chain: seq<Migration>, i: nat, j: nat, s: S, s': S)
    requires i <= j <= |chain|
    ensures s' == ApplyAll(up, chain, i, j, s) <==> Leads(up, chain[i..j], s, s')
    decreases j - i
  {
    var steps := chain[i..j];
    if i == j {
      if s' == s {
        assert Passes(up, steps, [s]) && [s][0] == s;
      }
    } else {
      var n, before := j - i - 1, ApplyAll(up, chain, i, j - 1, s);
      assert chain[i..j-1] == steps[..n];
      ApplyAllIffLeads(up, chain, i, j - 1, s, before);
      var states: seq<S> :| Passes(up, steps[..n], states) && states[0] == s && states[n] == before;
      var longer := states + [up(steps[n], before)];
      assert Passes(up, steps, longer) && longer[0] == s;
      if Leads(up, steps, s, s') {
        var other: seq<S> :| Passes(up, steps, other) && other[0] == s && other[n + 1] == s';
        assert Passes(up, steps[..n], other[..n+1]);
        ApplyAllIffLeads(up, chain, i, j - 1, s, other[n]);
      }
    }
  }

  // A machine that writes down what it runs shows the part of the chain.
  lemma {:induction false} RecorderShowsSteps(chain: seq<Migration>, i: nat, j: nat, s: seq<Migration>)
    requires i <= j <= |chain|
    ensures ApplyAll((m: Migration, t: seq<Migration>) => t + [m], chain, i, j, s) == s + chain[i..j]
    decreases j - i
  {
    if i == j {
      assert s + [] == s;
    } else {
      RecorderShowsSteps(chain, i, j - 1, s);
      assert chain[i..j] == chain[i..j-1] + [chain[j - 1]];
    }
  }

  ghost predicate Increasing(chain: seq<Migration>) {
    forall i, j :: 0 <= i < j < |chain| ==> Older(chain[i].to, chain[j].to)
  }

  // How many leading steps a recorded version covers.
  function Covered(chain: seq<Migration>, last: Option<Version>): (n: nat)
    ensures n <= |chain|
    ensures forall i :: 0 <= i < n ==> Done(last, chain[i])
    ensures n < |chain| ==> !Done(last, chain[n])
  {
    if chain == [] || !Done(last, chain[0]) then 0
    else 1 + Covered(chain[1..], last)
  }

  lemma CoveredIsPrefix(chain: seq<Migration>, last: Option<Version>, i: nat)
    requires Increasing(chain) && i < |chain|
    ensures Done(last, chain[i]) <==> i < Covered(chain, last)
  {
    var n := Covered(chain, last);
    if n < i {
      assert Older(chain[n].to, chain[i].to);
    }
  }

  lemma CoveredAfter(chain: seq<Migration>, j: nat)
    requires Increasing(chain) && 0 < j <= |chain|
    ensures Covered(chain, Some(chain[j - 1].to)) == j
  {
    var last := Some(chain[j - 1].to);
    CoveredIsPrefix(chain, last, j - 1);
    if j < |chain| {
      assert Older(chain[j - 1].to, chain[j].to);
      CoveredIsPrefix(chain, last, j);
    }
  }

  // The first attempt from position i on that raises.
  function FirstFailure<S>(attempts: nat -> Attempt<S>, i: nat, n: nat): (j: nat)
    requires i <= n
    ensures i <= j <= n
    ensures forall k :: i <= k < j ==> attempts(k).Succeeds?
    ensures j < n ==> attempts(j).Raises?
    decreases n - i
  {
    if i == n || attempts(i).Raises? then i else FirstFailure(attempts, i + 1, n)
  }

  // From where to where one pass applies steps.
  function Pass<S>(
    chain: seq<Migration>, last: Option<Version>, dryRun: bool, attempts: nat -> Attempt<S>): (r: (nat, nat))
    ensures r.0 <= r.1 <= |chain|
  {
    var k := Covered(chain, last);
    (k, if dryRun then |chain| else FirstFailure(attempts, k, |chain|))
  }

  function Recorded(chain: seq<Migration>, last: Option<Version>, dryRun: bool, pass: (nat, nat)): Option<Version>
    requires pass.0 <= pass.1 <= |chain|
  {
    if dryRun || pass.0 == pass.1 then last else Some(chain[pass.1 - 1].to)
  }

  function Reached<S>(
    chain: seq<Migration>, up: Up<S>, attempts: nat -> Attempt<S>, dryRun: bool, pass: (nat, nat), s: S): S
    requires pass.0 <= pass.1 <= |chain|
    requires dryRun || pass.1 == |chain| || attempts(pass.1).Raises?
  {
    if dryRun then s
    else if pass.1 == |chain| then ApplyAll(up, chain, pass.0, pass.1, s)
    else attempts(pass.1).left
  }

  function PassReport(chain: seq<Migration>, pass: (nat, nat)): Report
    requires pass.0 <= pass.1 <= |chain|
  {
    Report(Froms(chain, pass.0, pass.1), Froms(chain, 0, pass.0),
           if pass.1 == |chain| then None else Some(chain[pass.1].from_), false)
  }

  /** One pass over a chain. The steps covered by the recorded version are skipped
      and form a prefix; the rest is applied in order up to the first failure,
      recording each success; a dry run lists them all and changes nothing. */
  method ApplyChain<S>(chain: seq<Migration>, context: MigrationContext<S>, up: Up<S>, attempts: nat -> Attempt<S>)
    returns (report: Report)
    requires Increasing(chain)
    modifies context
    ensures var pass := Pass(chain, old(context.last), context.dryRun, attempts);
      && report == PassReport(chain, pass)
      && context.last == Recorded(chain, old(context.last), context.dryRun, pass)
      && context.state == Reached(chain, up, attempts, context.dryRun, pass, old(context.state))
  {
    hide Lt, Older, Increasing, Covered, Done, Froms;
    report := Report([], [], None, false);
    ghost var last := context.last;
    ghost var k := Covered(chain, last);
    ghost var j := Pass(chain, last, context.dryRun, attempts).1;
    var i := 0;
    NoFroms(chain, 0);
    NoFroms(chain, k);
    while i < |chain|
      invariant 0 <= i <= |chain| && (i <= j || i <= k)
      invariant report ==
        Report(Froms(chain, k, if i < k then k else i), Froms(chain, 0, if i < k then i else k), None, false)
      invariant context.last == LastAfter(chain, last, context.dryRun, k, i)
      invariant context.state ==
        if i <= k || context.dryRun then old(context.state) else ApplyAll(up, chain, k, i, old(context.state))
    {
      var m := chain[i];
      DoneExactlyBefore(chain, last, context.dryRun, i);
      if Done(context.last, m) {
        FromsStep(chain, 0, i);
        report := report.(skipped := report.skipped + [m.from_]);
      } else if context.dryRun {
        FromsStep(chain, k, i);
        report := report.(applied := report.applied + [m.from_]);
      } else {
        match attempts(i)
        case Succeeds =>
          FromsStep(chain, k, i);
          context.state := up(m, context.state);
          report := report.(applied := report.applied + [m.from_]);
          context.last := Some(m.to);
        case Raises(left) =>
          context.state := left;
          report := report.(failedAt := Some(m.from_));
          return;
      }
      i := i + 1;
    }
  }

  // The recorded version on reaching position i of a pass that has not failed.
  function LastAfter(chain: seq<Migration>, last: Option<Version>, dryRun: bool, k: nat, i: nat): Option<Version>
    requires i <= |chain|
  {
    if i <= k || dryRun then last else Some(chain[i - 1].to)
  }

  lemma DoneExactlyBefore(chain: seq<Migration>, last: Option<Version>, dryRun: bool, i: nat)
    requires Increasing(chain) && i < |chain|
    ensures Done(LastAfter(chain, last, dryRun, Covered(chain, last), i), chain[i]) <==> i < Covered(chain, last)
  {
    CoveredIsPrefix(chain, last, i);
    if i > 0 {
      assert Older(chain[i - 1].to, chain[i].to);
    }
  }

  lemma NoFroms(chain: seq<Migration>, i: nat)
    requires i <= |chain|
    ensures Froms(chain, i, i) == []
  {}

  lemma FromsStep(chain: seq<Migration>, i: nat, j: nat)
    requires i <= j < |chain|
    ensures Froms(chain, i, j + 1) == Froms(chain, i, j) + [chain[j].from_]
  {}

  /** Nothing runs unless the whole chain can be built. A real call runs the steps it
      reports as applied, each once and in order, and a failing one leaves the state it
      leaves; a dry one runs nothing. */
  method Migrate<S(!new)>(
    registry: MigrationRegistry, a: Version, target: Version, context: MigrationContext<S>, up: Up<S>,
    attempts: nat -> Attempt<S>)
    returns (report: Report)
    requires registry.Valid()
    modifies context
    ensures !Older(a, target) ==> report == Report([], [], None, false)
    ensures report.chainError <==> ChainFrom(registry.migrations, a, target).NoMigrationFrom?
    ensures report.chainError ==> report == Report([], [], None, true)
    ensures report.chainError || !Older(a, target) ==>
      context.state == old(context.state) && context.last == old(context.last)
    ensures Older(a, target) && !report.chainError ==>
      var chain := ChainFrom(registry.migrations, a, target).steps;
      var pass := Pass(chain, old(context.last), context.dryRun, attempts);
      && Increasing(chain)
      && report == PassReport(chain, pass)
      && context.last == Recorded(chain, old(context.last), context.dryRun, pass)
      && context.state == Reached(chain, up, attempts, context.dryRun, pass, old(context.state))
    ensures Older(a, target) && !report.chainError ==>
      var chain := ChainFrom(registry.migrations, a, target).steps;
      var k := |report.skipped|;
      var n := k + |report.applied|;
      && n <= |chain| && report.skipped == Froms(chain, 0, k) && report.applied == Froms(chain, k, n)
      && (report.failedAt.None? <==> n == |chain|)
      && (report.failedAt.Some? ==> report.failedAt == Some(chain[n].from_) && attempts(n).Raises?)
      && (if context.dryRun then context.state == old(context.state)
          else if report.failedAt.Some? then context.state == attempts(n).left
          else Leads(up, chain[k..n], old(context.state), context.state))
  {
    hide Lt, Older, Increasing, ApplyAll, Covered, FirstFailure, Froms, Pass, Recorded, Reached;
    if !Older(a, target) {
      return Report([], [], None, false);
    }
    var r := registry.BuildChain(a, target);
    if r.NoMigrationFrom? {
      return Report([], [], None, true);
    }
    ChainIncreases(registry.migrations, a, target, r.steps);
    ghost var last, was := context.last, context.state;
    report := ApplyChain(r.steps, context, up, attempts);
    ReportOfPass(r.steps, last, context.dryRun, up, attempts, was);
  }

  // What a report of a pass says, without the pass.
  lemma ReportOfPass<S(!new)>(
    chain: seq<Migration>, last: Option<Version>, dryRun: bool, up: Up<S>, attempts: nat -> Attempt<S>, s: S)
    ensures var pass := Pass(chain, last, dryRun, attempts);
      var report, s' := PassReport(chain, pass), Reached(chain, up, attempts, dryRun, pass, s);
      && |report.skipped| == pass.0 && |report.applied| == pass.1 - pass.0 && !report.chainError
      && report.skipped == Froms(chain, 0, pass.0) && report.applied == Froms(chain, pass.0, pass.1)
      && (report.failedAt.None? <==> pass.1 == |chain|)
      && (report.failedAt.Some? ==> report.failedAt == Some(chain[pass.1].from_) && attempts(pass.1).Raises?)
      && (if dryRun then s' == s
          else if report.failedAt.Some? then s' == attempts(pass.1).left
          else Leads(up, chain[pass.0..pass.1], s, s'))
  {
    hide Covered, ApplyAll, Leads;
    var pass := Pass(chain, last, dryRun, attempts);
    ApplyAllIffLeads(up, chain, pass.0, pass.1, s, ApplyAll(up, chain, pass.0, pass.1, s));
  }

  lemma ChainIncreases(r: Registered, a: Version, target: Version, chain: seq<Migration>)
    requires ValidRegistry(r) && ChainFrom(r, a, target) == Chain(chain)
    ensures Increasing(chain)
  {
    hide Lt, Older, ChainFrom, ValidRegistry, IsWalk;
    ChainIffWalk(r, a, target, chain);
    forall i, j | 0 <= i < j < |chain| ensures Older(chain[i].to, chain[j].to) {
      StopsIncrease(r, a, target, chain, i + 1, j + 1);
    }
  }

  // ----- Repeated calls -----

  // A failing attempt leaves the state as the steps before it made it.
  ghost predicate FailuresAreClean<S(!new)>(
    chain: seq<Migration>, up: Up<S>, attempts: nat -> Attempt<S>, pass: (nat, nat), s: S)
    requires pass.0 <= pass.1 <= |chain|
  {
    pass.1 < |chain| && attempts(pass.1).Raises? ==>
      Leads(up, chain[pass.0..pass.1], s, attempts(pass.1).left)
  }
  // One real (not dry) call after another with the same context: where each call
  // started and stopped in the chain, and the state and version it left behind.
  ghost predicate Calls<S(!new)>(
    chain: seq<Migration>, up: Up<S>, s: S, last: Option<Version>, calls: seq<nat -> Attempt<S>>,
    spans: seq<(nat, nat)>, s': S, last': Option<Version>)
    decreases |calls|
  {
    |spans| == |calls| &&
    if calls == [] then s' == s && last' == last
    else
      var pass := Pass(chain, last, false, calls[0]);
      && spans[0] == pass
      && FailuresAreClean(chain, up, calls[0], pass, s)
      && Calls(chain, up, Reached(chain, up, calls[0], false, pass, s), Recorded(chain, last, false, pass),
               calls[1..], spans[1..], s', last')
  }

  lemma {:induction false} ApplyAllConcat<S>(up: Up<S>, chain: seq<Migration>, i: nat, j: nat, k: nat, s: S)
    requires i <= j <= k <= |chain|
    ensures ApplyAll(up, chain, i, k, s) == ApplyAll(up, chain, j, k, ApplyAll(up, chain, i, j, s))
    decreases k
  {
    if j == k {
    } else {
      ApplyAllConcat(up, chain, i, j, k - 1, s);
    }
  }

  lemma NothingApplied<S>(up: Up<S>, chain: seq<Migration>, i: nat, s: S)
    requires i <= |chain|
    ensures ApplyAll(up, chain, i, i, s) == s
  {}

  // A single call takes up where the recorded version says, and records where it stops.
  lemma OneCall<S(!new)>(chain: seq<Migration>, up: Up<S>, s: S, last: Option<Version>, attempts: nat -> Attempt<S>)
    requires Increasing(chain)
    ensures var pass := Pass(chain, last, false, attempts);
      && pass.0 == Covered(chain, last) && pass.0 <= pass.1 <= |chain|
      && Covered(chain, Recorded(chain, last, false, pass)) == pass.1
      && (FailuresAreClean(chain, up, attempts, pass, s) ==>
            Reached(chain, up, attempts, false, pass, s) == ApplyAll(up, chain, pass.0, pass.1, s))
  {
    hide ApplyAll, Leads;
    var pass := Pass(chain, last, false, attempts);
    if pass.0 < pass.1 {
      CoveredAfter(chain, pass.1);
    }
    if pass.1 < |chain| {
      ApplyAllIffLeads(up, chain, pass.0, pass.1, s, attempts(pass.1).left);
    }
  }

  /** However often a migration is interrupted and called again with the same
      context, each call continues where the last one stopped: the applied spans
      are adjacent, so every step succeeds at most once and in order, and the
      state is that of one uninterrupted run up to there. */
  lemma {:induction false} RepeatedCallsResume<S(!new)>(
    chain: seq<Migration>, up: Up<S>, s: S, last: Option<Version>, calls: seq<nat -> Attempt<S>>,
    spans: seq<(nat, nat)>, s': S, last': Option<Version>)
    requires Increasing(chain) && Calls(chain, up, s, last, calls, spans, s', last')
    ensures |spans| == |calls|
    ensures forall i :: 0 <= i < |spans| ==>
      spans[i].0 == (if i == 0 then Covered(chain, last) else spans[i - 1].1) && spans[i].0 <= spans[i].1 <= |chain|
    ensures Covered(chain, last) <= Covered(chain, last')
    ensures Covered(chain, last') == if spans == [] then Covered(chain, last) else spans[|spans| - 1].1
    ensures s' == ApplyAll(up, chain, Covered(chain, last), Covered(chain, last'), s)
    ensures Leads(up, chain[Covered(chain, last)..Covered(chain, last')], s, s')
    decreases |calls|
  {
    hide Reached, Recorded, Covered, FailuresAreClean, ApplyAll, Increasing, Leads;
    if calls == [] {
      NothingApplied(up, chain, Covered(chain, last), s);
    } else {
      var pass := Pass(chain, last, false, calls[0]);
      var s1, last1 := Reached(chain, up, calls[0], false, pass, s), Recorded(chain, last, false, pass);
      OneCall(chain, up, s, last, calls[0]);
      RepeatedCallsResume(chain, up, s1, last1, calls[1..], spans[1..], s', last');
      ApplyAllConcat(up, chain, pass.0, pass.1, Covered(chain, last'), s);
      forall i | 0 <= i < |spans|
        ensures spans[i].0 == if i == 0 then Covered(chain, last) else spans[i - 1].1
        ensures spans[i].0 <= spans[i].1 <= |chain|
      {
        if i > 0 {
          assert spans[i] == spans[1..][i - 1];
        }
      }
    }
    ApplyAllIffLeads(up, chain, Covered(chain, last), Covered(chain, last'), s, s');
  }

  /** Once a call reports no failure, the state is that of a single run that never
      failed, and further calls apply nothing. */
  lemma FinishedEqualsUninterrupted<S(!new)>(
    chain: seq<Migration>, up: Up<S>, s: S, calls: seq<nat -> Attempt<S>>, spans: seq<(nat, nat)>, s': S,
    last': Option<Version>,
    again: nat -> Attempt<S>)
    requires Increasing(chain) && Calls(chain, up, s, None, calls, spans, s', last')
    requires calls != [] && spans[|spans| - 1].1 == |chain|
    ensures s' == ApplyAll(up, chain, 0, |chain|, s) && Leads(up, chain, s, s')
    ensures Pass(chain, last', false, again) == (|chain|, |chain|)
  {
    RepeatedCallsResume(chain, up, s, None, calls, spans, s', last');
    assert chain[0..|chain|] == chain;
  }

  /** A dry run lists exactly what a real run without failures would apply. */
  lemma DryRunForetells<S>(
    chain: seq<Migration>, last: Option<Version>, any: nat -> Attempt<S>, attempts: nat -> Attempt<S>)
    requires forall i :: attempts(i).Succeeds?
    ensures Pass(chain, last, true, any) == Pass(chain, last, false, attempts)
  {}
}
