/** Migration of an asset's frontmatter to a schema version
    (server/deploy/schema_version.py). */
module SchemaVersions {
  import opened Collections

  type Field = nat
  // A frontmatter document. Values are tokens; under the version field they are the
  // version number, and 0 stands for every empty value there.
  type Doc = map<Field, int>

  const VERSION: Field := 0
  const MODULE_PATH: Field := 1
  const CATEGORY: Field := 2
  const DISTILLATION: Field := 3

  // A step from one version to the next: the defaults it sets for absent fields, and
  // whether it also writes the version field, which a registered function need not do.
  datatype Step = Step(adds: Doc, marks: bool)

  type Registry = map<int, Step>

  ghost predicate Additive(reg: Registry) {
    forall v :: v in reg ==> VERSION !in reg[v].adds
  }

  // The steps shipped with the code, from version 1 to 2 and from 2 to 3.
  const BUILT_IN: Registry :=
    map[1 := Step(map[MODULE_PATH := 0, CATEGORY := 0], true), 2 := Step(map[DISTILLATION := 0], true)]

  // The version a document counts as.
  function VersionOf(d: Doc): int {
    if VERSION in d && d[VERSION] != 0 then d[VERSION] else 1
  }

  function ApplyStep(step: Step, from: int, d: Doc): Doc {
    var filled := step.adds + d;
    if step.marks then filled[VERSION := from + 1] else filled
  }

  // The document and the version reached from version v.
  function Climb(reg: Registry, d: Doc, v: int, target: int): (Doc, int)
    decreases target - v
  {
    if v < target && v in reg then Climb(reg, ApplyStep(reg[v], v, d), v + 1, target) else (d, v)
  }

  function Migrate(reg: Registry, d: Doc, target: int): Doc {
    if VersionOf(d) > target then d
    else
      var (r, end) := Climb(reg, d, VersionOf(d), target);
      if end == target then r[VERSION := target] else r
  }

  function End(reg: Registry, d: Doc, target: int): int {
    if VersionOf(d) > target then VersionOf(d) else Climb(reg, d, VersionOf(d), target).1
  }

  class SchemaMigrator {
    var registry: Registry
    const target: int

    constructor (target: int)
      requires target >= 1
      ensures this.target == target && registry == BUILT_IN
    {
      this.target, registry := target, BUILT_IN;
    }

    method Register(from: int, to: int, step: Step) returns (ok: bool)
      modifies this
      ensures ok <==> to == from + 1 && from !in old(registry)
      ensures registry == if ok then old(registry)[from := step] else old(registry)
    {
      ok := to == from + 1 && from !in registry;
      if ok {
        registry := registry[from := step];
      }
    }

    /** Migrates a copy of the document; `added` lists the fields that the steps
        added, the forced final version not among them. */
    method MigrateDoc(d: Doc) returns (r: Doc, final: int, added: seq<Field>)
      ensures r == Migrate(registry, d, target) && final == End(registry, d, target)
      ensures forall f :: f in added ==> f !in d && f in r
      ensures forall f :: f in r && f !in d ==> f in added || f == VERSION
    {
      hide ApplyStep, Climb, Leads;
      r, final, added := d, VersionOf(d), [];
      assert Leads(registry, d, target, r, final) by { LeadsStart(registry, d, target); }
      if final > target {
        return;
      }
      while final < target && final in registry
        invariant final <= target
        invariant Leads(registry, d, target, r, final)
        invariant d.Keys <= r.Keys
        invariant forall f :: f in added <==> f in r.Keys - d.Keys
        decreases target - final
      {
        LeadsOn(registry, d, target, r, final);
        var next, news := TakeStep(registry[final], final, r);
        r, added := next, added + news;
        final := final + 1;
      }
      LeadsToEnd(registry, d, target, r, final);
      if final == target {
        r := r[VERSION := target];
      }
    }
  }

  // Climbing from r at version v ends where climbing from d does.
  ghost predicate Leads(reg: Registry, d: Doc, target: int, r: Doc, v: int) {
    Climb(reg, d, VersionOf(d), target) == Climb(reg, r, v, target)
  }

  lemma LeadsStart(reg: Registry, d: Doc, target: int)
    ensures Leads(reg, d, target, d, VersionOf(d))
  {}

  lemma LeadsOn(reg: Registry, d: Doc, target: int, r: Doc, v: int)
    requires Leads(reg, d, target, r, v) && v < target && v in reg
    ensures Leads(reg, d, target, ApplyStep(reg[v], v, r), v + 1)
  {}

  lemma LeadsToEnd(reg: Registry, d: Doc, target: int, r: Doc, v: int)
    requires Leads(reg, d, target, r, v) && !(v < target && v in reg)
    ensures Climb(reg, d, VersionOf(d), target) == (r, v)
  {}

  // One step, with the fields it adds.
  method TakeStep(step: Step, from: int, d: Doc) returns (r: Doc, news: seq<Field>)
    ensures r == ApplyStep(step, from, d) && d.Keys <= r.Keys
    ensures forall f :: f in news <==> f in r.Keys && f !in d.Keys
  {
    r := ApplyStep(step, from, d);
    news := Listed(r.Keys - d.Keys);
  }

  // The new fields of a step, in some order.
  method Listed(fields: set<Field>) returns (r: seq<Field>)
    ensures forall f :: f in r <==> f in fields
    ensures |r| == |fields|
  {
    r := [];
    var left := fields;
    while left != {}
      invariant left <= fields && |r| + |left| == |fields|
      invariant forall f :: f in r <==> f in fields - left
    {
      var f :| f in left;
      r, left := r + [f], left - {f};
    }
  }

  // ----- Nothing is taken away -----

  // The version field after the steps v..e, which held `was` before them.
  function Marked(reg: Registry, v: int, e: int, was: Option<int>): Option<int>
    decreases e - v
  {
    if e <= v then was
    else if e - 1 in reg && reg[e - 1].marks then Some(e)
    else Marked(reg, v, e - 1, was)
  }

  function VersionField(d: Doc): Option<int> {
    if VERSION in d then Some(d[VERSION]) else None
  }

  lemma {:induction false} MarkedFrom(reg: Registry, v: int, e: int, was: Option<int>)
    requires v < e && v in reg
    ensures Marked(reg, v, e, was) == Marked(reg, v + 1, e, if reg[v].marks then Some(v + 1) else was)
    decreases e - v
  {
    if v + 1 == e {
    } else {
      MarkedFrom(reg, v, e - 1, was);
    }
  }

  // d's fields, the version aside, are in r unchanged.
  ghost predicate Keeps(d: Doc, r: Doc) {
    forall f :: f in d && f != VERSION ==> f in r && r[f] == d[f]
  }

  ghost predicate Climbed(reg: Registry, v: int, e: int, r: Doc) {
    forall i :: v <= i < e ==> i in reg && reg[i].adds.Keys <= r.Keys
  }

  lemma {:induction false} ClimbLaws(reg: Registry, d: Doc, v: int, target: int)
    requires Additive(reg) && v <= target
    ensures var (r, e) := Climb(reg, d, v, target);
      && v <= e <= target && (e < target ==> e !in reg)
      && Keeps(d, r) && Climbed(reg, v, e, r) && d.Keys <= r.Keys
      && VersionField(r) == Marked(reg, v, e, VersionField(d))
    decreases target - v
  {
    if v >= target || v !in reg {
    } else {
      var next := ApplyStep(reg[v], v, d);
      ClimbLaws(reg, next, v + 1, target);
      MarkedFrom(reg, v, Climb(reg, next, v + 1, target).1, VersionField(d));
    }
  }

  /** Old data stays readable: whatever the additive steps, every field but the
      version keeps its value, and the version read never falls below the old one. */
  lemma MigrateKeeps(reg: Registry, d: Doc, target: int)
    requires Additive(reg) && target >= 1
    ensures Keeps(d, Migrate(reg, d, target)) && VersionOf(d) <= VersionOf(Migrate(reg, d, target))
  {
    if VersionOf(d) <= target {
      ClimbLaws(reg, d, VersionOf(d), target);
      MarkedRange(reg, VersionOf(d), End(reg, d, target), VersionField(d));
    }
  }

  lemma {:induction false} ClimbUnlessStuck(reg: Registry, from: int, step: Step, d: Doc, v: int, target: int)
    requires from !in reg
    ensures var (r, e) := Climb(reg, d, v, target); var (r', e') := Climb(reg[from := step], d, v, target);
      if e == from < target then e' > e else r' == r && e' == e
    decreases target - v
  {
    if v < target && v in reg {
      ClimbUnlessStuck(reg, from, step, ApplyStep(reg[v], v, d), v + 1, target);
    } else if v == from < target {
      ClimbAhead(reg[from := step], ApplyStep(step, v, d), v + 1, target);
    }
  }

  lemma {:induction false} ClimbAhead(reg: Registry, d: Doc, v: int, target: int)
    ensures Climb(reg, d, v, target).1 >= v
    decreases target - v
  {
    if v >= target || v !in reg {
    } else {
      ClimbAhead(reg, ApplyStep(reg[v], v, d), v + 1, target);
    }
  }

  /** Registering a step changes the outcome for exactly those documents that got stuck
      at its version, and takes them further. */
  lemma RegisterHelpsStuckIff(reg: Registry, from: int, step: Step, d: Doc, target: int)
    requires from !in reg
    ensures End(reg[from := step], d, target) > End(reg, d, target) <==> End(reg, d, target) == from < target
    ensures !(End(reg, d, target) == from < target) ==>
      Migrate(reg[from := step], d, target) == Migrate(reg, d, target)
      && End(reg[from := step], d, target) == End(reg, d, target)
  {
    ClimbUnlessStuck(reg, from, step, d, VersionOf(d), target);
  }

  // ----- Migrating again -----

  // Where the version field comes from: nowhere, or the last step that writes it.
  lemma {:induction false} MarkedRange(reg: Registry, v: int, e: int, was: Option<int>)
    requires v <= e
    ensures var m := Marked(reg, v, e, was);
      || (m == was && forall i :: v <= i < e && i in reg ==> !reg[i].marks)
      || (exists w: int :: m == Some(w) && v < w <= e && w - 1 in reg && reg[w - 1].marks
            && forall i :: w <= i < e && i in reg ==> !reg[i].marks)
    decreases e - v
  {
    if v == e || (e - 1 in reg && reg[e - 1].marks) {
    } else {
      MarkedRange(reg, v, e - 1, was);
    }
  }

  // The steps from v up to e are all there.
  predicate Registered(reg: Registry, v: int, e: int) {
    forall i :: v <= i < e ==> i in reg
  }

  // A climb stops at the first version without a step.
  lemma StopsAtGap(reg: Registry, d: Doc, v: int, target: int, n: int)
    requires Additive(reg) && v <= n <= target
    ensures n <= Climb(reg, d, v, target).1 <==> Registered(reg, v, n)
  {
    ClimbLaws(reg, d, v, target);
  }

  // Steps that were run and left no mark change nothing when run again.
  lemma {:induction false} RerunChangesNothing(reg: Registry, r: Doc, w: int, e: int, target: int)
    requires w <= e <= target && (e < target ==> e !in reg) && Climbed(reg, w, e, r)
    requires forall i :: w <= i < e && i in reg ==> !reg[i].marks
    ensures Climb(reg, r, w, target) == (r, e)
    decreases e - w
  {
    if w == e {
    } else {
      assert ApplyStep(reg[w], w, r) == r;
      RerunChangesNothing(reg, r, w + 1, e, target);
    }
  }

  lemma {:induction false} ClimbFurther(reg: Registry, d: Doc, v: int, target: int, further: int)
    requires v <= target <= further
    ensures var (r, e) := Climb(reg, d, v, target);
      Climb(reg, d, v, further) == Climb(reg, r, e, further)
    decreases target - v
  {
    if v >= target || v !in reg {
    } else {
      ClimbFurther(reg, ApplyStep(reg[v], v, d), v + 1, target, further);
    }
  }

  // A step from v up to e adds this field.
  ghost predicate AddedBy(reg: Registry, v: int, e: int, f: Field) {
    exists i :: v <= i < e && i in reg && f in reg[i].adds
  }

  lemma {:induction false} ClimbAdds(reg: Registry, d: Doc, v: int, target: int, f: Field)
    requires Additive(reg) && v <= target && f != VERSION
    ensures var (r, e) := Climb(reg, d, v, target);
      f in r <==> f in d || AddedBy(reg, v, e, f)
    decreases target - v
  {
    if v >= target || v !in reg {
    } else {
      var next := ApplyStep(reg[v], v, d);
      ClimbAdds(reg, next, v + 1, target, f);
      ClimbLaws(reg, next, v + 1, target);
      var e := Climb(reg, next, v + 1, target).1;
      assert AddedBy(reg, v, e, f) <==> f in reg[v].adds || AddedBy(reg, v + 1, e, f);
    }
  }

  // Step i adds a field that neither the document nor a step below 0 provides.
  ghost predicate AddsAbsent(reg: Registry, d: Doc, i: int)
    requires i in reg
  {
    exists f :: f in reg[i].adds && f !in d && !AddedBy(reg, VersionOf(d), 0, f)
  }

  // A climb from version 1 arrives at the target, or runs a step that changes
  // something.
  ghost predicate ActsFromOne(reg: Registry, d: Doc, target: int) {
    || Registered(reg, 1, target)
    || exists i :: 1 <= i < target && i in reg && Registered(reg, 1, i) && (reg[i].marks || AddsAbsent(reg, d, i))
  }

  /** The trap: the steps lead up to version 0 and write it, none leads on, and the
      next migration, reading 0 as 1, has something to do. */
  ghost predicate ZeroTrap(reg: Registry, d: Doc, target: int) {
    && VersionOf(d) < 0 && Registered(reg, VersionOf(d), 0) && reg[-1].marks && 0 !in reg
    && ActsFromOne(reg, d, target)
  }

  // After version 0 was written, the next migration acts exactly when some step from
  // 1 on does.
  lemma FromZero(reg: Registry, d: Doc, r: Doc, target: int)
    requires Additive(reg) && target >= 1 && VERSION in r && r[VERSION] == 0
    requires forall f :: f != VERSION ==> (f in r <==> f in d || AddedBy(reg, VersionOf(d), 0, f))
    ensures Migrate(reg, r, target) == r <==> !ActsFromOne(reg, d, target)
  {
    var (r2, e) := Climb(reg, r, 1, target);
    ClimbLaws(reg, r, 1, target);
    StopsAtGap(reg, r, 1, target, target);
    if ActsFromOne(reg, d, target) {
      if e < target {
        var i :| 1 <= i < target && i in reg && Registered(reg, 1, i) && (reg[i].marks || AddsAbsent(reg, d, i));
        StopsAtGap(reg, r, 1, target, i);
        MarkedRange(reg, 1, e, Some(0));
      }
    } else {
      forall i | 1 <= i < e ensures i in reg && !reg[i].marks && reg[i].adds.Keys <= r.Keys {
        assert Registered(reg, 1, i);
        forall f | f in reg[i].adds ensures f in r {
          assert !AddsAbsent(reg, d, i);
        }
      }
      RerunChangesNothing(reg, r, 1, e, target);
    }
  }

  // A migration that got stuck gets stuck again, unless it is in the trap.
  lemma StuckAgainIff(reg: Registry, d: Doc, target: int, further: int)
    requires Additive(reg) && 1 <= target <= further && VersionOf(d) <= target
    requires !Registered(reg, VersionOf(d), target)
    ensures Migrate(reg, d, target) == Migrate(reg, d, further)
    ensures Migrate(reg, Migrate(reg, d, target), further) == Migrate(reg, d, target) <==> !ZeroTrap(reg, d, further)
  {
    hide ActsFromOne, AddedBy;
    var v := VersionOf(d);
    var (r, e) := Climb(reg, d, v, target);
    StopsAtGap(reg, d, v, target, target);
    ClimbLaws(reg, d, v, target);
    MarkedRange(reg, v, e, VersionField(d));
    ClimbFurther(reg, d, v, target, further);
    if v < 0 && e == 0 && reg[-1].marks {
      forall f | f != VERSION ensures f in r <==> f in d || AddedBy(reg, v, 0, f) {
        ClimbAdds(reg, d, v, target, f);
      }
      FromZero(reg, d, r, further);
    } else {
      if v < 0 {
        StopsAtGap(reg, d, v, target, 0);
      }
      assert v <= VersionOf(r) <= e;
      RerunChangesNothing(reg, r, VersionOf(r), e, further);
    }
  }

  ghost predicate SameButVersion(a: Doc, b: Doc) {
    Keeps(a, b) && Keeps(b, a)
  }

  ghost predicate AnyMarks(reg: Registry, v: int, e: int) {
    exists i :: v <= i < e && i in reg && reg[i].marks
  }

  // The version field has no influence on a climb, but for the marks.
  lemma {:induction false} ClimbIgnoresVersion(reg: Registry, a: Doc, b: Doc, v: int, target: int)
    requires Additive(reg) && SameButVersion(a, b) && v <= target
    ensures Climb(reg, a, v, target).1 == Climb(reg, b, v, target).1
    ensures SameButVersion(Climb(reg, a, v, target).0, Climb(reg, b, v, target).0)
    decreases target - v
  {
    if v >= target || v !in reg {
    } else {
      ClimbIgnoresVersion(reg, ApplyStep(reg[v], v, a), ApplyStep(reg[v], v, b), v + 1, target);
    }
  }

  lemma {:induction false} MarkedAgrees(reg: Registry, v: int, e: int, x: Option<int>, y: Option<int>)
    requires v <= e
    ensures Marked(reg, v, e, x) == Marked(reg, v, e, y) <==> x == y || AnyMarks(reg, v, e)
    decreases e - v
  {
    if v < e {
      if e - 1 in reg && reg[e - 1].marks {
        assert AnyMarks(reg, v, e);
      } else {
        MarkedAgrees(reg, v, e - 1, x, y);
      }
    }
  }

  // Two documents that differ in the version field only, climbing from a.
  lemma TwoWays(reg: Registry, x: Doc, y: Doc, a: int, b: int)
    requires Additive(reg) && SameButVersion(x, y) && a <= b
    ensures var (rx, ex) := Climb(reg, x, a, b); var (ry, ey) := Climb(reg, y, a, b);
      && a <= ex == ey <= b && SameButVersion(rx, ry)
      && (rx[VERSION := b] == ry[VERSION := b])
      && (rx == ry <==> VersionField(x) == VersionField(y) || AnyMarks(reg, a, ex))
  {
    hide Climb, Marked, AnyMarks, Climbed;
    ClimbIgnoresVersion(reg, x, y, a, b);
    ClimbLaws(reg, x, a, b);
    ClimbLaws(reg, y, a, b);
    MarkedAgrees(reg, a, Climb(reg, x, a, b).1, VersionField(x), VersionField(y));
  }

  // The version field says a once the steps below a have been run.
  predicate SaysVersion(reg: Registry, d: Doc, a: int) {
    VersionField(d) == Some(a) || (VersionOf(d) < a && a - 1 in reg && reg[a - 1].marks)
  }

  // A step that runs from a on writes the version.
  ghost predicate MarksFrom(reg: Registry, a: int, b: int) {
    exists i :: a <= i < b && i in reg && Registered(reg, a, i) && reg[i].marks
  }

  /** Where the detour over version a leaves a trace: the steps lead as far as a and
      stop before b, and nobody but the detour itself writes the version there. */
  ghost predicate DetourShows(reg: Registry, d: Doc, a: int, b: int) {
    && VersionOf(d) <= a && Registered(reg, VersionOf(d), a) && !Registered(reg, a, b)
    && !MarksFrom(reg, a, b) && !SaysVersion(reg, d, a)
  }

  lemma FieldAtStop(reg: Registry, d: Doc, a: int)
    requires VersionOf(d) <= a && Registered(reg, VersionOf(d), a) && a >= 1
    ensures Marked(reg, VersionOf(d), a, VersionField(d)) == Some(a) <==> SaysVersion(reg, d, a)
  {
    MarkedRange(reg, VersionOf(d), a, VersionField(d));
  }

  // When the steps lead to a, the two ways differ in the version field at most.
  lemma DetourIff(reg: Registry, d: Doc, a: int, b: int)
    requires Additive(reg) && 1 <= a <= b && VersionOf(d) <= a && Registered(reg, VersionOf(d), a)
    ensures SameButVersion(Migrate(reg, Migrate(reg, d, a), b), Migrate(reg, d, b))
    ensures Migrate(reg, Migrate(reg, d, a), b) == Migrate(reg, d, b) <==> !DetourShows(reg, d, a, b)
  {
    hide Marked, SaysVersion, Climbed;
    var v := VersionOf(d);
    var (ra, ea) := Climb(reg, d, v, a);
    StopsAtGap(reg, d, v, a, a);
    ClimbLaws(reg, d, v, a);
    ClimbFurther(reg, d, v, a, b);
    FieldAtStop(reg, d, a);
    TwoWays(reg, ra, ra[VERSION := a], a, b);
    var e := Climb(reg, ra, a, b).1;
    StopsAtGap(reg, ra, a, b, b);
    MarksUpToStop(reg, ra, a, b);
  }

  lemma MarksUpToStop(reg: Registry, d: Doc, a: int, b: int)
    requires Additive(reg) && a <= b
    ensures MarksFrom(reg, a, b) <==> AnyMarks(reg, a, Climb(reg, d, a, b).1)
  {
    ClimbLaws(reg, d, a, b);
    if MarksFrom(reg, a, b) {
      var i :| a <= i < b && i in reg && Registered(reg, a, i) && reg[i].marks;
      StopsAtGap(reg, d, a, b, i + 1);
    }
  }

  /** Migrating to a and then to b is migrating to b, except where the detour shows in
      the version field and in the zero trap. All of it can be read off the registry
      and the document beforehand. Outside the trap the other fields always agree. */
  lemma MigrateInTwoIff(reg: Registry, d: Doc, a: int, b: int)
    requires Additive(reg) && 1 <= a <= b
    ensures Migrate(reg, Migrate(reg, d, a), b) == Migrate(reg, d, b)
       <==> !DetourShows(reg, d, a, b) && !ZeroTrap(reg, d, b)
    ensures !ZeroTrap(reg, d, b) ==> SameButVersion(Migrate(reg, Migrate(reg, d, a), b), Migrate(reg, d, b))
  {
    hide Climb, Migrate, MarksFrom, SaysVersion, ActsFromOne;
    if VersionOf(d) > a {
      AboveStays(reg, d, a);
    } else if Registered(reg, VersionOf(d), a) {
      DetourIff(reg, d, a, b);
    } else {
      StuckAgainIff(reg, d, a, b);
    }
  }

  lemma AboveStays(reg: Registry, d: Doc, target: int)
    requires VersionOf(d) > target
    ensures Migrate(reg, d, target) == d
  {}

  /** Migrating is idempotent, whatever the steps and however far they lead, except in
      the zero trap. */
  lemma MigrateTwiceIff(reg: Registry, d: Doc, target: int)
    requires Additive(reg) && target >= 1
    ensures Migrate(reg, Migrate(reg, d, target), target) == Migrate(reg, d, target) <==> !ZeroTrap(reg, d, target)
  {
    hide Climb, Migrate, MarksFrom, SaysVersion, ZeroTrap;
    MigrateInTwoIff(reg, d, target, target);
  }

  // A registered step from version -1 springs the trap even at target 1, the version
  // the code ships with: the first migration stops at 0, the second arrives at 1.
  lemma StepIntoZeroBreaksIt()
    ensures var reg: Registry, d: Doc := map[-1 := Step(map[], true)], map[VERSION := -1];
      Migrate(reg, d, 1) == map[VERSION := 0] && Migrate(reg, Migrate(reg, d, 1), 1) == map[VERSION := 1]
  {
    var reg: Registry := map[-1 := Step(map[], true)];
    var d: Doc, once: Doc := map[VERSION := -1], map[VERSION := 0];
    assert ApplyStep(reg[-1], -1, d) == once;
    assert Climb(reg, once, 0, 1) == (once, 0);
    assert Climb(reg, d, -1, 1) == (once, 0);
    assert Climb(reg, once, 1, 1) == (once, 1);
  }

  // A step that does not write the version, as in the example of the source's own
  // comment, and no step after it: the detour over 2 is recorded, the direct way not.
  lemma DetourShowsOnce()
    ensures var reg: Registry, d: Doc := map[1 := Step(map[CATEGORY := 0], false)], map[];
      && Migrate(reg, Migrate(reg, d, 2), 3) == map[CATEGORY := 0, VERSION := 2]
      && Migrate(reg, d, 3) == map[CATEGORY := 0]
  {
    var reg: Registry := map[1 := Step(map[CATEGORY := 0], false)];
    var d: Doc, filled: Doc, detour: Doc := map[], map[CATEGORY := 0], map[CATEGORY := 0, VERSION := 2];
    assert ApplyStep(reg[1], 1, d) == filled;
    assert Climb(reg, filled, 2, 2) == Climb(reg, filled, 2, 3) == (filled, 2);
    assert Climb(reg, d, 1, 2) == Climb(reg, d, 1, 3) == (filled, 2);
    assert filled[VERSION := 2] == detour;
    assert Climb(reg, detour, 2, 3) == (detour, 2);
  }

  /** What the shipped steps add: a document of version 1 gets module path and category on
      the way to 2, and the distillation data on the way to 3, whatever else it holds. */
  lemma BuiltInAdds(d: Doc, f: Field)
    requires VersionOf(d) == 1 && f != VERSION
    ensures f in Migrate(BUILT_IN, d, 2) <==> f in d || f == MODULE_PATH || f == CATEGORY
    ensures f in Migrate(BUILT_IN, d, 3) <==> f in d || f == MODULE_PATH || f == CATEGORY || f == DISTILLATION
    ensures VersionOf(Migrate(BUILT_IN, d, 2)) == 2 && VersionOf(Migrate(BUILT_IN, d, 3)) == 3
  {
    BuiltInReachesThree(d, 2);
    BuiltInReachesThree(d, 3);
    ClimbAdds(BUILT_IN, d, 1, 2, f);
    ClimbAdds(BUILT_IN, d, 1, 3, f);
    assert AddedBy(BUILT_IN, 1, 2, f) <==> f in BUILT_IN[1].adds;
    assert AddedBy(BUILT_IN, 1, 3, f) <==> f in BUILT_IN[1].adds || f in BUILT_IN[2].adds;
  }

  /** With the shipped steps any document that has not passed the target of 3 ends at
      it, and the detour never shows when b is at most 3. */
  lemma BuiltInReachesThree(d: Doc, b: int)
    requires 1 <= VersionOf(d) <= b <= 3
    ensures End(BUILT_IN, d, b) == b
    ensures forall a :: 1 <= a <= b ==> Migrate(BUILT_IN, Migrate(BUILT_IN, d, a), b) == Migrate(BUILT_IN, d, b)
  {
    hide Climb, Migrate, ActsFromOne, MarksFrom;
    assert Registered(BUILT_IN, VersionOf(d), b);
    StopsAtGap(BUILT_IN, d, VersionOf(d), b, b);
    ClimbLaws(BUILT_IN, d, VersionOf(d), b);
    forall a | 1 <= a <= b
      ensures Migrate(BUILT_IN, Migrate(BUILT_IN, d, a), b) == Migrate(BUILT_IN, d, b)
    {
      MigrateInTwoIff(BUILT_IN, d, a, b);
    }
  }
}
