/** Which assets an agent carries (server/binding/binding_service.py): bindings
    under a unique key, copy-on-write by version, cascades, clean-up, and
    automatic binding from the routing table. */
module Bindings {
  import opened Collections

  type RowId = nat
  type Agent = nat
  type AssetId = nat
  type Version = nat
  type Time = int

  datatype BindingType = Fixed | OnDemand
  datatype Priority = High | Normal | Low

  // Role 0 stands for the empty text.
  datatype Row = Row(
    agent: Agent, role: nat, asset: AssetId, kind: BindingType, priority: Priority, enabled: bool,
    version: Version, supersededAt: Option<Time>, invalidatedAt: Option<Time>)

  type Rows = map<RowId, Row>

  function NewRow(
    agent: Agent, role: nat, asset: AssetId, kind: BindingType, priority: Priority, version: Version): Row
  {
    Row(agent, role, asset, kind, priority, true, version, None, None)
  }

  predicate HasKey(r: Row, agent: Agent, asset: AssetId, version: Version) {
    r.agent == agent && r.asset == asset && r.version == version
  }

  predicate KeyTaken(rows: Rows, agent: Agent, asset: AssetId, version: Version) {
    exists id :: id in rows && HasKey(rows[id], agent, asset, version)
  }

  predicate OfPair(r: Row, agent: Agent, asset: AssetId) {
    r.agent == agent && r.asset == asset
  }

  predicate CurrentOf(r: Row, agent: Agent, asset: AssetId) {
    OfPair(r, agent, asset) && Current(r)
  }

  // Current: not replaced by a newer version. Visible: what a default read lists.
  predicate Current(r: Row) {
    r.supersededAt.None?
  }

  predicate Visible(r: Row) {
    r.enabled && Current(r)
  }

  // The database's unique constraint.
  ghost predicate UniqueKeys(rows: Rows) {
    forall i, j :: i in rows && j in rows && HasKey(rows[i], rows[j].agent, rows[j].asset, rows[j].version) ==> i == j
  }

  ghost predicate StatesOk(r: Row) {
    && (r.supersededAt.Some? ==> !r.enabled)
    && (!r.enabled ==> r.supersededAt.Some? || r.invalidatedAt.Some?)
  }

  ghost predicate Inv(rows: Rows, next: RowId) {
    && UniqueKeys(rows)
    && (forall id :: id in rows ==> id < next && StatesOk(rows[id]))
  }

  // ----- Single-row operations -----

  function Retouched(r: Row, role: nat, kind: BindingType, priority: Priority): Row {
    r.(kind := kind, priority := priority, role := if role != 0 then role else r.role)
  }

  function Create(
    rows: Rows, id: RowId, agent: Agent, asset: AssetId, kind: BindingType, priority: Priority, role: nat,
    version: Version): Rows
  {
    if KeyTaken(rows, agent, asset, version) then
      map i | i in rows ::
        if HasKey(rows[i], agent, asset, version) then Retouched(rows[i], role, kind, priority) else rows[i]
    else rows[id := NewRow(agent, role, asset, kind, priority, version)]
  }

  function Cascade(rows: Rows, asset: AssetId, now: Time): Rows {
    map i | i in rows ::
      if rows[i].asset == asset && rows[i].enabled then rows[i].(enabled := false, invalidatedAt := Some(now))
      else rows[i]
  }

  // The bindings a cascade invalidates.
  function Enabled(rows: Rows, asset: AssetId): set<RowId> {
    set i | i in rows && rows[i].asset == asset && rows[i].enabled
  }

  /** After a cascade no row of the asset is enabled, so a second one finds nothing and
      keeps the first one's stamps; rows of other assets, rows already disabled and all
      supersession marks stay; and no row comes or goes. */
  lemma CascadeLaws(rows: Rows, asset: AssetId, now: Time, later: Time)
    ensures var after := Cascade(rows, asset, now);
      && after.Keys == rows.Keys && Enabled(after, asset) == {} && Cascade(after, asset, later) == after
      && (forall i :: i in rows && i !in Enabled(rows, asset) ==> after[i] == rows[i])
      && (forall i :: i in rows ==> after[i].supersededAt == rows[i].supersededAt)
      && (forall i :: i in Enabled(rows, asset) ==> after[i].invalidatedAt == Some(now))
  {
    var after := Cascade(rows, asset, now);
    assert forall i :: i in after ==> !(after[i].asset == asset && after[i].enabled);
  }

  predicate Expired(r: Row, cutoff: Time) {
    r.supersededAt.Some? && r.supersededAt.value < cutoff
  }

  function Cleanup(rows: Rows, cutoff: Time): Rows {
    map i | i in rows && !Expired(rows[i], cutoff) :: rows[i]
  }

  /** Clean-up takes a row if and only if it was superseded strictly before the cutoff,
      and leaves the others as they are. */
  lemma CleanupTakesIff(rows: Rows, cutoff: Time, id: RowId)
    requires id in rows
    ensures var after := Cleanup(rows, cutoff);
      && after.Keys <= rows.Keys
      && (id !in after <==> rows[id].supersededAt.Some? && rows[id].supersededAt.value < cutoff)
      && (id in after ==> after[id] == rows[id])
  {}

  /** What creating a binding does to the row that holds the key afterwards: it has the
      type and priority given, and the role if one is given; a new one is enabled and
      current, a retouched one keeps its state. All other rows stay. */
  lemma CreatedOrRetouched(
    rows: Rows, id: RowId, agent: Agent, asset: AssetId, kind: BindingType, priority: Priority, role: nat,
    version: Version, i: RowId)
    requires UniqueKeys(rows) && id !in rows
    ensures var after := Create(rows, id, agent, asset, kind, priority, role, version);
      && (i in rows ==> i in after) && (i in after ==> i in rows || (i == id && !KeyTaken(rows, agent, asset, version)))
      && (KeyTaken(after, agent, asset, version))
      && (i in rows && !HasKey(rows[i], agent, asset, version) ==> after[i] == rows[i])
      && (i in after && HasKey(after[i], agent, asset, version) ==>
            && after[i].kind == kind && after[i].priority == priority && (role != 0 ==> after[i].role == role)
            && (i in rows ==> after[i] == rows[i].(kind := kind, priority := priority, role := after[i].role))
            && (i in rows && role == 0 ==> after[i].role == rows[i].role)
            && (i !in rows ==> Visible(after[i]) && after[i].invalidatedAt.None? && after[i].role == role))
  {
    var after := Create(rows, id, agent, asset, kind, priority, role, version);
    if KeyTaken(rows, agent, asset, version) {
      var j :| j in rows && HasKey(rows[j], agent, asset, version);
      assert j in after && HasKey(after[j], agent, asset, version);
    } else {
      assert id in after && HasKey(after[id], agent, asset, version);
    }
  }

  // ----- Copy on write -----

  predicate AlreadyThere(rows: Rows, agent: Agent, asset: AssetId, version: Version) {
    exists i :: i in rows && HasKey(rows[i], agent, asset, version) && Visible(rows[i])
  }

  function Supersede(rows: Rows, agent: Agent, asset: AssetId, now: Time): Rows {
    map i | i in rows ::
      if CurrentOf(rows[i], agent, asset) then rows[i].(supersededAt := Some(now), enabled := false) else rows[i]
  }

  // None: the insert hits the unique key and nothing changes.
  function WriteCopy(
    rows: Rows, id: RowId, agent: Agent, asset: AssetId, version: Version, kind: BindingType,
    priority: Priority, role: nat, now: Time): Option<Rows>
  {
    if AlreadyThere(rows, agent, asset, version) then Some(rows)
    else if KeyTaken(rows, agent, asset, version) then None
    else Some(Supersede(rows, agent, asset, now)[id := NewRow(agent, role, asset, kind, priority, version)])
  }

  /** A write-copy is refused exactly when some row of that very version exists but
      is disabled or superseded: going back to an earlier version fails until the
      old row has been cleaned up. */
  lemma WriteCopyFailsIff(
    rows: Rows, id: RowId, agent: Agent, asset: AssetId, version: Version, kind: BindingType,
    priority: Priority, role: nat, now: Time)
    requires UniqueKeys(rows)
    ensures WriteCopy(rows, id, agent, asset, version, kind, priority, role, now).None?
       <==> exists i :: i in rows && HasKey(rows[i], agent, asset, version) && !Visible(rows[i])
  {
    var key := (i: RowId) => i in rows && HasKey(rows[i], agent, asset, version);
    if i, j :| key(i) && key(j) && !Visible(rows[i]) {
      assert i == j;
    }
  }

  ghost predicate OneCurrent(rows: Rows, agent: Agent, asset: AssetId) {
    forall i, j ::
      i in rows && j in rows && CurrentOf(rows[i], agent, asset) && CurrentOf(rows[j], agent, asset) ==> i == j
  }

  ghost predicate HasVisible(rows: Rows, agent: Agent, asset: AssetId) {
    exists i :: i in rows && OfPair(rows[i], agent, asset) && Visible(rows[i])
  }

  /** A successful write-copy makes the new version visible. It leaves it the only
      current row of its pair unless the version was already there beside others,
      in which case it returns early and supersedes nothing. */
  lemma WriteCopyLaws(
    rows: Rows, id: RowId, agent: Agent, asset: AssetId, version: Version, kind: BindingType,
    priority: Priority, role: nat, now: Time)
    requires UniqueKeys(rows) && id !in rows
    requires WriteCopy(rows, id, agent, asset, version, kind, priority, role, now).Some?
    ensures var after := WriteCopy(rows, id, agent, asset, version, kind, priority, role, now).value;
      && AlreadyThere(after, agent, asset, version)
      && (OneCurrent(after, agent, asset) <==>
            !AlreadyThere(rows, agent, asset, version) || OneCurrent(rows, agent, asset))
      && (forall a, s :: !(a == agent && s == asset) && OneCurrent(rows, a, s) ==> OneCurrent(after, a, s))
      && (forall i :: i in rows && !CurrentOf(rows[i], agent, asset) ==> i in after && after[i] == rows[i])
      && (!AlreadyThere(rows, agent, asset, version) ==>
            && after.Keys == rows.Keys + {id}
            && after[id] == Row(agent, role, asset, kind, priority, true, version, None, None)
            && forall i :: i in rows && CurrentOf(rows[i], agent, asset) ==>
                 after[i] == rows[i].(supersededAt := Some(now), enabled := false))
  {
    var after := WriteCopy(rows, id, agent, asset, version, kind, priority, role, now).value;
    if !AlreadyThere(rows, agent, asset, version) {
      assert id in after && HasKey(after[id], agent, asset, version) && Visible(after[id]);
    }
  }

  /** No write-copy, successful or not, leaves a pair without a visible binding
      that had one. */
  lemma WriteCopyKeepsVisible(
    rows: Rows, id: RowId, agent: Agent, asset: AssetId, version: Version, kind: BindingType,
    priority: Priority, role: nat, now: Time, a: Agent, s: AssetId)
    requires UniqueKeys(rows) && id !in rows && HasVisible(rows, a, s)
    ensures var r := WriteCopy(rows, id, agent, asset, version, kind, priority, role, now);
      HasVisible(if r.Some? then r.value else rows, a, s)
  {
    var r := WriteCopy(rows, id, agent, asset, version, kind, priority, role, now);
    if r.Some? {
      WriteCopyLaws(rows, id, agent, asset, version, kind, priority, role, now);
      var i :| i in rows && OfPair(rows[i], a, s) && Visible(rows[i]);
      if a == agent && s == asset {
        var j :| j in r.value && HasKey(r.value[j], agent, asset, version) && Visible(r.value[j]);
        assert OfPair(r.value[j], a, s);
      } else {
        assert r.value[i] == rows[i];
      }
    }
  }

  /** Upgrading and then going straight back aborts; once the replaced row is older
      than the time to live, clean-up makes room and it succeeds. */
  lemma RollbackNeedsCleanup(agent: Agent, asset: AssetId, v1: Version, v2: Version, t: Time, later: Time)
    requires v1 != v2
    ensures var first := WriteCopy(map[], 0, agent, asset, v1, OnDemand, Normal, 0, t);
      first.Some? &&
      var second := WriteCopy(first.value, 1, agent, asset, v2, OnDemand, Normal, 0, t);
      second.Some?
      && WriteCopy(second.value, 2, agent, asset, v1, OnDemand, Normal, 0, later).None?
      && (t < later ==> WriteCopy(Cleanup(second.value, later), 2, agent, asset, v1, OnDemand, Normal, 0, later).Some?)
  {
    var first := WriteCopy(map[], 0, agent, asset, v1, OnDemand, Normal, 0, t).value;
    var second := WriteCopy(first, 1, agent, asset, v2, OnDemand, Normal, 0, t).value;
    assert 0 in second && HasKey(second[0], agent, asset, v1) && !Visible(second[0]);
    assert second.Keys == {0, 1};
  }

  // Two versions bound by hand are both current, and a write-copy to one of them
  // leaves the other: the early return.
  lemma EarlyReturnLeavesBoth(agent: Agent, asset: AssetId, v1: Version, v2: Version, now: Time)
    requires v1 != v2
    ensures var rows := Create(Create(map[], 0, agent, asset, OnDemand, Normal, 0, v1),
                               1, agent, asset, OnDemand, Normal, 0, v2);
      WriteCopy(rows, 2, agent, asset, v2, OnDemand, Normal, 0, now) == Some(rows) && !OneCurrent(rows, agent, asset)
  {
    var first := Create(map[], 0, agent, asset, OnDemand, Normal, 0, v1);
    assert first == map[0 := NewRow(agent, 0, asset, OnDemand, Normal, v1)];
    var rows := Create(first, 1, agent, asset, OnDemand, Normal, 0, v2);
    assert 0 in rows && 1 in rows && HasKey(rows[1], agent, asset, v2) && Visible(rows[1]);
    assert CurrentOf(rows[0], agent, asset) && CurrentOf(rows[1], agent, asset);
  }

  /** Clean-up removes exactly the rows superseded before the cutoff: the default
      read of every agent, and the read that also shows disabled rows, see no
      difference. */
  lemma CleanupIsInvisible(rows: Rows, cutoff: Time, agent: Agent)
    ensures Listed(Cleanup(rows, cutoff), agent, false, false) == Listed(rows, agent, false, false)
    ensures Listed(Cleanup(rows, cutoff), agent, true, false) == Listed(rows, agent, true, false)
    ensures forall id ::
              id in Listed(rows, agent, true, true) && id !in Listed(Cleanup(rows, cutoff), agent, true, true) <==>
              id in rows && rows[id].agent == agent && Expired(rows[id], cutoff)
  {}

  // `list_bindings`, without its order.
  function Listed(rows: Rows, agent: Agent, includeDisabled: bool, includeSuperseded: bool): Rows {
    map i | i in rows && rows[i].agent == agent
      && (includeDisabled || rows[i].enabled) && (includeSuperseded || Current(rows[i])) :: rows[i]
  }

  // ----- Binding from the routing table -----

  datatype AssetState = AssetState(active: bool, version: Version)
  type Assets = map<AssetId, AssetState>

  datatype Route = Route(
    taskType: nat, category: nat, asset: AssetId, kind: BindingType, priority: Priority, autoBind: bool)

  // One asset proposed for an agent.
  datatype Candidate = Candidate(asset: AssetId, kind: BindingType, priority: Priority)

  datatype Fate = Inactive | Existing | Clash | Bind(row: Row)

  predicate CurrentKey(rows: Rows, agent: Agent, asset: AssetId, version: Version) {
    exists i :: i in rows && HasKey(rows[i], agent, asset, version) && Current(rows[i])
  }

  function FateOf(rows: Rows, assets: Assets, agent: Agent, role: nat, c: Candidate): Fate {
    if c.asset !in assets || !assets[c.asset].active then Inactive
    else
      var version := assets[c.asset].version;
      if CurrentKey(rows, agent, c.asset, version) then Existing
      else if KeyTaken(rows, agent, c.asset, version) then Clash
      else Bind(NewRow(agent, role, c.asset, c.kind, c.priority, version))
  }

  // A binding transaction in progress; a clash aborts it for good.
  datatype Progress = Progress(rows: Rows, ids: seq<RowId>, inactive: nat, existing: nat, aborted: bool)

  function Advance(p: Progress, assets: Assets, agent: Agent, role: nat, c: Candidate, base: RowId): Progress {
    if p.aborted then p
    else match FateOf(p.rows, assets, agent, role, c)
      case Inactive => p.(inactive := p.inactive + 1)
      case Existing => p.(existing := p.existing + 1)
      case Clash => p.(aborted := true)
      case Bind(row) => p.(rows := p.rows[base + |p.ids| := row], ids := p.ids + [base + |p.ids|])
  }

  function BindAll(rows: Rows, assets: Assets, agent: Agent, role: nat, cs: seq<Candidate>, base: RowId): Progress {
    if cs == [] then Progress(rows, [], 0, 0, false)
    else Advance(BindAll(rows, assets, agent, role, cs[..|cs|-1], base), assets, agent, role, cs[|cs|-1], base)
  }

  // Every proposed active asset has a current binding at its version.
  ghost predicate Served(rows: Rows, assets: Assets, agent: Agent, cs: seq<Candidate>) {
    forall c :: c in cs && IsActive(assets, c) ==> CurrentKey(rows, agent, c.asset, assets[c.asset].version)
  }

  predicate IsActive(assets: Assets, c: Candidate) {
    c.asset in assets && assets[c.asset].active
  }

  // A proposed active asset whose version is held by a superseded row.
  ghost predicate Blocked(rows: Rows, assets: Assets, agent: Agent, c: Candidate) {
    c.asset in assets && assets[c.asset].active
    && KeyTaken(rows, agent, c.asset, assets[c.asset].version)
    && !CurrentKey(rows, agent, c.asset, assets[c.asset].version)
  }

  lemma BlockedStays(rows: Rows, rows': Rows, assets: Assets, agent: Agent, c: Candidate, base: RowId)
    requires UniqueKeys(rows') && rows.Keys <= rows'.Keys
    requires forall i :: i in rows ==> rows'[i] == rows[i]
    requires forall i :: i in rows' && i !in rows ==> Current(rows'[i])
    ensures Blocked(rows, assets, agent, c) ==> Blocked(rows', assets, agent, c)
    ensures Blocked(rows', assets, agent, c) ==> Blocked(rows, assets, agent, c)
  {
    if c.asset in assets {
      var v := assets[c.asset].version;
      if KeyTaken(rows, agent, c.asset, v) {
        var i :| i in rows && HasKey(rows[i], agent, c.asset, v);
        assert i in rows' && HasKey(rows'[i], agent, c.asset, v);
      }
      if KeyTaken(rows', agent, c.asset, v) {
        var i :| i in rows' && HasKey(rows'[i], agent, c.asset, v);
        if i !in rows {
          assert CurrentKey(rows', agent, c.asset, v);
        }
      }
      if CurrentKey(rows, agent, c.asset, v) {
        var i :| i in rows && HasKey(rows[i], agent, c.asset, v) && Current(rows[i]);
        assert i in rows' && Current(rows'[i]);
      }
    }
  }

  // What a transaction may have done to the table so far.
  ghost predicate Grown(rows: Rows, p: Progress, assets: Assets, agent: Agent, role: nat, base: RowId) {
    && Inv(p.rows, base + |p.ids|) && rows.Keys <= p.rows.Keys
    && (forall i :: i in rows ==> p.rows[i] == rows[i])
    && (forall k :: 0 <= k < |p.ids| ==> p.ids[k] == base + k && p.ids[k] in p.rows)
    && (forall i :: i in p.rows && i !in rows ==>
          && base <= i < base + |p.ids| && Visible(p.rows[i])
          && p.rows[i].agent == agent && p.rows[i].role == role
          && p.rows[i].asset in assets && assets[p.rows[i].asset].active
          && p.rows[i].version == assets[p.rows[i].asset].version)
  }

  lemma AddingKeepsCurrentKeys(rows: Rows, id: RowId, r: Row)
    requires id !in rows
    ensures forall a, s, v :: CurrentKey(rows, a, s, v) ==> CurrentKey(rows[id := r], a, s, v)
  {
    forall a, s, v | CurrentKey(rows, a, s, v) ensures CurrentKey(rows[id := r], a, s, v) {
      var i :| i in rows && HasKey(rows[i], a, s, v) && Current(rows[i]);
      assert i in rows[id := r] && rows[id := r][i] == rows[i];
    }
  }

  // An insert the unique key admits keeps the table sound.
  lemma InsertKeepsInv(rows: Rows, id: RowId, r: Row)
    requires Inv(rows, id) && StatesOk(r) && !KeyTaken(rows, r.agent, r.asset, r.version)
    ensures Inv(rows[id := r], id + 1) && id !in rows
  {}

  lemma AdvanceGrows(rows: Rows, p: Progress, assets: Assets, agent: Agent, role: nat, c: Candidate, base: RowId)
    requires Grown(rows, p, assets, agent, role, base)
    ensures Grown(rows, Advance(p, assets, agent, role, c, base), assets, agent, role, base)
    ensures forall a, s, v :: CurrentKey(p.rows, a, s, v) ==>
              CurrentKey(Advance(p, assets, agent, role, c, base).rows, a, s, v)
  {
    hide UniqueKeys, CurrentKey, KeyTaken, HasKey;
    if !p.aborted && FateOf(p.rows, assets, agent, role, c).Bind? {
      var id, r := base + |p.ids|, FateOf(p.rows, assets, agent, role, c).row;
      InsertKeepsInv(p.rows, id, r);
      AddingKeepsCurrentKeys(p.rows, id, r);
    }
  }

  // What one candidate does to a transaction.
  lemma BindStep(rows: Rows, p: Progress, assets: Assets, agent: Agent, role: nat, c: Candidate, base: RowId)
    requires Grown(rows, p, assets, agent, role, base)
    ensures var q := Advance(p, assets, agent, role, c, base);
      && Grown(rows, q, assets, agent, role, base)
      && (forall a, s, v :: CurrentKey(p.rows, a, s, v) ==> CurrentKey(q.rows, a, s, v))
      && (q.aborted <==> p.aborted || Blocked(rows, assets, agent, c))
      && (!q.aborted ==> |q.ids| + q.inactive + q.existing == |p.ids| + p.inactive + p.existing + 1)
      && (!q.aborted && IsActive(assets, c) ==>
            CurrentKey(q.rows, agent, c.asset, assets[c.asset].version))
  {
    AdvanceGrows(rows, p, assets, agent, role, c, base);
    BlockedStays(rows, p.rows, assets, agent, c, base);
    hide UniqueKeys, StatesOk;
    var q := Advance(p, assets, agent, role, c, base);
    if !p.aborted && FateOf(p.rows, assets, agent, role, c).Bind? {
      var id := base + |p.ids|;
      assert id in q.rows && HasKey(q.rows[id], agent, c.asset, assets[c.asset].version) && Current(q.rows[id]);
    }
  }

  lemma ServedStep(rows: Rows, rows': Rows, assets: Assets, agent: Agent, cs: seq<Candidate>, c: Candidate)
    requires forall a, s, v :: CurrentKey(rows, a, s, v) ==> CurrentKey(rows', a, s, v)
    ensures Served(rows, assets, agent, cs)
         && (IsActive(assets, c) ==> CurrentKey(rows', agent, c.asset, assets[c.asset].version))
        ==> Served(rows', assets, agent, cs + [c])
  {}

  /** One binding transaction: every candidate is counted once; nothing old
      changes; each new binding is visible and carries the version its active
      asset has now; afterwards every active candidate is served; and it aborts
      exactly when some candidate's version is held by a superseded row. */
  lemma {:induction false} BindAllLaws(
    rows: Rows, assets: Assets, agent: Agent, role: nat, cs: seq<Candidate>, base: RowId)
    requires Inv(rows, base)
    ensures var p := BindAll(rows, assets, agent, role, cs, base);
      && Grown(rows, p, assets, agent, role, base)
      && (!p.aborted ==> |cs| == |p.ids| + p.inactive + p.existing && Served(p.rows, assets, agent, cs))
      && (p.aborted <==> exists c :: c in cs && Blocked(rows, assets, agent, c))
  {
    if cs == [] {
      hide UniqueKeys, StatesOk;
    } else {
      hide Grown, Blocked, CurrentKey, Advance, Inv, Served, IsActive;
      var n := |cs| - 1;
      var c, p := cs[n], BindAll(rows, assets, agent, role, cs[..n], base);
      assert cs == cs[..n] + [c];
      BindAllLaws(rows, assets, agent, role, cs[..n], base);
      BindStep(rows, p, assets, agent, role, c, base);
      ServedStep(p.rows, Advance(p, assets, agent, role, c, base).rows, assets, agent, cs[..n], c);
    }
  }

  lemma {:induction false} ServedBindsNothing(
    rows: Rows, assets: Assets, agent: Agent, role: nat, cs: seq<Candidate>, base: RowId)
    requires Served(rows, assets, agent, cs)
    ensures var p := BindAll(rows, assets, agent, role, cs, base);
      p.rows == rows && p.ids == [] && !p.aborted
  {
    if cs == [] {
    } else {
      var n := |cs| - 1;
      assert cs[n] in cs;
      ServedBindsNothing(rows, assets, agent, role, cs[..n], base);
    }
  }

  /** Binding the same candidates again, with nothing changed in between, binds
      nothing. */
  lemma BindingTwiceIsOnce(
    rows: Rows, assets: Assets, agent: Agent, role: nat, cs: seq<Candidate>, base: RowId, again: RowId)
    requires Inv(rows, base) && !BindAll(rows, assets, agent, role, cs, base).aborted
    ensures var p := BindAll(rows, assets, agent, role, cs, base);
      var q := BindAll(p.rows, assets, agent, role, cs, again);
      && q.rows == p.rows && q.ids == [] && !q.aborted
  {
    var p := BindAll(rows, assets, agent, role, cs, base);
    BindAllLaws(rows, assets, agent, role, cs, base);
    ServedBindsNothing(p.rows, assets, agent, role, cs, again);
  }

  ghost predicate Proposed(cs: seq<Candidate>, asset: AssetId) {
    exists c :: c in cs && c.asset == asset
  }

  // The row carries out a proposal: its asset, on its terms.
  ghost predicate CarriesOut(cs: seq<Candidate>, r: Row) {
    exists c :: c in cs && c.asset == r.asset && c.kind == r.kind && c.priority == r.priority
  }

  // What is served stays served under any list that proposes the same assets.
  lemma SameAssetsServed(rows: Rows, assets: Assets, agent: Agent, cs: seq<Candidate>, ds: seq<Candidate>)
    requires Served(rows, assets, agent, cs) && forall d :: d in ds ==> Proposed(cs, d.asset)
    ensures Served(rows, assets, agent, ds)
  {
    forall d | d in ds && IsActive(assets, d) ensures CurrentKey(rows, agent, d.asset, assets[d.asset].version) {
      assert Proposed(cs, d.asset);
      var c :| c in cs && c.asset == d.asset;
      assert IsActive(assets, c);
    }
  }

  /** An active candidate is visible at its version afterwards unless a disabled
      current row of that version was already there: such a row counts as an
      existing binding and is left disabled. */
  lemma VisibleAfterBindingIff(
    rows: Rows, assets: Assets, agent: Agent, role: nat, cs: seq<Candidate>, base: RowId, k: nat)
    requires Inv(rows, base) && !BindAll(rows, assets, agent, role, cs, base).aborted
    requires k < |cs| && cs[k].asset in assets && assets[cs[k].asset].active
    ensures var v := assets[cs[k].asset].version;
      AlreadyThere(BindAll(rows, assets, agent, role, cs, base).rows, agent, cs[k].asset, v) <==>
      forall i :: i in rows && HasKey(rows[i], agent, cs[k].asset, v) ==> rows[i].enabled
  {
    var p, s, v := BindAll(rows, assets, agent, role, cs, base), cs[k].asset, assets[cs[k].asset].version;
    BindAllLaws(rows, assets, agent, role, cs, base);
    assert cs[k] in cs && IsActive(assets, cs[k]);
    assert CurrentKey(p.rows, agent, s, v);
    var i :| i in p.rows && HasKey(p.rows[i], agent, s, v) && Current(p.rows[i]);
    assert forall j :: j in p.rows && HasKey(p.rows[j], agent, s, v) ==> j == i;
  }

  // A binding invalidated by a cascade is not bound anew when its asset is active again.
  lemma InvalidatedStaysInvisible(agent: Agent, asset: AssetId, v: Version, now: Time)
    ensures var rows := Cascade(Create(map[], 0, agent, asset, OnDemand, Normal, 0, v), asset, now);
      var p := BindAll(rows, map[asset := AssetState(true, v)], agent, 0, [Candidate(asset, OnDemand, Normal)], 1);
      p.existing == 1 && p.rows == rows && !HasVisible(p.rows, agent, asset)
  {
    var first := Create(map[], 0, agent, asset, OnDemand, Normal, 0, v);
    assert first == map[0 := NewRow(agent, 0, asset, OnDemand, Normal, v)];
    var rows := Cascade(first, asset, now);
    assert 0 in rows && HasKey(rows[0], agent, asset, v) && Current(rows[0]);
    assert [Candidate(asset, OnDemand, Normal)][..0] == [];
  }

  // ----- Runs -----

  datatype Db = Db(rows: Rows, next: RowId)

  datatype Op =
    | DoCreate(agent: Agent, asset: AssetId, kind: BindingType, priority: Priority, role: nat, version: Version)
    | DoBind(agent: Agent, role: nat, assets: Assets, cs: seq<Candidate>)
    | DoWriteCopy(
        agent: Agent, asset: AssetId, version: Version, kind: BindingType, priority: Priority, role: nat, now: Time)
    | DoCascade(asset: AssetId, now: Time)
    | DoCleanup(cutoff: Time)
    | DoDelete(id: RowId)
    | DoPriority(id: RowId, priority: Priority)

  function Apply(d: Db, op: Op): Db {
    match op
    case DoCreate(agent, asset, kind, priority, role, version) =>
      Db(Create(d.rows, d.next, agent, asset, kind, priority, role, version), d.next + 1)
    case DoBind(agent, role, assets, cs) =>
      var p := BindAll(d.rows, assets, agent, role, cs, d.next);
      Db(if p.aborted then d.rows else p.rows, d.next + |p.ids|)
    case DoWriteCopy(agent, asset, version, kind, priority, role, now) =>
      var r := WriteCopy(d.rows, d.next, agent, asset, version, kind, priority, role, now);
      Db(if r.Some? then r.value else d.rows, d.next + 1)
    case DoCascade(asset, now) => d.(rows := Cascade(d.rows, asset, now))
    case DoCleanup(cutoff) => d.(rows := Cleanup(d.rows, cutoff))
    case DoDelete(id) => d.(rows := d.rows - {id})
    case DoPriority(id, priority) =>
      if id in d.rows then d.(rows := d.rows[id := d.rows[id].(priority := priority)]) else d
  }

  lemma WriteCopyOp(
    rows: Rows, id: RowId, agent: Agent, asset: AssetId, version: Version, kind: BindingType, priority: Priority,
    role: nat, now: Time)
    ensures var after := WriteCopy(rows, id, agent, asset, version, kind, priority, role, now);
      Apply(Db(rows, id), DoWriteCopy(agent, asset, version, kind, priority, role, now)) ==
        Db(if after.Some? then after.value else rows, id + 1)
  {}

  function Run(d: Db, ops: seq<Op>): Db
    decreases |ops|
  {
    if ops == [] then d else Run(Apply(d, ops[0]), ops[1..])
  }

  // What may become of a row while it exists.
  ghost predicate Ages(a: Row, b: Row) {
    && HasKey(b, a.agent, a.asset, a.version)
    && (!a.enabled ==> !b.enabled)
    && (a.supersededAt.Some? ==> b.supersededAt == a.supersededAt)
  }

  ghost predicate RowsAge(d: Db, e: Db) {
    && d.next <= e.next
    && (forall id :: id in d.rows && id in e.rows ==> Ages(d.rows[id], e.rows[id]))
    && (forall id :: id in e.rows && id !in d.rows ==> id >= d.next)
  }

  lemma BindKeeps(d: Db, op: Op)
    requires Inv(d.rows, d.next) && op.DoBind?
    ensures Inv(Apply(d, op).rows, Apply(d, op).next) && RowsAge(d, Apply(d, op))
  {
    hide UniqueKeys, HasKey, StatesOk, BindAll, Served, Blocked;
    BindAllLaws(d.rows, op.assets, op.agent, op.role, op.cs, d.next);
    SelfAges(d.rows);
  }

  lemma SelfAges(rows: Rows)
    ensures forall id :: id in rows ==> Ages(rows[id], rows[id])
  {}

  lemma WriteCopyKeeps(d: Db, op: Op)
    requires Inv(d.rows, d.next) && op.DoWriteCopy?
    ensures Inv(Apply(d, op).rows, Apply(d, op).next) && RowsAge(d, Apply(d, op))
  {
    if !AlreadyThere(d.rows, op.agent, op.asset, op.version) && !KeyTaken(d.rows, op.agent, op.asset, op.version) {
      var marked := Supersede(d.rows, op.agent, op.asset, op.now);
      assert forall i :: i in marked ==>
        i in d.rows && HasKey(marked[i], d.rows[i].agent, d.rows[i].asset, d.rows[i].version);
      assert !KeyTaken(marked, op.agent, op.asset, op.version);
      assert Inv(marked, d.next);
      InsertKeepsInv(marked, d.next, NewRow(op.agent, op.role, op.asset, op.kind, op.priority, op.version));
    }
  }

  // Operations that add no row only have to age the rows they keep.
  lemma AgingKeeps(d: Db, rows: Rows)
    requires Inv(d.rows, d.next) && rows.Keys <= d.rows.Keys
    requires forall id :: id in rows ==> Ages(d.rows[id], rows[id]) && StatesOk(rows[id])
    ensures Inv(rows, d.next) && RowsAge(d, d.(rows := rows))
  {}

  lemma ApplyKeeps(d: Db, op: Op)
    requires Inv(d.rows, d.next)
    ensures Inv(Apply(d, op).rows, Apply(d, op).next) && RowsAge(d, Apply(d, op))
  {
    hide BindAll, WriteCopy, UniqueKeys, RowsAge;
    match op
    case DoBind(_, _, _, _) => BindKeeps(d, op);
    case DoWriteCopy(_, _, _, _, _, _, _) => WriteCopyKeeps(d, op);
    case DoCreate(_, _, _, _, _, _) => CreateKeeps(d, op);
    case _ => AgingKeeps(d, Apply(d, op).rows);
  }

  lemma CreateKeeps(d: Db, op: Op)
    requires Inv(d.rows, d.next) && op.DoCreate?
    ensures Inv(Apply(d, op).rows, Apply(d, op).next) && RowsAge(d, Apply(d, op))
  {
    hide UniqueKeys;
    if KeyTaken(d.rows, op.agent, op.asset, op.version) {
      AgingKeeps(d, Apply(d, op).rows);
    } else {
      InsertKeepsInv(d.rows, d.next, NewRow(op.agent, op.role, op.asset, op.kind, op.priority, op.version));
    }
  }

  /** In every run (agent, asset, version) stays unique, superseded rows are
      disabled, disabled rows were superseded or invalidated, no row is ever
      enabled again, and a superseded row keeps its mark until it is removed. */
  lemma {:induction false} RunLaws(d: Db, ops: seq<Op>)
    requires Inv(d.rows, d.next)
    ensures Inv(Run(d, ops).rows, Run(d, ops).next) && RowsAge(d, Run(d, ops))
    decreases |ops|
  {
    if ops == [] {
    } else {
      var e := Apply(d, ops[0]);
      ApplyKeeps(d, ops[0]);
      RunLaws(e, ops[1..]);
    }
  }

  ghost predicate OneCurrentPerPair(rows: Rows) {
    forall agent, asset :: OneCurrent(rows, agent, asset)
  }

  /** Runs that create bindings by write-copy only keep at most one current row per
      agent and asset. */
  lemma {:induction false} WriteCopyRunsKeepOneCurrent(d: Db, ops: seq<Op>)
    requires Inv(d.rows, d.next) && OneCurrentPerPair(d.rows)
    requires forall op :: op in ops ==> !op.DoCreate? && !op.DoBind?
    ensures OneCurrentPerPair(Run(d, ops).rows)
    decreases |ops|
  {
    if ops == [] {
    } else {
      var e := Apply(d, ops[0]);
      assert ops[0] in ops;
      ApplyKeeps(d, ops[0]);
      forall agent, asset ensures OneCurrent(e.rows, agent, asset) {
        assert OneCurrent(d.rows, agent, asset);
        StepKeepsOneCurrent(d, ops[0], agent, asset);
      }
      WriteCopyRunsKeepOneCurrent(e, ops[1..]);
    }
  }

  lemma StepKeepsOneCurrent(d: Db, op: Op, agent: Agent, asset: AssetId)
    requires Inv(d.rows, d.next) && OneCurrent(d.rows, agent, asset) && !op.DoCreate? && !op.DoBind?
    ensures OneCurrent(Apply(d, op).rows, agent, asset)
  {
    match op
    case DoWriteCopy(a, s, v, kind, priority, role, now) =>
      if WriteCopy(d.rows, d.next, a, s, v, kind, priority, role, now).Some? {
        WriteCopyLaws(d.rows, d.next, a, s, v, kind, priority, role, now);
      }
    case _ =>
  }

  // ----- The service -----

  // A template rule: how many assets to take from each category it covers.
  datatype Entry = Entry(prefix: nat, kind: BindingType, priority: Priority, max: nat)

  datatype AutoBindResult = AutoBindResult(
    matched: nat, bound: nat, skippedInactive: nat, skippedExisting: nat, ids: seq<RowId>)

  function Matches(taskType: nat, category: nat): Route -> bool {
    (r: Route) => r.taskType == taskType && r.category == category && r.autoBind
  }

  function InCategory(category: nat): Route -> bool {
    (r: Route) => r.category == category && r.autoBind
  }

  function Proposals(routes: seq<Route>): seq<Candidate> {
    seq(|routes|, i requires 0 <= i < |routes| => Candidate(routes[i].asset, routes[i].kind, routes[i].priority))
  }

  // The first `max` routed assets of a category, on the entry's terms.
  function Block(routes: seq<Route>, e: Entry, category: nat): (cs: seq<Candidate>)
    ensures |cs| <= e.max
  {
    var all := Filter(InCategory(category), routes);
    var taken := if e.max < |all| then all[..e.max] else all;
    seq(|taken|, i requires 0 <= i < |taken| => Candidate(taken[i].asset, e.kind, e.priority))
  }

  function EntryBlocks(routes: seq<Route>, e: Entry, categories: seq<nat>): seq<Candidate> {
    if categories == [] then []
    else EntryBlocks(routes, e, categories[..|categories|-1]) + Block(routes, e, categories[|categories|-1])
  }

  function TemplateBlocks(routes: seq<Route>, entries: seq<Entry>, categories: seq<seq<nat>>): seq<Candidate>
    requires |entries| == |categories|
  {
    if entries == [] then []
    else
      var n := |entries| - 1;
      TemplateBlocks(routes, entries[..n], categories[..n]) + EntryBlocks(routes, entries[n], categories[n])
  }

  class BindingService {
    var rows: Rows
    var routes: seq<Route>
    var assets: Assets

    constructor (routes: seq<Route>, assets: Assets)
      ensures rows == map[] && this.routes == routes && this.assets == assets
    {
      rows, this.routes, this.assets := map[], routes, assets;
    }

    method CreateBinding(
      id: RowId, agent: Agent, asset: AssetId, kind: BindingType, priority: Priority, role: nat,
      version: Version)
      returns (r: RowId)
      requires UniqueKeys(rows)
      modifies this`rows
      ensures rows == Create(old(rows), id, agent, asset, kind, priority, role, version)
      ensures rows == Apply(Db(old(rows), id), DoCreate(agent, asset, kind, priority, role, version)).rows
      ensures r in rows && HasKey(rows[r], agent, asset, version)
    {
      if existing :| existing in rows && HasKey(rows[existing], agent, asset, version) {
        ghost var was := rows;
        rows := rows[existing := Retouched(rows[existing], role, kind, priority)];
        assert rows.Keys == Create(was, id, agent, asset, kind, priority, role, version).Keys;
        return existing;
      }
      rows := rows[id := NewRow(agent, role, asset, kind, priority, version)];
      r := id;
    }

    method UpdatePriority(id: RowId, priority: Priority) returns (found: bool)
      modifies this`rows
      ensures found <==> id in old(rows)
      ensures rows == Apply(Db(old(rows), 0), DoPriority(id, priority)).rows
      ensures rows.Keys == old(rows).Keys
      ensures forall i :: i in rows ==>
        rows[i] == if i == id then old(rows)[i].(priority := priority) else old(rows)[i]
    {
      found := id in rows;
      if found {
        rows := rows[id := rows[id].(priority := priority)];
      }
    }

    method DeleteBinding(id: RowId) returns (found: bool)
      modifies this`rows
      ensures found == (id in old(rows)) && rows == old(rows) - {id}
      ensures rows == Apply(Db(old(rows), 0), DoDelete(id)).rows
    {
      found := id in rows;
      rows := rows - {id};
    }

    method CascadeInvalidate(asset: AssetId, now: Time) returns (count: nat)
      modifies this`rows
      ensures rows == Cascade(old(rows), asset, now) == Apply(Db(old(rows), 0), DoCascade(asset, now)).rows
      ensures count == |Enabled(old(rows), asset)| && Enabled(rows, asset) == {}
    {
      CascadeLaws(rows, asset, now, now);
      var found := Enabled(rows, asset);
      count := |found|;
      rows := map i | i in rows ::
        if i in found then rows[i].(enabled := false, invalidatedAt := Some(now)) else rows[i];
    }

    method CleanupSuperseded(now: Time, ttl: nat) returns (count: nat)
      modifies this`rows
      ensures rows == Cleanup(old(rows), now - ttl) == Apply(Db(old(rows), 0), DoCleanup(now - ttl)).rows
      ensures count == |old(rows)| - |rows|
    {
      var cutoff := now - ttl;
      var expired := set i | i in rows && Expired(rows[i], cutoff);
      count := |expired|;
      ghost var was := rows;
      rows := rows - expired;
      assert was.Keys == rows.Keys + expired;
    }

    /** Aborts, leaving the table alone, when the unique key refuses the new row. */
    method WriteCopyOnVersionChange(
      id: RowId, agent: Agent, asset: AssetId, version: Version, kind: BindingType, priority: Priority,
      role: nat, now: Time)
      returns (r: Option<RowId>)
      requires UniqueKeys(rows) && id !in rows
      modifies this`rows
      ensures var after := WriteCopy(old(rows), id, agent, asset, version, kind, priority, role, now);
        && rows == (if after.Some? then after.value else old(rows))
        && (r.Some? <==> after.Some?)
        && (r.Some? ==> r.value in rows && HasKey(rows[r.value], agent, asset, version) && Visible(rows[r.value]))
      ensures rows ==
        Apply(Db(old(rows), id), DoWriteCopy(agent, asset, version, kind, priority, role, now)).rows
    {
      hide Apply;
      WriteCopyOp(rows, id, agent, asset, version, kind, priority, role, now);
      var active := set i | i in rows && OfPair(rows[i], agent, asset) && Current(rows[i]);
      if existing :| existing in active && rows[existing].version == version && rows[existing].enabled {
        assert HasKey(rows[existing], agent, asset, version);
        return Some(existing);
      }
      if KeyTaken(rows, agent, asset, version) {
        return None;
      }
      var inserted := rows[id := NewRow(agent, role, asset, kind, priority, version)];
      rows := map i | i in inserted ::
        if i in active then inserted[i].(supersededAt := Some(now), enabled := false) else inserted[i];
      r := Some(id);
    }

    /** Binds the routed assets of a task type and category; None when the database
        refuses a row, in which case nothing is bound. */
    method AutoBind(
      agent: Agent, taskType: nat, category: nat, role: nat, base: RowId)
      returns (r: Option<AutoBindResult>)
      modifies this`rows
      ensures var matched := Filter(Matches(taskType, category), routes);
        var p := BindAll(old(rows), assets, agent, role, Proposals(matched), base);
        && rows == (if p.aborted then old(rows) else p.rows)
        && r == if p.aborted then None else Some(AutoBindResult(|matched|, |p.ids|, p.inactive, p.existing, p.ids))
      ensures rows == Apply(
        Db(old(rows), base), DoBind(agent, role, assets, Proposals(Filter(Matches(taskType, category), routes)))).rows
      ensures r.None? ==> rows == old(rows)
      ensures r.Some? ==>
        && r.value.matched ==
             |Filter((x: Route) => x.autoBind && x.taskType == taskType && x.category == category, routes)|
        && r.value.bound == |r.value.ids|
        && forall i :: 0 <= i < |r.value.ids| ==>
             r.value.ids[i] in rows && BoundByRoute(routes, taskType, category, rows[r.value.ids[i]])
    {
      var matched := Filter(Matches(taskType, category), routes);
      var cs := Proposals(matched);
      var p := Progress(rows, [], 0, 0, false);
      for i := 0 to |matched|
        invariant p == BindAll(old(rows), assets, agent, role, cs[..i], base)
      {
        var route := matched[i];
        assert cs[..i+1][..i] == cs[..i];
        p := Advance(p, assets, agent, role, Candidate(route.asset, route.kind, route.priority), base);
      }
      assert cs[..|matched|] == cs;
      if p.aborted {
        return None;
      }
      MatchedAre(routes, taskType, category);
      BoundByRoutes(rows, assets, agent, role, routes, taskType, category, base);
      rows := p.rows;
      r := Some(AutoBindResult(|matched|, |p.ids|, p.inactive, p.existing, p.ids));
    }

    /** The categories a template entry covers: among those offered, or, when none
        are offered, among all that have routes to bind automatically. */
    method MatchedCategories(e: Entry, covers: (nat, nat) -> bool, available: Option<seq<nat>>) returns (r: seq<nat>)
      ensures CategoriesFor(e, covers, available, routes, r)
    {
      if available.Some? {
        r := Filter((c: nat) => covers(e.prefix, c), available.value);
      } else {
        var todo :=
          set i | 0 <= i < |routes| && routes[i].autoBind && covers(e.prefix, routes[i].category) :: routes[i].category;
        ghost var all := todo;
        r := [];
        while todo != {}
          invariant todo <= all
          invariant forall c :: c in r <==> c in all && c !in todo
          invariant forall i, j :: 0 <= i < j < |r| ==> r[i] != r[j]
          decreases todo
        {
          var c :| c in todo;
          r := r + [c];
          todo := todo - {c};
        }
      }
    }

    // The loop over one category of one entry, after the candidates `done`.
    method BindBlock(
      p0: Progress, ghost done: seq<Candidate>, agent: Agent, role: nat, block: seq<Candidate>,
      base: RowId)
      returns (p: Progress)
      requires p0 == BindAll(rows, assets, agent, role, done, base)
      ensures p == BindAll(rows, assets, agent, role, done + block, base)
    {
      hide Advance;
      p := p0;
      assert done + block[..0] == done;
      for k := 0 to |block|
        invariant p == BindAll(rows, assets, agent, role, done + block[..k], base)
      {
        p := Advance(p, assets, agent, role, block[k], base);
        assert (done + block[..k+1])[..|done|+k] == done + block[..k];
      }
      assert block[..|block|] == block;
    }

    // The loop over the categories of one entry.
    method BindEntry(
      p0: Progress, ghost done: seq<Candidate>, agent: Agent, role: nat, e: Entry, categories: seq<nat>,
      base: RowId)
      returns (p: Progress)
      requires p0 == BindAll(rows, assets, agent, role, done, base)
      ensures p == BindAll(rows, assets, agent, role, done + EntryBlocks(routes, e, categories), base)
    {
      hide Advance, Block, BindAll;
      p := p0;
      ghost var sofar := [];
      assert done + sofar == done;
      for j := 0 to |categories|
        invariant sofar == EntryBlocks(routes, e, categories[..j])
        invariant p == BindAll(rows, assets, agent, role, done + sofar, base)
      {
        var block := Block(routes, e, categories[j]);
        p := BindBlock(p, done + sofar, agent, role, block, base);
        assert categories[..j+1][..j] == categories[..j];
        assert (done + sofar) + block == done + (sofar + block);
        sofar := sofar + block;
      }
      assert categories[..|categories|] == categories;
    }

    /** Applies each template entry to the categories it covers, category by
        category, at most `max` assets from each. */
    method ApplyRoleTemplate(
      agent: Agent, role: nat, entries: seq<Entry>, covers: (nat, nat) -> bool,
      available: Option<seq<nat>>, base: RowId)
      returns (ids: Option<seq<RowId>>, ghost categories: seq<seq<nat>>)
      modifies this`rows
      ensures |categories| == |entries|
      ensures forall i :: 0 <= i < |entries| ==> CategoriesFor(entries[i], covers, available, routes, categories[i])
      ensures var p := BindAll(old(rows), assets, agent, role, TemplateBlocks(routes, entries, categories), base);
        && rows == (if p.aborted then old(rows) else p.rows)
        && ids == if p.aborted then None else Some(p.ids)
      ensures rows == Apply(
        Db(old(rows), base), DoBind(agent, role, assets, TemplateBlocks(routes, entries, categories))).rows
      ensures ids.None? ==> rows == old(rows)
      ensures ids.Some? ==> forall i :: 0 <= i < |ids.value| ==>
        ids.value[i] in rows && BoundByEntry(routes, entries, covers, available, rows[ids.value[i]])
    {
      hide Advance, EntryBlocks, BindAll, CategoriesFor;
      categories := [];
      ghost var done := [];
      var p := Progress(rows, [], 0, 0, false);
      NothingBound(rows, assets, agent, role, base);
      for i := 0 to |entries|
        invariant |categories| == i && rows == old(rows)
        invariant forall k :: 0 <= k < i ==> CategoriesFor(entries[k], covers, available, routes, categories[k])
        invariant done == TemplateBlocks(routes, entries[..i], categories)
        invariant p == BindAll(rows, assets, agent, role, done, base)
      {
        var matched := MatchedCategories(entries[i], covers, available);
        p := BindEntry(p, done, agent, role, entries[i], matched, base);
        assert entries[..i+1][..i] == entries[..i] && (categories + [matched])[..i] == categories;
        categories := categories + [matched];
        done := done + EntryBlocks(routes, entries[i], matched);
      }
      assert entries[..|entries|] == entries;
      if p.aborted {
        return None, categories;
      }
      BoundByEntries(rows, assets, agent, role, routes, entries, covers, available, categories, base);
      rows := p.rows;
      ids := Some(p.ids);
    }
  }

  // The row carries the asset, type and priority of a route for this task and category.
  ghost predicate BoundByRoute(routes: seq<Route>, taskType: nat, category: nat, r: Row) {
    exists x :: x in routes && RoutesTo(x, taskType, category) && SameTerms(x, Candidate(r.asset, r.kind, r.priority))
  }

  predicate RoutesTo(x: Route, taskType: nat, category: nat) {
    x.autoBind && x.taskType == taskType && x.category == category
  }

  predicate SameTerms(x: Route, c: Candidate) {
    x.asset == c.asset && x.kind == c.kind && x.priority == c.priority
  }

  lemma MatchedAre(routes: seq<Route>, taskType: nat, category: nat)
    ensures Filter(Matches(taskType, category), routes) ==
      Filter((x: Route) => x.autoBind && x.taskType == taskType && x.category == category, routes)
    ensures forall c :: c in Proposals(Filter(Matches(taskType, category), routes)) ==>
      exists x :: x in routes && RoutesTo(x, taskType, category) && SameTerms(x, c)
  {
    var matched := Filter(Matches(taskType, category), routes);
    FilterAgree(Matches(taskType, category),
                (x: Route) => x.autoBind && x.taskType == taskType && x.category == category, routes);
    FilterMembers(Matches(taskType, category), routes);
    var cs := Proposals(matched);
    forall c | c in cs
      ensures exists x :: x in routes && RoutesTo(x, taskType, category) && SameTerms(x, c)
    {
      var i :| 0 <= i < |cs| && cs[i] == c;
      assert matched[i] in matched && SameTerms(matched[i], c);
    }
  }

  lemma BoundByRoutes(
    rows: Rows, assets: Assets, agent: Agent, role: nat, routes: seq<Route>, taskType: nat, category: nat,
    base: RowId)
    ensures var p := BindAll(rows, assets, agent, role, Proposals(Filter(Matches(taskType, category), routes)), base);
      forall i :: 0 <= i < |p.ids| ==> p.ids[i] in p.rows && BoundByRoute(routes, taskType, category, p.rows[p.ids[i]])
  {
    hide Filter, Proposals;
    var cs := Proposals(Filter(Matches(taskType, category), routes));
    MatchedAre(routes, taskType, category);
    BindMore(rows, assets, agent, role, [], cs, base);
    NothingBound(rows, assets, agent, role, base);
    assert [] + cs == cs;
  }

  ghost predicate CategoriesFor(
    e: Entry, covers: (nat, nat) -> bool, available: Option<seq<nat>>, routes: seq<Route>, cs: seq<nat>)
  {
    match available
    case Some(offered) => cs == Filter((c: nat) => covers(e.prefix, c), offered)
    case None =>
      && (forall i, j :: 0 <= i < j < |cs| ==> cs[i] != cs[j])
      && forall c :: c in cs <==>
           covers(e.prefix, c) && exists i :: 0 <= i < |routes| && routes[i].autoBind && routes[i].category == c
  }

  lemma NothingBound(rows: Rows, assets: Assets, agent: Agent, role: nat, base: RowId)
    ensures BindAll(rows, assets, agent, role, [], base) == Progress(rows, [], 0, 0, false)
  {}

  ghost predicate InTemplate(
    routes: seq<Route>, entries: seq<Entry>, categories: seq<seq<nat>>, i: int, g: nat, c: Candidate)
    requires |entries| == |categories|
  {
    0 <= i < |entries| && g in categories[i] && c in Block(routes, entries[i], g)
  }

  lemma {:induction false} EntryMembers(routes: seq<Route>, e: Entry, categories: seq<nat>, c: Candidate)
    ensures c in EntryBlocks(routes, e, categories) <==> exists g :: g in categories && c in Block(routes, e, g)
  {
    hide Block;
    if categories == [] {
    } else {
      var n := |categories| - 1;
      EntryMembers(routes, e, categories[..n], c);
      assert categories == categories[..n] + [categories[n]];
    }
  }

  lemma {:induction false} TemplateMembers(
    routes: seq<Route>, entries: seq<Entry>, categories: seq<seq<nat>>, c: Candidate)
    requires |entries| == |categories|
    ensures c in TemplateBlocks(routes, entries, categories) <==>
      exists i, g :: InTemplate(routes, entries, categories, i, g, c)
  {
    hide Block, EntryBlocks;
    if entries == [] {
    } else {
      var n := |entries| - 1;
      TemplateMembers(routes, entries[..n], categories[..n], c);
      EntryMembers(routes, entries[n], categories[n], c);
      if c in TemplateBlocks(routes, entries[..n], categories[..n]) {
        var i, g :| InTemplate(routes, entries[..n], categories[..n], i, g, c);
        assert InTemplate(routes, entries, categories, i, g, c);
      } else if c in EntryBlocks(routes, entries[n], categories[n]) {
        var g :| g in categories[n] && c in Block(routes, entries[n], g);
        assert InTemplate(routes, entries, categories, n, g, c);
      }
      if i, g :| InTemplate(routes, entries, categories, i, g, c) {
        if i < n {
          assert InTemplate(routes, entries[..n], categories[..n], i, g, c);
        }
      }
    }
  }

  // The row carries an asset routed to a category that an entry covers, among the
  // categories offered if any are, on the terms of that entry.
  ghost predicate BoundByEntry(
    routes: seq<Route>, entries: seq<Entry>, covers: (nat, nat) -> bool, available: Option<seq<nat>>, r: Row)
  {
    exists e, g :: e in entries && covers(e.prefix, g) && (available.Some? ==> g in available.value)
      && RoutedTo(routes, g, r.asset) && r.kind == e.kind && r.priority == e.priority
  }

  lemma CoveredCategories(
    e: Entry, covers: (nat, nat) -> bool, available: Option<seq<nat>>, routes: seq<Route>, cs: seq<nat>, g: nat)
    requires CategoriesFor(e, covers, available, routes, cs) && g in cs
    ensures covers(e.prefix, g) && (available.Some? ==> g in available.value)
  {
    if available.Some? {
      FilterMembers((c: nat) => covers(e.prefix, c), available.value);
    }
  }

  lemma BoundByEntries(
    rows: Rows, assets: Assets, agent: Agent, role: nat, routes: seq<Route>, entries: seq<Entry>,
    covers: (nat, nat) -> bool, available: Option<seq<nat>>, categories: seq<seq<nat>>, base: RowId)
    requires |categories| == |entries|
    requires forall i :: 0 <= i < |entries| ==> CategoriesFor(entries[i], covers, available, routes, categories[i])
    ensures var p := BindAll(rows, assets, agent, role, TemplateBlocks(routes, entries, categories), base);
      forall i :: 0 <= i < |p.ids| ==>
        p.ids[i] in p.rows && BoundByEntry(routes, entries, covers, available, p.rows[p.ids[i]])
  {
    hide BindAll, TemplateBlocks, Block, CategoriesFor, RoutedTo, BoundByEntry;
    var cs := TemplateBlocks(routes, entries, categories);
    var p := BindAll(rows, assets, agent, role, cs, base);
    BindMore(rows, assets, agent, role, [], cs, base);
    NothingBound(rows, assets, agent, role, base);
    assert [] + cs == cs;
    forall i | 0 <= i < |p.ids| ensures BoundByEntry(routes, entries, covers, available, p.rows[p.ids[i]]) {
      var r := p.rows[p.ids[i]];
      assert CarriesOut(cs, r);
      var c :| c in cs && c.asset == r.asset && c.kind == r.kind && c.priority == r.priority;
      TemplateMembers(routes, entries, categories, c);
      var k, g :| InTemplate(routes, entries, categories, k, g, c);
      BlockIsRouted(routes, entries[k], g, c);
      CoveredCategories(entries[k], covers, available, routes, categories[k], g);
      IsBoundByEntry(routes, entries, covers, available, r, entries[k], g);
    }
  }

  lemma IsBoundByEntry(
    routes: seq<Route>, entries: seq<Entry>, covers: (nat, nat) -> bool, available: Option<seq<nat>>, r: Row,
    e: Entry, g: nat)
    requires e in entries && covers(e.prefix, g) && (available.Some? ==> g in available.value)
    requires RoutedTo(routes, g, r.asset) && r.kind == e.kind && r.priority == e.priority
    ensures BoundByEntry(routes, entries, covers, available, r)
  {}

  // The categories an entry covers may be visited in any order, but they are the same.
  lemma SameCategories(
    e: Entry, covers: (nat, nat) -> bool, available: Option<seq<nat>>, routes: seq<Route>, a: seq<nat>, b: seq<nat>)
    requires CategoriesFor(e, covers, available, routes, a) && CategoriesFor(e, covers, available, routes, b)
    ensures forall g :: g in a <==> g in b
  {}

  // What a second transaction proposes is already served: by the first, or before it.
  ghost predicate Covers(rows: Rows, assets: Assets, agent: Agent, cs: seq<Candidate>, ds: seq<Candidate>) {
    forall d :: d in ds && IsActive(assets, d) ==>
      Proposed(cs, d.asset) || CurrentKey(rows, agent, d.asset, assets[d.asset].version)
  }

  /** A template leaves no covered category out: after it every active asset among the
      first `max` routed to a category that an entry covers is bound at its version. */
  lemma TemplateServesAll(
    rows: Rows, assets: Assets, agent: Agent, role: nat, routes: seq<Route>, entries: seq<Entry>,
    covers: (nat, nat) -> bool, available: Option<seq<nat>>, categories: seq<seq<nat>>, base: RowId,
    k: nat, g: nat, c: Candidate)
    requires Inv(rows, base) && |categories| == |entries| && k < |entries|
    requires forall i :: 0 <= i < |entries| ==> CategoriesFor(entries[i], covers, available, routes, categories[i])
    requires covers(entries[k].prefix, g) && (available.Some? ==> g in available.value)
    requires c in Block(routes, entries[k], g) && IsActive(assets, c)
    ensures var p := BindAll(rows, assets, agent, role, TemplateBlocks(routes, entries, categories), base);
      !p.aborted ==> CurrentKey(p.rows, agent, c.asset, assets[c.asset].version)
  {
    hide BindAll, TemplateBlocks, Block, CurrentKey;
    BlockIsRouted(routes, entries[k], g, c);
    assert g in categories[k] by {
      if available.Some? {
        FilterMembers((x: nat) => covers(entries[k].prefix, x), available.value);
      } else {
        var route :| route in routes && route.autoBind && route.category == g && route.asset == c.asset;
        var i :| 0 <= i < |routes| && routes[i] == route;
      }
    }
    assert InTemplate(routes, entries, categories, k, g, c);
    TemplateMembers(routes, entries, categories, c);
    BindAllLaws(rows, assets, agent, role, TemplateBlocks(routes, entries, categories), base);
  }

  /** Binding a second list of candidates after a first binds nothing if and only if it
      proposes no active asset beyond those the first proposed or that were bound at
      their version before. */
  lemma BindingAgainIff(
    rows: Rows, assets: Assets, agent: Agent, role: nat, cs: seq<Candidate>, ds: seq<Candidate>,
    base: RowId, again: RowId)
    requires Inv(rows, base) && !BindAll(rows, assets, agent, role, cs, base).aborted
    requires again >= base + |BindAll(rows, assets, agent, role, cs, base).ids|
    ensures var p := BindAll(rows, assets, agent, role, cs, base);
      var q := BindAll(p.rows, assets, agent, role, ds, again);
      q.ids == [] && !q.aborted <==> Covers(rows, assets, agent, cs, ds)
  {
    hide BindAll, CurrentKey, UniqueKeys, StatesOk, Blocked;
    var p := BindAll(rows, assets, agent, role, cs, base);
    var q := BindAll(p.rows, assets, agent, role, ds, again);
    BindAllLaws(rows, assets, agent, role, cs, base);
    BindAllLaws(p.rows, assets, agent, role, ds, again);
    if Covers(rows, assets, agent, cs, ds) {
      forall d | d in ds && IsActive(assets, d) ensures CurrentKey(p.rows, agent, d.asset, assets[d.asset].version) {
        if Proposed(cs, d.asset) {
          var c :| c in cs && c.asset == d.asset;
          assert IsActive(assets, c);
        } else {
          CurrentKeyStays(rows, p.rows, agent, d.asset, assets[d.asset].version);
        }
      }
      ServedBindsNothing(p.rows, assets, agent, role, ds, again);
    }
    if q.ids == [] && !q.aborted {
      assert q.rows == p.rows;
      forall d | d in ds && IsActive(assets, d)
        ensures Proposed(cs, d.asset) || CurrentKey(rows, agent, d.asset, assets[d.asset].version)
      {
        NewKeyWasProposed(rows, assets, agent, role, cs, base, d.asset, assets[d.asset].version);
      }
    }
  }

  lemma CurrentKeyStays(rows: Rows, rows': Rows, agent: Agent, asset: AssetId, version: Version)
    requires forall i :: i in rows ==> i in rows' && rows'[i] == rows[i]
    ensures CurrentKey(rows, agent, asset, version) ==> CurrentKey(rows', agent, asset, version)
  {
    if CurrentKey(rows, agent, asset, version) {
      var i :| i in rows && HasKey(rows[i], agent, asset, version) && Current(rows[i]);
      assert i in rows';
    }
  }

  lemma NewKeyWasProposed(
    rows: Rows, assets: Assets, agent: Agent, role: nat, cs: seq<Candidate>, base: RowId,
    asset: AssetId, version: Version)
    requires Inv(rows, base)
    ensures CurrentKey(BindAll(rows, assets, agent, role, cs, base).rows, agent, asset, version) ==>
              Proposed(cs, asset) || CurrentKey(rows, agent, asset, version)
  {
    var p := BindAll(rows, assets, agent, role, cs, base);
    BindAllLaws(rows, assets, agent, role, cs, base);
    BindMore(rows, assets, agent, role, [], cs, base);
    NothingBound(rows, assets, agent, role, base);
    assert [] + cs == cs;
    hide BindAll, UniqueKeys, Served, Blocked, Advance;
    if CurrentKey(p.rows, agent, asset, version) {
      var i :| i in p.rows && HasKey(p.rows[i], agent, asset, version) && Current(p.rows[i]);
      if i !in rows {
        assert p.ids[i - base] == i;
      }
    }
  }

  /** Applying a role template again, with nothing changed in between, binds nothing,
      the routes being read in the same order both times, in whatever order the two
      applications visit the categories. */
  lemma TemplateTwiceIsOnce(
    rows: Rows, assets: Assets, agent: Agent, role: nat, routes: seq<Route>, entries: seq<Entry>,
    covers: (nat, nat) -> bool, available: Option<seq<nat>>, first: seq<seq<nat>>, second: seq<seq<nat>>,
    base: RowId, again: RowId)
    requires Inv(rows, base) && |first| == |second| == |entries|
    requires forall i :: 0 <= i < |entries| ==> CategoriesFor(entries[i], covers, available, routes, first[i])
    requires forall i :: 0 <= i < |entries| ==> CategoriesFor(entries[i], covers, available, routes, second[i])
    requires !BindAll(rows, assets, agent, role, TemplateBlocks(routes, entries, first), base).aborted
    ensures var p := BindAll(rows, assets, agent, role, TemplateBlocks(routes, entries, first), base);
      var q := BindAll(p.rows, assets, agent, role, TemplateBlocks(routes, entries, second), again);
      && q.rows == p.rows && q.ids == [] && !q.aborted
  {
    hide Block, TemplateBlocks, BindAll, CategoriesFor, Served, Inv, Grown, Blocked;
    var cs, ds := TemplateBlocks(routes, entries, first), TemplateBlocks(routes, entries, second);
    var p := BindAll(rows, assets, agent, role, cs, base);
    BindAllLaws(rows, assets, agent, role, cs, base);
    forall d | d in ds ensures Proposed(cs, d.asset) {
      TemplateMembers(routes, entries, first, d);
      TemplateMembers(routes, entries, second, d);
      var i, g :| InTemplate(routes, entries, second, i, g, d);
      SameCategories(entries[i], covers, available, routes, first[i], second[i]);
      assert InTemplate(routes, entries, first, i, g, d);
    }
    SameAssetsServed(p.rows, assets, agent, cs, ds);
    ServedBindsNothing(p.rows, assets, agent, role, ds, again);
  }

  /** The cap holds per category: whatever was bound before, the block of one category
      adds at most `max` bindings, each for an asset routed to that category. */
  lemma CategoryCap(
    rows: Rows, assets: Assets, agent: Agent, role: nat, routes: seq<Route>, e: Entry, category: nat,
    done: seq<Candidate>, base: RowId)
    ensures var p := BindAll(rows, assets, agent, role, done, base);
      var q := BindAll(rows, assets, agent, role, done + Block(routes, e, category), base);
      && p.ids <= q.ids && |q.ids| - |p.ids| <= e.max
      && forall i :: |p.ids| <= i < |q.ids| ==>
           && q.ids[i] in q.rows && RoutedTo(routes, category, q.rows[q.ids[i]].asset)
           && q.rows[q.ids[i]].kind == e.kind && q.rows[q.ids[i]].priority == e.priority
  {
    hide Filter;
    var block := Block(routes, e, category);
    BindMore(rows, assets, agent, role, done, block, base);
    forall c | c in block ensures RoutedTo(routes, category, c.asset) && c.kind == e.kind && c.priority == e.priority {
      BlockIsRouted(routes, e, category, c);
    }
  }

  // Two routes under a cap of one: read in the other order the second time, the table
  // yields the other asset, and a second binding is made.
  lemma RouteOrderMattersUnderCap(agent: Agent, a: AssetId, b: AssetId)
    requires a != b
    ensures var first, second := Route(0, 0, a, OnDemand, Normal, true), Route(0, 0, b, OnDemand, Normal, true);
      var e := Entry(0, OnDemand, Normal, 1);
      var assets: Assets := map[a := AssetState(true, 0), b := AssetState(true, 0)];
      var p := BindAll(map[], assets, agent, 0, Block([first, second], e, 0), 0);
      !p.aborted && BindAll(p.rows, assets, agent, 0, Block([second, first], e, 0), 1).ids == [1]
  {
    var first, second := Route(0, 0, a, OnDemand, Normal, true), Route(0, 0, b, OnDemand, Normal, true);
    var e := Entry(0, OnDemand, Normal, 1);
    FilterAllIff(InCategory(0), [first, second]);
    FilterAllIff(InCategory(0), [second, first]);
    var ca, cb := Candidate(a, OnDemand, Normal), Candidate(b, OnDemand, Normal);
    assert Block([first, second], e, 0) == [ca] && Block([second, first], e, 0) == [cb];
    assert [ca][..0] == [] && [cb][..0] == [];
  }

  /** A category's block is the first of its auto-bind routes, as many as the cap allows,
      in their order. */
  lemma BlockIsFirst(routes: seq<Route>, e: Entry, category: nat)
    ensures var all := Filter((x: Route) => x.autoBind && x.category == category, routes);
      var block := Block(routes, e, category);
      && |block| == (if e.max < |all| then e.max else |all|)
      && forall i :: 0 <= i < |block| ==> block[i] == Candidate(all[i].asset, e.kind, e.priority)
  {
    FilterAgree((x: Route) => x.autoBind && x.category == category, InCategory(category), routes);
  }

  /** Auto-binding leaves out no route of its task type and category: each is counted as
      bound, inactive or existing, and every active asset among them is bound at its
      version afterwards. */
  lemma AutoBindServesAll(
    rows: Rows, assets: Assets, agent: Agent, role: nat, routes: seq<Route>, taskType: nat, category: nat,
    base: RowId, x: Route)
    requires Inv(rows, base)
    ensures var matched := Filter(Matches(taskType, category), routes);
      var p := BindAll(rows, assets, agent, role, Proposals(matched), base);
      !p.aborted ==>
        && |matched| == |p.ids| + p.inactive + p.existing
        && (x in routes && x.autoBind && x.taskType == taskType && x.category == category
              && x.asset in assets && assets[x.asset].active ==>
              CurrentKey(p.rows, agent, x.asset, assets[x.asset].version))
  {
    hide Filter, BindAll, CurrentKey;
    var matched := Filter(Matches(taskType, category), routes);
    FilterMembers(Matches(taskType, category), routes);
    BindAllLaws(rows, assets, agent, role, Proposals(matched), base);
    if x in matched {
      var i :| 0 <= i < |matched| && matched[i] == x;
      assert Proposals(matched)[i] == Candidate(x.asset, x.kind, x.priority);
      assert Proposals(matched)[i] in Proposals(matched) && IsActive(assets, Proposals(matched)[i]) ==
        (x.asset in assets && assets[x.asset].active);
    }
  }

  ghost predicate RoutedTo(routes: seq<Route>, category: nat, asset: AssetId) {
    exists route :: route in routes && route.autoBind && route.category == category && route.asset == asset
  }

  lemma BlockIsRouted(routes: seq<Route>, e: Entry, category: nat, c: Candidate)
    requires c in Block(routes, e, category)
    ensures RoutedTo(routes, category, c.asset) && c.kind == e.kind && c.priority == e.priority
  {
    var all := Filter(InCategory(category), routes);
    FilterMembers(InCategory(category), routes);
    var i :| 0 <= i < |Block(routes, e, category)| && Block(routes, e, category)[i] == c;
    assert all[i] in all && all[i].asset == c.asset;
  }

  lemma {:induction false} BindMore(
    rows: Rows, assets: Assets, agent: Agent, role: nat, done: seq<Candidate>, more: seq<Candidate>,
    base: RowId)
    ensures var p := BindAll(rows, assets, agent, role, done, base);
      var q := BindAll(rows, assets, agent, role, done + more, base);
      && p.ids <= q.ids && |q.ids| <= |p.ids| + |more|
      && (forall i :: 0 <= i < |q.ids| ==> q.ids[i] == base + i && q.ids[i] in q.rows)
      && (forall i :: |p.ids| <= i < |q.ids| ==> CarriesOut(more, q.rows[q.ids[i]]))
    decreases |done| + |more|
  {
    hide Advance;
    if more == [] {
      assert done + more == done;
      if done != [] {
        var n := |done| - 1;
        BindMore(rows, assets, agent, role, done[..n], [], base);
        assert done[..n] + [] == done[..n];
        BindOnce(BindAll(rows, assets, agent, role, done[..n], base), assets, agent, role, done[n], base);
      }
    } else {
      var init, c := more[..|more|-1], more[|more|-1];
      BindMore(rows, assets, agent, role, done, init, base);
      assert (done + more)[..|done + more|-1] == done + init;
      assert more == init + [c];
      var r := BindAll(rows, assets, agent, role, done + init, base);
      var q := BindAll(rows, assets, agent, role, done + more, base);
      assert q == Advance(r, assets, agent, role, c, base);
      BindOnce(r, assets, agent, role, c, base);
      var p := BindAll(rows, assets, agent, role, done, base);
      forall i | |p.ids| <= i < |q.ids| ensures CarriesOut(more, q.rows[q.ids[i]]) {
        if i < |r.ids| {
          var row := r.rows[r.ids[i]];
          assert CarriesOut(init, row);
          var d :| d in init && d.asset == row.asset && d.kind == row.kind && d.priority == row.priority;
          assert d in more;
        } else {
          assert c in more;
        }
      }
    }
  }

  lemma BindOnce(p: Progress, assets: Assets, agent: Agent, role: nat, c: Candidate, base: RowId)
    requires forall i :: 0 <= i < |p.ids| ==> p.ids[i] == base + i && p.ids[i] in p.rows
    ensures var q := Advance(p, assets, agent, role, c, base);
      && p.ids <= q.ids && |q.ids| <= |p.ids| + 1
      && (forall i :: 0 <= i < |q.ids| ==> q.ids[i] == base + i && q.ids[i] in q.rows)
      && (forall i :: 0 <= i < |p.ids| ==> q.rows[q.ids[i]] == p.rows[q.ids[i]])
      && (|p.ids| < |q.ids| ==>
            var r := q.rows[q.ids[|p.ids|]]; r.asset == c.asset && r.kind == c.kind && r.priority == c.priority)
  {}
}
