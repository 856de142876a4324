/** Issuing, rotating and revoking agent API keys (server/binding/auth_service.py):
    every key belongs to one linear rotation chain with at most one active key. */
module ApiKeys {
  import opened Collections

  type KeyId = nat
  type Raw = nat
  type Hash = nat

  type Time = int

  // A status with the stamp written along with it (`rotated_at`, `revoked_at`).
  datatype KeyStatus = Active | Rotated(at: Time) | Revoked(at: Time)
  datatype Key = Key(
    agent: nat, member: nat, hash: Hash, status: KeyStatus, rotatedFrom: Option<KeyId>, issuedAt: Time)

  // `next` is the first unused id.
  datatype Keys = Keys(rows: map<KeyId, Key>, next: KeyId)

  datatype Error = NoSuchKey | NotActive

  predicate CanRotate(k: Keys, id: KeyId) {
    id in k.rows && k.rows[id].status == Active
  }

  function Issue(k: Keys, agent: nat, member: nat, hash: Hash, now: Time): Keys {
    Keys(k.rows[k.next := Key(agent, member, hash, Active, None, now)], k.next + 1)
  }

  function Rotate(k: Keys, id: KeyId, hash: Hash, now: Time): Keys {
    if !CanRotate(k, id) then k
    else
      var was := k.rows[id];
      var marked := k.rows[id := was.(status := Rotated(now))];
      Keys(marked[k.next := Key(was.agent, was.member, hash, Active, Some(id), now)], k.next + 1)
  }

  function Revoke(k: Keys, id: KeyId, now: Time): Keys {
    if CanRotate(k, id) then k.(rows := k.rows[id := k.rows[id].(status := Revoked(now))]) else k
  }

  predicate HashKnown(k: Keys, hash: Hash) {
    exists id :: id in k.rows && k.rows[id].hash == hash
  }

  // Whose active key has this hash.
  ghost predicate Opens(k: Keys, hash: Hash, agent: nat, member: nat) {
    exists id :: id in k.rows && k.rows[id].hash == hash && k.rows[id].status == Active
      && k.rows[id].agent == agent && k.rows[id].member == member
  }

  // ----- Invariant -----

  ghost predicate LinkOk(k: Keys, id: KeyId)
    requires id in k.rows
  {
    var from_ := k.rows[id].rotatedFrom;
    from_.Some? ==>
      && from_.value in k.rows && from_.value < id && k.rows[from_.value].status == Rotated(k.rows[id].issuedAt)
      && k.rows[from_.value].agent == k.rows[id].agent && k.rows[from_.value].member == k.rows[id].member
  }

  ghost predicate RotatedInto(k: Keys, id: KeyId) {
    exists j :: j in k.rows && k.rows[j].rotatedFrom == Some(id)
  }

  ghost predicate LinksOk(k: Keys) {
    forall id :: id in k.rows ==> id < k.next && LinkOk(k, id)
  }

  // No key is rotated into twice, and hashes are unique.
  ghost predicate NoForks(k: Keys) {
    forall i, j :: i in k.rows && j in k.rows && SameSource(k.rows[i], k.rows[j]) ==> i == j
  }

  predicate SameSource(a: Key, b: Key) {
    a.hash == b.hash || (a.rotatedFrom.Some? && a.rotatedFrom == b.rotatedFrom)
  }

  ghost predicate RotatedHaveSuccessors(k: Keys) {
    forall id :: id in k.rows && k.rows[id].status.Rotated? ==> RotatedInto(k, id)
  }

  ghost predicate Inv(k: Keys) {
    LinksOk(k) && NoForks(k) && RotatedHaveSuccessors(k)
  }

  // Successors survive as long as rows keep their links.
  lemma SuccessorsStay(k: Keys, k': Keys, id: KeyId)
    requires RotatedInto(k, id)
    requires forall j :: j in k.rows ==> j in k'.rows && k'.rows[j].rotatedFrom == k.rows[j].rotatedFrom
    ensures RotatedInto(k', id)
  {
    var j :| j in k.rows && k.rows[j].rotatedFrom == Some(id);
    assert j in k'.rows && k'.rows[j].rotatedFrom == Some(id);
  }

  // Adding a key: new hash, and rotated from nothing or from a key just marked.
  lemma AddKeeps(k: Keys, r: Key)
    requires LinksOk(k) && NoForks(k) && !HashKnown(k, r.hash)
    requires r.rotatedFrom.Some? ==>
      && r.rotatedFrom.value in k.rows && k.rows[r.rotatedFrom.value].status == Rotated(r.issuedAt)
      && k.rows[r.rotatedFrom.value].agent == r.agent && k.rows[r.rotatedFrom.value].member == r.member
      && !RotatedInto(k, r.rotatedFrom.value)
    ensures var k' := Keys(k.rows[k.next := r], k.next + 1); LinksOk(k') && NoForks(k')
  {
    var k' := Keys(k.rows[k.next := r], k.next + 1);
    forall id | id in k'.rows ensures id < k'.next && LinkOk(k', id) {
      if id != k.next {
        assert LinkOk(k, id);
      }
    }
  }

  // Changing one status keeps links and uniqueness, unless a rotated key loses its mark.
  lemma RestatusKeeps(k: Keys, id: KeyId, status: KeyStatus)
    requires LinksOk(k) && NoForks(k) && CanRotate(k, id)
    ensures var k' := k.(rows := k.rows[id := k.rows[id].(status := status)]); LinksOk(k') && NoForks(k')
    ensures !RotatedInto(k, id)
  {
    var k' := k.(rows := k.rows[id := k.rows[id].(status := status)]);
    forall i | i in k'.rows ensures i < k'.next && LinkOk(k', i) && k.rows[i].rotatedFrom != Some(id) {
      assert LinkOk(k, i);
    }
  }

  lemma IssueKeeps(k: Keys, agent: nat, member: nat, hash: Hash, now: Time)
    requires Inv(k) && !HashKnown(k, hash)
    ensures Inv(Issue(k, agent, member, hash, now))
  {
    hide LinksOk, NoForks, RotatedInto, HashKnown;
    var k' := Issue(k, agent, member, hash, now);
    NextUnused(k);
    AddKeeps(k, Key(agent, member, hash, Active, None, now));
    forall id | id in k'.rows && k'.rows[id].status.Rotated? ensures RotatedInto(k', id) {
      SuccessorsStay(k, k', id);
    }
  }

  lemma RotateKeeps(k: Keys, id: KeyId, hash: Hash, now: Time)
    requires Inv(k) && !HashKnown(k, hash)
    ensures Inv(Rotate(k, id, hash, now))
  {
    hide LinksOk, NoForks, RotatedInto, HashKnown;
    if CanRotate(k, id) {
      var k', was := Rotate(k, id, hash, now), k.rows[id];
      var marked := k.(rows := k.rows[id := was.(status := Rotated(now))]);
      NextUnused(k);
      RestatusKeeps(k, id, Rotated(now));
      MarkingIsNeutral(k, id, hash, now);
      AddKeeps(marked, Key(was.agent, was.member, hash, Active, Some(id), now));
      forall i | i in k'.rows && k'.rows[i].status.Rotated? ensures RotatedInto(k', i) {
        if i == id {
          Successor(k', id, k.next);
        } else {
          SuccessorsStay(k, k', i);
        }
      }
    }
  }

  lemma Successor(k: Keys, id: KeyId, j: KeyId)
    requires j in k.rows && k.rows[j].rotatedFrom == Some(id)
    ensures RotatedInto(k, id)
  {}

  lemma MarkingIsNeutral(k: Keys, id: KeyId, hash: Hash, now: Time)
    requires id in k.rows
    ensures var marked := k.(rows := k.rows[id := k.rows[id].(status := Rotated(now))]);
      && (HashKnown(marked, hash) ==> HashKnown(k, hash)) && (RotatedInto(marked, id) ==> RotatedInto(k, id))
  {
    var marked := k.(rows := k.rows[id := k.rows[id].(status := Rotated(now))]);
    if HashKnown(marked, hash) {
      var i :| i in marked.rows && marked.rows[i].hash == hash;
      assert i in k.rows && k.rows[i].hash == hash;
    }
    if RotatedInto(marked, id) {
      var i :| i in marked.rows && marked.rows[i].rotatedFrom == Some(id);
      assert i in k.rows && k.rows[i].rotatedFrom == Some(id);
    }
  }

  lemma RevokeKeeps(k: Keys, id: KeyId, now: Time)
    requires Inv(k)
    ensures Inv(Revoke(k, id, now))
  {
    hide LinksOk, NoForks, RotatedInto;
    var k' := Revoke(k, id, now);
    if CanRotate(k, id) {
      RestatusKeeps(k, id, Revoked(now));
      forall i | i in k'.rows && k'.rows[i].status.Rotated? ensures RotatedInto(k', i) {
        SuccessorsStay(k, k', i);
      }
    }
  }

  /** What a new key opens: the agent and member it was issued for, and no other key
      opens anything else than before. */
  lemma IssueOpens(k: Keys, agent: nat, member: nat, hash: Hash, now: Time, h: Hash, a: nat, m: nat)
    requires Inv(k) && !HashKnown(k, hash)
    ensures Opens(Issue(k, agent, member, hash, now), h, a, m) <==>
      if h == hash then a == agent && m == member else Opens(k, h, a, m)
  {
    var k' := Issue(k, agent, member, hash, now);
    NextUnused(k);
    assert k'.rows[k.next] == Key(agent, member, hash, Active, None, now);
    if Opens(k, h, a, m) {
      var id :| id in k.rows && k.rows[id].hash == h && k.rows[id].status == Active
        && k.rows[id].agent == a && k.rows[id].member == m;
      assert id in k'.rows && k'.rows[id] == k.rows[id];
    }
  }

  /** Rotating hands over what the old key opened: from then on the new key opens it, the
      old one nothing, and all others what they did. */
  lemma RotateHandsOver(k: Keys, id: KeyId, hash: Hash, now: Time, h: Hash, a: nat, m: nat)
    requires Inv(k) && !HashKnown(k, hash) && CanRotate(k, id)
    ensures var before := k.rows[id].hash;
      Opens(Rotate(k, id, hash, now), h, a, m) <==>
        if h == hash then Opens(k, before, a, m) else if h == before then false else Opens(k, h, a, m)
  {
    var k', was := Rotate(k, id, hash, now), k.rows[id];
    NextUnused(k);
    assert k'.rows[k.next] == Key(was.agent, was.member, hash, Active, Some(id), now);
    assert k'.rows[id].status == Rotated(now) && k'.rows[id].hash == was.hash;
    forall i | i in k.rows && i != id ensures k.rows[i].hash != was.hash && k'.rows[i] == k.rows[i] {
      assert !SameSource(k.rows[i], was);
    }
    assert h == was.hash && Opens(k, h, a, m) ==> a == was.agent && m == was.member;
    assert was.hash != hash;
  }

  /** A revoked key opens nothing any more, and all others what they did. */
  lemma RevokeCloses(k: Keys, id: KeyId, now: Time, h: Hash, a: nat, m: nat)
    requires Inv(k) && CanRotate(k, id)
    ensures Opens(Revoke(k, id, now), h, a, m) <==> h != k.rows[id].hash && Opens(k, h, a, m)
  {
    var k', was := Revoke(k, id, now), k.rows[id];
    forall i | i in k.rows && i != id ensures k.rows[i].hash != was.hash && k'.rows[i] == k.rows[i] {
      assert !SameSource(k.rows[i], was);
    }
  }

  // ----- Chains -----

  // The key n rotations back, if the chain goes that far.
  ghost function Back(k: Keys, id: KeyId, n: nat): (r: Option<KeyId>)
    requires Inv(k) && id in k.rows
    ensures r.Some? ==> r.value in k.rows
    ensures r.Some? && n > 0 ==> r.value < id
    decreases n
  {
    if n == 0 then Some(id)
    else if k.rows[id].rotatedFrom.None? then None
    else
      assert LinkOk(k, id);
      Back(k, k.rows[id].rotatedFrom.value, n - 1)
  }

  ghost function Origin(k: Keys, id: KeyId): (r: KeyId)
    requires Inv(k) && id in k.rows
    ensures r in k.rows && r <= id
  {
    if k.rows[id].rotatedFrom.None? then id
    else
      assert LinkOk(k, id);
      Origin(k, k.rows[id].rotatedFrom.value)
  }

  ghost predicate DescendsFrom(k: Keys, id: KeyId, earlier: KeyId)
    requires Inv(k) && id in k.rows
  {
    exists n: nat :: Back(k, id, n) == Some(earlier)
  }

  lemma {:induction false} LastLink(k: Keys, id: KeyId, n: nat) returns (q: KeyId)
    requires Inv(k) && id in k.rows && n > 0 && Back(k, id, n).Some?
    ensures q in k.rows && q <= id && k.rows[q].rotatedFrom == Back(k, id, n)
    decreases n
  {
    assert LinkOk(k, id);
    if n == 1 {
      q := id;
      assert Back(k, k.rows[id].rotatedFrom.value, 0) == k.rows[id].rotatedFrom;
    } else {
      q := LastLink(k, k.rows[id].rotatedFrom.value, n - 1);
    }
  }

  /** Along a chain everything but the last key is rotated, and the owner is the
      same. */
  lemma {:induction false} EarlierKeysAreRotated(k: Keys, id: KeyId, n: nat)
    requires Inv(k) && id in k.rows && Back(k, id, n).Some?
    ensures var e := k.rows[Back(k, id, n).value];
      e.agent == k.rows[id].agent && e.member == k.rows[id].member && (n > 0 ==> e.status.Rotated?)
    decreases n
  {
    hide NoForks, RotatedHaveSuccessors, RotatedInto;
    if n == 0 {
    } else {
      assert LinkOk(k, id);
      EarlierKeysAreRotated(k, k.rows[id].rotatedFrom.value, n - 1);
    }
  }

  lemma StepBack(k: Keys, id: KeyId, earlier: KeyId)
    requires Inv(k) && id in k.rows && k.rows[id].rotatedFrom.Some?
    requires k.rows[id].rotatedFrom.value in k.rows && DescendsFrom(k, k.rows[id].rotatedFrom.value, earlier)
    ensures DescendsFrom(k, id, earlier)
  {
    var n: nat :| Back(k, k.rows[id].rotatedFrom.value, n) == Some(earlier);
    assert Back(k, id, n + 1) == Some(earlier);
  }

  /** Chains are linear: of two keys with one origin, one descends from the other. */
  lemma {:induction false} ChainsAreLinear(k: Keys, i: KeyId, j: KeyId)
    requires Inv(k) && i in k.rows && j in k.rows && i <= j && Origin(k, i) == Origin(k, j)
    ensures DescendsFrom(k, j, i)
    decreases j
  {
    if i == j {
      assert Back(k, j, 0) == Some(j);
    } else {
      assert k.rows[j].rotatedFrom.Some?;
      assert LinkOk(k, j);
      var p := k.rows[j].rotatedFrom.value;
      if i <= p {
        ChainsAreLinear(k, i, p);
        StepBack(k, j, i);
      } else {
        ChainsAreLinear(k, p, i);
        var n: nat :| Back(k, i, n) == Some(p);
        var q := LastLink(k, i, n);
      }
    }
  }

  /** Disjoint linear chains: keys with one origin share agent and member, all but the
      last are rotated, and at most the last is active. */
  lemma OneActivePerChain(k: Keys, i: KeyId, j: KeyId)
    requires Inv(k) && i in k.rows && j in k.rows && Origin(k, i) == Origin(k, j)
    ensures k.rows[i].agent == k.rows[j].agent && k.rows[i].member == k.rows[j].member
    ensures i < j ==> k.rows[i].status.Rotated?
    ensures k.rows[i].status == Active && k.rows[j].status == Active ==> i == j
  {
    var a, b := if i <= j then i else j, if i <= j then j else i;
    ChainsAreLinear(k, a, b);
    var n: nat :| Back(k, b, n) == Some(a);
    EarlierKeysAreRotated(k, b, n);
  }

  /** A key is rotated exactly when a later key of its chain exists. */
  lemma RotatedIffSucceeded(k: Keys, id: KeyId)
    requires Inv(k) && id in k.rows
    ensures k.rows[id].status.Rotated? <==> exists j :: j in k.rows && j > id && Origin(k, j) == Origin(k, id)
  {
    if k.rows[id].status.Rotated? {
      var j :| j in k.rows && k.rows[j].rotatedFrom == Some(id);
      assert LinkOk(k, j);
    }
    if j :| j in k.rows && j > id && Origin(k, j) == Origin(k, id) {
      OneActivePerChain(k, id, j);
    }
  }

  // ----- Runs -----

  datatype Op =
    | DoIssue(agent: nat, member: nat, raw: Raw, now: Time)
    | DoRotate(id: KeyId, raw: Raw, now: Time)
    | DoRevoke(id: KeyId, now: Time)

  function Apply(k: Keys, op: Op, hash: Raw -> Hash): Keys {
    match op
    case DoIssue(agent, member, raw, now) => Issue(k, agent, member, hash(raw), now)
    case DoRotate(id, raw, now) => Rotate(k, id, hash(raw), now)
    case DoRevoke(id, now) => Revoke(k, id, now)
  }

  // Generated keys are new, and so are their hashes.
  predicate NewKey(k: Keys, op: Op, hash: Raw -> Hash) {
    op.DoRevoke? || !HashKnown(k, hash(op.raw))
  }

  ghost predicate IsRun(k: Keys, ops: seq<Op>, hash: Raw -> Hash, last: Keys)
    decreases |ops|
  {
    if ops == [] then last == k
    else NewKey(k, ops[0], hash) && IsRun(Apply(k, ops[0], hash), ops[1..], hash, last)
  }

  // A row never changes owner, hash or link, and never leaves a final status.
  ghost predicate Ages(a: Key, b: Key) {
    b == a.(status := b.status) && (a.status == Active || b.status == a.status)
  }

  lemma NextUnused(k: Keys)
    requires Inv(k)
    ensures k.next !in k.rows
  {}

  lemma {:induction false} RunLaws(k: Keys, ops: seq<Op>, hash: Raw -> Hash, last: Keys)
    requires Inv(k) && IsRun(k, ops, hash, last)
    ensures Inv(last)
    ensures forall id :: id in k.rows ==> id in last.rows && Ages(k.rows[id], last.rows[id])
    decreases |ops|
  {
    hide Inv;
    if ops == [] {
    } else {
      var k1 := Apply(k, ops[0], hash);
      match ops[0] {
        case DoIssue(agent, member, raw, now) => IssueKeeps(k, agent, member, hash(raw), now);
        case DoRotate(id, raw, now) => RotateKeeps(k, id, hash(raw), now);
        case DoRevoke(id, now) => RevokeKeeps(k, id, now);
      }
      NextUnused(k);
      assert forall id :: id in k.rows ==> id in k1.rows && Ages(k.rows[id], k1.rows[id]);
      RunLaws(k1, ops[1..], hash, last);
    }
  }

  /** Whatever is issued, rotated and revoked from the empty table on, a successor was
      issued at the very moment its predecessor was rotated, and that stamp still stands. */
  lemma IssuedWhenRotated(ops: seq<Op>, hash: Raw -> Hash, last: Keys, id: KeyId)
    requires IsRun(Keys(map[], 0), ops, hash, last) && id in last.rows && last.rows[id].rotatedFrom.Some?
    ensures var p := last.rows[id].rotatedFrom.value;
      p in last.rows && last.rows[p].status == Rotated(last.rows[id].issuedAt)
  {
    RunLaws(Keys(map[], 0), ops, hash, last);
    assert LinkOk(last, id);
  }

  class AgentApiKeyService {
    var rows: map<KeyId, Key>
    var next: KeyId
    var lastUsed: map<KeyId, int>
    const hash: Raw -> Hash

    ghost function State(): Keys
      reads this
    {
      Keys(rows, next)
    }

    constructor (hash: Raw -> Hash)
      ensures State() == Keys(map[], 0) && Inv(State()) && this.hash == hash
    {
      this.hash, rows, next, lastUsed := hash, map[], 0, map[];
    }

    method IssueKey(agent: nat, member: nat, raw: Raw, now: Time) returns (id: KeyId)
      modifies this
      ensures State() == Issue(old(State()), agent, member, hash(raw), now) && id == old(next)
    {
      id := next;
      rows := rows[id := Key(agent, member, hash(raw), Active, None, now)];
      next := next + 1;
    }

    method RotateKey(id: KeyId, raw: Raw, now: Time) returns (r: Option<KeyId>, error: Option<Error>)
      requires next !in rows
      modifies this
      ensures State() == Rotate(old(State()), id, hash(raw), now)
      ensures r == if CanRotate(old(State()), id) then Some(old(next)) else None
      ensures error ==
        if id !in old(rows) then Some(NoSuchKey)
        else if old(rows)[id].status != Active then Some(NotActive) else None
    {
      if id !in rows {
        return None, Some(NoSuchKey);
      }
      var was := rows[id];
      if was.status != Active {
        return None, Some(NotActive);
      }
      rows := rows[id := was.(status := Rotated(now))];
      rows := rows[next := Key(was.agent, was.member, hash(raw), Active, Some(id), now)];
      next := next + 1;
      return Some(next - 1), None;
    }

    method RevokeKey(id: KeyId, now: Time) returns (done: bool)
      modifies this
      ensures State() == Revoke(old(State()), id, now) && done == CanRotate(old(State()), id)
    {
      if id in rows && rows[id].status == Active {
        rows := rows[id := rows[id].(status := Revoked(now))];
        return true;
      }
      done := false;
    }

    /** Finds the owner of a presented key: exactly when a row with its hash exists
        and is active. A hit stamps the use; nothing else changes. */
    method LookupAgent(raw: Raw, now: int) returns (agent: Option<nat>)
      requires Inv(State())
      modifies this`lastUsed
      ensures forall id :: id in rows && rows[id].hash == hash(raw) ==>
                agent == (if rows[id].status == Active then Some(rows[id].agent) else None)
                && lastUsed == (if rows[id].status == Active then old(lastUsed)[id := now] else old(lastUsed))
      ensures !HashKnown(State(), hash(raw)) ==> agent == None && lastUsed == old(lastUsed)
      ensures agent.Some? ==> exists m: nat :: Opens(State(), hash(raw), agent.value, m)
      ensures agent.None? ==> forall a: nat, m: nat :: !Opens(State(), hash(raw), a, m)
    {
      if id :| id in rows && rows[id].hash == hash(raw) {
        if rows[id].status != Active {
          assert forall i :: i in rows && rows[i].hash == hash(raw) ==> SameSource(rows[i], rows[id]);
          return None;
        }
        assert Opens(State(), hash(raw), rows[id].agent, rows[id].member);
        lastUsed := lastUsed[id := now];
        return Some(rows[id].agent);
      }
      agent := None;
    }
  }
}
