/**
 * The alert-rule table (alert_rules): every read and write is scoped to the owning user.
 */
module Rules {
  import opened Wrappers

  datatype Rule = Rule(
    id: nat,
    userId: int,
    hiveId: Option<string>,
    metricType: string,
    conditionType: string,
    thresholdValue: real,
    durationMinutes: int,
    enabled: bool)

  /** The fields create and update are given. */
  datatype RuleFields = RuleFields(
    hiveId: Option<string>,
    metricType: string,
    conditionType: string,
    thresholdValue: real,
    durationMinutes: int,
    enabled: bool)

  /** One `AND column = value` term of the WHERE clause. */
  datatype Condition = UserIs(user: int) | HiveIs(hive: string) | MetricIs(metric: string)

  /** SQL equality: a NULL hive_id equals nothing. */
  predicate Holds(rule: Rule, c: Condition) {
    match c
    case UserIs(u) => rule.userId == u
    case HiveIs(h) => rule.hiveId == Some(h)
    case MetricIs(m) => rule.metricType == m
  }

  predicate Satisfies(rule: Rule, conds: seq<Condition>) {
    forall c :: c in conds ==> Holds(rule, c)
  }

  /** The rows a WHERE clause selects, in table order. */
  function Select(rows: seq<Rule>, conds: seq<Condition>): (r: seq<Rule>)
    ensures forall x :: x in r <==> x in rows && Satisfies(x, conds)
    ensures |r| <= |rows|
  {
    if rows == [] then []
    else (if Satisfies(rows[0], conds) then [rows[0]] else []) + Select(rows[1..], conds)
  }

  /** What `getAll(user, hive, metric)` promises: the user's rules, narrowed by each filter given. */
  predicate Matches(rule: Rule, user: int, hiveId: Option<string>, metricType: Option<string>) {
    rule.userId == user
    && (hiveId.Some? ==> rule.hiveId == hiveId)
    && (metricType.Some? ==> rule.metricType == metricType.value)
  }

  ghost predicate UniqueIds(rows: seq<Rule>) {
    forall i, j :: 0 <= i < j < |rows| ==> rows[i].id != rows[j].id
  }

  /** `SELECT … WHERE id = ?`: the row with that id, whoever owns it. */
  function FindById(rows: seq<Rule>, id: nat): (r: Option<Rule>)
    ensures r.Some? ==> r.value in rows && r.value.id == id
    ensures r.None? <==> forall x :: x in rows ==> x.id != id
  {
    if rows == [] then None
    else if rows[0].id == id then Some(rows[0])
    else FindById(rows[1..], id)
  }

  /** With unique ids, the row found is the only row with that id. */
  lemma FindUniqueId(rows: seq<Rule>, x: Rule)
    requires UniqueIds(rows) && x in rows
    ensures FindById(rows, x.id) == Some(x)
  {
    var r := FindById(rows, x.id);
    var i :| 0 <= i < |rows| && rows[i] == x;
    var j :| 0 <= j < |rows| && rows[j] == r.value;
  }

  predicate Owned(rule: Rule, user: int, id: nat) {
    rule.id == id && rule.userId == user
  }

  function Apply(rule: Rule, f: RuleFields): Rule {
    rule.(hiveId := f.hiveId, metricType := f.metricType, conditionType := f.conditionType,
          thresholdValue := f.thresholdValue, durationMinutes := f.durationMinutes, enabled := f.enabled)
  }

  /** `UPDATE … WHERE id = ? AND user_id = ?`. */
  function UpdateOwned(rows: seq<Rule>, user: int, id: nat, f: RuleFields): (r: seq<Rule>)
    ensures |r| == |rows|
    ensures forall i :: 0 <= i < |rows| && !Owned(rows[i], user, id) ==> r[i] == rows[i]
    ensures forall i :: 0 <= i < |rows| && Owned(rows[i], user, id) ==>
      r[i].id == id && r[i].userId == user && RuleFields(r[i].hiveId, r[i].metricType, r[i].conditionType,
        r[i].thresholdValue, r[i].durationMinutes, r[i].enabled) == f
  {
    seq(|rows|, i requires 0 <= i < |rows| => if Owned(rows[i], user, id) then Apply(rows[i], f) else rows[i])
  }

  /** `DELETE … WHERE id = ? AND user_id = ?`. */
  function DeleteOwned(rows: seq<Rule>, user: int, id: nat): (r: seq<Rule>)
    ensures forall x :: x in r <==> x in rows && !Owned(x, user, id)
    ensures |r| <= |rows|
  {
    if rows == [] then []
    else (if Owned(rows[0], user, id) then [] else [rows[0]]) + DeleteOwned(rows[1..], user, id)
  }

  /** The ids of the rows, unchanged by an update. */
  lemma UpdateKeepsIds(rows: seq<Rule>, user: int, id: nat, f: RuleFields)
    requires UniqueIds(rows)
    ensures UniqueIds(UpdateOwned(rows, user, id, f))
    ensures forall x :: x in UpdateOwned(rows, user, id, f) ==> exists y :: y in rows && y.id == x.id
  {
    var r := UpdateOwned(rows, user, id, f);
    forall x | x in r
      ensures exists y :: y in rows && y.id == x.id
    {
      var i :| 0 <= i < |r| && r[i] == x;
      assert rows[i] in rows && rows[i].id == x.id;
    }
  }

  /** The owner's update returns the row carrying the new fields. */
  lemma OwnerUpdateReadsBack(rows: seq<Rule>, user: int, x: Rule, f: RuleFields)
    requires UniqueIds(rows) && x in rows && x.userId == user
    ensures FindById(UpdateOwned(rows, user, x.id, f), x.id) == Some(Apply(x, f))
  {
    var i :| 0 <= i < |rows| && rows[i] == x;
    var r := UpdateOwned(rows, user, x.id, f);
    assert r[i] == Apply(x, f);
    UpdateKeepsIds(rows, user, x.id, f);
    FindUniqueId(r, r[i]);
  }

  /** Another user's update changes nothing and returns that rule as it was. */
  lemma ForeignUpdateIsNoOp(rows: seq<Rule>, user: int, x: Rule, f: RuleFields)
    requires UniqueIds(rows) && x in rows && x.userId != user
    ensures UpdateOwned(rows, user, x.id, f) == rows
    ensures FindById(UpdateOwned(rows, user, x.id, f), x.id) == Some(x)
  {
    var r := UpdateOwned(rows, user, x.id, f);
    var k :| 0 <= k < |rows| && rows[k] == x;
    forall i | 0 <= i < |rows|
      ensures rows[i].id == x.id ==> i == k
    {
      if i < k { assert rows[i].id != rows[k].id; }
      else if k < i { assert rows[k].id != rows[i].id; }
    }
    assert r == rows;
    FindUniqueId(rows, x);
  }

  /** Deleting twice is deleting once. */
  lemma {:induction false} DeleteIdempotent(rows: seq<Rule>, user: int, id: nat)
    ensures DeleteOwned(DeleteOwned(rows, user, id), user, id) == DeleteOwned(rows, user, id)
    decreases |rows|
  {
    if rows != [] {
      DeleteIdempotent(rows[1..], user, id);
      var tail := DeleteOwned(rows[1..], user, id);
      if !Owned(rows[0], user, id) {
        assert ([rows[0]] + tail)[1..] == tail;
      } else {
        assert DeleteOwned(rows, user, id) == tail;
      }
    }
  }

  /** Deleting keeps ids unique. */
  lemma {:induction false} DeleteKeepsIdsUnique(rows: seq<Rule>, user: int, id: nat)
    requires UniqueIds(rows)
    ensures UniqueIds(DeleteOwned(rows, user, id))
    decreases |rows|
  {
    if rows != [] {
      assert UniqueIds(rows[1..]) by {
        forall i, j | 0 <= i < j < |rows| - 1 ensures rows[1..][i].id != rows[1..][j].id {
          assert rows[i + 1].id != rows[j + 1].id;
        }
      }
      DeleteKeepsIdsUnique(rows[1..], user, id);
      var tail := DeleteOwned(rows[1..], user, id);
      if !Owned(rows[0], user, id) {
        var r := [rows[0]] + tail;
        forall i, j | 0 <= i < j < |r| ensures r[i].id != r[j].id {
          if i == 0 {
            assert r[j] in rows[1..];
            var k :| 0 <= k < |rows[1..]| && rows[1..][k] == r[j];
            assert rows[0].id != rows[k + 1].id;
          } else {
            assert r[i] == tail[i - 1] && r[j] == tail[j - 1];
          }
        }
      }
    }
  }

  function NewRule(id: nat, user: int, f: RuleFields): Rule {
    Rule(id, user, f.hiveId, f.metricType, f.conditionType, f.thresholdValue, f.durationMinutes, f.enabled)
  }

  /** The rule table, with AUTO_INCREMENT ids. */
  class RuleStore {
    var rows: seq<Rule>
    var nextId: nat

    ghost predicate Valid()
      reads this
    {
      UniqueIds(rows) && forall x :: x in rows ==> x.id < nextId
    }

    constructor ()
      ensures Valid() && rows == []
    {
      rows := [];
      nextId := 1;
    }

    /**
     * `getAll(user, hive, metric)`: the WHERE clause starts with the owner and gains a term for
     * each filter that is given.
     */
    method GetAll(user: int, hiveId: Option<string>, metricType: Option<string>) returns (r: seq<Rule>)
      ensures forall x :: x in r <==> x in rows && Matches(x, user, hiveId, metricType)
    {
      var conds := [UserIs(user)];
      if hiveId.Some? {
        conds := conds + [HiveIs(hiveId.value)];
      }
      if metricType.Some? {
        conds := conds + [MetricIs(metricType.value)];
      }
      r := Select(rows, conds);
      forall x | x in rows
        ensures Satisfies(x, conds) <==> Matches(x, user, hiveId, metricType)
      {
        assert UserIs(user) in conds;
        if hiveId.Some? { assert HiveIs(hiveId.value) in conds; }
        if metricType.Some? { assert MetricIs(metricType.value) in conds; }
      }
    }

    /** `create(user, fields)`: insert, then read the new row back by its id. */
    method Create(user: int, f: RuleFields) returns (r: Rule)
      requires Valid()
      modifies this
      ensures Valid()
      ensures r == NewRule(old(nextId), user, f) && nextId == old(nextId) + 1
      ensures rows == old(rows) + [r]
      ensures FindById(rows, r.id) == Some(r)
    {
      r := NewRule(nextId, user, f);
      rows := rows + [r];
      nextId := nextId + 1;
      FindUniqueId(rows, r);
    }

    /** `update(user, id, fields)`: the owner-scoped write, then the unscoped read by id. */
    method Update(user: int, id: nat, f: RuleFields) returns (r: Option<Rule>)
      requires Valid()
      modifies this`rows
      ensures Valid()
      ensures rows == UpdateOwned(old(rows), user, id, f)
      ensures r == FindById(rows, id)
    {
      UpdateKeepsIds(rows, user, id, f);
      rows := UpdateOwned(rows, user, id, f);
      r := FindById(rows, id);
    }

    /** `delete(user, id)`: always reports success. */
    method Delete(user: int, id: nat) returns (ok: bool)
      requires Valid()
      modifies this`rows
      ensures Valid()
      ensures rows == DeleteOwned(old(rows), user, id)
      ensures ok
    {
      DeleteKeepsIdsUnique(rows, user, id);
      rows := DeleteOwned(rows, user, id);
      ok := true;
    }
  }
}
