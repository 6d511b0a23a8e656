/** Database schema migration: steps of SQL statements, revisions that are
    prefixes of the step list, the choice of steps still to run, and the
    revision table that records which revision a database is at. */
module Migration {
  import opened Wrappers
  import Text

  /** The MD5 hex digest of a string (RFC 1321). The hash itself is not
      modelled; it is a parameter of the migrator. */
  type Digest = string -> string

  /** What an Identifiable can be compared with. */
  datatype Operand = IdentifiableValue(id: string) | StringValue(s: string) | OtherValue

  /** `Identifiable.__eq__`: another Identifiable by id, a string against the
      id, anything else unequal. */
  predicate IdentifiableEquals(selfId: string, other: Operand)
  {
    match other
    case IdentifiableValue(id) => selfId == id
    case StringValue(s) => selfId == s
    case OtherValue => false
  }

  /** Equality of Identifiables is an equivalence, and an Identifiable equals
      exactly the one string that is its id. */
  lemma IdentifiableEqualsLaws(a: string, b: string, c: string, s: string)
    ensures IdentifiableEquals(a, IdentifiableValue(a))
    ensures IdentifiableEquals(a, IdentifiableValue(b)) <==> IdentifiableEquals(b, IdentifiableValue(a))
    ensures IdentifiableEquals(a, IdentifiableValue(b)) && IdentifiableEquals(b, IdentifiableValue(c)) ==> IdentifiableEquals(a, IdentifiableValue(c))
    ensures IdentifiableEquals(a, StringValue(s)) <==> s == a
    ensures !IdentifiableEquals(a, OtherValue)
  {
  }

  /** A migration step: the SQL statements it executes, in order. */
  datatype Step = Step(strings: seq<string>)

  /** A revision: the steps applied to reach it. */
  datatype Revision = Revision(steps: seq<Step>)

  /** `Step.id`: the digest of the statements joined by ":". */
  function StepId(md5: Digest, step: Step): string
  {
    md5(Text.Join(":", step.strings))
  }

  function StepIds(md5: Digest, steps: seq<Step>): (r: seq<string>)
    ensures |r| == |steps| && forall i :: 0 <= i < |steps| ==> r[i] == StepId(md5, steps[i])
  {
    seq(|steps|, i requires 0 <= i < |steps| => StepId(md5, steps[i]))
  }

  /** `Revision.id`: the digest of the step ids joined by ":". */
  function RevisionId(md5: Digest, revision: Revision): string
  {
    md5(Text.Join(":", StepIds(md5, revision.steps)))
  }

  /** Revisions whose steps have the same ids, one for one, have the same id,
      whatever statements the steps hold. */
  lemma SameStepIdsSameRevisionId(md5: Digest, a: Revision, b: Revision)
    requires |a.steps| == |b.steps|
    requires forall i :: 0 <= i < |a.steps| ==> StepId(md5, a.steps[i]) == StepId(md5, b.steps[i])
    ensures RevisionId(md5, a) == RevisionId(md5, b)
  {
    assert StepIds(md5, a.steps) == StepIds(md5, b.steps);
  }

  /** The ids of the steps of `steps`. */
  function IdSet(md5: Digest, steps: seq<Step>): set<string>
  {
    set j | 0 <= j < |steps| :: StepId(md5, steps[j])
  }

  /** The steps of `steps`, in order, whose ids are not in `ids`. */
  function Keep(md5: Digest, steps: seq<Step>, ids: set<string>): (r: seq<Step>)
    ensures |r| <= |steps|
  {
    if |steps| == 0 then []
    else (if StepId(md5, steps[0]) in ids then [] else [steps[0]]) + Keep(md5, steps[1..], ids)
  }

  /** `Keep` decides on the first step, then goes on with the rest. */
  lemma KeepCons(md5: Digest, steps: seq<Step>, ids: set<string>)
    requires |steps| > 0
    ensures Keep(md5, steps, ids) == (if StepId(md5, steps[0]) in ids then [] else [steps[0]]) + Keep(md5, steps[1..], ids)
  {
  }

  /** `Keep` keeps exactly the steps whose ids are not in `ids`. */
  lemma {:induction false} KeepMembers(md5: Digest, steps: seq<Step>, ids: set<string>)
    ensures forall s :: s in Keep(md5, steps, ids) ==> s in steps && StepId(md5, s) !in ids
    ensures forall k :: 0 <= k < |steps| && StepId(md5, steps[k]) !in ids ==> steps[k] in Keep(md5, steps, ids)
  {
    if |steps| > 0 {
      KeepCons(md5, steps, ids);
      KeepMembers(md5, steps[1..], ids);
      assert forall k :: 1 <= k < |steps| ==> steps[k] == steps[1..][k - 1];
    }
  }

  /** `Revision.__sub__`: the steps of `revision`, in order, that are not equal
      (by id) to any step of `other`. */
  function Subtract(md5: Digest, revision: Revision, other: Revision): (r: Revision)
    ensures forall s :: s in r.steps ==> s in revision.steps && !(exists o :: o in other.steps && StepId(md5, o) == StepId(md5, s))
    ensures forall s :: s in revision.steps && !(exists o :: o in other.steps && StepId(md5, o) == StepId(md5, s)) ==> s in r.steps
  {
    var ids := IdSet(md5, other.steps);
    var r := Revision(Keep(md5, revision.steps, ids));
    KeepMembers(md5, revision.steps, ids);
    assert forall o :: o in other.steps ==> StepId(md5, o) in ids;
    r
  }

  /** The step ids are pairwise distinct. */
  predicate DistinctIds(md5: Digest, steps: seq<Step>)
  {
    forall i, j :: 0 <= i < |steps| && 0 <= j < |steps| && i != j ==> StepId(md5, steps[i]) != StepId(md5, steps[j])
  }

  /** With distinct step ids, no step from `i` on shares an id with the
      first `i` steps. */
  lemma IdNotInPrefix(md5: Digest, steps: seq<Step>, i: nat, k: nat)
    requires DistinctIds(md5, steps) && i <= k < |steps|
    ensures StepId(md5, steps[k]) !in IdSet(md5, steps[..i])
  {
    forall j | 0 <= j < i ensures StepId(md5, steps[..i][j]) != StepId(md5, steps[k]) {
      assert steps[..i][j] == steps[j];
    }
  }

  /** Steps whose ids are all in `ids` are all taken away. */
  lemma {:induction false} KeepNone(md5: Digest, steps: seq<Step>, ids: set<string>)
    requires forall j :: 0 <= j < |steps| ==> StepId(md5, steps[j]) in ids
    ensures Keep(md5, steps, ids) == []
  {
    if |steps| > 0 {
      KeepCons(md5, steps, ids);
      assert forall j :: 0 <= j < |steps| - 1 ==> steps[1..][j] == steps[j + 1];
      KeepNone(md5, steps[1..], ids);
    }
  }

  /** Steps none of whose ids is in `ids` are all kept. */
  lemma {:induction false} KeepAll(md5: Digest, steps: seq<Step>, ids: set<string>)
    requires forall j :: 0 <= j < |steps| ==> StepId(md5, steps[j]) !in ids
    ensures Keep(md5, steps, ids) == steps
  {
    if |steps| > 0 {
      KeepCons(md5, steps, ids);
      assert forall j :: 0 <= j < |steps| - 1 ==> steps[1..][j] == steps[j + 1];
      KeepAll(md5, steps[1..], ids);
      assert [steps[0]] + steps[1..] == steps;
    }
  }

  /** `Keep` of two runs of steps is `Keep` of each, in order. */
  lemma {:induction false} KeepConcat(md5: Digest, a: seq<Step>, b: seq<Step>, ids: set<string>)
    ensures Keep(md5, a + b, ids) == Keep(md5, a, ids) + Keep(md5, b, ids)
  {
    if |a| > 0 {
      var head := if StepId(md5, a[0]) in ids then [] else [a[0]];
      assert Keep(md5, a + b, ids) == head + Keep(md5, a[1..] + b, ids) by {
        KeepCons(md5, a + b, ids);
        assert (a + b)[0] == a[0] && (a + b)[1..] == a[1..] + b;
      }
      KeepCons(md5, a, ids);
      KeepConcat(md5, a[1..], b, ids);
      assert head + (Keep(md5, a[1..], ids) + Keep(md5, b, ids)) == head + Keep(md5, a[1..], ids) + Keep(md5, b, ids);
    } else {
      assert a + b == b;
    }
  }

  /** With distinct step ids, taking the first `i` steps away from the suffix
      from `k` on leaves the steps from `max(i, k)` on. */
  lemma KeepSuffix(md5: Digest, steps: seq<Step>, i: nat, k: nat)
    requires DistinctIds(md5, steps) && i <= |steps| && k <= |steps|
    ensures Keep(md5, steps[k..], IdSet(md5, steps[..i])) == if k < i then steps[i..] else steps[k..]
  {
    var ids := IdSet(md5, steps[..i]);
    var from := if k < i then i else k;
    assert Keep(md5, steps[from..], ids) == steps[from..] by {
      forall j | 0 <= j < |steps[from..]| ensures StepId(md5, steps[from..][j]) !in ids {
        IdNotInPrefix(md5, steps, i, from + j);
      }
      KeepAll(md5, steps[from..], ids);
    }
    if k < i {
      assert Keep(md5, steps[k..i], ids) == [] by {
        forall j | 0 <= j < |steps[k..i]| ensures StepId(md5, steps[k..i][j]) in ids {
          assert steps[k..i][j] == steps[..i][k + j];
        }
        KeepNone(md5, steps[k..i], ids);
      }
      assert steps[k..] == steps[k..i] + steps[i..];
      KeepConcat(md5, steps[k..i], steps[i..], ids);
    }
  }

  /** With distinct step ids, the latest revision minus its first `i` steps is
      the remaining steps. */
  lemma SubtractPrefix(md5: Digest, steps: seq<Step>, i: nat)
    requires DistinctIds(md5, steps) && i <= |steps|
    ensures Subtract(md5, Revision(steps), Revision(steps[..i])).steps == steps[i..]
  {
    KeepSuffix(md5, steps, i, 0);
    assert steps[0..] == steps;
  }

  /** `Migrator`: the whole list of steps, and the hash that names them. */
  datatype Migrator = Migrator(md5: Digest, steps: seq<Step>)
  {
    /** `revisions`: one revision per prefix of the steps, the i-th (from 0)
        holding the first i + 1 steps. */
    function Revisions(): (r: seq<Revision>)
      ensures |r| == |steps|
      ensures forall i :: 0 <= i < |r| ==> r[i].steps == steps[..i + 1]
    {
      seq(|steps|, i requires 0 <= i < |steps| => Revision(steps[..i + 1]))
    }

    /** `latest_revision`: every step. */
    function LatestRevision(): Revision
    {
      Revision(steps)
    }

    /** The scan of `get_steps` from the `i`-th revision on. */
    function GetStepsFrom(revisionId: Option<string>, i: nat): seq<Step>
      requires i <= |steps|
      decreases |steps| - i
    {
      if i == |steps| then steps
      else
        var revision := Revisions()[i];
        if revisionId == Some(RevisionId(md5, revision)) then Subtract(md5, LatestRevision(), revision).steps
        else GetStepsFrom(revisionId, i + 1)
    }

    /** `get_steps`: the latest revision minus the first revision whose id
        matches, or every step when none does. */
    function GetSteps(revisionId: Option<string>): seq<Step>
    {
      GetStepsFrom(revisionId, 0)
    }

    /** The scan never matches after revision `i` when no id from `i` on is
        the one asked for. */
    lemma {:induction false} GetStepsFromUnmatched(revisionId: Option<string>, i: nat)
      requires i <= |steps|
      requires forall j :: i < j <= |steps| ==> revisionId != Some(RevisionId(md5, Revision(steps[..j])))
      ensures GetStepsFrom(revisionId, i) == steps
      decreases |steps| - i
    {
      if i < |steps| {
        GetStepsFromUnmatched(revisionId, i + 1);
      }
    }

    /** A database with no recorded revision, or one no prefix matches, runs
        every step. */
    lemma GetStepsUnmatched(revisionId: Option<string>)
      requires forall j :: 0 < j <= |steps| ==> revisionId != Some(RevisionId(md5, Revision(steps[..j])))
      ensures GetSteps(revisionId) == steps
    {
      GetStepsFromUnmatched(revisionId, 0);
    }

    lemma GetStepsOfNone()
      ensures GetSteps(None) == steps
    {
      GetStepsUnmatched(None);
    }

    /** The scan reaches the first matching prefix. */
    lemma {:induction false} GetStepsFromFirstMatch(revisionId: Option<string>, i: nat, m: nat)
      requires i < m <= |steps|
      requires revisionId == Some(RevisionId(md5, Revision(steps[..m])))
      requires forall j :: i < j < m ==> revisionId != Some(RevisionId(md5, Revision(steps[..j])))
      ensures GetStepsFrom(revisionId, i) == Subtract(md5, LatestRevision(), Revision(steps[..m])).steps
      decreases m - i
    {
      if i + 1 < m {
        GetStepsFromFirstMatch(revisionId, i + 1, m);
      }
    }

    /** With distinct step ids, a database at the `m`-th revision (the first
        with that id) runs exactly the steps after the first `m`. */
    lemma GetStepsFirstMatch(revisionId: Option<string>, m: nat)
      requires DistinctIds(md5, steps) && 0 < m <= |steps|
      requires revisionId == Some(RevisionId(md5, Revision(steps[..m])))
      requires forall j :: 0 < j < m ==> revisionId != Some(RevisionId(md5, Revision(steps[..j])))
      ensures GetSteps(revisionId) == steps[m..]
    {
      GetStepsFromFirstMatch(revisionId, 0, m);
      SubtractPrefix(md5, steps, m);
    }

    /** With distinct step ids, a database already at the latest revision (and
        no earlier revision with that id) runs nothing. */
    lemma GetStepsOfLatest()
      requires DistinctIds(md5, steps) && |steps| > 0
      requires forall j :: 0 < j < |steps| ==> RevisionId(md5, Revision(steps[..j])) != RevisionId(md5, LatestRevision())
      ensures GetSteps(Some(RevisionId(md5, LatestRevision()))) == []
    {
      assert steps[..|steps|] == steps;
      GetStepsFirstMatch(Some(RevisionId(md5, LatestRevision())), |steps|);
    }

    /** `migrate`: read the recorded revision, run every statement of every
        step still to run (a statement that fails is skipped and the rest still
        run), then record the latest revision. */
    method Migrate(session: Session)
      modifies session
      ensures session.hasRevisionTable
      ensures session.executed == old(session.executed) + ReadLog(old(session.hasRevisionTable))
        + Statements(GetSteps(StoredRevisionId(old(session.hasRevisionTable), old(session.revisionRows))))
        + [UpdateRevisionId]
      ensures session.applied == old(session.applied)
        + Succeeding(Statements(GetSteps(StoredRevisionId(old(session.hasRevisionTable), old(session.revisionRows)))), session.fails)
      ensures session.revisionRows == Filled(RowsAfterRead(old(session.hasRevisionTable), old(session.revisionRows)), Some(RevisionId(md5, LatestRevision())))
    {
      var wrapper := new SessionWrapper(session);
      var revisionId := wrapper.GetRevisionId();
      var selected := GetSteps(revisionId);
      ExecuteSteps(session, selected);
      wrapper.SetRevisionId(Some(RevisionId(md5, LatestRevision())));
    }
  }

  /** Every statement of the steps, step after step. */
  function Statements(steps: seq<Step>): seq<string>
  {
    if |steps| == 0 then [] else Statements(steps[..|steps| - 1]) + steps[|steps| - 1].strings
  }

  lemma Associative(a: seq<string>, b: seq<string>, c: seq<string>)
    ensures (a + b) + c == a + (b + c)
  {
  }

  lemma StatementsAppend(steps: seq<Step>, i: nat)
    requires i < |steps|
    ensures Statements(steps[..i + 1]) == Statements(steps[..i]) + steps[i].strings
  {
    assert steps[..i + 1][..i] == steps[..i];
  }

  /** The statements, in order, that the database does not reject. */
  function Succeeding(statements: seq<string>, fails: string -> bool): (r: seq<string>)
    ensures |r| <= |statements|
  {
    if |statements| == 0 then []
    else
      var last := statements[|statements| - 1];
      var front := statements[..|statements| - 1];
      assert statements == front + [last];
      Succeeding(front, fails) + (if fails(last) then [] else [last])
  }

  /** The succeeding statements are exactly those of `statements` that do not
      fail. */
  lemma {:induction false} SucceedingMembers(statements: seq<string>, fails: string -> bool)
    ensures forall s :: s in Succeeding(statements, fails) <==> s in statements && !fails(s)
  {
    if |statements| > 0 {
      var front := statements[..|statements| - 1];
      SucceedingMembers(front, fails);
      assert statements == front + [statements[|statements| - 1]];
    }
  }

  lemma SucceedingAppend(statements: seq<string>, s: string, fails: string -> bool)
    ensures Succeeding(statements + [s], fails) == Succeeding(statements, fails) + (if fails(s) then [] else [s])
  {
    assert (statements + [s])[..|statements|] == statements;
  }

  lemma {:induction false} SucceedingConcat(a: seq<string>, b: seq<string>, fails: string -> bool)
    ensures Succeeding(a + b, fails) == Succeeding(a, fails) + Succeeding(b, fails)
    decreases |b|
  {
    if |b| > 0 {
      var front := b[..|b| - 1];
      var last := b[|b| - 1];
      var tail := if fails(last) then [] else [last];
      assert Succeeding(a + b, fails) == Succeeding(a + front, fails) + tail by {
        assert a + b == (a + front) + [last];
        SucceedingAppend(a + front, last, fails);
      }
      assert Succeeding(b, fails) == Succeeding(front, fails) + tail by {
        assert b == front + [last];
        SucceedingAppend(front, last, fails);
      }
      SucceedingConcat(a, front, fails);
      assert Succeeding(a, fails) + Succeeding(front, fails) + tail == Succeeding(a, fails) + (Succeeding(front, fails) + tail);
    } else {
      assert a + b == a;
    }
  }

  /** The loop of `migrate`: every statement of every step, in order, each
      failure swallowed. */
  method ExecuteSteps(session: Session, selected: seq<Step>)
    modifies session
    ensures session.executed == old(session.executed) + Statements(selected)
    ensures session.applied == old(session.applied) + Succeeding(Statements(selected), session.fails)
    ensures session.hasRevisionTable == old(session.hasRevisionTable) && session.revisionRows == old(session.revisionRows)
  {
    var i := 0;
    while i < |selected|
      invariant 0 <= i <= |selected|
      invariant session.hasRevisionTable == old(session.hasRevisionTable) && session.revisionRows == old(session.revisionRows)
      invariant session.executed == old(session.executed) + Statements(selected[..i])
      invariant session.applied == old(session.applied) + Succeeding(Statements(selected[..i]), session.fails)
    {
      ghost var done := Statements(selected[..i]);
      ghost var e0, a0 := old(session.executed), old(session.applied);
      ExecuteStep(session, selected[i]);
      StatementsAppend(selected, i);
      SucceedingConcat(done, selected[i].strings, session.fails);
      Associative(e0, done, selected[i].strings);
      Associative(a0, Succeeding(done, session.fails), Succeeding(selected[i].strings, session.fails));
      i := i + 1;
    }
    assert selected[..|selected|] == selected;
  }

  /** The inner loop of `migrate`: every statement of one step, in order, each
      failure swallowed. */
  method ExecuteStep(session: Session, step: Step)
    modifies session
    ensures session.executed == old(session.executed) + step.strings
    ensures session.applied == old(session.applied) + Succeeding(step.strings, session.fails)
    ensures session.hasRevisionTable == old(session.hasRevisionTable) && session.revisionRows == old(session.revisionRows)
  {
    for j := 0 to |step.strings|
      invariant session.executed == old(session.executed) + step.strings[..j]
      invariant session.applied == old(session.applied) + Succeeding(step.strings[..j], session.fails)
      invariant session.hasRevisionTable == old(session.hasRevisionTable) && session.revisionRows == old(session.revisionRows)
    {
      session.Execute(step.strings[j]);
      assert step.strings[..j + 1][..j] == step.strings[..j];
    }
    assert step.strings[..|step.strings|] == step.strings;
  }

  const CreateRevisionTable := "CREATE TABLE revision (revision_id VARCHAR PRIMARY KEY)"
  const InsertNullRevision := "INSERT INTO revision (revision_id) VALUES (null)"
  const SelectRevisionId := "SELECT revision_id FROM revision"
  const UpdateRevisionId := "UPDATE revision SET revision_id = :revision_id"

  /** A database session: whether the revision table exists, its rows, every
      statement sent, and the migration statements that took effect. Which
      migration statements raise OperationalError is the database's affair
      (`fails`); a statement on a missing revision table always raises. */
  class Session {
    var hasRevisionTable: bool
    var revisionRows: seq<Option<string>>
    var executed: seq<string>
    var applied: seq<string>
    const fails: string -> bool

    constructor(hasRevisionTable: bool, revisionRows: seq<Option<string>>, fails: string -> bool)
      ensures this.hasRevisionTable == hasRevisionTable && this.revisionRows == revisionRows
      ensures this.executed == [] && this.applied == [] && this.fails == fails
    {
      this.hasRevisionTable := hasRevisionTable;
      this.revisionRows := revisionRows;
      this.executed := [];
      this.applied := [];
      this.fails := fails;
    }

    /** `session.execute` of a migration statement whose OperationalError is
        swallowed: sent either way, in effect only when it does not fail. */
    method Execute(statement: string)
      modifies this
      ensures executed == old(executed) + [statement]
      ensures applied == old(applied) + (if fails(statement) then [] else [statement])
      ensures hasRevisionTable == old(hasRevisionTable) && revisionRows == old(revisionRows)
    {
      executed := executed + [statement];
      if !fails(statement) {
        applied := applied + [statement];
      }
    }
  }

  /** The first row's revision id, or None when there is no row (or table). */
  function StoredRevisionId(hasRevisionTable: bool, rows: seq<Option<string>>): (r: Option<string>)
    ensures r.Some? ==> hasRevisionTable && |rows| > 0 && r == rows[0]
  {
    if hasRevisionTable && |rows| > 0 then rows[0] else None
  }

  /** The statements sent by the `revision_id` getter: the select, preceded on
      a missing table by a failed select and the table's creation. */
  function ReadLog(hasRevisionTable: bool): seq<string>
  {
    if hasRevisionTable then [SelectRevisionId]
    else [SelectRevisionId, CreateRevisionTable, InsertNullRevision, SelectRevisionId]
  }

  /** The revision rows once the table is known to exist. */
  function RowsAfterRead(hasRevisionTable: bool, rows: seq<Option<string>>): seq<Option<string>>
  {
    if hasRevisionTable then rows else [None]
  }

  /** Every row set to `value`. */
  function Filled(rows: seq<Option<string>>, value: Option<string>): (r: seq<Option<string>>)
    ensures |r| == |rows| && forall i :: 0 <= i < |r| ==> r[i] == value
  {
    seq(|rows|, _ => value)
  }

  /** `SessionWrapper`: reads and writes the revision id, creating the
      revision table (with one null row) and retrying once when it is
      missing, as `needs_revision_table` does. */
  class SessionWrapper {
    const session: Session

    constructor(session: Session)
      ensures this.session == session
    {
      this.session := session;
    }

    /** `_init_revision_table`, called only once the table is known missing. */
    method InitRevisionTable()
      requires !session.hasRevisionTable
      modifies session
      ensures session.hasRevisionTable && session.revisionRows == [None]
      ensures session.executed == old(session.executed) + [CreateRevisionTable, InsertNullRevision]
      ensures session.applied == old(session.applied)
    {
      session.executed := session.executed + [CreateRevisionTable];
      session.hasRevisionTable := true;
      session.revisionRows := [];
      session.executed := session.executed + [InsertNullRevision];
      session.revisionRows := session.revisionRows + [None];
    }

    /** The `revision_id` getter. */
    method GetRevisionId() returns (r: Option<string>)
      modifies session
      ensures r == StoredRevisionId(old(session.hasRevisionTable), old(session.revisionRows))
      ensures session.hasRevisionTable
      ensures session.revisionRows == RowsAfterRead(old(session.hasRevisionTable), old(session.revisionRows))
      ensures session.executed == old(session.executed) + ReadLog(old(session.hasRevisionTable))
      ensures session.applied == old(session.applied)
    {
      session.executed := session.executed + [SelectRevisionId];
      if !session.hasRevisionTable {
        InitRevisionTable();
        session.executed := session.executed + [SelectRevisionId];
      }
      if |session.revisionRows| > 0 {
        r := session.revisionRows[0];
      } else {
        r := None;
      }
    }

    /** The `revision_id` setter: every row takes the new id. */
    method SetRevisionId(revisionId: Option<string>)
      modifies session
      ensures session.hasRevisionTable
      ensures session.revisionRows == Filled(RowsAfterRead(old(session.hasRevisionTable), old(session.revisionRows)), revisionId)
      ensures session.executed == old(session.executed)
        + (if old(session.hasRevisionTable) then [UpdateRevisionId] else [UpdateRevisionId, CreateRevisionTable, InsertNullRevision, UpdateRevisionId])
      ensures session.applied == old(session.applied)
    {
      session.executed := session.executed + [UpdateRevisionId];
      if !session.hasRevisionTable {
        InitRevisionTable();
        session.executed := session.executed + [UpdateRevisionId];
      }
      session.revisionRows := Filled(session.revisionRows, revisionId);
    }
  }
}
