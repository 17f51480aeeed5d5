// Reconciling the workflows parsed from YAML with the rows that came from YAML.
module Sync {
  import opened Base
  import opened Jobs
  import opened Workflows

  datatype Account = Account(owner: nat, disabled: bool)

  /** DB-aware validation: the account exists for this owner and is not disabled. */
  predicate Usable(accounts: map<nat, Account>, owner: nat, wf: Workflow) {
    wf.account in accounts && accounts[wf.account].owner == owner && !accounts[wf.account].disabled
  }

  /** The dictionary the validation loop builds: the last valid workflow of each name. */
  function ValidByName(accounts: map<nat, Account>, owner: nat, desired: seq<Workflow>): map<string, Workflow> {
    if desired == [] then map[]
    else
      var last := desired[|desired| - 1];
      var earlier := ValidByName(accounts, owner, desired[..|desired| - 1]);
      if Usable(accounts, owner, last) then earlier[last.name := last] else earlier
  }

  function Invalid(accounts: map<nat, Account>, owner: nat, desired: seq<Workflow>): set<string> {
    set i | 0 <= i < |desired| && !Usable(accounts, owner, desired[i]) :: desired[i].name
  }

  /** The reasons for refusing an account: it is missing, somebody else's, or disabled. */
  predicate Refused(accounts: map<nat, Account>, owner: nat, account: nat) {
    account !in accounts || accounts[account].owner != owner || accounts[account].disabled
  }

  /** Position `k` holds the last workflow of its name whose account is not refused. */
  predicate LastAccepted(accounts: map<nat, Account>, owner: nat, desired: seq<Workflow>, k: nat) {
    && k < |desired| && !Refused(accounts, owner, desired[k].account)
    && forall i :: k < i < |desired| && desired[i].name == desired[k].name ==>
         Refused(accounts, owner, desired[i].account)
  }

  /**
   * A name is valid exactly if some workflow of that name has an account that is not
   * refused, and then with the last such workflow; it has failed exactly if some
   * workflow of that name has one that is.
   */
  lemma {:induction false} ValidExactly(accounts: map<nat, Account>, owner: nat, desired: seq<Workflow>, name: string)
    returns (k: nat)
    ensures name in ValidByName(accounts, owner, desired) <==>
              exists i :: 0 <= i < |desired| && desired[i].name == name && !Refused(accounts, owner, desired[i].account)
    ensures name in Invalid(accounts, owner, desired) <==>
              exists i :: 0 <= i < |desired| && desired[i].name == name && Refused(accounts, owner, desired[i].account)
    ensures name in ValidByName(accounts, owner, desired) ==>
              && LastAccepted(accounts, owner, desired, k) && desired[k].name == name
              && ValidByName(accounts, owner, desired)[name] == desired[k]
  {
    k := 0;
    if desired != [] {
      var n := |desired| - 1;
      k := ValidExactly(accounts, owner, desired[..n], name);
      if desired[n].name == name && Usable(accounts, owner, desired[n]) {
        k := n;
      }
    }
  }

  datatype Report = Report(created: seq<string>, updated: seq<string>, deleted: seq<string>, deletedIds: seq<nat>,
                           invalid: seq<string>)

  /** A valid workflow whose name is taken by a row of another source. */
  ghost predicate Clash(rows: Table, owner: nat, valid: map<string, Workflow>, name: string) {
    name in valid && exists id :: Named(rows, id, owner, name) && rows[id].source != Yaml
  }

  /** What becomes of a row that existed before. */
  function Fate(row: Row, owner: nat, valid: map<string, Workflow>, invalid: set<string>): Option<Row> {
    if !Managed(row, owner) then Some(row)
    else if row.name in valid then Some(Updated(row, valid[row.name]))
    else if row.name in invalid then Some(row)
    else None
  }

  /** The final state of a successful sync. */
  ghost predicate Reconciled(pre: Table, next: nat, post: Table, owner: nat, valid: map<string, Workflow>,
                             invalid: set<string>) {
    && (forall id :: id in pre ==>
          var fate := Fate(pre[id], owner, valid, invalid);
          if fate == None then id !in post else id in post && post[id] == fate.value)
    && (forall id :: id in post && id !in pre ==> id >= next && IsNew(pre, post[id], owner, valid))
    && (forall name :: name in valid ==> HasName(post, owner, name))
    && UniqueNames(post)
  }

  class WorkflowTable {
    var rows: Table
    var nextId: nat

    ghost predicate Valid() reads this {
      UniqueNames(rows) && forall id :: id in rows ==> id < nextId
    }

    constructor ()
      ensures Valid() && rows == map[] && nextId == 0
    {
      rows := map[];
      nextId := 0;
    }

    /** Atomic increment; None when the row is gone or belongs to someone else. */
    method BumpRrCounter(id: nat, owner: nat) returns (counter: Option<nat>)
      requires Valid()
      modifies this
      ensures Valid() && nextId == old(nextId)
      ensures counter.Some? <==> id in old(rows) && old(rows)[id].owner == owner
      ensures counter.Some? ==> counter.value == old(rows)[id].rrCounter + 1
      ensures rows == if counter.Some? then old(rows)[id := old(rows)[id].(rrCounter := counter.value)] else old(rows)
    {
      if id in rows && rows[id].owner == owner {
        counter := Some(rows[id].rrCounter + 1);
        rows := rows[id := rows[id].(rrCounter := counter.value)];
      } else {
        counter := None;
      }
    }

    /**
     * `sync_to_db` inside its transaction: the writes go to a session that is
     * committed only if every step succeeds.
     */
    method SyncToDb(owner: nat, desired: seq<Workflow>, accounts: map<nat, Account>, jobs: JobTable, now: Time)
      returns (r: Result<Report, string>)
      requires Valid() && jobs.Valid()
      modifies this, jobs
      ensures Valid() && jobs.Valid()
      ensures r.Err? <==> exists name :: Clash(old(rows), owner, ValidByName(accounts, owner, desired), name)
      ensures r.Err? ==> rows == old(rows) && nextId == old(nextId) && jobs.rows == old(jobs.rows)
      ensures r.Ok? ==>
                && Reconciled(old(rows), old(nextId), rows, owner, ValidByName(accounts, owner, desired),
                    Invalid(accounts, owner, desired))
                && Reports(r.value, old(rows), owner, ValidByName(accounts, owner, desired),
                    Invalid(accounts, owner, desired))
                && jobs.rows == old(jobs.rows) + CancelWrites(old(jobs.rows), Elements(r.value.deletedIds), owner, now)
    {
      var valid, order, errors := Validate(accounts, owner, desired);
      var upserts := UpsertAll(rows, nextId, owner, valid, order);
      if upserts.Err? {
        return Err(upserts.error);
      }
      var (session, next, created, updated) := upserts.value;
      var kept, gone, deleted := DeleteMissing(rows, nextId, session, owner, valid, Elements(errors));
      DeletedIsReconciled(rows, nextId, session, next, owner, valid, Elements(errors), gone);
      var _ := jobs.CancelPendingForWorkflows(gone, owner, now);
      rows, nextId := kept, next;
      r := Ok(Report(created, updated, deleted, gone, errors));
    }
  }

  /** The names of the owner's YAML rows. */
  function ManagedNames(rows: Table, owner: nat): set<string> {
    set id | id in rows && Managed(rows[id], owner) :: rows[id].name
  }

  ghost predicate Reports(report: Report, pre: Table, owner: nat, valid: map<string, Workflow>, invalid: set<string>) {
    && Buckets(report.created, report.updated, valid.Keys, ManagedNames(pre, owner))
    && Elements(report.invalid) == invalid && Increasing(report.deletedIds)
    && |report.deleted| == |report.deletedIds|
    && (forall id :: id in report.deletedIds <==> Unwanted(pre, owner, valid, invalid, id))
    && (forall i :: 0 <= i < |report.deleted| ==>
        report.deletedIds[i] in pre && report.deleted[i] == pre[report.deletedIds[i]].name)
  }

  // ---- the session's steps

  method Validate(accounts: map<nat, Account>, owner: nat, desired: seq<Workflow>)
    returns (valid: map<string, Workflow>, order: seq<string>, errors: seq<string>)
    ensures valid == ValidByName(accounts, owner, desired)
    ensures Distinct(order) && Elements(order) == valid.Keys
    ensures Elements(errors) == Invalid(accounts, owner, desired)
    ensures forall name :: name in valid ==> valid[name].name == name
    ensures forall name :: name in valid ==>
              && valid[name] in desired && valid[name].account in accounts
              && accounts[valid[name].account].owner == owner && !accounts[valid[name].account].disabled
  {
    valid, order, errors := map[], [], [];
    for n := 0 to |desired|
      invariant valid == ValidByName(accounts, owner, desired[..n])
      invariant Distinct(order) && Elements(order) == valid.Keys
      invariant Elements(errors) == Invalid(accounts, owner, desired[..n])
      invariant forall name :: name in valid ==> valid[name].name == name
      invariant forall name :: name in valid ==>
                  && valid[name] in desired && valid[name].account in accounts
                  && accounts[valid[name].account].owner == owner && !accounts[valid[name].account].disabled
    {
      var wf := desired[n];
      assert desired[..n + 1][..n] == desired[..n];
      InvalidGrows(accounts, owner, desired, n);
      if !Usable(accounts, owner, wf) {
        assert Elements(errors + [wf.name]) == Elements(errors) + {wf.name};
        errors := errors + [wf.name];
        continue;
      }
      if wf.name !in valid {
        assert Elements(order + [wf.name]) == Elements(order) + {wf.name};
        order := order + [wf.name];
      }
      valid := valid[wf.name := wf];
    }
    assert desired[..|desired|] == desired;
  }

  lemma InvalidGrows(accounts: map<nat, Account>, owner: nat, desired: seq<Workflow>, n: nat)
    requires n < |desired|
    ensures Invalid(accounts, owner, desired[..n + 1])
         == Invalid(accounts, owner, desired[..n])
            + (if Usable(accounts, owner, desired[n]) then {} else {desired[n].name})
  {
    var a, b := desired[..n], desired[..n + 1];
    assert forall i :: 0 <= i < n ==> a[i] == b[i];
    assert b[n] == desired[n];
    forall name | name in Invalid(accounts, owner, a) ensures name in Invalid(accounts, owner, b) {
      var i :| 0 <= i < n && !Usable(accounts, owner, a[i]) && a[i].name == name;
      assert !Usable(accounts, owner, b[i]) && b[i].name == name;
    }
  }

  method GetByName(rows: Table, owner: nat, name: string) returns (id: Option<nat>)
    ensures id.Some? ==> Named(rows, id.value, owner, name)
    ensures id == None ==> !HasName(rows, owner, name)
  {
    var hits := set i | i in rows && rows[i].owner == owner && rows[i].name == name;
    if hits == {} {
      id := None;
      assert forall i :: Named(rows, i, owner, name) ==> i in hits;
    } else {
      var hit :| hit in hits;
      id := Some(hit);
    }
  }

  function SoFar(row: Row, owner: nat, valid: map<string, Workflow>, done: set<string>): Row
    requires done <= valid.Keys
  {
    if Managed(row, owner) && row.name in done then Updated(row, valid[row.name]) else row
  }

  ghost predicate IsNew(pre: Table, row: Row, owner: nat, valid: map<string, Workflow>) {
    row.name in valid && row == NewRow(owner, Yaml, valid[row.name]) && !HasName(pre, owner, row.name)
  }

  /** Where the session stands when the names in `done` have been upserted. */
  ghost predicate Upserted(pre: Table, next: nat, now: Table, nextNow: nat, owner: nat, valid: map<string, Workflow>,
                           done: set<string>) {
    && next <= nextNow && done <= valid.Keys
    && (forall id :: id in pre ==> id in now && now[id] == SoFar(pre[id], owner, valid, done))
    && (forall id :: id in now && id !in pre ==>
        next <= id < nextNow && IsNew(pre, now[id], owner, valid) && now[id].name in done)
    && (forall name :: name in done ==> HasName(now, owner, name) && !Clash(pre, owner, valid, name))
    && UniqueNames(now)
  }

  /** `upsert_by_source`: insert, update in place, or refuse a row of another source. */
  method UpsertBySource(session: Table, nextId: nat, owner: nat, wf: Workflow,
                        ghost pre: Table, ghost next: nat, ghost valid: map<string, Workflow>, ghost done: set<string>)
    returns (r: Result<(Table, nat), string>)
    requires wf.name in valid && valid[wf.name] == wf && wf.name !in done
    requires Upserted(pre, next, session, nextId, owner, valid, done)
    requires (forall id :: id in pre ==> id < next) && UniqueNames(pre)
    ensures r.Ok? ==> Upserted(pre, next, r.value.0, r.value.1, owner, valid, done + {wf.name})
    ensures r.Err? ==> Clash(pre, owner, valid, wf.name)
  {
    var existing := GetByName(session, owner, wf.name);
    if existing == None {
      r := Ok((session[nextId := NewRow(owner, Yaml, wf)], nextId + 1));
      InsertKeeps(session, nextId, owner, wf, pre, next, valid, done);
    } else if session[existing.value].source != Yaml {
      assert existing.value in pre && Named(pre, existing.value, owner, wf.name);
      r := Err("exists with another source");
    } else {
      r := Ok((session[existing.value := Updated(session[existing.value], wf)], nextId));
      UpdateKeeps(session, nextId, owner, wf, existing.value, pre, next, valid, done);
    }
  }

  lemma InsertIsUnique(session: Table, nextId: nat, row: Row)
    requires UniqueNames(session) && nextId !in session && !HasName(session, row.owner, row.name)
    ensures UniqueNames(session[nextId := row])
  {
    forall id | id in session ensures !(session[id].owner == row.owner && session[id].name == row.name) {
      assert !Named(session, id, row.owner, row.name);
    }
  }

  /** A name the session lacks was not there before either. */
  lemma NewNameIsNew(session: Table, nextId: nat, owner: nat, name: string, pre: Table, next: nat,
                     valid: map<string, Workflow>, done: set<string>)
    requires Upserted(pre, next, session, nextId, owner, valid, done) && !HasName(session, owner, name)
    ensures !HasName(pre, owner, name) && forall id :: !Named(pre, id, owner, name)
  {
    forall id ensures !Named(pre, id, owner, name) {
      if id in pre { assert session[id].owner == pre[id].owner && !Named(session, id, owner, name); }
    }
  }

  lemma InsertKeeps(session: Table, nextId: nat, owner: nat, wf: Workflow, pre: Table, next: nat,
                    valid: map<string, Workflow>, done: set<string>)
    requires wf.name in valid && valid[wf.name] == wf && wf.name !in done
    requires Upserted(pre, next, session, nextId, owner, valid, done)
    requires (forall id :: id in pre ==> id < next) && !HasName(session, owner, wf.name)
    ensures Upserted(pre, next, session[nextId := NewRow(owner, Yaml, wf)], nextId + 1, owner, valid, done + {wf.name})
  {
    var row := NewRow(owner, Yaml, wf);
    var session' := session[nextId := row];
    assert nextId !in session;
    InsertIsUnique(session, nextId, row);
    KeepNames(session, session', owner, done);
    assert Named(session', nextId, owner, wf.name);
    NewNameIsNew(session, nextId, owner, wf.name, pre, next, valid, done);
    forall id | id in pre ensures session'[id] == SoFar(pre[id], owner, valid, done + {wf.name}) {
      assert !Named(pre, id, owner, wf.name);
    }
  }

  lemma UpdateKeeps(session: Table, nextId: nat, owner: nat, wf: Workflow, id: nat, pre: Table, next: nat,
                    valid: map<string, Workflow>, done: set<string>)
    requires wf.name in valid && valid[wf.name] == wf && wf.name !in done
    requires Upserted(pre, next, session, nextId, owner, valid, done)
    requires (forall x :: x in pre ==> x < next) && UniqueNames(pre)
    requires Named(session, id, owner, wf.name) && session[id].source == Yaml
    ensures Upserted(pre, next, session[id := Updated(session[id], wf)], nextId, owner, valid, done + {wf.name})
  {
    var session' := session[id := Updated(session[id], wf)];
    assert id in pre && session[id] == pre[id];
    assert Named(session', id, owner, wf.name);
    KeepNames(session, session', owner, done);
    assert !Clash(pre, owner, valid, wf.name) by {
      assert forall x :: Named(pre, x, owner, wf.name) ==> x == id;
    }
    assert forall x :: x in pre && Managed(pre[x], owner) && pre[x].name == wf.name ==> x == id;
  }

  method UpsertAll(pre: Table, next: nat, owner: nat, valid: map<string, Workflow>, order: seq<string>)
    returns (r: Result<(Table, nat, seq<string>, seq<string>), string>)
    requires (forall id :: id in pre ==> id < next) && UniqueNames(pre)
    requires Distinct(order) && Elements(order) == valid.Keys
    requires forall name :: name in valid ==> valid[name].name == name
    ensures r.Ok? ==>
              && Upserted(pre, next, r.value.0, r.value.1, owner, valid, valid.Keys)
              && Buckets(r.value.2, r.value.3, valid.Keys, ManagedNames(pre, owner))
    ensures r.Err? ==> exists name :: Clash(pre, owner, valid, name)
  {
    var known := ManagedNames(pre, owner);
    var session, nextNow := pre, next;
    var created, updated: seq<string> := [], [];
    ghost var done: set<string> := {};
    for k := 0 to |order|
      invariant done == Elements(order[..k])
      invariant Upserted(pre, next, session, nextNow, owner, valid, done)
      invariant Buckets(created, updated, done, known)
    {
      var name := order[k];
      assert name in Elements(order);
      assert name !in done;
      var step := UpsertBySource(session, nextNow, owner, valid[name], pre, next, valid, done);
      if step.Err? {
        return Err(step.error);
      }
      session, nextNow := step.value.0, step.value.1;
      assert order[..k + 1] == order[..k] + [name];
      AddElement(order[..k], name);
      BucketsGrow(created, updated, done, known, name);
      done := done + {name};
      if name in known {
        updated := updated + [name];
      } else {
        created := created + [name];
      }
    }
    assert order[..|order|] == order;
    r := Ok((session, nextNow, created, updated));
  }

  /** The upserted names, each once, split by whether the owner already had them from YAML. */
  predicate Buckets(created: seq<string>, updated: seq<string>, done: set<string>, known: set<string>) {
    && Distinct(created) && Elements(created) == done - known
    && Distinct(updated) && Elements(updated) == done * known
  }

  lemma BucketsGrow(created: seq<string>, updated: seq<string>, done: set<string>, known: set<string>, name: string)
    requires Buckets(created, updated, done, known) && name !in done
    ensures if name in known then Buckets(created, updated + [name], done + {name}, known)
            else Buckets(created + [name], updated, done + {name}, known)
  {
    AddElement(updated, name);
    AddElement(created, name);
  }

  lemma AddElement(s: seq<string>, x: string)
    ensures Elements(s + [x]) == Elements(s) + {x}
    ensures Distinct(s) && x !in Elements(s) ==> Distinct(s + [x])
  {
  }

  /** What the deletion loop has collected from the first `k` of the existing ids. */
  ghost predicate Collected(pre: Table, owner: nat, valid: map<string, Workflow>, invalid: set<string>,
                            existing: seq<nat>, k: nat, gone: seq<nat>, deleted: seq<string>)
    requires k <= |existing|
  {
    && Increasing(gone) && |deleted| == |gone|
    && (forall id :: id in gone ==> id in existing[..k] && Unwanted(pre, owner, valid, invalid, id))
    && (forall id :: id in existing[..k] && Unwanted(pre, owner, valid, invalid, id) ==> id in gone)
    && (forall i :: 0 <= i < |gone| ==> gone[i] in pre && deleted[i] == pre[gone[i]].name)
  }

  lemma CollectNext(pre: Table, owner: nat, valid: map<string, Workflow>, invalid: set<string>,
                    existing: seq<nat>, k: nat, gone: seq<nat>, deleted: seq<string>)
    requires k < |existing| && Increasing(existing) && existing[k] in pre && Managed(pre[existing[k]], owner)
    requires Collected(pre, owner, valid, invalid, existing, k, gone, deleted)
    ensures if pre[existing[k]].name in valid || pre[existing[k]].name in invalid
            then Collected(pre, owner, valid, invalid, existing, k + 1, gone, deleted)
            else Collected(pre, owner, valid, invalid, existing, k + 1, gone + [existing[k]],
                deleted + [pre[existing[k]].name])
  {
    var id := existing[k];
    assert existing[..k + 1] == existing[..k] + [id];
    forall i | 0 <= i < |gone| ensures gone[i] < id {
      assert gone[i] in gone;
      var m :| 0 <= m < k && existing[..k][m] == gone[i];
      assert existing[m] < existing[k];
    }
  }

  /** The rows that are no longer wanted, in id order. */
  method DeleteMissing(pre: Table, next: nat, session: Table, owner: nat, valid: map<string, Workflow>,
                       invalid: set<string>)
    returns (kept: Table, gone: seq<nat>, deleted: seq<string>)
    requires forall id :: id in pre ==> id < next
    ensures kept == session - Elements(gone) && Increasing(gone) && |deleted| == |gone|
    ensures forall id :: id in gone <==> Unwanted(pre, owner, valid, invalid, id)
    ensures forall i :: 0 <= i < |gone| ==> gone[i] in pre && deleted[i] == pre[gone[i]].name
  {
    var existing := Listing(pre, next, row => Managed(row, owner));
    kept, gone, deleted := session, [], [];
    for k := 0 to |existing|
      invariant kept == session - Elements(gone)
      invariant Collected(pre, owner, valid, invalid, existing, k, gone, deleted)
    {
      var id := existing[k];
      assert id in existing;
      CollectNext(pre, owner, valid, invalid, existing, k, gone, deleted);
      if pre[id].name !in valid && pre[id].name !in invalid {
        ElementsGrow(gone, id);
        deleted, gone := deleted + [pre[id].name], gone + [id];
        kept := kept - {id};
      }
    }
    assert existing[..|existing|] == existing;
    forall id | Unwanted(pre, owner, valid, invalid, id) ensures id in gone {
      assert id in existing;
    }
  }

  predicate Unwanted(pre: Table, owner: nat, valid: map<string, Workflow>, invalid: set<string>, id: nat) {
    id in pre && Fate(pre[id], owner, valid, invalid) == None
  }

  lemma ElementsGrow(s: seq<nat>, x: nat)
    ensures Elements(s + [x]) == Elements(s) + {x}
  {
  }

  lemma DeletedIsReconciled(pre: Table, next: nat, session: Table, nextNow: nat, owner: nat,
                            valid: map<string, Workflow>, invalid: set<string>, gone: seq<nat>)
    requires Upserted(pre, next, session, nextNow, owner, valid, valid.Keys)
    requires forall id :: id in gone <==> Unwanted(pre, owner, valid, invalid, id)
    ensures Reconciled(pre, next, session - Elements(gone), owner, valid, invalid)
  {
    var post := session - Elements(gone);
    forall id | id in pre
      ensures session[id].name == pre[id].name && session[id].owner == pre[id].owner
      ensures id in post <==> Fate(pre[id], owner, valid, invalid) != None
      ensures id in post ==> post[id] == Fate(pre[id], owner, valid, invalid).value
    {
      assert session[id] == SoFar(pre[id], owner, valid, valid.Keys);
    }
    assert UniqueNames(post) by {
      forall i, j | i in post && j in post && post[i].owner == post[j].owner && post[i].name == post[j].name
        ensures i == j
      {
        assert session[i] == post[i] && session[j] == post[j];
      }
    }
    forall name | name in valid ensures HasName(post, owner, name) {
      var id :| Named(session, id, owner, name);
      assert id !in gone;
      assert Named(post, id, owner, name);
    }
  }

  lemma KeepNames(a: Table, b: Table, owner: nat, names: set<string>)
    requires forall id :: id in a ==> id in b && b[id].owner == a[id].owner && b[id].name == a[id].name
    requires forall name :: name in names ==> HasName(a, owner, name)
    ensures forall name :: name in names ==> HasName(b, owner, name)
  {
    forall name | name in names ensures HasName(b, owner, name) {
      var id :| Named(a, id, owner, name);
      assert Named(b, id, owner, name);
    }
  }

  // ---- what a sync promises

  ghost predicate HasYaml(rows: Table, owner: nat, name: string) {
    exists id :: Named(rows, id, owner, name) && rows[id].source == Yaml
  }

  /** The owner's YAML rows are the valid workflows plus prior rows kept because their name failed validation. */
  lemma FinalYamlRows(pre: Table, next: nat, post: Table, owner: nat, valid: map<string, Workflow>,
                      invalid: set<string>, name: string)
    requires Reconciled(pre, next, post, owner, valid, invalid) && !Clash(pre, owner, valid, name)
    ensures HasYaml(post, owner, name) <==> name in valid || (name in invalid && HasYaml(pre, owner, name))
  {
    if HasYaml(post, owner, name) {
      var id :| Named(post, id, owner, name) && post[id].source == Yaml;
      if id in pre && name !in valid {
        assert Named(pre, id, owner, name) && pre[id].source == Yaml;
      }
    }
    if name in valid {
      var id :| Named(post, id, owner, name);
      assert id in pre ==> Named(pre, id, owner, name);
      assert post[id].source == Yaml;
    } else if name in invalid && HasYaml(pre, owner, name) {
      var id :| Named(pre, id, owner, name) && pre[id].source == Yaml;
      assert Named(post, id, owner, name) && post[id].source == Yaml;
    }
  }

  /**
   * What a report holds of a name, in terms of the accounts, the desired workflows
   * and the stored rows: it is written exactly if some workflow of that name has an
   * accepted account, as an update if the owner had the name from YAML, and it has
   * failed exactly if some workflow of that name has a refused one.
   */
  lemma WrittenExactly(accounts: map<nat, Account>, owner: nat, desired: seq<Workflow>, pre: Table, report: Report,
                       name: string)
    requires Reports(report, pre, owner, ValidByName(accounts, owner, desired), Invalid(accounts, owner, desired))
    ensures name in report.created || name in report.updated <==>
              exists i :: 0 <= i < |desired| && desired[i].name == name && !Refused(accounts, owner, desired[i].account)
    ensures name in report.invalid <==>
              exists i :: 0 <= i < |desired| && desired[i].name == name && Refused(accounts, owner, desired[i].account)
    ensures name in report.updated ==>
              exists id :: id in pre && pre[id].owner == owner && pre[id].source == Yaml && pre[id].name == name
    ensures name in report.created ==>
              forall id :: id in pre && pre[id].owner == owner && pre[id].source == Yaml ==> pre[id].name != name
  {
    var _ := ValidExactly(accounts, owner, desired, name);
    var valid := ValidByName(accounts, owner, desired);
    assert name in Elements(report.created) <==> name in report.created;
    assert name in Elements(report.updated) <==> name in report.updated;
    assert name in Elements(report.invalid) <==> name in report.invalid;
    if name in report.updated {
      assert name in ManagedNames(pre, owner);
    }
    if name in report.created {
      assert name !in ManagedNames(pre, owner);
    }
  }

  /** Reported as deleted are the owner's YAML rows that no desired workflow names. */
  lemma DeletedExactly(accounts: map<nat, Account>, owner: nat, desired: seq<Workflow>, pre: Table, report: Report,
                       id: nat)
    requires Reports(report, pre, owner, ValidByName(accounts, owner, desired), Invalid(accounts, owner, desired))
    ensures id in report.deletedIds <==>
              && id in pre && pre[id].owner == owner && pre[id].source == Yaml
              && forall i :: 0 <= i < |desired| ==> desired[i].name != pre[id].name
  {
    if id in pre {
      var _ := ValidExactly(accounts, owner, desired, pre[id].name);
    }
  }

  /**
   * What a successful sync makes of a stored row: another owner's or the API's stays;
   * otherwise it takes the content of the last accepted workflow of its name, stays
   * if there is none but a refused one, and is deleted if no workflow has its name.
   */
  lemma RowExactly(accounts: map<nat, Account>, owner: nat, desired: seq<Workflow>, pre: Table, next: nat, post: Table,
                   id: nat)
    returns (k: nat)
    requires Reconciled(pre, next, post, owner, ValidByName(accounts, owner, desired),
                        Invalid(accounts, owner, desired))
    requires id in pre
    ensures pre[id].owner != owner || pre[id].source != Yaml ==> id in post && post[id] == pre[id]
    ensures pre[id].owner == owner && pre[id].source == Yaml ==>
              if exists i :: 0 <= i < |desired| && desired[i].name == pre[id].name
                             && !Refused(accounts, owner, desired[i].account)
              then
                && LastAccepted(accounts, owner, desired, k) && desired[k].name == pre[id].name
                && id in post
                && post[id] == Row(owner, pre[id].name, desired[k].account, desired[k].enabled, Yaml,
                                   desired[k].trigger, desired[k].plan, pre[id].rrCounter)
              else if exists i :: 0 <= i < |desired| && desired[i].name == pre[id].name
              then id in post && post[id] == pre[id]
              else id !in post
  {
    k := ValidExactly(accounts, owner, desired, pre[id].name);
  }

  /** A new row is the last accepted workflow of a name the owner did not have, with a counter of zero. */
  lemma NewRowExactly(accounts: map<nat, Account>, owner: nat, desired: seq<Workflow>, pre: Table, next: nat,
                      post: Table, id: nat)
    returns (k: nat)
    requires Reconciled(pre, next, post, owner, ValidByName(accounts, owner, desired),
                        Invalid(accounts, owner, desired))
    requires id in post && id !in pre
    ensures LastAccepted(accounts, owner, desired, k)
    ensures post[id] == Row(owner, desired[k].name, desired[k].account, desired[k].enabled, Yaml, desired[k].trigger,
                            desired[k].plan, 0)
    ensures forall other :: other in pre ==> !(pre[other].owner == owner && pre[other].name == desired[k].name)
  {
    k := ValidExactly(accounts, owner, desired, post[id].name);
    forall other | other in pre ensures !(pre[other].owner == owner && pre[other].name == desired[k].name) {
      assert !Named(pre, other, owner, desired[k].name);
    }
  }

  /** A sync fails exactly on an accepted workflow whose name the owner has from the API. */
  lemma ClashExactly(accounts: map<nat, Account>, owner: nat, desired: seq<Workflow>, pre: Table)
    ensures (exists name :: Clash(pre, owner, ValidByName(accounts, owner, desired), name))
       <==> (exists i, id :: 0 <= i < |desired| && !Refused(accounts, owner, desired[i].account) && id in pre
                             && pre[id].owner == owner && pre[id].source == Api && pre[id].name == desired[i].name)
  {
    var valid := ValidByName(accounts, owner, desired);
    if name :| Clash(pre, owner, valid, name) {
      var _ := ValidExactly(accounts, owner, desired, name);
      var i :| 0 <= i < |desired| && desired[i].name == name && !Refused(accounts, owner, desired[i].account);
      var id :| Named(pre, id, owner, name) && pre[id].source != Yaml;
      assert pre[id].name == desired[i].name;
    }
    if i, id :| 0 <= i < |desired| && !Refused(accounts, owner, desired[i].account) && id in pre
                && pre[id].owner == owner && pre[id].source == Api && pre[id].name == desired[i].name {
      var _ := ValidExactly(accounts, owner, desired, desired[i].name);
      assert Named(pre, id, owner, desired[i].name);
      assert Clash(pre, owner, valid, desired[i].name);
    }
  }

  /** Every accepted name has a row of the owner afterwards. */
  lemma AcceptedIsStored(accounts: map<nat, Account>, owner: nat, desired: seq<Workflow>, pre: Table, next: nat,
                         post: Table, i: nat)
    returns (id: nat)
    requires Reconciled(pre, next, post, owner, ValidByName(accounts, owner, desired),
                        Invalid(accounts, owner, desired))
    requires i < |desired| && !Refused(accounts, owner, desired[i].account)
    ensures id in post && post[id].owner == owner && post[id].name == desired[i].name
  {
    var _ := ValidExactly(accounts, owner, desired, desired[i].name);
    id :| Named(post, id, owner, desired[i].name);
  }

  /** Each valid workflow's content is stored; an existing row keeps its id, source and counter. */
  lemma ValidContentIsStored(pre: Table, next: nat, post: Table, owner: nat, valid: map<string, Workflow>,
                             invalid: set<string>, id: nat)
    requires Reconciled(pre, next, post, owner, valid, invalid) && id in post && Managed(post[id], owner)
    requires post[id].name in valid
    ensures var wf := valid[post[id].name];
            && post[id].account == wf.account && post[id].enabled == wf.enabled
            && post[id].trigger == wf.trigger && post[id].plan == wf.plan
            && (id in pre ==>
                  && post[id].rrCounter == pre[id].rrCounter
                  && post[id].source == pre[id].source && post[id].name == pre[id].name)
            && (id !in pre ==> post[id].rrCounter == 0)
  {
  }

  /** Rows of other owners and rows that came from the API are untouched. */
  lemma OthersUntouched(pre: Table, next: nat, post: Table, owner: nat, valid: map<string, Workflow>,
                        invalid: set<string>, id: nat)
    requires Reconciled(pre, next, post, owner, valid, invalid)
    requires (id in pre && !Managed(pre[id], owner)) || (id in post && !Managed(post[id], owner))
    ensures id in pre && id in post && post[id] == pre[id]
  {
  }

  /** Running the same sync again changes no row, and reports nothing created or deleted. */
  lemma SyncIsIdempotent(a: Table, nextA: nat, b: Table, nextB: nat, c: Table, owner: nat,
                         valid: map<string, Workflow>, invalid: set<string>, report: Report)
    requires Reconciled(a, nextA, b, owner, valid, invalid) && Reconciled(b, nextB, c, owner, valid, invalid)
    requires Reports(report, b, owner, valid, invalid)
    requires forall name :: !Clash(a, owner, valid, name)
    ensures c == b && report.created == [] && report.deletedIds == []
  {
    assert forall name :: name in valid ==> !Clash(a, owner, valid, name);
    SettledNames(a, nextA, b, owner, valid, invalid);
    forall id | id in b ensures Fate(b[id], owner, valid, invalid) == Some(b[id]) {
      KeptAgain(a, nextA, b, owner, valid, invalid, id);
    }
    SettledRows(b, nextB, c, owner, valid, invalid);
    SettledReport(b, owner, valid, invalid, report);
  }

  lemma SettledNames(a: Table, nextA: nat, b: Table, owner: nat, valid: map<string, Workflow>, invalid: set<string>)
    requires Reconciled(a, nextA, b, owner, valid, invalid)
    requires forall name :: name in valid ==> !Clash(a, owner, valid, name)
    ensures valid.Keys <= ManagedNames(b, owner)
  {
    forall name | name in valid ensures name in ManagedNames(b, owner) {
      FinalYamlRows(a, nextA, b, owner, valid, invalid, name);
      var id :| Named(b, id, owner, name) && b[id].source == Yaml;
      assert Managed(b[id], owner);
    }
  }

  lemma SettledRows(b: Table, nextB: nat, c: Table, owner: nat, valid: map<string, Workflow>, invalid: set<string>)
    requires Reconciled(b, nextB, c, owner, valid, invalid)
    requires forall id :: id in b ==> Fate(b[id], owner, valid, invalid) == Some(b[id])
    requires valid.Keys <= ManagedNames(b, owner)
    ensures c == b
  {
    forall id | id in c ensures id in b {
      var name := c[id].name;
      if name in ManagedNames(b, owner) {
        var known :| known in b && Managed(b[known], owner) && b[known].name == name;
        assert Named(b, known, owner, name);
      }
    }
  }

  lemma SettledReport(b: Table, owner: nat, valid: map<string, Workflow>, invalid: set<string>, report: Report)
    requires Reports(report, b, owner, valid, invalid)
    requires forall id :: id in b ==> Fate(b[id], owner, valid, invalid) == Some(b[id])
    requires valid.Keys <= ManagedNames(b, owner)
    ensures report.created == [] && report.deletedIds == []
  {
    DistinctSize(report.created);
    assert Elements(report.created) == {};
    DistinctSize(report.deletedIds);
    assert forall id :: !Unwanted(b, owner, valid, invalid, id);
    assert Elements(report.deletedIds) == {};
  }

  lemma KeptAgain(a: Table, nextA: nat, b: Table, owner: nat, valid: map<string, Workflow>, invalid: set<string>,
                  id: nat)
    requires Reconciled(a, nextA, b, owner, valid, invalid) && id in b
    ensures Fate(b[id], owner, valid, invalid) == Some(b[id])
  {
    if id !in a { assert IsNew(a, b[id], owner, valid); }
  }

  function NamesOf(desired: seq<Workflow>): set<string> {
    set i | 0 <= i < |desired| :: desired[i].name
  }

  /** With distinct names, as deduplication guarantees, created, updated and invalid partition the names. */
  lemma {:induction false} OutcomesPartitionNames(accounts: map<nat, Account>, owner: nat, desired: seq<Workflow>)
    requires forall i, j :: 0 <= i < j < |desired| ==> desired[i].name != desired[j].name
    ensures var valid, invalid := ValidByName(accounts, owner, desired), Invalid(accounts, owner, desired);
            valid.Keys !! invalid && valid.Keys + invalid == NamesOf(desired)
  {
    if desired != [] {
      var n := |desired| - 1;
      OutcomesPartitionNames(accounts, owner, desired[..n]);
      InvalidGrows(accounts, owner, desired, n);
      assert desired[..n + 1] == desired;
      NamesGrow(desired, n);
      assert desired[n].name !in NamesOf(desired[..n]);
    }
  }

  lemma NamesGrow(desired: seq<Workflow>, n: nat)
    requires n + 1 == |desired|
    ensures NamesOf(desired) == NamesOf(desired[..n]) + {desired[n].name}
  {
    var a := desired[..n];
    assert forall i :: 0 <= i < n ==> a[i] == desired[i];
    forall name | name in NamesOf(a) ensures name in NamesOf(desired) {
      var i :| 0 <= i < n && a[i].name == name;
      assert desired[i].name == name;
    }
  }
}
