/**
 Writing a planned batch to the projects table, whose keys and folded names are unique at every statement: names
 may be swapped within a batch because the changed ones are vacated first.
 */
module ProjectTable {
  import opened Wrappers
  import opened JsonNumber
  import opened ProjectBatch
  import opened ProjectRegistry

  type Table = map<int, Entry>

  /** No two rows share a key or a folded name. */
  ghost predicate UniqueRows(t: Table)
  {
    forall a, b | a in t && b in t && a != b :: t[a].projectKey != t[b].projectKey
                                                && t[a].normalizedName != t[b].normalizedName
  }

  /** Would a row with this key and folded name collide with a row other than `id`? */
  predicate Collides(t: Table, id: int, key: Text, name: Text)
  {
    exists other | other in t && other != id :: t[other].projectKey == key || t[other].normalizedName == name
  }

  /** The listing of a table: every row once, in any order. */
  ghost predicate Lists(listing: seq<Project>, t: Table)
  {
    forall p :: p in listing <==> p.id in t && t[p.id] == p.entry
  }

  function Vacated(token: int -> Text, t: Table, id: int): Entry
    requires id in t
  {
    t[id].(normalizedName := token(id))
  }

  /** Folded names are the folds of names, as preparing makes them. */
  predicate Folded(host: Host, e: Entry) { e.normalizedName == host.norm(e.name) }

  // ---------- What the plans say about the table ----------

  /** Plan `j` changes the row `id`. */
  predicate Updates(plans: seq<Plan>, j: int, id: int)
  {
    && 0 <= j < |plans| && plans[j].action.Update?
    && plans[j].existing.Some? && plans[j].existing.value.id == id
  }

  predicate NamesApart(a: Entry, b: Entry)
  {
    a.projectKey != b.projectKey && a.normalizedName != b.normalizedName
  }

  /** Plan `i` is the plan of entry `i` against the table as it was. */
  ghost predicate PlanMatches(before: Table, e: Entry, plan: Plan)
  {
    && plan.project == e && e.createdBy.Import?
    && (plan.action.Create? <==> plan.existing.None?)
    && (plan.existing.None? ==> forall id | id in before :: before[id].projectKey != e.projectKey)
    && (plan.existing.Some? ==>
          var p := plan.existing.value;
          && p.id in before && before[p.id] == p.entry
          && p.entry.projectKey == e.projectKey && p.entry.createdBy.Import?
          && (plan.action.Unchanged? ==> p.entry == e))
  }

  ghost predicate Matches(token: int -> Text, before: Table, es: seq<Entry>, plans: seq<Plan>)
  {
    && |plans| == |es| && UniqueRows(before)
    && (forall i | 0 <= i < |es| :: PlanMatches(before, es[i], plans[i]))
    && (forall i, j | 0 <= i < |es| && 0 <= j < |es| && i != j :: NamesApart(es[i], es[j]))
    && (forall i, id | 0 <= i < |es| && id in before && before[id].projectKey !in Keys(es) ::
          NamesApart(before[id], es[i]))
    && TokensClear(token, before, es)
  }

  /** Vacating names collide with nothing. */
  ghost predicate TokensClear(token: int -> Text, before: Table, es: seq<Entry>)
  {
    && (forall a, b | token(a) == token(b) :: a == b)
    && (forall a, id | id in before :: token(a) != before[id].normalizedName)
    && (forall a, i | 0 <= i < |es| :: token(a) != es[i].normalizedName)
  }

  /** After the vacating statements of the first `n` plans. */
  ghost predicate Vacating(token: int -> Text, before: Table, plans: seq<Plan>, n: int, t: Table)
  {
    && t.Keys == before.Keys && UniqueRows(t)
    && (forall id | id in before ::
          || t[id] == before[id]
          || (t[id] == Vacated(token, before, id) && exists j | 0 <= j < n :: Updates(plans, j, id)))
    && (forall j, id | 0 <= j < n && Updates(plans, j, id) && id in before :: t[id] == Vacated(token, before, id))
  }

  /** The row `id` of the table as it was, once the first `n` plans are saved. */
  ghost predicate RowSaved(token: int -> Text, before: Table, es: seq<Entry>, plans: seq<Plan>, n: int, id: int, e: Entry)
    requires id in before && |plans| == |es|
  {
    && (forall j | Updates(plans, j, id) :: e == if j < n then es[j] else Vacated(token, before, id))
    && ((forall j :: !Updates(plans, j, id)) ==> e == before[id])
  }

  ghost predicate Saving(token: int -> Text, before: Table, es: seq<Entry>, plans: seq<Plan>, freeIds: seq<int>,
                         n: int, t: Table)
  {
    && |plans| == |es| == |freeIds| && UniqueRows(t)
    && (forall id | id in before :: id in t && RowSaved(token, before, es, plans, n, id, t[id]))
    && (forall id | id in t && id !in before ::
          exists j | 0 <= j < n && j < |es| :: plans[j].action.Create? && id == freeIds[j] && t[id] == es[j])
    && (forall j | 0 <= j < n && j < |es| && plans[j].action.Create? :: freeIds[j] in t && t[freeIds[j]] == es[j])
  }

  ghost predicate FreeIds(before: Table, freeIds: seq<int>)
  {
    && (forall i | 0 <= i < |freeIds| :: freeIds[i] !in before)
    && (forall i, j | 0 <= i < j < |freeIds| :: freeIds[i] != freeIds[j])
  }

  /** The table after an import: rows no import names are as they were, and every import has its row. */
  ghost predicate Stored(before: Table, es: seq<Entry>, after: Table)
  {
    && (forall id | id in before ::
          && id in after && after[id].projectKey == before[id].projectKey
          && (before[id].projectKey !in Keys(es) ==> after[id] == before[id]))
    && (forall e | e in es :: exists id :: id in after && after[id] == e)
    && (forall id | id in after && id !in before :: after[id] in es)
    && UniqueRows(after)
  }

  // ---------- The plans of a batch match the table it was planned against ----------

  lemma {:induction false} PreparedFolded(host: Host, rows: seq<Input>)
    requires PrepareAll(host, rows).Ok?
    ensures forall i | 0 <= i < |PrepareAll(host, rows).value| :: Folded(host, PrepareAll(host, rows).value[i])
  {
    if rows != [] { PreparedFolded(host, rows[..|rows| - 1]); }
  }

  lemma TableUnique(host: Host, listing: seq<Project>, t: Table)
    requires Lists(listing, t) && Sound(host, listing)
    ensures UniqueRows(t)
  {
    forall a, b | a in t && b in t && a != b
      ensures t[a].projectKey != t[b].projectKey && t[a].normalizedName != t[b].normalizedName
    {
      var p, q := Project(a, t[a]), Project(b, t[b]);
      assert p in listing && q in listing;
      DifferentIds(host, listing, p, q);
      assert p.entry.normalizedName in Terms(host, p.entry);
    }
  }

  lemma DisjointNames(host: Host, a: Entry, b: Entry)
    requires Disjoint(host, a, b)
    ensures a.normalizedName != b.normalizedName
  {
    assert a.normalizedName in Terms(host, a) && b.normalizedName in Terms(host, b);
  }

  lemma PlanMatchesTable(host: Host, listing: seq<Project>, before: Table, es: seq<Entry>, e: Entry)
    requires Lists(listing, before) && Sound(host, listing) && Fitting(host, es, listing) && e in es
    requires Folded(host, e) && forall id | id in before :: Folded(host, before[id])
    ensures PlanMatches(before, e, Expected(e, LastWithKey(listing, e.projectKey)))
  {
    var known := LastWithKey(listing, e.projectKey);
    LastFound(listing, e.projectKey);
    assert Fits(host, es, listing, e);
    hide Sound, Fitting, Fits, Disjoint;
    if known.None? {
      forall id | id in before ensures before[id].projectKey != e.projectKey {
        assert Project(id, before[id]) in listing;
      }
    } else {
      KnownIsImport(host, es, listing, e, known.value);
    }
  }

  lemma KnownIsImport(host: Host, es: seq<Entry>, listing: seq<Project>, e: Entry, p: Project)
    requires Fitting(host, es, listing) && e in es && p in listing && p.entry.projectKey == e.projectKey
    ensures p.entry.createdBy.Import? && e.createdBy.Import?
  {
    assert Fits(host, es, listing, e);
  }

  lemma PlansAre(host: Host, rows: seq<Input>, listing: seq<Project>, before: Table, token: int -> Text)
    requires Lists(listing, before) && Sound(host, listing)
    requires forall id | id in before :: Folded(host, before[id])
    requires PrepareAll(host, rows).Ok? && Stable(host, PrepareAll(host, rows).value)
    requires TokensClear(token, before, PrepareAll(host, rows).value)
    requires PlanBatch(host, rows, listing).Ok?
    ensures PrepareAll(host, rows).Ok? && |PrepareAll(host, rows).value| == |rows|
    ensures Matches(token, before, PrepareAll(host, rows).value, PlanBatch(host, rows, listing).value.plans)
  {
    BatchFacts(host, rows, listing);
    PlannedIff(host, rows, listing);
    PrepareAllIff(host, rows);
    PreparedFolded(host, rows);
    TableUnique(host, listing, before);
    var es, plans := PrepareAll(host, rows).value, PlanBatch(host, rows, listing).value.plans;
    PlanAllIff(host, es, listing, Planned(es, listing));
    hide TokensClear, PlanBatch, PrepareAll, PlanAll, BatchFault, Planned, PlanRegistration, Others, Prepare, Stable;
    forall i | 0 <= i < |es| ensures PlanMatches(before, es[i], plans[i]) {
      assert es[i] in es;
      PlanMatchesTable(host, listing, before, es, es[i]);
      KnownOrNew(host, es, listing, es[i]);
      PlanEachIff(host, es, listing, es[i]);
    }
    FittingNames(host, listing, before, es);
  }

  lemma KnownOrNew(host: Host, es: seq<Entry>, listing: seq<Project>, e: Entry)
    requires Fitting(host, es, listing) && e in es
    ensures e.createdBy.Import?
  {
    assert Fits(host, es, listing, e);
  }

  lemma FittingNames(host: Host, listing: seq<Project>, before: Table, es: seq<Entry>)
    requires Lists(listing, before) && Fitting(host, es, listing)
    ensures forall i, j | 0 <= i < |es| && 0 <= j < |es| && i != j :: NamesApart(es[i], es[j])
    ensures forall i, id | 0 <= i < |es| && id in before && before[id].projectKey !in Keys(es) ::
              NamesApart(before[id], es[i])
  {
    hide Disjoint;
    forall i, j | 0 <= i < |es| && 0 <= j < |es| && i != j ensures NamesApart(es[i], es[j]) {
      assert if i < j then EntriesApart(host)(es[i], es[j]) else EntriesApart(host)(es[j], es[i]);
      if i < j { DisjointNames(host, es[i], es[j]); } else { DisjointNames(host, es[j], es[i]); }
    }
    forall i, id | 0 <= i < |es| && id in before && before[id].projectKey !in Keys(es)
      ensures NamesApart(before[id], es[i])
    {
      assert Project(id, before[id]) in listing && es[i] in es && Fits(host, es, listing, es[i]);
      DisjointNames(host, before[id], es[i]);
      KeysHas(es, es[i]);
    }
  }

  // ---------- Statements keep the unique indexes ----------

  lemma WriteKeepsUnique(t: Table, id: int, e: Entry)
    requires UniqueRows(t) && !Collides(t, id, e.projectKey, e.normalizedName)
    ensures UniqueRows(t[id := e])
  {
  }

  /** The row a changing plan owns is owned by that plan alone. */
  lemma OneOwner(token: int -> Text, before: Table, es: seq<Entry>, plans: seq<Plan>, i: int, j: int, id: int)
    requires Matches(token, before, es, plans) && Updates(plans, i, id) && Updates(plans, j, id)
    ensures i == j && id in before && before[id].projectKey == es[i].projectKey
  {
    assert PlanMatches(before, es[i], plans[i]) && PlanMatches(before, es[j], plans[j]);
    assert i != j ==> NamesApart(es[i], es[j]);
  }

  lemma OwnRow(token: int -> Text, before: Table, es: seq<Entry>, plans: seq<Plan>, i: int, j: int, id: int)
    requires Matches(token, before, es, plans) && 0 <= i < |plans|
    requires plans[i].existing.Some? && plans[i].existing.value.id == id
    ensures Updates(plans, j, id) ==> i == j
  {
    assert PlanMatches(before, es[i], plans[i]);
    if Updates(plans, j, id) {
      assert PlanMatches(before, es[j], plans[j]);
      assert i != j ==> NamesApart(es[i], es[j]);
    }
  }

  lemma VacateFits(token: int -> Text, before: Table, es: seq<Entry>, plans: seq<Plan>, i: int, t: Table)
    requires Matches(token, before, es, plans) && 0 <= i < |plans| && Vacating(token, before, plans, i, t)
    requires plans[i].action.Update?
    ensures plans[i].existing.Some? && plans[i].existing.value.id in t
    ensures var id := plans[i].existing.value.id;
            var e := Vacated(token, t, id);
            && !Collides(t, id, e.projectKey, e.normalizedName)
            && Vacating(token, before, plans, i + 1, t[id := e])
  {
    assert PlanMatches(before, es[i], plans[i]);
    var id := plans[i].existing.value.id;
    var e := Vacated(token, t, id);
    forall j | 0 <= j < i && Updates(plans, j, id) ensures false { OneOwner(token, before, es, plans, i, j, id); }
    assert Updates(plans, i, id) && t[id] == before[id];
    forall other | other in t && other != id
      ensures t[other].projectKey != e.projectKey && t[other].normalizedName != e.normalizedName
    {
    }
    WriteKeepsUnique(t, id, e);
  }

  lemma VacatedIsStart(token: int -> Text, before: Table, es: seq<Entry>, plans: seq<Plan>, freeIds: seq<int>, t: Table)
    requires Matches(token, before, es, plans) && Vacating(token, before, plans, |plans|, t) && |freeIds| == |es|
    ensures Saving(token, before, es, plans, freeIds, 0, t)
  {
    forall id | id in before ensures RowSaved(token, before, es, plans, 0, id, t[id]) {
    }
  }

  /** What a row of the table can be while plans are saved: no row but its own clashes with entry `i`. */
  lemma RowApart(token: int -> Text, before: Table, es: seq<Entry>, plans: seq<Plan>, freeIds: seq<int>, i: int,
                 t: Table, other: int)
    requires Matches(token, before, es, plans) && 0 <= i < |plans| && !plans[i].action.Unchanged?
    requires Saving(token, before, es, plans, freeIds, i, t) && other in t && !Updates(plans, i, other)
    ensures t[other].projectKey != es[i].projectKey && t[other].normalizedName != es[i].normalizedName
  {
    if other !in before {
      var j :| 0 <= j < i && plans[j].action.Create? && t[other] == es[j];
      assert NamesApart(es[j], es[i]);
    } else {
      assert RowSaved(token, before, es, plans, i, other, t[other]);
      if j :| Updates(plans, j, other) {
        OneOwner(token, before, es, plans, j, j, other);
        assert NamesApart(es[j], es[i]);
      } else {
        OldRowApart(token, before, es, plans, i, other);
      }
    }
  }

  lemma OldRowApart(token: int -> Text, before: Table, es: seq<Entry>, plans: seq<Plan>, i: int, other: int)
    requires Matches(token, before, es, plans) && 0 <= i < |plans| && !plans[i].action.Unchanged?
    requires other in before && forall j :: !Updates(plans, j, other)
    ensures NamesApart(before[other], es[i])
  {
    if before[other].projectKey in Keys(es) {
      var j := KeyIndex(es, before[other].projectKey);
      assert PlanMatches(before, es[j], plans[j]) && !Updates(plans, j, other);
      assert plans[j].existing.Some? && plans[j].existing.value.id == other;
      assert NamesApart(es[j], es[i]);
    }
  }

  lemma KeyIndex(es: seq<Entry>, key: Text) returns (j: int)
    requires key in Keys(es)
    ensures 0 <= j < |es| && es[j].projectKey == key
  {
    j :| 0 <= j < |es| && Keys(es)[j] == key;
  }

  /** What saving plan `i` writes, and where. */
  function SavedId(plans: seq<Plan>, freeIds: seq<int>, i: int): int
    requires 0 <= i < |plans| && |freeIds| == |plans|
  {
    if plans[i].existing.Some? then plans[i].existing.value.id else freeIds[i]
  }

  lemma SaveFits(token: int -> Text, before: Table, es: seq<Entry>, plans: seq<Plan>, freeIds: seq<int>, i: int, t: Table)
    requires Matches(token, before, es, plans) && 0 <= i < |plans| && FreeIds(before, freeIds)
    requires Saving(token, before, es, plans, freeIds, i, t)
    ensures plans[i].project == es[i] && (plans[i].action.Create? <==> plans[i].existing.None?)
    ensures plans[i].existing.Some? ==> plans[i].existing.value.id in t
    ensures var id := SavedId(plans, freeIds, i);
            if plans[i].action.Unchanged? then Saving(token, before, es, plans, freeIds, i + 1, t)
            else
              && !Collides(t, id, es[i].projectKey, es[i].normalizedName)
              && (plans[i].action.Update? ==> t[id].projectKey == es[i].projectKey && t[id].createdBy == es[i].createdBy)
              && Saving(token, before, es, plans, freeIds, i + 1, t[id := es[i]])
  {
    assert PlanMatches(before, es[i], plans[i]);
    var id := SavedId(plans, freeIds, i);
    hide Matches;
    if plans[i].action.Unchanged? {
      SaveNothing(token, before, es, plans, freeIds, i, t);
    } else {
      forall other | other in t && other != id
        ensures t[other].projectKey != es[i].projectKey && t[other].normalizedName != es[i].normalizedName
      {
        RowApart(token, before, es, plans, freeIds, i, t, other);
      }
      if plans[i].action.Update? {
        assert Updates(plans, i, id) && RowSaved(token, before, es, plans, i, id, t[id]);
        OneOwner(token, before, es, plans, i, i, id);
      }
      SaveStep(token, before, es, plans, freeIds, i, t);
    }
  }

  lemma SaveNothing(token: int -> Text, before: Table, es: seq<Entry>, plans: seq<Plan>, freeIds: seq<int>, i: int,
                    t: Table)
    requires 0 <= i < |plans| && plans[i].action.Unchanged? && Saving(token, before, es, plans, freeIds, i, t)
    ensures Saving(token, before, es, plans, freeIds, i + 1, t)
  {
    forall id | id in before ensures RowSaved(token, before, es, plans, i + 1, id, t[id]) {
      assert RowSaved(token, before, es, plans, i, id, t[id]);
    }
  }

  lemma SaveStep(token: int -> Text, before: Table, es: seq<Entry>, plans: seq<Plan>, freeIds: seq<int>, i: int, t: Table)
    requires Matches(token, before, es, plans) && 0 <= i < |plans| && FreeIds(before, freeIds)
    requires Saving(token, before, es, plans, freeIds, i, t) && !plans[i].action.Unchanged?
    requires !Collides(t, SavedId(plans, freeIds, i), es[i].projectKey, es[i].normalizedName)
    ensures Saving(token, before, es, plans, freeIds, i + 1, t[SavedId(plans, freeIds, i) := es[i]])
  {
    assert PlanMatches(before, es[i], plans[i]);
    var at := SavedId(plans, freeIds, i);
    var t' := t[at := es[i]];
    WriteKeepsUnique(t, at, es[i]);
    forall id | id in before ensures id in t' && RowSaved(token, before, es, plans, i + 1, id, t'[id]) {
      assert RowSaved(token, before, es, plans, i, id, t[id]);
      RowStep(token, before, es, plans, freeIds, i, id, t);
    }
  }

  lemma RowStep(token: int -> Text, before: Table, es: seq<Entry>, plans: seq<Plan>, freeIds: seq<int>, i: int, id: int,
                t: Table)
    requires Matches(token, before, es, plans) && 0 <= i < |plans| && FreeIds(before, freeIds) && |freeIds| == |es|
    requires !plans[i].action.Unchanged? && id in before && id in t && RowSaved(token, before, es, plans, i, id, t[id])
    ensures var t' := t[SavedId(plans, freeIds, i) := es[i]]; RowSaved(token, before, es, plans, i + 1, id, t'[id])
  {
    assert PlanMatches(before, es[i], plans[i]);
    var at := SavedId(plans, freeIds, i);
    if at == id {
      assert Updates(plans, i, id);
      forall j | Updates(plans, j, id) ensures j == i { OneOwner(token, before, es, plans, i, j, id); }
    }
  }

  lemma AllSaved(token: int -> Text, before: Table, es: seq<Entry>, plans: seq<Plan>, freeIds: seq<int>, t: Table)
    requires Matches(token, before, es, plans) && Saving(token, before, es, plans, freeIds, |plans|, t)
    ensures Stored(before, es, t)
  {
    forall id | id in before
      ensures id in t && t[id].projectKey == before[id].projectKey
              && (before[id].projectKey !in Keys(es) ==> t[id] == before[id])
    {
      assert RowSaved(token, before, es, plans, |plans|, id, t[id]);
      if j :| Updates(plans, j, id) {
        OneOwner(token, before, es, plans, j, j, id);
        KeysHas(es, es[j]);
      }
    }
    forall e | e in es ensures exists id :: id in t && t[id] == e {
      var i :| 0 <= i < |es| && es[i] == e;
      EntryStored(token, before, es, plans, freeIds, t, i);
    }
  }

  lemma EntryStored(token: int -> Text, before: Table, es: seq<Entry>, plans: seq<Plan>, freeIds: seq<int>, t: Table, i: int)
    requires Matches(token, before, es, plans) && Saving(token, before, es, plans, freeIds, |plans|, t) && 0 <= i < |es|
    ensures SavedId(plans, freeIds, i) in t && t[SavedId(plans, freeIds, i)] == es[i]
  {
    assert PlanMatches(before, es[i], plans[i]);
    var id := SavedId(plans, freeIds, i);
    if plans[i].existing.Some? {
      assert RowSaved(token, before, es, plans, |plans|, id, t[id]);
      if plans[i].action.Update? {
        assert Updates(plans, i, id);
      } else {
        forall j ensures !Updates(plans, j, id) { OwnRow(token, before, es, plans, i, j, id); }
      }
    }
  }

  lemma StartVacating(token: int -> Text, before: Table, es: seq<Entry>, plans: seq<Plan>)
    requires Matches(token, before, es, plans)
    ensures Vacating(token, before, plans, 0, before)
  {
  }

  lemma VacateSkips(token: int -> Text, before: Table, plans: seq<Plan>, i: int, t: Table)
    requires Vacating(token, before, plans, i, t) && 0 <= i < |plans|
    ensures !plans[i].action.Update? ==> Vacating(token, before, plans, i + 1, t)
  {
  }

  class Projects {
    var table: Table

    constructor (table: Table)
      ensures this.table == table
    {
      this.table := table;
    }

    /** An update of a row; false when a unique index refuses it. */
    method Write(id: int, e: Entry) returns (ok: bool)
      modifies this
      ensures ok <==> !Collides(old(table), id, e.projectKey, e.normalizedName)
      ensures table == if ok then old(table)[id := e] else old(table)
    {
      ok := !Collides(table, id, e.projectKey, e.normalizedName);
      if ok { table := table[id := e]; }
    }

    /** `saveProjectRegistration`; `newId` is the id the database would give a new row. */
    method Save(plan: Plan, newId: int) returns (ok: bool)
      requires plan.action.Create? || (plan.existing.Some? && plan.existing.value.id in table)
      modifies this
      ensures var id := if plan.action.Create? then newId else plan.existing.value.id;
              var e := if plan.action.Update? then plan.project.(projectKey := old(table)[id].projectKey,
                                                                 createdBy := old(table)[id].createdBy)
                       else plan.project;
              if plan.action.Unchanged? then ok && table == old(table)
              else (ok <==> !Collides(old(table), id, e.projectKey, e.normalizedName))
                   && table == if ok then old(table)[id := e] else old(table)
    {
      match plan.action
      case Unchanged => ok := true;
      case Update =>
        var id := plan.existing.value.id;
        ok := Write(id, table[id].(name := plan.project.name, normalizedName := plan.project.normalizedName,
                                   aliases := plan.project.aliases, status := plan.project.status));
      case Create =>
        ok := Write(newId, plan.project);
    }

    /**
     One transaction: plan, vacate the changed names, save every plan.  No statement is refused by a unique
     index, so the transaction always commits what was planned.
     */
    method ImportProjects(host: Host, rows: seq<Input>, listing: seq<Project>, token: int -> Text,
                          freeIds: seq<int>)
        returns (r: Result<seq<Plan>, Error>)
      requires Lists(listing, table) && Sound(host, listing)
      requires forall id | id in table :: Folded(host, table[id])
      requires PrepareAll(host, rows).Ok? ==>
        Stable(host, PrepareAll(host, rows).value) && TokensClear(token, table, PrepareAll(host, rows).value)
      requires |freeIds| == |rows| && FreeIds(table, freeIds)
      modifies this
      ensures var plan := PlanBatch(host, rows, listing);
              && (plan.Err? ==> r == Err(plan.error) && table == old(table))
              && (plan.Ok? ==> r == Ok(plan.value.plans) && Stored(old(table), PrepareAll(host, rows).value, table))
    {
      ghost var before := table;
      var planned := PlanProjectBatch(host, rows, listing);
      if planned.Err? { return Err(planned.error); }
      var plans := planned.value.plans;
      ghost var es := PrepareAll(host, rows).value;
      PlansAre(host, rows, listing, before, token);
      hide PlanBatch, PrepareAll, Sound, Stable, Fitting, Lists, Stored, TokensClear, Matches;
      StartVacating(token, before, es, plans);
      hide Vacating, Saving, UniqueRows, Collides, FreeIds;
      for i := 0 to |plans|
        invariant Vacating(token, before, plans, i, table)
      {
        VacateSkips(token, before, plans, i, table);
        if plans[i].action.Update? {
          var id := plans[i].existing.value.id;
          VacateFits(token, before, es, plans, i, table);
          var ok := Write(id, Vacated(token, table, id));
          assert ok;
        }
      }
      VacatedIsStart(token, before, es, plans, freeIds, table);
      for i := 0 to |plans|
        invariant Saving(token, before, es, plans, freeIds, i, table)
      {
        SaveFits(token, before, es, plans, freeIds, i, table);
        var ok := Save(plans[i], freeIds[i]);
        assert ok;
      }
      AllSaved(token, before, es, plans, freeIds, table);
      return Ok(plans);
    }
  }
}
