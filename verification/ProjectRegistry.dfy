/**
 What batch planning guarantees of a registry: a plan succeeds exactly when the rows fit together and with the
 registry, whatever their order; the planned registry is again sound; and planning the same rows once more
 changes nothing.
 */
module ProjectRegistry {
  import opened Wrappers
  import opened JsonNumber
  import opened Sequences
  import opened ProjectBatch

  // ---------- Sound registries and fitting rows ----------

  /** Different projects have different ids and keys, and share no folded name or alias. */
  function Apart(host: Host): (Project, Project) -> bool
  {
    (p: Project, q: Project) =>
      p.id != q.id && p.entry.projectKey != q.entry.projectKey && Disjoint(host, p.entry, q.entry)
  }

  ghost predicate Sound(host: Host, projects: seq<Project>) { Pairwise(Apart(host), projects) }

  function EntriesApart(host: Host): (Entry, Entry) -> bool
  {
    (a: Entry, b: Entry) => a.projectKey != b.projectKey && Disjoint(host, a, b)
  }

  /** The entry is an import that takes over only imports and clashes with no project the batch leaves alone. */
  ghost predicate Fits(host: Host, es: seq<Entry>, existing: seq<Project>, e: Entry)
  {
    && e.createdBy.Import?
    && (forall p | p in existing && p.entry.projectKey == e.projectKey :: p.entry.createdBy.Import?)
    && (forall p | p in existing && p.entry.projectKey !in Keys(es) :: Disjoint(host, p.entry, e))
  }

  ghost predicate Fitting(host: Host, es: seq<Entry>, existing: seq<Project>)
  {
    Pairwise(EntriesApart(host), es) && forall e | e in es :: Fits(host, es, existing, e)
  }

  /** Preparing a prepared entry again changes nothing. */
  ghost predicate Stable(host: Host, es: seq<Entry>)
  {
    forall e | e in es :: Prepare(host, AsInput(e)) == Ok(e)
  }

  // ---------- When preparing twice is preparing once ----------

  lemma {:induction false} UniqueKeeps(xs: seq<Text>)
    ensures forall i, j | 0 <= i < j < |Unique(xs)| :: Unique(xs)[i] != Unique(xs)[j]
    ensures forall x :: x in Unique(xs) <==> x in xs
  {
    if xs != [] {
      var n := |xs| - 1;
      UniqueKeeps(xs[..n]);
      assert xs == xs[..n] + [xs[n]];
    }
  }

  lemma {:induction false} UniqueSame(xs: seq<Text>)
    requires forall i, j | 0 <= i < j < |xs| :: xs[i] != xs[j]
    ensures Unique(xs) == xs
  {
    if xs != [] {
      var n := |xs| - 1;
      UniqueSame(xs[..n]);
      assert xs == xs[..n] + [xs[n]];
    }
  }

  lemma {:induction false} UniqueShorter(xs: seq<Text>)
    ensures |Unique(xs)| <= |xs| && (|Unique(xs)| == |xs| ==> Unique(xs) == xs)
  {
    if xs != [] {
      var n := |xs| - 1;
      UniqueShorter(xs[..n]);
      assert xs == xs[..n] + [xs[n]];
    }
  }

  /** Cleaned aliases are distinct, cleaned, long enough, few, and none of them folds to the name. */
  lemma CleanAliasesFacts(host: Host, aliases: seq<Text>, name: Text)
    ensures var r := CleanAliases(host, aliases, name);
            && |r| <= ALIAS_LIMIT
            && (forall i, j | 0 <= i < j < |r| :: r[i] != r[j])
            && (forall i | 0 <= i < |r| ::
                  && |r[i]| >= 2 && host.norm(r[i]) != name
                  && exists k :: 0 <= k < |aliases| && host.clean(aliases[k]) == r[i])
  {
    var p := (a: Text) => |a| >= 2 && host.norm(a) != name;
    var cleaned := Map(host.clean, aliases);
    var kept := Select(p, cleaned);
    SelectHas(p, cleaned);
    UniqueKeeps(kept);
    var r := CleanAliases(host, aliases, name);
    forall i | 0 <= i < |r|
      ensures |r[i]| >= 2 && host.norm(r[i]) != name
              && exists k :: 0 <= k < |aliases| && host.clean(aliases[k]) == r[i]
    {
      assert r[i] in Unique(kept) && r[i] in kept && r[i] in cleaned;
      var k :| 0 <= k < |cleaned| && cleaned[k] == r[i];
    }
  }

  /** Cleaning a list of aliases leaves it as it is exactly when it is clean, alias by alias, and nothing is dropped. */
  lemma AliasesStableIff(host: Host, aliases: seq<Text>, name: Text)
    requires |aliases| <= ALIAS_LIMIT
    requires forall i, j | 0 <= i < j < |aliases| :: aliases[i] != aliases[j]
    requires forall i | 0 <= i < |aliases| :: |aliases[i]| >= 2 && host.norm(aliases[i]) != name
    ensures CleanAliases(host, aliases, name) == aliases <==>
      forall i | 0 <= i < |aliases| :: host.clean(aliases[i]) == aliases[i]
  {
    var p := (a: Text) => |a| >= 2 && host.norm(a) != name;
    var cleaned := Map(host.clean, aliases);
    if forall i | 0 <= i < |aliases| :: host.clean(aliases[i]) == aliases[i] {
      assert cleaned == aliases;
      SelectAll(p, aliases);
      UniqueSame(aliases);
    }
    if CleanAliases(host, aliases, name) == aliases {
      SelectShorter(p, cleaned);
      UniqueShorter(Select(p, cleaned));
      assert cleaned == aliases;
    }
  }

  /**
   Preparing a prepared project again changes nothing exactly when its name, its key and each of its aliases is a
   fixed point of the host's cleaning; cutting a text at its limit after trimming can leave one that is not.
   */
  lemma PrepareTwiceIff(host: Host, input: Input)
    requires Prepare(host, input).Ok?
    ensures var e := Prepare(host, input).value;
      Prepare(host, AsInput(e)) == Ok(e) <==>
        && host.clean(e.name) == e.name && host.keyOf(e.projectKey) == e.projectKey
        && forall i | 0 <= i < |e.aliases| :: host.clean(e.aliases[i]) == e.aliases[i]
  {
    var e := Prepare(host, input).value;
    CleanAliasesFacts(host, input.aliases, e.normalizedName);
    hide CleanAliases;
    AliasesStableIff(host, e.aliases, e.normalizedName);
  }

  // ---------- Looking up keys ----------

  lemma {:induction false} LastFound(ps: seq<Project>, key: Text)
    ensures var r := LastWithKey(ps, key);
            && (r.Some? ==> r.value in ps && r.value.entry.projectKey == key)
            && (r.None? ==> forall p | p in ps :: p.entry.projectKey != key)
  {
    if ps != [] {
      var n := |ps| - 1;
      LastFound(ps[..n], key);
      assert ps == ps[..n] + [ps[n]];
    }
  }

  lemma LastIs(host: Host, ps: seq<Project>, p: Project)
    requires Sound(host, ps) && p in ps
    ensures LastWithKey(ps, p.entry.projectKey) == Some(p)
  {
    LastFound(ps, p.entry.projectKey);
    var q := LastWithKey(ps, p.entry.projectKey).value;
    var i :| 0 <= i < |ps| && ps[i] == p;
    var j :| 0 <= j < |ps| && ps[j] == q;
    assert i == j;
  }

  lemma {:induction false} FirstAbsent(ps: seq<Project>, key: Text)
    requires forall i | 0 <= i < |ps| :: ps[i].entry.projectKey != key
    ensures FirstWithKey(ps, key) == None
  {
    if ps != [] { FirstAbsent(ps[1..], key); }
  }

  lemma {:induction false} NoConflictIff(host: Host, e: Entry, skipped: Option<int>, ps: seq<Project>)
    ensures FirstConflict(host, e, skipped, ps).None? <==>
              forall p | p in ps :: skipped == Some(p.id) || Disjoint(host, p.entry, e)
  {
    if ps != [] {
      NoConflictIff(host, e, skipped, ps[1..]);
      Uncons(ps);
    }
  }

  // ---------- One row against the planned registry ----------

  lemma OthersFirst(e: Entry, existing: seq<Project>, projects: seq<Project>)
    ensures FirstWithKey(Others(e, existing, projects), e.projectKey) == LastWithKey(existing, e.projectKey)
    ensures var known := LastWithKey(existing, e.projectKey);
            forall p :: p in Others(e, existing, projects) <==>
              known == Some(p) || (p in projects && p.entry.projectKey != e.projectKey)
  {
    var rest := Select((p: Project) => p.entry.projectKey != e.projectKey, projects);
    SelectHas((p: Project) => p.entry.projectKey != e.projectKey, projects);
    var known := LastWithKey(existing, e.projectKey);
    LastFound(existing, e.projectKey);
    if known.None? {
      FirstAbsent(rest, e.projectKey);
      assert Others(e, existing, projects) == rest;
    }
  }

  function Expected(e: Entry, known: Option<Project>): Plan
  {
    Plan(e, known,
         if known.None? then Create
         else if e.name == known.value.entry.name && e.status == known.value.entry.status
                 && e.aliases == known.value.entry.aliases then Unchanged
         else Update)
  }

  /** A row is planned exactly when it takes over an import, if anything, and clashes with no planned other. */
  lemma PlanOneIff(host: Host, e: Entry, existing: seq<Project>, projects: seq<Project>)
    requires Prepare(host, AsInput(e)) == Ok(e) && e.createdBy.Import?
    requires var known := LastWithKey(existing, e.projectKey);
             known.Some? ==> forall p | p in projects && p.entry.projectKey != e.projectKey :: p.id != known.value.id
    ensures var r := PlanRegistration(host, AsInput(e), Others(e, existing, projects));
            var known := LastWithKey(existing, e.projectKey);
            && (r.Ok? <==> (known.Some? ==> known.value.entry.createdBy.Import?)
                           && forall p | p in projects && p.entry.projectKey != e.projectKey ::
                                Disjoint(host, p.entry, e))
            && (r.Ok? ==> r.value == Expected(e, known))
  {
    hide Prepare, Disjoint;
    var known := LastWithKey(existing, e.projectKey);
    OthersFirst(e, existing, projects);
    NoConflictIff(host, e, if known.Some? then Some(known.value.id) else None, Others(e, existing, projects));
  }

  // ---------- Ids ----------

  lemma {:induction false} IndexOfIs(keys: seq<Text>, key: Text)
    requires key in keys
    ensures 1 <= IndexOf(keys, key) <= |keys| && keys[IndexOf(keys, key) - 1] == key
  {
    var n := |keys| - 1;
    if keys[n] != key { IndexOfIs(keys[..n], key); }
  }

  predicate DifferentKeys(a: Entry, b: Entry) { a.projectKey != b.projectKey }

  lemma MaxIdHolds(ps: seq<Project>)
    ensures forall p | p in ps :: p.id <= MaxId(ps)
  {
  }

  /** Ids of planned entries: a known key keeps its own, a new one gets an id above all others. */
  lemma PlannedId(es: seq<Entry>, existing: seq<Project>, e: Entry)
    requires e in es
    ensures var id := IdOf(existing, NewKeys(es, existing), e.projectKey);
            var known := LastWithKey(existing, e.projectKey);
            && (known.Some? ==> known.value in existing && id == known.value.id)
            && (known.None? ==> forall p | p in existing :: id > p.id)
  {
    LastFound(existing, e.projectKey);
    MaxIdHolds(existing);
    NewKeysHas(es, existing);
    if LastWithKey(existing, e.projectKey).None? { IndexOfIs(NewKeys(es, existing), e.projectKey); }
  }

  lemma IdsDiffer(host: Host, es: seq<Entry>, existing: seq<Project>, a: Entry, b: Entry)
    requires Sound(host, existing) && a in es && b in es && a.projectKey != b.projectKey
    ensures var keys := NewKeys(es, existing); IdOf(existing, keys, a.projectKey) != IdOf(existing, keys, b.projectKey)
  {
    PlannedId(es, existing, a);
    PlannedId(es, existing, b);
    LastFound(existing, a.projectKey);
    LastFound(existing, b.projectKey);
    var p, q := LastWithKey(existing, a.projectKey), LastWithKey(existing, b.projectKey);
    if p.Some? && q.Some? {
      DifferentIds(host, existing, p.value, q.value);
    } else if p.None? && q.None? {
      NewKeysHas(es, existing);
      IndexOfIs(NewKeys(es, existing), a.projectKey);
      IndexOfIs(NewKeys(es, existing), b.projectKey);
    }
  }

  lemma DifferentIds(host: Host, ps: seq<Project>, p: Project, q: Project)
    requires Sound(host, ps) && p in ps && q in ps && p != q
    ensures p.id != q.id && p.entry.projectKey != q.entry.projectKey && Disjoint(host, p.entry, q.entry)
  {
    var i :| 0 <= i < |ps| && ps[i] == p;
    var j :| 0 <= j < |ps| && ps[j] == q;
    assert if i < j then Apart(host)(ps[i], ps[j]) else Apart(host)(ps[j], ps[i]);
  }

  lemma PlannedMembers(es: seq<Entry>, existing: seq<Project>)
    ensures forall p :: p in Planned(es, existing) <==>
      || (p in existing && p.entry.projectKey !in Keys(es))
      || (p.entry in es && p.id == IdOf(existing, NewKeys(es, existing), p.entry.projectKey))
  {
    hide IdOf, NewKeys;
    SelectHas((p: Project) => p.entry.projectKey !in Keys(es), existing);
    var f := WithId(existing, NewKeys(es, existing));
    var added := Map(f, es);
    forall p ensures p in added <==> p.entry in es && p.id == IdOf(existing, NewKeys(es, existing), p.entry.projectKey) {
      if p in added {
        var i :| 0 <= i < |added| && added[i] == p;
        assert es[i] in es;
      }
      if p.entry in es && p.id == IdOf(existing, NewKeys(es, existing), p.entry.projectKey) {
        var i :| 0 <= i < |es| && es[i] == p.entry;
        assert added[i] == p;
      }
    }
  }

  lemma KeysHas(es: seq<Entry>, e: Entry)
    requires e in es
    ensures e.projectKey in Keys(es)
  {
    var i :| 0 <= i < |es| && es[i] == e;
    assert Keys(es)[i] == e.projectKey;
  }

  /** No other planned project has the id a row's project had before. */
  lemma KnownIdAlone(host: Host, es: seq<Entry>, existing: seq<Project>, e: Entry, p: Project)
    requires Sound(host, existing) && e in es && LastWithKey(existing, e.projectKey).Some?
    requires p in Planned(es, existing) && p.entry.projectKey != e.projectKey
    ensures p.id != LastWithKey(existing, e.projectKey).value.id
  {
    PlannedMembers(es, existing);
    PlannedId(es, existing, e);
    LastFound(existing, e.projectKey);
    if p.entry in es && p.id == IdOf(existing, NewKeys(es, existing), p.entry.projectKey) {
      IdsDiffer(host, es, existing, e, p.entry);
    } else {
      DifferentIds(host, existing, p, LastWithKey(existing, e.projectKey).value);
    }
  }

  // ---------- Success is fitting ----------

  lemma {:induction false} NoFaultIff(es: seq<Entry>)
    ensures BatchFault(es).None? <==> (forall e | e in es :: e.createdBy.Import?) && Pairwise(DifferentKeys, es)
  {
    if es != [] {
      var n := |es| - 1;
      NoFaultIff(es[..n]);
      assert es == es[..n] + [es[n]];
      LastKeyNew(es);
    }
  }

  lemma LastKeyNew(es: seq<Entry>)
    requires es != []
    ensures var n := |es| - 1;
      Pairwise(DifferentKeys, es) <==> Pairwise(DifferentKeys, es[..n]) && es[n].projectKey !in Keys(es[..n])
  {
    var n := |es| - 1;
    if es[n].projectKey in Keys(es[..n]) {
      var i :| 0 <= i < n && Keys(es[..n])[i] == es[n].projectKey;
      assert !DifferentKeys(es[i], es[n]);
    } else {
      forall i | 0 <= i < n ensures DifferentKeys(es[i], es[n]) {
        assert Keys(es[..n])[i] == es[i].projectKey;
      }
    }
    if Pairwise(DifferentKeys, es) {
      forall i, j | 0 <= i < j < n ensures DifferentKeys(es[..n][i], es[..n][j]) {
        assert DifferentKeys(es[i], es[j]);
      }
    }
    if Pairwise(DifferentKeys, es[..n]) && es[n].projectKey !in Keys(es[..n]) {
      forall i, j | 0 <= i < j < |es| ensures DifferentKeys(es[i], es[j]) {
        if j < n { assert DifferentKeys(es[..n][i], es[..n][j]); }
      }
    }
  }

  lemma {:induction false} PlanAllIff(host: Host, es: seq<Entry>, existing: seq<Project>, projects: seq<Project>)
    ensures PlanAll(host, es, existing, projects).Ok? <==>
      forall e | e in es :: PlanRegistration(host, AsInput(e), Others(e, existing, projects)).Ok?
    ensures var r := PlanAll(host, es, existing, projects);
      r.Ok? ==> |r.value| == |es| && forall i | 0 <= i < |es| ::
        r.value[i] == PlanRegistration(host, AsInput(es[i]), Others(es[i], existing, projects)).value
  {
    hide PlanRegistration, Others;
    if es != [] {
      var n := |es| - 1;
      PlanAllIff(host, es[..n], existing, projects);
      assert es == es[..n] + [es[n]];
    }
  }

  lemma PlanEachIff(host: Host, es: seq<Entry>, existing: seq<Project>, e: Entry)
    requires Sound(host, existing) && Stable(host, es) && e in es && e.createdBy.Import?
    ensures var r := PlanRegistration(host, AsInput(e), Others(e, existing, Planned(es, existing)));
            && (r.Ok? <==> Fits(host, es, existing, e)
                           && forall a | a in es && a.projectKey != e.projectKey :: Disjoint(host, a, e))
            && (r.Ok? ==> r.value == Expected(e, LastWithKey(existing, e.projectKey)))
  {
    hide Prepare, PlanRegistration, Others, NewKeys, IdOf, Planned;
    var projects := Planned(es, existing);
    var known := LastWithKey(existing, e.projectKey);
    LastFound(existing, e.projectKey);
    KeysHas(es, e);
    forall p | known.Some? && p in projects && p.entry.projectKey != e.projectKey ensures p.id != known.value.id {
      KnownIdAlone(host, es, existing, e, p);
    }
    PlanOneIff(host, e, existing, projects);
    forall p | p in existing && p.entry.projectKey == e.projectKey ensures known == Some(p) {
      LastIs(host, existing, p);
    }
    ClashesSplit(host, es, existing, e);
  }

  /** Clashing with no planned other is clashing with no untouched project and with no other row. */
  lemma ClashesSplit(host: Host, es: seq<Entry>, existing: seq<Project>, e: Entry)
    requires e in es
    ensures (forall p | p in Planned(es, existing) && p.entry.projectKey != e.projectKey :: Disjoint(host, p.entry, e))
       <==> (forall p | p in existing && p.entry.projectKey !in Keys(es) :: Disjoint(host, p.entry, e))
            && (forall a | a in es && a.projectKey != e.projectKey :: Disjoint(host, a, e))
  {
    PlannedMembers(es, existing);
    KeysHas(es, e);
    hide Planned, NewKeys, IdOf, Disjoint;
    if forall p | p in Planned(es, existing) && p.entry.projectKey != e.projectKey :: Disjoint(host, p.entry, e) {
      forall a | a in es && a.projectKey != e.projectKey ensures Disjoint(host, a, e) {
        var p := Project(IdOf(existing, NewKeys(es, existing), a.projectKey), a);
        assert p in Planned(es, existing);
      }
    }
  }

  lemma {:induction false} PrepareAllIff(host: Host, rows: seq<Input>)
    ensures PrepareAll(host, rows).Ok? <==> forall row | row in rows :: Prepare(host, row).Ok?
    ensures PrepareAll(host, rows).Ok? ==>
      PrepareAll(host, rows).value
      == Map((row: Input) => if Prepare(host, row).Ok? then Prepare(host, row).value else NO_ENTRY, rows)
  {
    hide Prepare;
    if rows != [] {
      var n := |rows| - 1;
      PrepareAllIff(host, rows[..n]);
      assert rows == rows[..n] + [rows[n]];
    }
  }

  const NO_ENTRY := Entry([], [], [], [], OtherStatus, OtherCreator)

  /** A batch is planned exactly when every row can be prepared and the entries fit. */
  lemma PlannedIff(host: Host, rows: seq<Input>, existing: seq<Project>)
    requires Sound(host, existing)
    requires PrepareAll(host, rows).Ok? ==> Stable(host, PrepareAll(host, rows).value)
    ensures PlanBatch(host, rows, existing).Ok? <==>
              PrepareAll(host, rows).Ok? && Fitting(host, PrepareAll(host, rows).value, existing)
  {
    hide PrepareAll, PlanAll, Stable, Planned, BatchFault;
    if PrepareAll(host, rows).Ok? {
      EntriesPlannedIff(host, PrepareAll(host, rows).value, existing);
    }
  }

  lemma EntriesPlannedIff(host: Host, es: seq<Entry>, existing: seq<Project>)
    requires Sound(host, existing) && Stable(host, es)
    ensures BatchFault(es).None? && PlanAll(host, es, existing, Planned(es, existing)).Ok? <==> Fitting(host, es, existing)
  {
    hide BatchFault, PlanAll, Planned, PlanRegistration, Others, Fits, Disjoint;
    NoFaultIff(es);
    PlanAllIff(host, es, existing, Planned(es, existing));
    forall e | e in es && e.createdBy.Import?
      ensures PlanRegistration(host, AsInput(e), Others(e, existing, Planned(es, existing))).Ok?
         <==> Fits(host, es, existing, e)
              && forall a | a in es && a.projectKey != e.projectKey :: Disjoint(host, a, e)
    {
      PlanEachIff(host, es, existing, e);
    }
    FitsImport(host, es, existing);
    EntriesApartIff(host, es);
  }

  lemma FitsImport(host: Host, es: seq<Entry>, existing: seq<Project>)
    ensures forall e | e in es && Fits(host, es, existing, e) :: e.createdBy.Import?
  {
  }

  lemma EntriesApartIff(host: Host, es: seq<Entry>)
    ensures Pairwise(EntriesApart(host), es) <==>
      Pairwise(DifferentKeys, es)
      && forall e, a | e in es && a in es && a.projectKey != e.projectKey :: Disjoint(host, a, e)
  {
    if Pairwise(EntriesApart(host), es) {
      forall i, j | 0 <= i < j < |es| ensures DifferentKeys(es[i], es[j]) {
        assert EntriesApart(host)(es[i], es[j]);
      }
      forall e, a | e in es && a in es && a.projectKey != e.projectKey ensures Disjoint(host, a, e) {
        var i :| 0 <= i < |es| && es[i] == e;
        var j :| 0 <= j < |es| && es[j] == a;
        assert if i < j then EntriesApart(host)(es[i], es[j]) else EntriesApart(host)(es[j], es[i]);
      }
    }
    if Pairwise(DifferentKeys, es)
       && forall e, a | e in es && a in es && a.projectKey != e.projectKey :: Disjoint(host, a, e) {
      forall i, j | 0 <= i < j < |es| ensures EntriesApart(host)(es[i], es[j]) {
        assert DifferentKeys(es[i], es[j]) && es[i] in es && es[j] in es;
      }
    }
  }

  // ---------- The planned registry ----------

  /** A successful plan gives a sound registry. */
  lemma PlannedSound(host: Host, es: seq<Entry>, existing: seq<Project>)
    requires Sound(host, existing) && Fitting(host, es, existing)
    ensures Sound(host, Planned(es, existing))
  {
    hide IdOf, NewKeys, Disjoint;
    var left := Untouched(existing, Keys(es));
    var f := WithId(existing, NewKeys(es, existing));
    var added := Map(f, es);
    var p := (p: Project) => p.entry.projectKey !in Keys(es);
    SelectPairwise(p, Apart(host), existing);
    SelectHas(p, existing);
    forall i, j | 0 <= i < j < |added| ensures Apart(host)(added[i], added[j]) {
      assert EntriesApart(host)(es[i], es[j]) && es[i] in es && es[j] in es;
      IdsDiffer(host, es, existing, es[i], es[j]);
    }
    forall x, y | x in left && y in added ensures Apart(host)(x, y) {
      var i :| 0 <= i < |es| && added[i] == y;
      assert es[i] in es && Fits(host, es, existing, es[i]);
      KeysHas(es, es[i]);
      IdsApartFromOld(host, es, existing, es[i], x);
    }
    PairwiseJoin(Apart(host), left, added);
  }

  lemma IdsApartFromOld(host: Host, es: seq<Entry>, existing: seq<Project>, e: Entry, p: Project)
    requires Sound(host, existing) && e in es && p in existing && p.entry.projectKey != e.projectKey
    ensures p.id != IdOf(existing, NewKeys(es, existing), e.projectKey)
  {
    PlannedId(es, existing, e);
    LastFound(existing, e.projectKey);
    var known := LastWithKey(existing, e.projectKey);
    if known.Some? { DifferentIds(host, existing, p, known.value); }
  }

  lemma BatchFacts(host: Host, rows: seq<Input>, existing: seq<Project>)
    requires PlanBatch(host, rows, existing).Ok?
    ensures PrepareAll(host, rows).Ok?
    ensures var es := PrepareAll(host, rows).value;
            && BatchFault(es).None?
            && PlanBatch(host, rows, existing).value.projects == Planned(es, existing)
            && PlanAll(host, es, existing, Planned(es, existing)) == Ok(PlanBatch(host, rows, existing).value.plans)
  {
  }

  /**
   From a sound registry a successful plan leads to a sound one, in which every project no row names is as it
   was, every row's key keeps the id it had, and keys that are new get ids above all that were there.
   */
  lemma RegistryKept(host: Host, rows: seq<Input>, existing: seq<Project>)
    requires Sound(host, existing) && PlanBatch(host, rows, existing).Ok?
    requires Stable(host, PrepareAll(host, rows).value)
    ensures var es, projects := PrepareAll(host, rows).value, PlanBatch(host, rows, existing).value.projects;
            && Sound(host, projects)
            && (forall p | p in existing && p.entry.projectKey !in Keys(es) :: p in projects)
            && (forall e, p | e in es && p in existing && p.entry.projectKey == e.projectKey ::
                  Project(p.id, e) in projects)
            && (forall e | e in es && !Known(existing, e.projectKey) ::
                  exists q :: q in projects && q.entry == e && forall p | p in existing :: q.id > p.id)
            && (forall q | q in projects :: q in existing || q.entry in es)
  {
    BatchFacts(host, rows, existing);
    PlannedIff(host, rows, existing);
    hide PlanBatch, PrepareAll, BatchFault, PlanAll;
    var es := PrepareAll(host, rows).value;
    PlannedSound(host, es, existing);
    PlannedMembers(es, existing);
    hide Planned, Sound, Fitting, Stable, IdOf, NewKeys, LastWithKey;
    var projects := Planned(es, existing);
    forall e, p | e in es && p in existing && p.entry.projectKey == e.projectKey ensures Project(p.id, e) in projects {
      PlannedId(es, existing, e);
      LastIs(host, existing, p);
    }
    forall e | e in es && !Known(existing, e.projectKey)
      ensures exists q :: q in projects && q.entry == e && forall p | p in existing :: q.id > p.id
    {
      PlannedId(es, existing, e);
      assert Project(IdOf(existing, NewKeys(es, existing), e.projectKey), e) in projects;
    }
  }

  // ---------- Order does not matter ----------

  lemma FittingPermuted(host: Host, es: seq<Entry>, fs: seq<Entry>, existing: seq<Project>)
    requires multiset(es) == multiset(fs) && Fitting(host, es, existing)
    ensures Fitting(host, fs, existing)
  {
    SameMembers(es, fs);
    PairwisePermuted(EntriesApart(host), es, fs);
    MapPermuted((e: Entry) => e.projectKey, es, fs);
    SameMembers(Keys(es), Keys(fs));
    hide Disjoint;
    forall e | e in fs ensures Fits(host, fs, existing, e) {
      assert Fits(host, es, existing, e);
    }
  }

  lemma PlannedPermuted(es: seq<Entry>, fs: seq<Entry>, existing: seq<Project>)
    requires multiset(es) == multiset(fs)
    ensures multiset(Planned(es, existing)) == multiset(Planned(fs, existing))
  {
    MapPermuted((e: Entry) => e.projectKey, es, fs);
    SameMembers(Keys(es), Keys(fs));
    SelectSame((p: Project) => p.entry.projectKey !in Keys(es), (p: Project) => p.entry.projectKey !in Keys(fs), existing);
    var unknown := (e: Entry) => !Known(existing, e.projectKey);
    SelectPermuted(unknown, es, fs);
    MapPermuted((e: Entry) => e.projectKey, Select(unknown, es), Select(unknown, fs));
    TextSort.SortedIff(Keys(Select(unknown, es)), Keys(Select(unknown, fs)));
    assert NewKeys(es, existing) == NewKeys(fs, existing);
    MapPermuted(WithId(existing, NewKeys(es, existing)), es, fs);
  }

  /** Whether a batch is planned, and the registry it leads to, do not depend on the order of its rows. */
  lemma OrderFree(host: Host, rows: seq<Input>, others: seq<Input>, existing: seq<Project>)
    requires Sound(host, existing) && multiset(rows) == multiset(others)
    requires PrepareAll(host, rows).Ok? ==> Stable(host, PrepareAll(host, rows).value)
    ensures PlanBatch(host, rows, existing).Ok? <==> PlanBatch(host, others, existing).Ok?
    ensures PlanBatch(host, rows, existing).Ok? ==>
      multiset(PlanBatch(host, rows, existing).value.projects)
      == multiset(PlanBatch(host, others, existing).value.projects)
  {
    PrepareAllIff(host, rows);
    PrepareAllIff(host, others);
    SameMembers(rows, others);
    hide Prepare, PrepareAll, PlanBatch, Fitting, Planned;
    if PrepareAll(host, rows).Ok? {
      var es, fs := PrepareAll(host, rows).value, PrepareAll(host, others).value;
      MapPermuted((row: Input) => if Prepare(host, row).Ok? then Prepare(host, row).value else NO_ENTRY, rows, others);
      SameMembers(es, fs);
      if Fitting(host, es, existing) { FittingPermuted(host, es, fs, existing); }
      if Fitting(host, fs, existing) { FittingPermuted(host, fs, es, existing); }
      PlannedPermuted(es, fs, existing);
    }
    PlannedIff(host, rows, existing);
    PlannedIff(host, others, existing);
    if PlanBatch(host, rows, existing).Ok? {
      BatchFacts(host, rows, existing);
      BatchFacts(host, others, existing);
    }
  }

  // ---------- Planning again ----------

  lemma ReplannedSame(host: Host, es: seq<Entry>, existing: seq<Project>)
    requires Sound(host, existing) && Fitting(host, es, existing)
    ensures var projects := Planned(es, existing);
            && Planned(es, projects) == projects
            && Fitting(host, es, projects)
            && forall e | e in es :: Known(projects, e.projectKey)
                                     && LastWithKey(projects, e.projectKey).value.entry == e
  {
    var projects := Planned(es, existing);
    PlannedSound(host, es, existing);
    PlannedMembers(es, existing);
    var ids := WithId(existing, NewKeys(es, existing));
    forall e | e in es ensures LastWithKey(projects, e.projectKey) == Some(ids(e)) {
      assert ids(e) in projects;
      LastIs(host, projects, ids(e));
    }
    hide LastWithKey, Sound, NewKeys, Disjoint, IdOf, Planned, Fitting;
    PlannedIs(es, existing);
    UntouchedStays(es, existing, Map(ids, es));
    KnownIds(es, existing, projects);
    assert Map(WithId(projects, NewKeys(es, projects)), es) == Map(ids, es);
    PlannedIs(es, projects);
    StillFitting(host, es, existing, projects);
  }

  /** What a batch leaves alone in the registry it leads to is what it left alone before. */
  lemma UntouchedStays(es: seq<Entry>, existing: seq<Project>, added: seq<Project>)
    requires |added| == |es| && forall i | 0 <= i < |es| :: added[i].entry == es[i]
    ensures Untouched(Untouched(existing, Keys(es)) + added, Keys(es)) == Untouched(existing, Keys(es))
  {
    var untouched := (p: Project) => p.entry.projectKey !in Keys(es);
    var left := Untouched(existing, Keys(es));
    SelectHas(untouched, existing);
    SelectAll(untouched, left);
    forall i | 0 <= i < |es| ensures !untouched(added[i]) { KeysHas(es, es[i]); }
    SelectNone(untouched, added);
    SelectJoin(untouched, left, added);
  }

  lemma PlannedIs(es: seq<Entry>, existing: seq<Project>)
    ensures Planned(es, existing) == Untouched(existing, Keys(es)) + Map(WithId(existing, NewKeys(es, existing)), es)
  {
  }

  lemma KnownIds(es: seq<Entry>, existing: seq<Project>, projects: seq<Project>)
    requires forall e | e in es ::
      LastWithKey(projects, e.projectKey) == Some(WithId(existing, NewKeys(es, existing))(e))
    ensures forall e | e in es ::
      WithId(projects, NewKeys(es, projects))(e) == WithId(existing, NewKeys(es, existing))(e)
  {
    hide NewKeys, LastWithKey;
  }

  lemma StillFitting(host: Host, es: seq<Entry>, existing: seq<Project>, projects: seq<Project>)
    requires Fitting(host, es, existing) && projects == Planned(es, existing)
    ensures Fitting(host, es, projects)
  {
    PlannedMembers(es, existing);
    hide Planned, NewKeys, IdOf, Disjoint;
    forall e | e in es ensures Fits(host, es, projects, e) {
      assert Fits(host, es, existing, e);
      KeysHas(es, e);
      forall p | p in projects && p.entry.projectKey == e.projectKey ensures p.entry.createdBy.Import? {
        if p.entry in es { assert Fits(host, es, existing, p.entry); }
      }
      forall p | p in projects && p.entry.projectKey !in Keys(es) ensures Disjoint(host, p.entry, e) {
        if p.entry in es { KeysHas(es, p.entry); }
      }
    }
  }

  /** Importing the same rows again is a plan of nothing but unchanged projects. */
  lemma ReplanUnchanged(host: Host, rows: seq<Input>, existing: seq<Project>)
    requires Sound(host, existing) && PlanBatch(host, rows, existing).Ok?
    requires Stable(host, PrepareAll(host, rows).value)
    ensures var projects := PlanBatch(host, rows, existing).value.projects;
            var again := PlanBatch(host, rows, projects);
            && again.Ok? && again.value.projects == projects
            && forall i | 0 <= i < |again.value.plans| :: again.value.plans[i].action == Unchanged
  {
    BatchFacts(host, rows, existing);
    PlannedIff(host, rows, existing);
    var es := PrepareAll(host, rows).value;
    var projects := Planned(es, existing);
    hide PlanBatch, PrepareAll, BatchFault, PlanAll, Planned;
    PlannedSound(host, es, existing);
    ReplannedSame(host, es, existing);
    PlannedIff(host, rows, projects);
    BatchFacts(host, rows, projects);
    var plans := PlanBatch(host, rows, projects).value.plans;
    PlanAllIff(host, es, projects, projects);
    hide Sound, Stable, Fitting, PlanRegistration, Others;
    forall i | 0 <= i < |plans| ensures plans[i].action == Unchanged {
      assert es[i] in es;
      UnchangedPlan(host, es, projects, es[i]);
    }
  }

  lemma UnchangedPlan(host: Host, es: seq<Entry>, projects: seq<Project>, e: Entry)
    requires Sound(host, projects) && Stable(host, es) && Fitting(host, es, projects) && e in es
    requires Planned(es, projects) == projects
    requires Known(projects, e.projectKey) && LastWithKey(projects, e.projectKey).value.entry == e
    ensures var r := PlanRegistration(host, AsInput(e), Others(e, projects, projects));
            r.Ok? && r.value.action == Unchanged
  {
    hide PlanRegistration, Others, Planned, Disjoint;
    assert Fits(host, es, projects, e);
    EntriesApartIff(host, es);
    PlanEachIff(host, es, projects, e);
  }
}
