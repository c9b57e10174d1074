/**
 Planning a batch of project imports against a registry.  Text normalisation is the host's: `clean` trims and
 bounds a text, `norm` folds it for comparison, `keyOf` makes a key of it.
 */
module ProjectBatch {
  import opened Wrappers
  import opened JsonNumber
  import opened Sequences
  import TextSort

  datatype Host = Host(clean: Text -> Text, norm: Text -> Text, keyOf: Text -> Text)

  datatype Status = Active | Archived | OtherStatus
  datatype Creator = User | Import | OtherCreator

  datatype Input = Input(name: Text, projectKey: Text, aliases: seq<Text>, status: Status, createdBy: Creator)

  datatype Entry = Entry(
    name: Text, normalizedName: Text, projectKey: Text, aliases: seq<Text>, status: Status, createdBy: Creator)

  datatype Project = Project(id: int, entry: Entry)

  datatype Action = Create | Update | Unchanged

  datatype Plan = Plan(project: Entry, existing: Option<Project>, action: Action)

  datatype Batch = Batch(plans: seq<Plan>, projects: seq<Project>)

  datatype Error =
    | NameTooShort | InvalidStatus | InvalidSource | InvalidKey
    | UserProject | AliasConflict(owner: Text) | NotImport | DuplicateKey

  const ALIAS_LIMIT := 30

  // ---------- One project ----------

  function Unique(xs: seq<Text>): (ys: seq<Text>)
  {
    if xs == [] then []
    else
      var ys := Unique(xs[..|xs| - 1]);
      if xs[|xs| - 1] in ys then ys else ys + [xs[|xs| - 1]]
  }

  function FirstFew(xs: seq<Text>): seq<Text> { if |xs| <= ALIAS_LIMIT then xs else xs[..ALIAS_LIMIT] }

  function CleanAliases(host: Host, aliases: seq<Text>, normalizedName: Text): seq<Text>
  {
    FirstFew(Unique(Select((a: Text) => |a| >= 2 && host.norm(a) != normalizedName, Map(host.clean, aliases))))
  }

  function Prepare(host: Host, input: Input): Result<Entry, Error>
  {
    var name := host.clean(input.name);
    var normalizedName := host.norm(name);
    if |normalizedName| < 2 then Err(NameTooShort)
    else if input.status.OtherStatus? then Err(InvalidStatus)
    else if input.createdBy.OtherCreator? then Err(InvalidSource)
    else
      var key := host.keyOf(if input.projectKey != [] then input.projectKey else name);
      if key == [] then Err(InvalidKey)
      else Ok(Entry(name, normalizedName, key, CleanAliases(host, input.aliases, normalizedName),
                    input.status, input.createdBy))
  }

  function AsInput(e: Entry): Input { Input(e.name, e.projectKey, e.aliases, e.status, e.createdBy) }

  /** The folded name and aliases of a project. */
  function Terms(host: Host, e: Entry): set<Text>
  {
    {e.normalizedName} + set a | a in e.aliases :: host.norm(a)
  }

  predicate Disjoint(host: Host, a: Entry, b: Entry) { Terms(host, a) !! Terms(host, b) }

  // ---------- Planning ----------

  function FirstWithKey(projects: seq<Project>, key: Text): Option<Project>
  {
    if projects == [] then None
    else if projects[0].entry.projectKey == key then Some(projects[0])
    else FirstWithKey(projects[1..], key)
  }

  /** The registry as a map by key, where the last of equal keys wins. */
  function LastWithKey(projects: seq<Project>, key: Text): Option<Project>
  {
    if projects == [] then None
    else if projects[|projects| - 1].entry.projectKey == key then Some(projects[|projects| - 1])
    else LastWithKey(projects[..|projects| - 1], key)
  }

  /** The first project of the list that shares a term, leaving out the one that is updated. */
  function FirstConflict(host: Host, e: Entry, skipped: Option<int>, projects: seq<Project>): Option<Project>
  {
    if projects == [] then None
    else if skipped != Some(projects[0].id) && !Disjoint(host, projects[0].entry, e) then Some(projects[0])
    else FirstConflict(host, e, skipped, projects[1..])
  }

  function PlanRegistration(host: Host, input: Input, projects: seq<Project>): Result<Plan, Error>
  {
    var prepared := Prepare(host, input);
    if prepared.Err? then Err(prepared.error)
    else
      var project := prepared.value;
      var existing := FirstWithKey(projects, project.projectKey);
      var updating := project.createdBy.Import? && existing.Some? && existing.value.entry.createdBy.Import?;
      if existing.Some? && project.createdBy.Import? && !updating then Err(UserProject)
      else
        var conflict := FirstConflict(host, project, if updating then Some(existing.value.id) else None, projects);
        if conflict.Some? then Err(AliasConflict(conflict.value.entry.name))
        else
          var same := updating && project.name == existing.value.entry.name
            && project.status == existing.value.entry.status && project.aliases == existing.value.entry.aliases;
          Ok(Plan(project, existing, if same then Unchanged else if updating then Update else Create))
  }

  function PrepareAll(host: Host, rows: seq<Input>): Result<seq<Entry>, Error>
  {
    if rows == [] then Ok([])
    else
      var front := PrepareAll(host, rows[..|rows| - 1]);
      if front.Err? then front
      else
        var last := Prepare(host, rows[|rows| - 1]);
        if last.Err? then Err(last.error) else Ok(front.value + [last.value])
  }

  function Keys(es: seq<Entry>): seq<Text> { Map((e: Entry) => e.projectKey, es) }

  /** The first reason to refuse the inputs as a batch. */
  function BatchFault(es: seq<Entry>): Option<Error>
  {
    if es == [] then None
    else
      var n := |es| - 1;
      var front := BatchFault(es[..n]);
      if front.Some? then front
      else if !es[n].createdBy.Import? then Some(NotImport)
      else if es[n].projectKey in Keys(es[..n]) then Some(DuplicateKey)
      else None
  }

  function MaxId(projects: seq<Project>): (m: int)
    ensures m >= 0 && forall i | 0 <= i < |projects| :: projects[i].id <= m
  {
    if projects == [] then 0
    else
      var m := MaxId(projects[..|projects| - 1]);
      if projects[|projects| - 1].id > m then projects[|projects| - 1].id else m
  }

  predicate Known(existing: seq<Project>, key: Text) { LastWithKey(existing, key).Some? }

  function NewKeys(es: seq<Entry>, existing: seq<Project>): seq<Text>
  {
    TextSort.Sorted(Keys(Select((e: Entry) => !Known(existing, e.projectKey), es)))
  }

  function IndexOf(keys: seq<Text>, key: Text): nat
  {
    if keys == [] || keys[|keys| - 1] == key then |keys| else IndexOf(keys[..|keys| - 1], key)
  }

  /** A known key keeps its id; the new ones get the next ids in the order of their keys. */
  function IdOf(existing: seq<Project>, newKeys: seq<Text>, key: Text): int
  {
    var known := LastWithKey(existing, key);
    if known.Some? then known.value.id else MaxId(existing) + IndexOf(newKeys, key)
  }

  function WithId(existing: seq<Project>, newKeys: seq<Text>): Entry -> Project
  {
    (e: Entry) => Project(IdOf(existing, newKeys, e.projectKey), e)
  }

  function Untouched(existing: seq<Project>, keys: seq<Text>): seq<Project>
  {
    Select((p: Project) => p.entry.projectKey !in keys, existing)
  }

  function Planned(es: seq<Entry>, existing: seq<Project>): seq<Project>
  {
    Untouched(existing, Keys(es)) + Map(WithId(existing, NewKeys(es, existing)), es)
  }

  /** What one input is checked against: its own project, if there is one, and all planned others. */
  function Others(e: Entry, existing: seq<Project>, projects: seq<Project>): seq<Project>
  {
    var known := LastWithKey(existing, e.projectKey);
    (if known.Some? then [known.value] else [])
    + Select((p: Project) => p.entry.projectKey != e.projectKey, projects)
  }

  function PlanAll(host: Host, es: seq<Entry>, existing: seq<Project>, projects: seq<Project>): Result<seq<Plan>, Error>
  {
    if es == [] then Ok([])
    else
      var front := PlanAll(host, es[..|es| - 1], existing, projects);
      if front.Err? then front
      else
        var e := es[|es| - 1];
        var last := PlanRegistration(host, AsInput(e), Others(e, existing, projects));
        if last.Err? then Err(last.error) else Ok(front.value + [last.value])
  }

  function PlanBatch(host: Host, rows: seq<Input>, existing: seq<Project>): Result<Batch, Error>
  {
    var inputs := PrepareAll(host, rows);
    if inputs.Err? then Err(inputs.error)
    else
      var fault := BatchFault(inputs.value);
      if fault.Some? then Err(fault.value)
      else
        var projects := Planned(inputs.value, existing);
        var plans := PlanAll(host, inputs.value, existing, projects);
        if plans.Err? then Err(plans.error) else Ok(Batch(plans.value, projects))
  }

  /** The loop over the inputs that fills the key set. */
  method CheckInputs(inputs: seq<Entry>) returns (fault: Option<Error>, keys: set<Text>)
    ensures fault == BatchFault(inputs)
    ensures fault.None? ==> keys == set k | k in Keys(inputs)
  {
    keys := {};
    for i := 0 to |inputs|
      invariant BatchFault(inputs[..i]) == None && keys == set k | k in Keys(inputs[..i])
    {
      assert inputs[..i + 1][..i] == inputs[..i];
      assert Keys(inputs[..i + 1]) == Keys(inputs[..i]) + [inputs[i].projectKey];
      if !inputs[i].createdBy.Import? || inputs[i].projectKey in keys {
        BatchFaultStays(inputs, i + 1);
        return Some(if !inputs[i].createdBy.Import? then NotImport else DuplicateKey), keys;
      }
      keys := keys + {inputs[i].projectKey};
    }
    assert inputs[..|inputs|] == inputs;
    return None, keys;
  }

  /** The running id, counted up over the new keys in sorted order. */
  method AssignIds(newKeys: seq<Text>, existing: seq<Project>) returns (newIds: map<Text, int>)
    ensures newIds.Keys == set k | k in newKeys
    ensures forall k | k in newKeys :: newIds[k] == MaxId(existing) + IndexOf(newKeys, k)
  {
    hide MaxId;
    var nextId := MaxId(existing) + 1;
    newIds := map[];
    for i := 0 to |newKeys|
      invariant nextId == MaxId(existing) + 1 + i && newIds.Keys == set k | k in newKeys[..i]
      invariant forall k | k in newKeys[..i] :: newIds[k] == MaxId(existing) + IndexOf(newKeys[..i], k)
    {
      assert newKeys[..i + 1][..i] == newKeys[..i];
      newIds := newIds[newKeys[i] := nextId];
      nextId := nextId + 1;
    }
    assert newKeys[..|newKeys|] == newKeys;
  }

  /** `planProjectBatch`, with its key set and its running id. */
  method PlanProjectBatch(host: Host, rows: seq<Input>, existing: seq<Project>) returns (r: Result<Batch, Error>)
    ensures r == PlanBatch(host, rows, existing)
  {
    hide PrepareAll, PlanAll, BatchFault, NewKeys, MaxId, IndexOf, LastWithKey;
    var inputs := PrepareAll(host, rows);
    if inputs.Err? { return Err(inputs.error); }
    var es := inputs.value;
    var fault, keys := CheckInputs(es);
    if fault.Some? { return Err(fault.value); }
    var newIds := AssignIds(NewKeys(es, existing), existing);
    NewKeysHas(es, existing);
    var added := seq(|es|, i requires 0 <= i < |es| =>
      var known := LastWithKey(existing, es[i].projectKey);
      Project(if known.Some? then known.value.id
              else if es[i].projectKey in newIds then newIds[es[i].projectKey] else 0, es[i]));
    forall i | 0 <= i < |es| ensures added[i] == WithId(existing, NewKeys(es, existing))(es[i]) {
      assert es[i] in es;
    }
    assert added == Map(WithId(existing, NewKeys(es, existing)), es);
    SelectSame((p: Project) => p.entry.projectKey !in keys, (p: Project) => p.entry.projectKey !in Keys(es), existing);
    var projects := Select((p: Project) => p.entry.projectKey !in keys, existing) + added;
    var plans := PlanAll(host, es, existing, projects);
    if plans.Err? { return Err(plans.error); }
    return Ok(Batch(plans.value, projects));
  }

  lemma {:induction false} BatchFaultStays(es: seq<Entry>, n: nat)
    requires n <= |es| && BatchFault(es[..n]).Some?
    ensures BatchFault(es) == BatchFault(es[..n])
  {
    if n < |es| {
      assert es[..|es| - 1][..n] == es[..n];
      BatchFaultStays(es[..|es| - 1], n);
    } else {
      assert es[..n] == es;
    }
  }

  lemma NewKeysHas(es: seq<Entry>, existing: seq<Project>)
    ensures forall e | e in es && !Known(existing, e.projectKey) :: e.projectKey in NewKeys(es, existing)
  {
    var p := (e: Entry) => !Known(existing, e.projectKey);
    SelectHas(p, es);
    TextSort.SortedKeeps(Keys(Select(p, es)));
    SameMembers(Keys(Select(p, es)), NewKeys(es, existing));
    forall e | e in es && !Known(existing, e.projectKey) ensures e.projectKey in NewKeys(es, existing) {
      assert e in Select(p, es);
      var i :| 0 <= i < |Select(p, es)| && Select(p, es)[i] == e;
      assert Keys(Select(p, es))[i] == e.projectKey;
    }
  }
}
