/** What becomes of one project: how it is prepared, when its registration is refused, and what it does. */
module ProjectMeaning {
  import opened Wrappers
  import opened JsonNumber
  import opened Sequences
  import opened ProjectBatch
  import opened ProjectRegistry

  // ---------- Preparing ----------

  /** The cleaned alias is long enough and does not fold to the name. */
  predicate Kept(host: Host, alias: Text, normalizedName: Text) { |alias| > 1 && host.norm(alias) != normalizedName }

  /**
   The aliases that are kept are distinct and at most thirty; below thirty none is left out, and they come in the order
   of their first occurrence.
   */
  lemma AliasesMean(host: Host, aliases: seq<Text>, normalizedName: Text)
    ensures var r := CleanAliases(host, aliases, normalizedName);
            && |r| <= 30
            && (forall i, j | 0 <= i < j < |r| :: r[i] != r[j])
            && (forall a | a in r :: Kept(host, a, normalizedName) && exists k :: 0 <= k < |aliases| && host.clean(aliases[k]) == a)
            && (|r| < 30 ==>
                  forall k | 0 <= k < |aliases| && Kept(host, host.clean(aliases[k]), normalizedName) ::
                    host.clean(aliases[k]) in r)
  {
    CleanAliasesFacts(host, aliases, normalizedName);
    var p := (a: Text) => |a| >= 2 && host.norm(a) != normalizedName;
    var cleaned := Map(host.clean, aliases);
    var kept := Select(p, cleaned);
    SelectHas(p, cleaned);
    UniqueKeeps(kept);
    var r := CleanAliases(host, aliases, normalizedName);
    if |r| < 30 {
      assert r == Unique(kept);
      forall k | 0 <= k < |aliases| && Kept(host, host.clean(aliases[k]), normalizedName)
        ensures host.clean(aliases[k]) in r
      {
        assert cleaned[k] in cleaned && p(cleaned[k]);
      }
    }
  }

  /** A project is refused for the first of four faults; otherwise it is its cleaned input. */
  lemma PrepareMeans(host: Host, input: Input)
    ensures var r := Prepare(host, input);
            var name := host.clean(input.name);
            var short := |host.norm(name)| <= 1;
            var key := host.keyOf(if input.projectKey == [] then name else input.projectKey);
            var stated := input.status.Active? || input.status.Archived?;
            var owned := input.createdBy.User? || input.createdBy.Import?;
            && (r == Err(NameTooShort) <==> short)
            && (r == Err(InvalidStatus) <==> !short && !stated)
            && (r == Err(InvalidSource) <==> !short && stated && !owned)
            && (r == Err(InvalidKey) <==> !short && stated && owned && key == [])
            && (r.Ok? <==> !short && stated && owned && key != [])
            && (r.Ok? ==>
                  && r.value.name == name && r.value.normalizedName == host.norm(name) && r.value.projectKey == key
                  && r.value.status == input.status && r.value.createdBy == input.createdBy
                  && r.value.aliases == CleanAliases(host, input.aliases, host.norm(name)))
  {
    hide CleanAliases;
  }

  // ---------- Registering ----------

  /** The first project with the key. */
  ghost predicate FirstOf(projects: seq<Project>, key: Text, i: int)
  {
    && 0 <= i < |projects| && projects[i].entry.projectKey == key
    && forall j | 0 <= j < i :: projects[j].entry.projectKey != key
  }

  lemma {:induction false} FirstKeyMeans(projects: seq<Project>, key: Text)
    ensures FirstWithKey(projects, key).Some? ==>
      exists i :: FirstOf(projects, key, i) && FirstWithKey(projects, key).value == projects[i]
    ensures FirstWithKey(projects, key).None? ==> forall i | 0 <= i < |projects| :: projects[i].entry.projectKey != key
  {
    if projects != [] {
      if projects[0].entry.projectKey == key {
        assert FirstOf(projects, key, 0);
      } else {
        var rest := projects[1..];
        FirstKeyMeans(rest, key);
        assert forall j | 1 <= j < |projects| :: projects[j] == rest[j - 1];
        if FirstWithKey(rest, key).Some? {
          var i :| FirstOf(rest, key, i) && FirstWithKey(rest, key).value == rest[i];
          assert FirstOf(projects, key, i + 1);
        }
      }
    }
  }

  /** Two projects share a folded name or alias. */
  ghost predicate Share(host: Host, a: Entry, b: Entry)
  {
    exists t :: Called(host, a, t) && Called(host, b, t)
  }

  predicate Called(host: Host, e: Entry, t: Text)
  {
    e.normalizedName == t || exists i | 0 <= i < |e.aliases| :: host.norm(e.aliases[i]) == t
  }

  lemma ShareIff(host: Host, a: Entry, b: Entry)
    ensures Disjoint(host, a, b) <==> !Share(host, a, b)
  {
    forall e: Entry, t: Text ensures t in Terms(host, e) <==> Called(host, e, t) {
      if t in Terms(host, e) && t != e.normalizedName {
        var x :| x in e.aliases && host.norm(x) == t;
        var i :| 0 <= i < |e.aliases| && e.aliases[i] == x;
      }
    }
    hide Terms, Called;
  }

  /** The first project of the list, but for the one that is updated, that shares a name or alias with this one. */
  ghost predicate FirstSharing(host: Host, e: Entry, skipped: Option<int>, projects: seq<Project>, i: int)
  {
    && 0 <= i < |projects| && skipped != Some(projects[i].id) && Share(host, projects[i].entry, e)
    && forall j | 0 <= j < i :: skipped == Some(projects[j].id) || !Share(host, projects[j].entry, e)
  }

  lemma {:induction false} ConflictMeans(host: Host, e: Entry, skipped: Option<int>, projects: seq<Project>)
    ensures FirstConflict(host, e, skipped, projects).Some? ==>
      exists i :: FirstSharing(host, e, skipped, projects, i) && FirstConflict(host, e, skipped, projects).value == projects[i]
    ensures FirstConflict(host, e, skipped, projects).None? ==>
      forall i | 0 <= i < |projects| :: skipped == Some(projects[i].id) || !Share(host, projects[i].entry, e)
  {
    if projects != [] {
      ShareIff(host, projects[0].entry, e);
      hide Share, Disjoint;
      if skipped != Some(projects[0].id) && Share(host, projects[0].entry, e) {
        assert FirstSharing(host, e, skipped, projects, 0);
      } else {
        var rest := projects[1..];
        ConflictMeans(host, e, skipped, rest);
        assert forall j | 1 <= j < |projects| :: projects[j] == rest[j - 1];
        if FirstConflict(host, e, skipped, rest).Some? {
          var i :| FirstSharing(host, e, skipped, rest, i) && FirstConflict(host, e, skipped, rest).value == rest[i];
          assert FirstSharing(host, e, skipped, projects, i + 1);
        }
      }
    }
  }

  /**
   Registering one project, of a person or an import.  An import never takes over a person's project; a project whose
   name or aliases another one has is refused, naming the first such; and an import updates the import of its key,
   unless nothing about that would change.
   */
  lemma RegistrationMeans(host: Host, input: Input, projects: seq<Project>)
    requires Prepare(host, input).Ok?
    ensures var e, r := Prepare(host, input).value, PlanRegistration(host, input, projects);
            var found := FirstWithKey(projects, e.projectKey);
            var takes := e.createdBy == Import && found.Some? && found.value.entry.createdBy == Import;
            var skipped := if takes then Some(found.value.id) else None;
            && (r == Err(UserProject) <==> e.createdBy == Import && found.Some? && found.value.entry.createdBy != Import)
            && (r.Err? && r.error != UserProject ==>
                  exists i :: FirstSharing(host, e, skipped, projects, i) && r == Err(AliasConflict(projects[i].entry.name)))
            && (r.Ok? ==>
                  && (forall i | 0 <= i < |projects| :: skipped == Some(projects[i].id) || !Share(host, projects[i].entry, e))
                  && r.value.project == e && r.value.existing == found
                  && (r.value.action == Create <==> !takes)
                  && (r.value.action == Unchanged <==>
                        && takes && e.name == found.value.entry.name && e.status == found.value.entry.status
                        && e.aliases == found.value.entry.aliases))
  {
    var e := Prepare(host, input).value;
    var found := FirstWithKey(projects, e.projectKey);
    var takes := e.createdBy == Import && found.Some? && found.value.entry.createdBy == Import;
    ConflictMeans(host, e, if takes then Some(found.value.id) else None, projects);
    hide Prepare, FirstConflict, FirstWithKey, FirstSharing, Share;
  }

  /** The ids of a registry end at one of its own, or at zero: the first new id follows right after. */
  lemma {:induction false} LastIdMeans(projects: seq<Project>)
    ensures MaxId(projects) == 0 || exists i :: 0 <= i < |projects| && projects[i].id == MaxId(projects)
    ensures forall i | 0 <= i < |projects| :: projects[i].id <= MaxId(projects)
  {
    if projects != [] {
      var front := projects[..|projects| - 1];
      LastIdMeans(front);
      if i :| 0 <= i < |front| && front[i].id == MaxId(front) { assert projects[i] == front[i]; }
    }
  }

  /** A batch is refused for its first entry that is no import or repeats a key. */
  lemma {:induction false} FaultMeans(es: seq<Entry>)
    ensures BatchFault(es).None? <==>
      forall k | 0 <= k < |es| :: es[k].createdBy == Import && forall j | 0 <= j < k :: es[j].projectKey != es[k].projectKey
    ensures BatchFault(es).Some? ==>
      exists k ::
        && 0 <= k < |es| && BatchFault(es[..k]).None?
        && BatchFault(es).value == (if es[k].createdBy != Import then NotImport else DuplicateKey)
        && (es[k].createdBy == Import ==> exists j :: 0 <= j < k && es[j].projectKey == es[k].projectKey)
  {
    if es != [] {
      var n := |es| - 1;
      var front := es[..n];
      FaultMeans(front);
      assert forall k | 0 <= k < n :: front[k] == es[k] && front[..k] == es[..k];
      assert es[n].projectKey in Keys(front) <==> exists j :: 0 <= j < n && es[j].projectKey == es[n].projectKey by {
        KeysHave(front, es[n].projectKey);
        if j :| 0 <= j < n && es[j].projectKey == es[n].projectKey { assert front[j].projectKey == es[n].projectKey; }
        if j :| 0 <= j < |front| && front[j].projectKey == es[n].projectKey { assert es[j] == front[j]; }
      }
    }
  }

  lemma KeysHave(es: seq<Entry>, key: Text)
    ensures key in Keys(es) <==> exists j :: 0 <= j < |es| && es[j].projectKey == key
  {
    var keys := Keys(es);
    if j :| 0 <= j < |es| && es[j].projectKey == key { assert keys[j] == key; }
  }
}
