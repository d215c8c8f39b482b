/** Instance configurations and the external-identifier index kept beside them. */
module ConfigRegistries {
  import opened Timeline
  import opened BucketAggregation
  import WindowServices

  type SequenceId = WindowServices.SequenceId

  type ProjectId = string

  const PROJECT_SEPARATOR := '\U{1e}'
  const SOURCE_SEPARATOR := '\U{1f}'

  datatype Instance = Instance(project: ProjectId, sequence: SequenceId, dataSource: string, externalSequence: string, kind: SeriesKind)

  datatype Snapshot = Snapshot(project: ProjectId, items: seq<Instance>)

  type Instances = map<string, Instance>

  type ExternalIndex = map<string, SequenceId>

  function ScopedKey(project: ProjectId, id: string): string { project + [PROJECT_SEPARATOR] + id }

  function ExternalKey(project: ProjectId, dataSource: string, externalSequence: string): string {
    project + [PROJECT_SEPARATOR] + (dataSource + [SOURCE_SEPARATOR] + externalSequence)
  }

  function KeyOf(c: Instance): string { ExternalKey(c.project, c.dataSource, c.externalSequence) }

  function EffectiveProject(project: ProjectId): ProjectId { if project == "" then "default" else project }

  /** No project given means the default one, and every other project is its own. */
  lemma EffectiveProjectsAgree(p: ProjectId, q: ProjectId)
    ensures EffectiveProject(p) == EffectiveProject(q) <==> p == q || (p in {"", "default"} && q in {"", "default"})
    ensures EffectiveProject(p) != "" && (EffectiveProject(p) == p || p == "")
  {
  }

  predicate OfProject(key: string, project: ProjectId) { project + [PROJECT_SEPARATOR] <= key }

  // ----- keys -----

  lemma SplitAtSeparator(a: string, b: string, r: string, s: string, x: char)
    requires x !in a && x !in b && a + [x] + r == b + [x] + s
    ensures a == b && r == s
  {
    var whole := a + [x] + r;
    assert whole == b + [x] + s && whole[|a|] == x && whole[|b|] == x;
    assert forall i :: 0 <= i < |a| ==> whole[i] == a[i] && a[i] in a;
    assert forall i :: 0 <= i < |b| ==> whole[i] == b[i] && b[i] in b;
    assert a == whole[..|a|] && b == whole[..|b|];
    assert r == whole[|a| + 1..] && s == whole[|b| + 1..];
  }

  /** Projects without the project separator never share a scoped key. */
  lemma ScopedKeyInjective(p: ProjectId, id: string, q: ProjectId, id': string)
    requires PROJECT_SEPARATOR !in p && PROJECT_SEPARATOR !in q && ScopedKey(p, id) == ScopedKey(q, id')
    ensures p == q && id == id'
  {
    SplitAtSeparator(p, q, id, id', PROJECT_SEPARATOR);
  }

  /** Nor an external key, when data sources are free of the source separator. */
  lemma ExternalKeyInjective(p: ProjectId, source: string, ext: string, q: ProjectId, source': string, ext': string)
    requires PROJECT_SEPARATOR !in p && PROJECT_SEPARATOR !in q && SOURCE_SEPARATOR !in source && SOURCE_SEPARATOR !in source'
    requires ExternalKey(p, source, ext) == ExternalKey(q, source', ext')
    ensures p == q && source == source' && ext == ext'
  {
    SplitAtSeparator(p, q, source + [SOURCE_SEPARATOR] + ext, source' + [SOURCE_SEPARATOR] + ext', PROJECT_SEPARATOR);
    SplitAtSeparator(source, source', ext, ext', SOURCE_SEPARATOR);
  }

  /** With a separator in the data source, two different pairs share one key. */
  lemma ExternalKeysCanCollide()
    ensures ExternalKey("p", "a" + [SOURCE_SEPARATOR] + "b", "c") == ExternalKey("p", "a", "b" + [SOURCE_SEPARATOR] + "c")
    ensures "a" + [SOURCE_SEPARATOR] + "b" != "a"
  {
    assert ("a" + [SOURCE_SEPARATOR] + "b") + [SOURCE_SEPARATOR] + "c" == "a" + [SOURCE_SEPARATOR] + ("b" + [SOURCE_SEPARATOR] + "c");
  }

  lemma PrefixIsProject(p: ProjectId, q: ProjectId, id: string)
    requires PROJECT_SEPARATOR !in p && PROJECT_SEPARATOR !in q
    ensures OfProject(ScopedKey(p, id), q) <==> p == q
  {
    var key, prefix := ScopedKey(p, id), q + [PROJECT_SEPARATOR];
    if prefix <= key {
      var rest := key[|prefix|..];
      assert q + [PROJECT_SEPARATOR] + rest == key;
      SplitAtSeparator(p, q, id, rest, PROJECT_SEPARATOR);
    }
  }

  lemma ExternalPrefixIsProject(c: Instance, q: ProjectId)
    requires PROJECT_SEPARATOR !in c.project && PROJECT_SEPARATOR !in q
    ensures OfProject(KeyOf(c), q) <==> c.project == q
  {
    PrefixIsProject(c.project, q, c.dataSource + [SOURCE_SEPARATOR] + c.externalSequence);
  }

  // ----- the two indexes are inverse -----

  predicate Clean(c: Instance) {
    PROJECT_SEPARATOR !in c.project && SOURCE_SEPARATOR !in c.dataSource
  }

  ghost predicate Stored(instances: Instances, key: string) {
    key in instances && Clean(instances[key]) && key == ScopedKey(instances[key].project, instances[key].sequence)
  }

  ghost predicate Listed(instances: Instances, index: ExternalIndex, key: string) {
    key in instances && KeyOf(instances[key]) in index && index[KeyOf(instances[key])] == instances[key].sequence
  }

  ghost predicate Backed(instances: Instances, index: ExternalIndex, external: string) {
    exists key :: key in instances && KeyOf(instances[key]) == external && external in index && instances[key].sequence == index[external]
  }

  /** Every instance is listed under its external key, and every listing is some instance's. */
  ghost predicate Inverse(instances: Instances, index: ExternalIndex) {
    && (forall key :: key in instances ==> Stored(instances, key) && Listed(instances, index, key))
    && (forall external :: external in index ==> Backed(instances, index, external))
  }

  /** So no two instances share an external identifier within a project. */
  lemma InverseIsInjective(instances: Instances, index: ExternalIndex, a: string, b: string)
    requires Inverse(instances, index) && a in instances && b in instances && KeyOf(instances[a]) == KeyOf(instances[b])
    ensures a == b
  {
    assert Stored(instances, a) && Stored(instances, b) && Listed(instances, index, a) && Listed(instances, index, b);
    var x, y := instances[a], instances[b];
    ExternalKeyInjective(x.project, x.dataSource, x.externalSequence, y.project, y.dataSource, y.externalSequence);
  }

  /** Dropping an instance's listing and writing its new one keeps them inverse,
      unless another sequence holds the new external key. */
  ghost function Without(instances: Instances, index: ExternalIndex, key: string): ExternalIndex {
    if key in instances then index - {KeyOf(instances[key])} else index
  }

  lemma UpsertKeepsInverse(instances: Instances, index: ExternalIndex, c: Instance)
    requires Inverse(instances, index) && Clean(c)
    requires var left := Without(instances, index, ScopedKey(c.project, c.sequence));
             KeyOf(c) in left ==> left[KeyOf(c)] == c.sequence
    ensures var key := ScopedKey(c.project, c.sequence);
            Inverse(instances[key := c], Without(instances, index, key)[KeyOf(c) := c.sequence])
  {
    hide ScopedKey, KeyOf, Clean;
    var key := ScopedKey(c.project, c.sequence);
    var left := Without(instances, index, key);
    var instances', index' := instances[key := c], left[KeyOf(c) := c.sequence];
    forall k | k in instances' ensures Stored(instances', k) && Listed(instances', index', k) {
      if k != key {
        assert Stored(instances, k) && Listed(instances, index, k);
        if key in instances && KeyOf(instances[k]) == KeyOf(instances[key]) { InverseIsInjective(instances, index, k, key); }
        if KeyOf(instances[k]) == KeyOf(c) { SameOwner(instances[k], c, k, key); }
      }
    }
    forall external | external in index' ensures Backed(instances', index', external) {
      if external == KeyOf(c) {
        assert instances'[key] == c;
      } else {
        assert Backed(instances, index, external);
        var k :| k in instances && KeyOf(instances[k]) == external && external in index && instances[k].sequence == index[external];
        assert instances'[k] == instances[k];
      }
    }
  }

  lemma SameOwner(a: Instance, c: Instance, k: string, key: string)
    requires Clean(a) && Clean(c) && KeyOf(a) == KeyOf(c) && a.sequence == c.sequence
    requires k == ScopedKey(a.project, a.sequence) && key == ScopedKey(c.project, c.sequence)
    ensures k == key
  {
    ExternalKeyInjective(a.project, a.dataSource, a.externalSequence, c.project, c.dataSource, c.externalSequence);
  }

  // ----- batches -----

  predicate Blank(c: Instance) { c.sequence == "" || c.dataSource == "" || c.externalSequence == "" }

  /** The items as they are stored for the project, the later of equal keys winning. */
  ghost function Overlay(instances: Instances, project: ProjectId, items: seq<Instance>): Instances {
    if items == [] then instances
    else
      var last := items[|items| - 1].(project := project);
      Overlay(instances, project, items[..|items| - 1])[ScopedKey(project, last.sequence) := last]
  }

  ghost predicate CleanBatch(snapshot: Snapshot) {
    PROJECT_SEPARATOR !in snapshot.project && forall i :: 0 <= i < |snapshot.items| ==> SOURCE_SEPARATOR !in snapshot.items[i].dataSource
  }

  /** Another sequence of the project already has the item's external identifier. */
  ghost predicate Taken(instances: Instances, project: ProjectId, c: Instance) {
    exists key :: key in instances && instances[key].project == project && instances[key].sequence != c.sequence
                  && instances[key].dataSource == c.dataSource && instances[key].externalSequence == c.externalSequence
  }

  ghost predicate SoundItems(items: seq<Instance>) {
    && (forall i :: 0 <= i < |items| ==> !Blank(items[i]))
    && (forall i, j :: 0 <= i < j < |items| ==> items[i].sequence != items[j].sequence)
  }

  /** Exactly when a batch goes through, item after item. */
  ghost predicate Acceptable(instances: Instances, project: ProjectId, items: seq<Instance>) {
    && SoundItems(items)
    && forall i :: 0 <= i < |items| ==> !Taken(Overlay(instances, project, items[..i]), project, items[i])
  }

  ghost function OtherProjects(instances: Instances, project: ProjectId): Instances {
    map key | key in instances && !OfProject(key, project) :: instances[key]
  }

  lemma TakenIsConflict(instances: Instances, index: ExternalIndex, c: Instance)
    requires Inverse(instances, index) && Clean(c)
    ensures var left := Without(instances, index, ScopedKey(c.project, c.sequence));
            Taken(instances, c.project, c) <==> KeyOf(c) in left && left[KeyOf(c)] != c.sequence
  {
    var key := ScopedKey(c.project, c.sequence);
    var left := Without(instances, index, key);
    if Taken(instances, c.project, c) {
      var k :| k in instances && instances[k].project == c.project && instances[k].sequence != c.sequence
               && instances[k].dataSource == c.dataSource && instances[k].externalSequence == c.externalSequence;
      assert Stored(instances, k) && Listed(instances, index, k);
      if key in instances && KeyOf(instances[key]) == KeyOf(c) {
        InverseIsInjective(instances, index, key, k);
        assert Stored(instances, key);
        ScopedKeyInjective(instances[key].project, instances[key].sequence, c.project, c.sequence);
      }
    }
    if KeyOf(c) in left && left[KeyOf(c)] != c.sequence {
      assert Backed(instances, index, KeyOf(c));
      var k :| k in instances && KeyOf(instances[k]) == KeyOf(c) && KeyOf(c) in index && instances[k].sequence == index[KeyOf(c)];
      assert Stored(instances, k);
      var x := instances[k];
      ExternalKeyInjective(x.project, x.dataSource, x.externalSequence, c.project, c.dataSource, c.externalSequence);
    }
  }

  lemma OverlayStep(instances: Instances, project: ProjectId, items: seq<Instance>, i: nat)
    requires i < |items|
    ensures Overlay(instances, project, items[..i + 1]) ==
            Overlay(instances, project, items[..i])[ScopedKey(project, items[i].sequence) := items[i].(project := project)]
  {
    hide ScopedKey;
    assert items[..i + 1][..i] == items[..i];
  }

  /** How far an incremental batch has come. */
  ghost predicate Upserted(start: Instances, instances: Instances, index: ExternalIndex, project: ProjectId, items: seq<Instance>, i: nat)
    requires i <= |items|
  {
    && Inverse(instances, index) && instances == Overlay(start, project, items[..i])
    && forall k :: 0 <= k < i ==> !Taken(Overlay(start, project, items[..k]), project, items[k])
  }

  lemma UpsertStep(start: Instances, instances: Instances, index: ExternalIndex, project: ProjectId, items: seq<Instance>, i: nat, stored: Instance)
    requires i < |items| && Upserted(start, instances, index, project, items, i)
    requires stored == items[i].(project := project) && Clean(stored)
    ensures var scoped := ScopedKey(project, stored.sequence);
            var left := Without(instances, index, scoped);
            && (KeyOf(stored) in left && left[KeyOf(stored)] != stored.sequence <==>
                Taken(Overlay(start, project, items[..i]), project, items[i]))
            && (!(KeyOf(stored) in left && left[KeyOf(stored)] != stored.sequence) ==>
                  Upserted(start, instances[scoped := stored], left[KeyOf(stored) := stored.sequence], project, items, i + 1))
  {
    hide Overlay, Inverse, KeyOf, ScopedKey, Taken, Without, Clean;
    TakenIsConflict(instances, index, stored);
    SameTaken(instances, project, items[i]);
    OverlayStep(start, project, items, i);
    var left := Without(instances, index, ScopedKey(project, stored.sequence));
    if !(KeyOf(stored) in left && left[KeyOf(stored)] != stored.sequence) { UpsertKeepsInverse(instances, index, stored); }
  }

  /** Dropping the old listing in the two steps of the code. */
  lemma Unlisted(instances: Instances, index: ExternalIndex, project: ProjectId, sequence: SequenceId)
    requires Inverse(instances, index) && PROJECT_SEPARATOR !in project
    ensures var scoped := ScopedKey(project, sequence);
            Without(instances, index, scoped) ==
            if scoped in instances then
              var oldKey := ExternalKey(project, instances[scoped].dataSource, instances[scoped].externalSequence);
              if oldKey in index && index[oldKey] == sequence then index - {oldKey} else index
            else index
  {
    hide ScopedKey, ExternalKey, Inverse;
    OldListing(instances, index, ScopedKey(project, sequence), project, sequence);
  }

  class RuntimeConfigRegistry {
    var instanceConfigs: Instances
    var externalSequenceIndex: ExternalIndex

    ghost predicate Valid()
      reads this
    {
      Inverse(instanceConfigs, externalSequenceIndex)
    }

    constructor ()
      ensures Valid() && instanceConfigs == map[] && externalSequenceIndex == map[]
    {
      instanceConfigs, externalSequenceIndex := map[], map[];
    }

    /** Items laid over the table one by one, each first giving up its old
        external key; nothing is published unless all of them go through. */
    method UpsertInstanceConfigs(snapshot: Snapshot) returns (ok: bool)
      requires Valid()
      modifies this
      ensures !ok ==> instanceConfigs == old(instanceConfigs) && externalSequenceIndex == old(externalSequenceIndex)
      ensures CleanBatch(snapshot) ==>
                var project := EffectiveProject(snapshot.project);
                && Valid()
                && (ok <==> Acceptable(old(instanceConfigs), project, snapshot.items))
                && (ok ==> instanceConfigs == Overlay(old(instanceConfigs), project, snapshot.items))
                && OtherProjects(instanceConfigs, project) == OtherProjects(old(instanceConfigs), project)
    {
      hide Overlay, Inverse, KeyOf, ScopedKey, ExternalKey, Taken, Upserted, Blank, Clean, CleanBatch;
      var project := EffectiveProject(snapshot.project);
      var instances, index := instanceConfigs, externalSequenceIndex;
      var seen: set<SequenceId> := {};
      var items := snapshot.items;
      NothingUpserted(instances, index, project, items);
      for i := 0 to |items|
        modifies {}
        invariant SoundItems(items[..i]) && forall id :: id in seen <==> exists k :: 0 <= k < i && items[k].sequence == id
        invariant CleanBatch(snapshot) ==> Upserted(instanceConfigs, instances, index, project, items, i)
      {
        var item := items[i];
        assert items[..i + 1] == items[..i] + [item];
        if Blank(item) || item.sequence in seen { return false; }
        seen := seen + {item.sequence};
        var stored := item.(project := project);
        var scoped := ScopedKey(project, item.sequence);
        if CleanBatch(snapshot) {
          CleanItem(snapshot, i);
          UpsertStep(instanceConfigs, instances, index, project, items, i, stored);
          UpsertedInverse(instanceConfigs, instances, index, project, items, i);
          Unlisted(instances, index, project, item.sequence);
        }
        if scoped in instances {
          var oldKey := ExternalKey(project, instances[scoped].dataSource, instances[scoped].externalSequence);
          if oldKey in index && index[oldKey] == item.sequence { index := index - {oldKey}; }
        }
        var newKey := ExternalKey(project, item.dataSource, item.externalSequence);
        ItsKey(stored);
        if newKey in index && index[newKey] != item.sequence { return false; }
        instances := instances[scoped := stored];
        index := index[newKey := item.sequence];
      }
      assert items[..|items|] == items;
      if CleanBatch(snapshot) {
        AllUpserted(instanceConfigs, instances, index, project, items);
        CleanProject(snapshot);
        OverlayLeavesOthers(instanceConfigs, project, items);
      }
      instanceConfigs, externalSequenceIndex := instances, index;
      ok := true;
    }

    /** A project's whole table rebuilt from scratch and published with every
        other project's entries as they were. */
    method ReplaceInstanceConfigs(snapshot: Snapshot) returns (ok: bool)
      requires Valid()
      modifies this
      ensures !ok ==> instanceConfigs == old(instanceConfigs) && externalSequenceIndex == old(externalSequenceIndex)
      ensures CleanBatch(snapshot) ==>
                var project := EffectiveProject(snapshot.project);
                && Valid()
                && (ok <==> Acceptable(map[], project, snapshot.items))
                && (ok ==> instanceConfigs == Overlay(map[], project, snapshot.items) + OtherProjects(old(instanceConfigs), project))
                && OtherProjects(instanceConfigs, project) == OtherProjects(old(instanceConfigs), project)
    {
      hide Overlay, Inverse, KeyOf, ScopedKey, ExternalKey, Taken, Upserted, Blank, Clean, CleanBatch, OfProject;
      var project := EffectiveProject(snapshot.project);
      var instances: Instances, index: ExternalIndex := map[], map[];
      var items := snapshot.items;
      NothingStored();
      NothingUpserted(instances, index, project, items);
      for i := 0 to |items|
        modifies {}
        invariant forall k :: 0 <= k < i ==> !Blank(items[k])
        invariant CleanBatch(snapshot) ==> Upserted(map[], instances, index, project, items, i) && SoundItems(items[..i])
      {
        var item := items[i];
        assert items[..i + 1] == items[..i] + [item];
        if Blank(item) { return false; }
        var stored := item.(project := project);
        var scoped := ScopedKey(project, item.sequence);
        if CleanBatch(snapshot) {
          CleanItem(snapshot, i);
          UpsertStep(map[], instances, index, project, items, i, stored);
          UpsertedInverse(map[], instances, index, project, items, i);
          FreshScoped(instances, index, project, items, i);
          FreshExternal(instances, index, stored, scoped);
        }
        if scoped in instances { return false; }
        instances := instances[scoped := stored];
        var key := ExternalKey(project, item.dataSource, item.externalSequence);
        ItsKey(stored);
        if key in index { return false; }
        index := index[key := item.sequence];
      }
      assert items[..|items|] == items;
      if CleanBatch(snapshot) {
        AllUpserted(map[], instances, index, project, items);
        CleanProject(snapshot);
        UnionKeepsInverse(instances, index, instanceConfigs, externalSequenceIndex, project, items);
        OverlayLeavesOthers(map[], project, items);
        OthersOfUnion(instances, instanceConfigs, project);
      }
      instances := instances + map key | key in instanceConfigs && !OfProject(key, project) :: instanceConfigs[key];
      index := index + map key | key in externalSequenceIndex && !OfProject(key, project) :: externalSequenceIndex[key];
      instanceConfigs, externalSequenceIndex := instances, index;
      ok := true;
    }

    method ResolveSequenceId(project: ProjectId, dataSource: string, externalSequence: string) returns (id: Option<SequenceId>)
      requires Valid()
      ensures PROJECT_SEPARATOR !in project && SOURCE_SEPARATOR !in dataSource ==>
                forall sequence :: id == Some(sequence) <==>
                                   var key := ScopedKey(project, sequence);
                                   key in instanceConfigs && instanceConfigs[key].dataSource == dataSource
                                   && instanceConfigs[key].externalSequence == externalSequence
    {
      hide ScopedKey, ExternalKey, Inverse;
      var key := ExternalKey(project, dataSource, externalSequence);
      id := if key in externalSequenceIndex then Some(externalSequenceIndex[key]) else None;
      if PROJECT_SEPARATOR !in project && SOURCE_SEPARATOR !in dataSource {
        forall sequence
          ensures id == Some(sequence) <==>
                  var scoped := ScopedKey(project, sequence);
                  scoped in instanceConfigs && instanceConfigs[scoped].dataSource == dataSource
                  && instanceConfigs[scoped].externalSequence == externalSequence
        {
          LookupIsInverse(instanceConfigs, externalSequenceIndex, project, dataSource, externalSequence, sequence);
        }
      }
    }
  }

  /** A lookup answers exactly the instance that carries the identifier. */
  lemma LookupIsInverse(instances: Instances, index: ExternalIndex, project: ProjectId, dataSource: string, externalSequence: string, sequence: SequenceId)
    requires Inverse(instances, index) && PROJECT_SEPARATOR !in project && SOURCE_SEPARATOR !in dataSource
    ensures var external, scoped := ExternalKey(project, dataSource, externalSequence), ScopedKey(project, sequence);
            external in index && index[external] == sequence <==>
            scoped in instances && instances[scoped].dataSource == dataSource && instances[scoped].externalSequence == externalSequence
  {
    var external, scoped := ExternalKey(project, dataSource, externalSequence), ScopedKey(project, sequence);
    if scoped in instances {
      assert Stored(instances, scoped) && Listed(instances, index, scoped);
      ScopedKeyInjective(instances[scoped].project, instances[scoped].sequence, project, sequence);
    }
    if external in index && index[external] == sequence {
      assert Backed(instances, index, external);
      var k :| k in instances && KeyOf(instances[k]) == external && instances[k].sequence == index[external];
      assert Stored(instances, k);
      var x := instances[k];
      ExternalKeyInjective(x.project, x.dataSource, x.externalSequence, project, dataSource, externalSequence);
    }
  }

  lemma NothingStored()
    ensures Inverse(map[], map[])
  {
  }

  lemma NothingUpserted(instances: Instances, index: ExternalIndex, project: ProjectId, items: seq<Instance>)
    requires Inverse(instances, index)
    ensures Upserted(instances, instances, index, project, items, 0) && SoundItems(items[..0])
  {
    hide Inverse;
  }

  lemma {:induction false} UpsertedInverse(start: Instances, instances: Instances, index: ExternalIndex, project: ProjectId, items: seq<Instance>, i: nat)
    requires i <= |items| && Upserted(start, instances, index, project, items, i)
    ensures Inverse(instances, index) && instances == Overlay(start, project, items[..i])
    ensures forall k :: 0 <= k < i ==> !Taken(Overlay(start, project, items[..k]), project, items[k])
  {
    hide Inverse, Overlay, Taken;
  }

  lemma {:induction false} AllUpserted(start: Instances, instances: Instances, index: ExternalIndex, project: ProjectId, items: seq<Instance>)
    requires Upserted(start, instances, index, project, items, |items|) && SoundItems(items)
    ensures Inverse(instances, index) && instances == Overlay(start, project, items) && Acceptable(start, project, items)
  {
    hide Inverse, Overlay, Taken, SoundItems;
    assert items[..|items|] == items;
  }

  /** Writing a project's items never touches another project's entries. */
  lemma {:induction false} OverlayLeavesOthers(instances: Instances, project: ProjectId, items: seq<Instance>)
    requires PROJECT_SEPARATOR !in project
    ensures OtherProjects(Overlay(instances, project, items), project) == OtherProjects(instances, project)
    decreases |items|
  {
    hide ScopedKey, OfProject;
    if items != [] {
      OverlayLeavesOthers(instances, project, items[..|items| - 1]);
      PrefixIsProject(project, project, items[|items| - 1].sequence);
    }
  }

  lemma {:induction false} OthersOfUnion(own: Instances, others: Instances, project: ProjectId)
    requires OtherProjects(own, project) == OtherProjects(map[], project)
    ensures OtherProjects(own + OtherProjects(others, project), project) == OtherProjects(others, project)
  {
    hide OfProject;
    forall key | key in own ensures OfProject(key, project) { assert key in OtherProjects(own, project) || OfProject(key, project); }
  }

  lemma CleanProject(snapshot: Snapshot)
    requires CleanBatch(snapshot)
    ensures PROJECT_SEPARATOR !in EffectiveProject(snapshot.project)
  {
  }

  lemma {:induction false} OverlayKeys(project: ProjectId, items: seq<Instance>, key: string)
    requires key in Overlay(map[], project, items)
    ensures exists k :: 0 <= k < |items| && key == ScopedKey(project, items[k].sequence)
    decreases |items|
  {
    hide ScopedKey;
    if items != [] {
      var front := items[..|items| - 1];
      if key in Overlay(map[], project, front) {
        OverlayKeys(project, front, key);
        var k :| 0 <= k < |front| && key == ScopedKey(project, front[k].sequence);
        assert key == ScopedKey(project, items[k].sequence);
      }
    }
  }

  lemma {:induction false} OverlayHas(project: ProjectId, items: seq<Instance>, k: nat)
    requires k < |items|
    ensures ScopedKey(project, items[k].sequence) in Overlay(map[], project, items)
    decreases |items|
  {
    hide ScopedKey;
    if k < |items| - 1 { OverlayHas(project, items[..|items| - 1], k); }
  }

  /** In a table built from scratch a repeated sequence is a repeated key. */
  lemma FreshScoped(instances: Instances, index: ExternalIndex, project: ProjectId, items: seq<Instance>, i: nat)
    requires i < |items| && PROJECT_SEPARATOR !in project && instances == Overlay(map[], project, items[..i])
    requires SoundItems(items[..i])
    ensures ScopedKey(project, items[i].sequence) in instances <==> exists k :: 0 <= k < i && items[k].sequence == items[i].sequence
    ensures ScopedKey(project, items[i].sequence) !in instances && !Blank(items[i]) ==> SoundItems(items[..i + 1])
  {
    hide ScopedKey, Overlay, Blank;
    var key := ScopedKey(project, items[i].sequence);
    if k :| 0 <= k < i && items[k].sequence == items[i].sequence {
      assert items[..i][k] == items[k];
      OverlayHas(project, items[..i], k);
    }
    if key in instances {
      OverlayKeys(project, items[..i], key);
      var k :| 0 <= k < i && key == ScopedKey(project, items[..i][k].sequence);
      ScopedKeyInjective(project, items[i].sequence, project, items[..i][k].sequence);
    }
  }

  /** And a repeated external key is a taken one. */
  lemma FreshExternal(instances: Instances, index: ExternalIndex, stored: Instance, scoped: string)
    requires Inverse(instances, index) && Clean(stored) && scoped == ScopedKey(stored.project, stored.sequence)
    ensures scoped !in instances ==> Without(instances, index, scoped) == index
    ensures scoped !in instances && KeyOf(stored) in index ==> index[KeyOf(stored)] != stored.sequence
  {
    hide ScopedKey, KeyOf, Clean;
    if scoped !in instances && KeyOf(stored) in index && index[KeyOf(stored)] == stored.sequence {
      assert Backed(instances, index, KeyOf(stored));
      var k :| k in instances && KeyOf(instances[k]) == KeyOf(stored) && instances[k].sequence == stored.sequence;
      assert Stored(instances, k);
      SameOwner(instances[k], stored, k, scoped);
    }
  }

  /** One project's fresh table beside the others' old entries. */
  lemma {:induction false} UnionKeepsInverse(instances: Instances, index: ExternalIndex, others: Instances, otherIndex: ExternalIndex, project: ProjectId, items: seq<Instance>)
    requires Inverse(instances, index) && Inverse(others, otherIndex) && PROJECT_SEPARATOR !in project
    requires instances == Overlay(map[], project, items)
    ensures var left := map key | key in otherIndex && !OfProject(key, project) :: otherIndex[key];
            Inverse(instances + OtherProjects(others, project), index + left)
  {
    hide OfProject, ScopedKey, KeyOf, Clean, Overlay;
    var left := map key | key in otherIndex && !OfProject(key, project) :: otherIndex[key];
    var kept := OtherProjects(others, project);
    var all, listed := instances + kept, index + left;
    forall key | key in instances ensures instances[key].project == project && OfProject(KeyOf(instances[key]), project) && key !in kept {
      OwnEntry(instances, index, project, items, key);
    }
    forall key | key in kept ensures Stored(all, key) && Listed(all, listed, key) {
      assert Stored(others, key) && Listed(others, otherIndex, key);
      OtherEntry(others[key], key, project);
    }
    forall key | key in instances ensures Stored(all, key) && Listed(all, listed, key) {
      assert Stored(instances, key) && Listed(instances, index, key);
    }
    forall external | external in listed ensures Backed(all, listed, external) {
      if external in left {
        assert Backed(others, otherIndex, external);
        var k :| k in others && KeyOf(others[k]) == external && others[k].sequence == otherIndex[external];
        assert Stored(others, k);
        OtherEntry(others[k], k, project);
        assert all[k] == others[k];
      } else {
        assert Backed(instances, index, external);
        var k :| k in instances && KeyOf(instances[k]) == external && instances[k].sequence == index[external];
        assert all[k] == instances[k];
      }
    }
  }

  lemma {:induction false} OwnEntry(instances: Instances, index: ExternalIndex, project: ProjectId, items: seq<Instance>, key: string)
    requires Inverse(instances, index) && PROJECT_SEPARATOR !in project && instances == Overlay(map[], project, items) && key in instances
    ensures instances[key].project == project && OfProject(KeyOf(instances[key]), project) && OfProject(key, project)
  {
    hide Overlay, ScopedKey, OfProject, KeyOf;
    assert Stored(instances, key);
    OverlayKeys(project, items, key);
    var k :| 0 <= k < |items| && key == ScopedKey(project, items[k].sequence);
    ScopedKeyInjective(instances[key].project, instances[key].sequence, project, items[k].sequence);
    ExternalPrefixIsProject(instances[key], project);
    PrefixIsProject(project, project, items[k].sequence);
  }

  lemma OtherEntry(c: Instance, key: string, project: ProjectId)
    requires Clean(c) && key == ScopedKey(c.project, c.sequence) && PROJECT_SEPARATOR !in project
    ensures OfProject(key, project) <==> OfProject(KeyOf(c), project)
  {
    hide OfProject, ScopedKey, KeyOf;
    ExternalPrefixIsProject(c, project);
    PrefixIsProject(c.project, project, c.sequence);
  }

  lemma ItsKey(c: Instance)
    ensures KeyOf(c) == ExternalKey(c.project, c.dataSource, c.externalSequence)
  {
  }

  lemma CleanItem(snapshot: Snapshot, i: nat)
    requires CleanBatch(snapshot) && i < |snapshot.items|
    ensures Clean(snapshot.items[i].(project := EffectiveProject(snapshot.project)))
  {
  }

  lemma SameTaken(instances: Instances, project: ProjectId, c: Instance)
    ensures Taken(instances, project, c.(project := project)) <==> Taken(instances, project, c)
  {
  }

  /** The old listing of an instance is there and is its own. */
  lemma {:induction false} OldListing(instances: Instances, index: ExternalIndex, scoped: string, project: ProjectId, sequence: SequenceId)
    requires Inverse(instances, index) && PROJECT_SEPARATOR !in project && scoped == ScopedKey(project, sequence)
    ensures scoped in instances ==>
              && instances[scoped].project == project && instances[scoped].sequence == sequence
              && KeyOf(instances[scoped]) == ExternalKey(project, instances[scoped].dataSource, instances[scoped].externalSequence)
              && KeyOf(instances[scoped]) in index && index[KeyOf(instances[scoped])] == sequence
  {
    if scoped in instances {
      assert Stored(instances, scoped) && Listed(instances, index, scoped);
      ScopedKeyInjective(instances[scoped].project, instances[scoped].sequence, project, sequence);
    }
  }

  // ----- runs -----

  datatype Call = Replace(snapshot: Snapshot) | Upsert(snapshot: Snapshot)

  /** The table a call leaves; a rejected call leaves it as it was. */
  ghost function After(instances: Instances, call: Call): Instances {
    var project := EffectiveProject(call.snapshot.project);
    match call
    case Replace(s) =>
      if Acceptable(map[], project, s.items) then Overlay(map[], project, s.items) + OtherProjects(instances, project) else instances
    case Upsert(s) => if Acceptable(instances, project, s.items) then Overlay(instances, project, s.items) else instances
  }

  ghost function AfterAll(instances: Instances, calls: seq<Call>): Instances {
    if calls == [] then instances else After(AfterAll(instances, calls[..|calls| - 1]), calls[|calls| - 1])
  }

  /** After every run of calls the table is the reference one and the external
      index is its exact inverse. */
  method RunCalls(calls: seq<Call>) returns (registry: RuntimeConfigRegistry)
    requires forall i :: 0 <= i < |calls| ==> CleanBatch(calls[i].snapshot)
    ensures fresh(registry) && registry.Valid() && registry.instanceConfigs == AfterAll(map[], calls)
  {
    hide Inverse, Overlay, Acceptable, CleanBatch, OtherProjects;
    registry := new RuntimeConfigRegistry();
    for i := 0 to |calls|
      invariant fresh(registry) && registry.Valid() && registry.instanceConfigs == AfterAll(map[], calls[..i])
    {
      assert calls[..i + 1][..i] == calls[..i];
      match calls[i] {
        case Replace(snapshot) => var _ := registry.ReplaceInstanceConfigs(snapshot);
        case Upsert(snapshot) => var _ := registry.UpsertInstanceConfigs(snapshot);
      }
    }
    assert calls[..|calls|] == calls;
  }
}
