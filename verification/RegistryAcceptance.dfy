/** Exactly when an incremental registry batch goes through, and exactly which
    external identifiers can share a key. */
module RegistryAcceptance {
  import opened BucketAggregation
  import opened ConfigRegistries

  // ----- shared external keys -----

  /** Two keys agree exactly when the projects do and the joined text does. */
  lemma ExternalKeysAgreeExactly(p: ProjectId, source: string, ext: string, q: ProjectId, source': string, ext': string)
    requires PROJECT_SEPARATOR !in p && PROJECT_SEPARATOR !in q
    ensures ExternalKey(p, source, ext) == ExternalKey(q, source', ext') <==>
            p == q && source + [SOURCE_SEPARATOR] + ext == source' + [SOURCE_SEPARATOR] + ext'
  {
    if ExternalKey(p, source, ext) == ExternalKey(q, source', ext') {
      SplitAtSeparator(p, q, source + [SOURCE_SEPARATOR] + ext, source' + [SOURCE_SEPARATOR] + ext', PROJECT_SEPARATOR);
    }
  }

  ghost predicate SharesKey(p: ProjectId, source: string, ext: string, source': string, ext': string) {
    (source', ext') != (source, ext) && ExternalKey(p, source', ext') == ExternalKey(p, source, ext)
  }

  /** An external identifier has a key of its own exactly when neither part contains the source separator. */
  lemma KeyIsSharedExactly(p: ProjectId, source: string, ext: string)
    ensures (exists source', ext' :: SharesKey(p, source, ext, source', ext')) <==> SOURCE_SEPARATOR in source || SOURCE_SEPARATOR in ext
  {
    var x := SOURCE_SEPARATOR;
    if i :| 0 <= i < |source| && source[i] == x {
      var source', ext' := source[..i], source[i + 1..] + [x] + ext;
      assert source == source' + [x] + source[i + 1..];
      assert source + [x] + ext == source' + [x] + ext';
      assert SharesKey(p, source, ext, source', ext');
    } else if i :| 0 <= i < |ext| && ext[i] == x {
      var source', ext' := source + [x] + ext[..i], ext[i + 1..];
      assert ext == ext[..i] + [x] + ext';
      assert source + [x] + ext == source' + [x] + ext';
      assert SharesKey(p, source, ext, source', ext');
    }
    forall source', ext' | x !in source && x !in ext ensures !SharesKey(p, source, ext, source', ext') {
      if ExternalKey(p, source', ext') == ExternalKey(p, source, ext) { OneSplitting(p, source, ext, source', ext'); }
    }
  }

  /** Text with a single separator is cut there and nowhere else. */
  lemma OneSplitting(p: ProjectId, source: string, ext: string, source': string, ext': string)
    requires SOURCE_SEPARATOR !in source && SOURCE_SEPARATOR !in ext && ExternalKey(p, source', ext') == ExternalKey(p, source, ext)
    ensures source' == source && ext' == ext
  {
    var x, lead := SOURCE_SEPARATOR, p + [PROJECT_SEPARATOR];
    var a, b := source + [x] + ext, source' + [x] + ext';
    assert (lead + a)[|lead|..] == a && (lead + b)[|lead|..] == b;
    assert a == b && b[|source'|] == x;
    assert forall i :: 0 <= i < |a| && i != |source| ==> a[i] == if i < |source| then source[i] else ext[i - |source| - 1];
    assert |source'| == |source|;
    assert a[..|source|] == source && b[..|source'|] == source';
    assert a[|source| + 1..] == ext && b[|source'| + 1..] == ext';
  }

  // ----- acceptance of an incremental batch -----

  predicate SameExternal(a: Instance, b: Instance) {
    a.dataSource == b.dataSource && a.externalSequence == b.externalSequence
  }

  /** No two of the project's entries share an external identifier. */
  ghost predicate NoneShared(table: Instances, project: ProjectId) {
    forall a, b :: a in table && b in table && table[a].project == project && table[b].project == project && SameExternal(table[a], table[b]) ==> a == b
  }

  ghost predicate HeldBy(start: Instances, project: ProjectId, holder: SequenceId, c: Instance) {
    exists key :: key in start && start[key].project == project && start[key].sequence == holder && SameExternal(start[key], c)
  }

  /** Some item wants an identifier that a sequence still holds whose own item only comes later. */
  ghost predicate HeldByLater(start: Instances, project: ProjectId, items: seq<Instance>) {
    exists i, j :: 0 <= i < j < |items| && HeldBy(start, project, items[j].sequence, items[i])
  }

  lemma {:induction false} OverlayItem(start: Instances, project: ProjectId, items: seq<Instance>, k: nat)
    requires SoundItems(items) && k < |items|
    ensures var key := ScopedKey(project, items[k].sequence);
            key in Overlay(start, project, items) && Overlay(start, project, items)[key] == items[k].(project := project)
    decreases |items|
  {
    var n := |items| - 1;
    if k < n {
      var front := items[..n];
      OverlayItem(start, project, front, k);
      SameProject(project, items[k].sequence, items[n].sequence);
    }
  }

  lemma {:induction false} OverlayElsewhere(start: Instances, project: ProjectId, items: seq<Instance>, key: string)
    requires forall k :: 0 <= k < |items| ==> key != ScopedKey(project, items[k].sequence)
    ensures key in Overlay(start, project, items) <==> key in start
    ensures key in start ==> Overlay(start, project, items)[key] == start[key]
    decreases |items|
  {
    hide ScopedKey;
    if items != [] { OverlayElsewhere(start, project, items[..|items| - 1], key); }
  }

  lemma SameProject(project: ProjectId, a: string, b: string)
    ensures ScopedKey(project, a) == ScopedKey(project, b) <==> a == b
  {
    var lead := project + [PROJECT_SEPARATOR];
    assert (lead + a)[|lead|..] == a && (lead + b)[|lead|..] == b;
  }

  ghost predicate HeldByEarlier(items: seq<Instance>, i: nat)
    requires i < |items|
  {
    exists k :: 0 <= k < i && SameExternal(items[k], items[i])
  }

  /** Held from the start by a sequence that is neither the item's nor has had its turn. */
  ghost predicate StillHeld(start: Instances, project: ProjectId, items: seq<Instance>, i: nat)
    requires i < |items|
  {
    exists holder :: HeldBy(start, project, holder, items[i]) && holder != items[i].sequence && forall k :: 0 <= k < i ==> items[k].sequence != holder
  }

  lemma {:induction false} TakenExactly(start: Instances, index: ExternalIndex, project: ProjectId, items: seq<Instance>, i: nat)
    requires Inverse(start, index) && SoundItems(items) && i < |items|
    ensures Taken(Overlay(start, project, items[..i]), project, items[i]) <==> HeldByEarlier(items, i) || StillHeld(start, project, items, i)
  {
    hide ScopedKey, Overlay, Inverse;
    var front := items[..i];
    var table := Overlay(start, project, front);
    assert SoundItems(front);
    if HeldByEarlier(items, i) {
      var k :| 0 <= k < i && SameExternal(items[k], items[i]);
      assert front[k] == items[k];
      OverlayItem(start, project, front, k);
      assert Taken(table, project, items[i]);
    }
    if StillHeld(start, project, items, i) {
      var holder :| HeldBy(start, project, holder, items[i]) && holder != items[i].sequence && forall k :: 0 <= k < i ==> items[k].sequence != holder;
      var key :| key in start && start[key].project == project && start[key].sequence == holder && SameExternal(start[key], items[i]);
      StoredKey(start, index, key);
      forall k | 0 <= k < |front| ensures key != ScopedKey(project, front[k].sequence) { SameProject(project, holder, front[k].sequence); }
      OverlayElsewhere(start, project, front, key);
      assert Taken(table, project, items[i]);
    }
    if Taken(table, project, items[i]) {
      var key :| key in table && table[key].project == project && table[key].sequence != items[i].sequence
                 && table[key].dataSource == items[i].dataSource && table[key].externalSequence == items[i].externalSequence;
      if k :| 0 <= k < |front| && key == ScopedKey(project, front[k].sequence) {
        OverlayItem(start, project, front, k);
        assert SameExternal(items[k], items[i]);
      } else {
        OverlayElsewhere(start, project, front, key);
        StoredKey(start, index, key);
        var holder := start[key].sequence;
        forall k | 0 <= k < i ensures items[k].sequence != holder { assert front[k] == items[k]; }
        assert HeldBy(start, project, holder, items[i]);
      }
    }
  }

  lemma StoredKey(instances: Instances, index: ExternalIndex, key: string)
    requires Inverse(instances, index) && key in instances
    ensures key == ScopedKey(instances[key].project, instances[key].sequence) && Clean(instances[key])
  {
    hide ScopedKey, Clean, KeyOf;
    assert Stored(instances, key);
  }

  /** Two entries that clash in the final table: one of them is an item that was taken at its turn. */
  lemma {:induction false} ClashIsTaken(start: Instances, index: ExternalIndex, project: ProjectId, items: seq<Instance>, a: string, b: string)
    requires Inverse(start, index) && SoundItems(items)
    requires var table := Overlay(start, project, items);
             a in table && b in table && a != b && table[a].project == project && table[b].project == project && SameExternal(table[a], table[b])
    ensures exists i :: 0 <= i < |items| && (HeldByEarlier(items, i) || StillHeld(start, project, items, i))
  {
    hide ScopedKey, Overlay, Inverse;
    var table := Overlay(start, project, items);
    if i :| 0 <= i < |items| && a == ScopedKey(project, items[i].sequence) {
      OverlayItem(start, project, items, i);
      if j :| 0 <= j < |items| && b == ScopedKey(project, items[j].sequence) {
        OverlayItem(start, project, items, j);
        assert if i < j then HeldByEarlier(items, j) else HeldByEarlier(items, i);
      } else {
        OutsiderHolds(start, index, project, items, i, b);
      }
    } else if j :| 0 <= j < |items| && b == ScopedKey(project, items[j].sequence) {
      OverlayItem(start, project, items, j);
      OutsiderHolds(start, index, project, items, j, a);
    } else {
      OverlayElsewhere(start, project, items, a);
      OverlayElsewhere(start, project, items, b);
      SameKeys(start[a], start[b]);
      InverseIsInjective(start, index, a, b);
    }
  }

  lemma SameKeys(a: Instance, b: Instance)
    requires a.project == b.project && SameExternal(a, b)
    ensures KeyOf(a) == KeyOf(b)
  {
  }

  lemma {:induction false} OutsiderHolds(start: Instances, index: ExternalIndex, project: ProjectId, items: seq<Instance>, i: nat, key: string)
    requires Inverse(start, index) && i < |items| && forall j :: 0 <= j < |items| ==> key != ScopedKey(project, items[j].sequence)
    requires var table := Overlay(start, project, items); key in table && table[key].project == project && SameExternal(table[key], items[i])
    ensures StillHeld(start, project, items, i)
  {
    hide ScopedKey, Overlay, Inverse;
    OverlayElsewhere(start, project, items, key);
    StoredKey(start, index, key);
    assert HeldBy(start, project, start[key].sequence, items[i]);
  }

  /** An item taken at its turn: its identifier is shared in the final table, or a later item's sequence held it. */
  lemma {:induction false} TakenIsClash(start: Instances, index: ExternalIndex, project: ProjectId, items: seq<Instance>, i: nat)
    requires Inverse(start, index) && SoundItems(items) && i < |items|
    requires HeldByEarlier(items, i) || StillHeld(start, project, items, i)
    ensures !NoneShared(Overlay(start, project, items), project) || HeldByLater(start, project, items)
  {
    hide ScopedKey, Overlay, Inverse;
    var own := ScopedKey(project, items[i].sequence);
    OverlayItem(start, project, items, i);
    if HeldByEarlier(items, i) {
      var k :| 0 <= k < i && SameExternal(items[k], items[i]);
      OverlayItem(start, project, items, k);
      SameProject(project, items[k].sequence, items[i].sequence);
    } else {
      var holder :| HeldBy(start, project, holder, items[i]) && holder != items[i].sequence && forall k :: 0 <= k < i ==> items[k].sequence != holder;
      if j :| 0 <= j < |items| && items[j].sequence == holder {
        assert i < j && HeldBy(start, project, items[j].sequence, items[i]);
      } else {
        var key :| key in start && start[key].project == project && start[key].sequence == holder && SameExternal(start[key], items[i]);
        StoredKey(start, index, key);
        forall k | 0 <= k < |items| ensures key != ScopedKey(project, items[k].sequence) { SameProject(project, holder, items[k].sequence); }
        OverlayElsewhere(start, project, items, key);
      }
    }
  }

  /** An incremental batch goes through exactly when its items are sound, no two
      of the project's entries share an external identifier in the final table,
      and no item wants an identifier that a later item's sequence holds now. */
  lemma {:induction false} AcceptedExactly(start: Instances, index: ExternalIndex, project: ProjectId, items: seq<Instance>)
    requires Inverse(start, index)
    ensures Acceptable(start, project, items) <==>
            SoundItems(items) && NoneShared(Overlay(start, project, items), project) && !HeldByLater(start, project, items)
  {
    hide ScopedKey, Overlay, Inverse, Taken, SoundItems, HeldByEarlier, StillHeld, NoneShared, HeldByLater;
    if SoundItems(items) {
      forall i | 0 <= i < |items|
        ensures Taken(Overlay(start, project, items[..i]), project, items[i]) <==> HeldByEarlier(items, i) || StillHeld(start, project, items, i)
      {
        TakenExactly(start, index, project, items, i);
      }
      if i :| 0 <= i < |items| && (HeldByEarlier(items, i) || StillHeld(start, project, items, i)) {
        TakenIsClash(start, index, project, items, i);
      } else {
        if !NoneShared(Overlay(start, project, items), project) { SharedIsTaken(start, index, project, items); }
        if HeldByLater(start, project, items) { LaterIsTaken(start, index, project, items); }
      }
    }
  }

  lemma SharedIsTaken(start: Instances, index: ExternalIndex, project: ProjectId, items: seq<Instance>)
    requires Inverse(start, index) && SoundItems(items) && !NoneShared(Overlay(start, project, items), project)
    ensures exists i :: 0 <= i < |items| && (HeldByEarlier(items, i) || StillHeld(start, project, items, i))
  {
    hide ScopedKey, Overlay, Inverse, SoundItems, HeldByEarlier, StillHeld, SameExternal;
    var table := Overlay(start, project, items);
    var a, b :| a in table && b in table && table[a].project == project && table[b].project == project && SameExternal(table[a], table[b]) && a != b;
    ClashIsTaken(start, index, project, items, a, b);
  }

  lemma {:induction false} LaterIsTaken(start: Instances, index: ExternalIndex, project: ProjectId, items: seq<Instance>)
    requires Inverse(start, index) && SoundItems(items) && HeldByLater(start, project, items)
    ensures exists i :: 0 <= i < |items| && (HeldByEarlier(items, i) || StillHeld(start, project, items, i))
  {
    hide Inverse, HeldByEarlier, HeldBy;
    var i, j :| 0 <= i < j < |items| && HeldBy(start, project, items[j].sequence, items[i]);
    assert StillHeld(start, project, items, i) by {
      var holder := items[j].sequence;
      assert HeldBy(start, project, holder, items[i]) && holder != items[i].sequence;
      assert forall k :: 0 <= k < i ==> items[k].sequence != holder;
    }
  }

  function Entry(sequence: SequenceId, ext: string): Instance {
    Instance("p", sequence, "d", ext, Continuous)
  }

  ghost function TwoInstances(): Instances {
    map[ScopedKey("p", "a") := Entry("a", "1"), ScopedKey("p", "b") := Entry("b", "2")]
  }

  /** A registry can hold the two instances. */
  lemma TwoInstancesAreHeld()
    ensures exists index :: Inverse(TwoInstances(), index)
  {
    var a, b := Entry("a", "1"), Entry("b", "2");
    SameProject("p", "a", "b");
    if KeyOf(a) == KeyOf(b) { ExternalKeyInjective("p", "d", "1", "p", "d", "2"); }
    hide ScopedKey, ExternalKey;
    var index := map[KeyOf(a) := "a", KeyOf(b) := "b"];
    assert TwoInstances()[ScopedKey("p", "a")] == a && TwoInstances()[ScopedKey("p", "b")] == b;
    forall key | key in TwoInstances() ensures Stored(TwoInstances(), key) && Listed(TwoInstances(), index, key) {
    }
    forall external | external in index ensures Backed(TwoInstances(), index, external) {
      assert ScopedKey("p", "a") in TwoInstances() && ScopedKey("p", "b") in TwoInstances();
    }
    assert Inverse(TwoInstances(), index);
  }

  /** Sequences a and b exchange their identifiers in one batch: the registry can
      hold the old table, the final table is as good, and the batch is rejected. */
  lemma SwapIsRejected()
    ensures var start := TwoInstances();
            var items := [Entry("a", "2"), Entry("b", "1")];
            && (exists index :: Inverse(start, index))
            && SoundItems(items) && NoneShared(Overlay(start, "p", items), "p")
            && HeldByLater(start, "p", items) && !Acceptable(start, "p", items)
  {
    TwoInstancesAreHeld();
    hide ScopedKey, Overlay, Inverse;
    var a, b := ScopedKey("p", "a"), ScopedKey("p", "b");
    SameProject("p", "a", "b");
    var start := map[a := Entry("a", "1"), b := Entry("b", "2")];
    var items := [Entry("a", "2"), Entry("b", "1")];
    assert items[0] == Entry("a", "2") && items[1] == Entry("b", "1");
    assert SoundItems(items);
    OverlayItem(start, "p", items, 0);
    OverlayItem(start, "p", items, 1);
    var final := Overlay(start, "p", items);
    forall key | key in final ensures key == a || key == b {
      if key != a && key != b { OverlayElsewhere(start, "p", items, key); }
    }
    assert start[b].sequence == "b" && SameExternal(start[b], items[0]);
    assert HeldBy(start, "p", items[1].sequence, items[0]);
    assert items[..0] == [];
    Unwritten(start, "p");
    assert Taken(Overlay(start, "p", items[..0]), "p", items[0]);
  }

  lemma Unwritten(start: Instances, project: ProjectId)
    ensures Overlay(start, project, []) == start
  {
  }
}
