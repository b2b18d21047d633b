/** Importing the same class again over its own bundle changes ids, and nothing an instance can see. */
module Idempotence {
  import opened Ucl
  import opened Repository
  import opened Integrity
  import opened Rebuild
  import opened Sections
  import opened Reimport
  import opened Composed

  // ------------------------------------------------------------------------ the composed view of the tables

  ghost predicate InstanceOf(db: Db, instance: nat, service: nat) {
    exists i :: 0 <= i < |db.instances| && db.instances[i].id == instance && db.instances[i].service == service
  }

  /** A property counts for an instance at level 1 if it is its own, at level 0 if it is its service's. */
  ghost predicate Counts(db: Db, parent: Parent, instance: nat, level: int) {
    || (level == 1 && parent == OfInstance(instance))
    || (level == 0 && parent.OfService? && InstanceOf(db, instance, parent.id))
  }

  /** AllValues: properties joined with their values and bundles. */
  ghost function AllValues(db: Db, instance: nat): set<Row> {
    set p, b, level | p in db.props && b in db.bundles && level in {0, 1}
      && p.value in db.values && db.values[p.value].bundle == b.id && Counts(db, p.parent, instance, level)
      :: Row(level, p.id, p.value, b.layer, db.values[p.value].key)
  }

  /** What the instance sees: the keys and contents of the selected properties. */
  ghost function ComposedPairs(db: Db, instance: nat): set<(string, Content)> {
    set r | r in Select(AllValues(db, instance)) && r.value in db.values :: (r.key, db.values[r.value].content)
  }

  // ------------------------------------------------------------------------ in terms of what bundles store

  /** All that the composed view depends on. */
  datatype Fact = Fact(level: int, layer: int, key: string, content: Content)

  ghost predicate StoredIn(db: Db, instance: nat, f: Fact, b: BundleRow, item: Item) {
    && b in db.bundles && b.layer == f.layer && item in View(db, b.id)
    && Counts(db, item.parent, instance, f.level) && f.level in {0, 1} && item.key == f.key && item.content == f.content
  }

  ghost predicate Known(db: Db, instance: nat, f: Fact) {
    exists b, item :: StoredIn(db, instance, f, b, item)
  }

  /** A fact is behind the row of AllValues. */
  ghost predicate Behind(db: Db, r: Row, f: Fact) {
    r.level == f.level && r.layer == f.layer && r.key == f.key && r.value in db.values && db.values[r.value].content == f.content
  }

  lemma {:induction false} ViewMember(values: map<nat, Value>, rows: seq<PropRow>, bundle: nat, item: Item)
    ensures item in ViewRows(values, rows, bundle) <==>
      exists p :: p in rows && p.value in values && values[p.value] == Value(bundle, item.key, item.content) && p.parent == item.parent
  {
    if rows != [] {
      ViewMember(values, rows[1..], bundle, item);
      if item in ViewRows(values, rows[1..], bundle) {
        var p :| p in rows[1..] && p.value in values && values[p.value] == Value(bundle, item.key, item.content) && p.parent == item.parent;
        assert p in rows;
      } else if item in ViewRow(values, rows[0], bundle) {
        assert rows[0] in rows;
      }
      if p :| p in rows && p.value in values && values[p.value] == Value(bundle, item.key, item.content) && p.parent == item.parent {
        assert p == rows[0] || p in rows[1..];
      }
    }
  }

  lemma RowHasFact(db: Db, instance: nat, r: Row) returns (f: Fact)
    requires r in AllValues(db, instance)
    ensures Known(db, instance, f) && Behind(db, r, f)
  {
    var p, b, level :| p in db.props && b in db.bundles && level in {0, 1}
      && p.value in db.values && db.values[p.value].bundle == b.id && Counts(db, p.parent, instance, level)
      && r == Row(level, p.id, p.value, b.layer, db.values[p.value].key);
    var v := db.values[p.value];
    f := Fact(level, b.layer, v.key, v.content);
    var item := Item(p.parent, v.key, v.content);
    ViewMember(db.values, db.props, b.id, item);
    assert item in View(db, b.id);
    assert StoredIn(db, instance, f, b, item);
  }

  lemma FactHasRow(db: Db, instance: nat, f: Fact) returns (r: Row)
    requires Known(db, instance, f)
    ensures r in AllValues(db, instance) && Behind(db, r, f)
  {
    var b, item :| StoredIn(db, instance, f, b, item);
    ViewMember(db.values, db.props, b.id, item);
    var p :| p in db.props && p.value in db.values && db.values[p.value] == Value(b.id, item.key, item.content) && p.parent == item.parent;
    r := Row(f.level, p.id, p.value, b.layer, item.key);
  }

  predicate Outranks(a: Fact, b: Fact) {
    a.key == b.key && (a.level > b.level || (a.level == b.level && a.layer > b.layer))
  }

  ghost predicate Wins(db: Db, instance: nat, f: Fact) {
    Known(db, instance, f) && forall g :: Known(db, instance, g) ==> !Outranks(g, f)
  }

  /** The composed view is the set of facts that no known fact outranks. */
  lemma ComposedIsWinners(db: Db, instance: nat, key: string, content: Content)
    ensures (key, content) in ComposedPairs(db, instance) <==>
      exists f :: Wins(db, instance, f) && f.key == key && f.content == content
  {
    var rows := AllValues(db, instance);
    if (key, content) in ComposedPairs(db, instance) {
      var r :| r in Select(rows) && r.value in db.values && (key, content) == (r.key, db.values[r.value].content);
      SelectIsOverride(rows, r);
      var f := RowHasFact(db, instance, r);
      forall g | Known(db, instance, g) ensures !Outranks(g, f) {
        var q := FactHasRow(db, instance, g);
        assert !Overrides(q, r);
      }
    }
    if f :| Wins(db, instance, f) && f.key == key && f.content == content {
      var r := FactHasRow(db, instance, f);
      forall q | q in rows ensures !Overrides(q, r) {
        var g := RowHasFact(db, instance, q);
        assert !Outranks(g, f);
      }
      SelectIsOverride(rows, r);
    }
  }

  lemma SameFactsSameView(a: Db, b: Db, instance: nat)
    requires forall f :: Known(a, instance, f) <==> Known(b, instance, f)
    ensures ComposedPairs(a, instance) == ComposedPairs(b, instance)
  {
    forall key, content ensures (key, content) in ComposedPairs(a, instance) <==> (key, content) in ComposedPairs(b, instance) {
      ComposedIsWinners(a, instance, key, content);
      ComposedIsWinners(b, instance, key, content);
      assert forall f :: Wins(a, instance, f) <==> Wins(b, instance, f);
    }
    assert forall kc :: kc in ComposedPairs(a, instance) <==> kc in ComposedPairs(b, instance) by {
      forall kc ensures kc in ComposedPairs(a, instance) <==> kc in ComposedPairs(b, instance) {
        assert kc == (kc.0, kc.1);
      }
    }
  }

  // ------------------------------------------------------------------------ in terms of the tables alone

  /** A row under this parent has this key and content, from a bundle of this layer. */
  ghost predicate Sets(db: Db, parent: Parent, key: string, content: Content, layer: int) {
    exists p, b :: p in db.props && b in db.bundles && p.parent == parent && b.layer == layer
      && p.value in db.values && db.values[p.value] == Value(b.id, key, content)
  }

  ghost predicate SetsKey(db: Db, parent: Parent, key: string) {
    exists content, layer :: Sets(db, parent, key, content, layer)
  }

  /** It does so in the highest layer in which any row under the parent has the key. */
  ghost predicate SetsHighest(db: Db, parent: Parent, key: string, content: Content) {
    exists layer :: Sets(db, parent, key, content, layer) && forall c, l :: Sets(db, parent, key, c, l) ==> l <= layer
  }

  lemma StoredIffSet(db: Db, instance: nat, f: Fact, parent: Parent)
    ensures Sets(db, parent, f.key, f.content, f.layer) <==>
      exists b :: b in db.bundles && b.layer == f.layer && Item(parent, f.key, f.content) in View(db, b.id)
  {
    var item := Item(parent, f.key, f.content);
    forall b | b in db.bundles
      ensures item in View(db, b.id) <==>
        exists p :: p in db.props && p.value in db.values && db.values[p.value] == Value(b.id, item.key, item.content) && p.parent == item.parent
    {
      ViewMember(db.values, db.props, b.id, item);
    }
    hide View;
  }

  lemma KnownIffSet(db: Db, instance: nat, service: nat, f: Fact)
    requires InstancesOk(db) && InstanceOf(db, instance, service)
    ensures Known(db, instance, f) <==>
      || (f.level == 1 && Sets(db, OfInstance(instance), f.key, f.content, f.layer))
      || (f.level == 0 && Sets(db, OfService(service), f.key, f.content, f.layer))
  {
    StoredIffSet(db, instance, f, OfInstance(instance));
    StoredIffSet(db, instance, f, OfService(service));
    var own, services := Item(OfInstance(instance), f.key, f.content), Item(OfService(service), f.key, f.content);
    assert forall other :: InstanceOf(db, instance, other) <==> other == service;
    hide View, Sets, InstanceOf;
    if Known(db, instance, f) {
      var b, item :| StoredIn(db, instance, f, b, item);
      assert item == own || item == services;
    }
    if f.level == 1 && Sets(db, OfInstance(instance), f.key, f.content, f.layer) {
      var b :| b in db.bundles && b.layer == f.layer && own in View(db, b.id);
      assert StoredIn(db, instance, f, b, own);
    }
    if f.level == 0 && Sets(db, OfService(service), f.key, f.content, f.layer) {
      var b :| b in db.bundles && b.layer == f.layer && services in View(db, b.id);
      assert StoredIn(db, instance, f, b, services);
    }
  }

  lemma OwnFactWinsIff(db: Db, instance: nat, service: nat, f: Fact)
    requires InstancesOk(db) && InstanceOf(db, instance, service) && f.level == 1
    ensures Wins(db, instance, f) <==>
      && Sets(db, OfInstance(instance), f.key, f.content, f.layer)
      && forall c, l :: Sets(db, OfInstance(instance), f.key, c, l) ==> l <= f.layer
  {
    forall g ensures Known(db, instance, g) <==>
      || (g.level == 1 && Sets(db, OfInstance(instance), g.key, g.content, g.layer))
      || (g.level == 0 && Sets(db, OfService(service), g.key, g.content, g.layer))
    {
      KnownIffSet(db, instance, service, g);
    }
    hide Known, Sets, InstancesOk, InstanceOf;
    forall c, l | Sets(db, OfInstance(instance), f.key, c, l) ensures Known(db, instance, Fact(1, l, f.key, c)) {}
  }

  lemma ServiceFactWinsIff(db: Db, instance: nat, service: nat, f: Fact)
    requires InstancesOk(db) && InstanceOf(db, instance, service) && f.level == 0
    ensures Wins(db, instance, f) <==>
      && !SetsKey(db, OfInstance(instance), f.key)
      && Sets(db, OfService(service), f.key, f.content, f.layer)
      && forall c, l :: Sets(db, OfService(service), f.key, c, l) ==> l <= f.layer
  {
    forall g ensures Known(db, instance, g) <==>
      || (g.level == 1 && Sets(db, OfInstance(instance), g.key, g.content, g.layer))
      || (g.level == 0 && Sets(db, OfService(service), g.key, g.content, g.layer))
    {
      KnownIffSet(db, instance, service, g);
    }
    hide Known, Sets, InstancesOk, InstanceOf;
    forall c, l | Sets(db, OfInstance(instance), f.key, c, l) ensures Known(db, instance, Fact(1, l, f.key, c)) {}
    forall c, l | Sets(db, OfService(service), f.key, c, l) ensures Known(db, instance, Fact(0, l, f.key, c)) {}
  }

  /** An instance sees a key and content exactly when one of its own rows sets them in the highest layer of its
      own rows with that key; or, if none of its own rows has the key, the same of its service's rows. Rows of
      other instances and services play no part. */
  lemma ComposedFromTables(db: Db, instance: nat, service: nat, key: string, content: Content)
    requires Valid(db) && InstanceOf(db, instance, service)
    ensures (key, content) in ComposedPairs(db, instance) <==>
      SetsHighest(db, if SetsKey(db, OfInstance(instance), key) then OfInstance(instance) else OfService(service), key, content)
  {
    ComposedIsWinners(db, instance, key, content);
    hide ComposedPairs, Sets;
    if f :| Wins(db, instance, f) && f.key == key && f.content == content {
      WinnerHasLevel(db, instance, f);
      if f.level == 1 { OwnFactWinsIff(db, instance, service, f); } else { ServiceFactWinsIff(db, instance, service, f); }
    }
    var own := SetsKey(db, OfInstance(instance), key);
    var parent := if own then OfInstance(instance) else OfService(service);
    if SetsHighest(db, parent, key, content) {
      var layer :| Sets(db, parent, key, content, layer) && forall c, l :: Sets(db, parent, key, c, l) ==> l <= layer;
      var f := Fact(if own then 1 else 0, layer, key, content);
      if own { OwnFactWinsIff(db, instance, service, f); } else { ServiceFactWinsIff(db, instance, service, f); }
      assert Wins(db, instance, f);
    }
  }

  lemma WinnerHasLevel(db: Db, instance: nat, f: Fact)
    requires Wins(db, instance, f)
    ensures f.level == 0 || f.level == 1
  {
  }

  lemma ItemHasParent(db: Db, bundle: nat, item: Item)
    requires Valid(db) && item in View(db, bundle)
    ensures HasParent(db, item.parent)
  {
    ViewMember(db.values, db.props, bundle, item);
    var p :| p in db.props && p.parent == item.parent;
    var i :| 0 <= i < |db.props| && db.props[i] == p;
    assert HasParent(db, db.props[i].parent);
  }

  /** A number that no instance has shows nothing. */
  lemma UnknownInstanceSeesNothing(db: Db, instance: nat, key: string, content: Content)
    requires Valid(db) && !HasInstance(db, instance)
    ensures (key, content) !in ComposedPairs(db, instance)
  {
    ComposedIsWinners(db, instance, key, content);
    hide ComposedPairs;
    if f :| Wins(db, instance, f) && f.key == key && f.content == content {
      var b, item :| StoredIn(db, instance, f, b, item);
      ItemHasParent(db, b.id, item);
      assert false;
    }
  }

  // ------------------------------------------------------------------------ a bundle that holds a class

  /** The bundle's rows are those an import of the class would store now. */
  ghost predicate HoldsClass(db: Db, bundle: nat, c: Class) {
    var service := FindService(db.services, c.name);
    && service != 0
    && ClassResolved(db.groups, db.instances, service, c)
    && View(db, bundle) == FlatClass(db.groups, db.instances, service, c)
  }

  lemma {:induction false} FlatPropsStable(before: seq<GroupRow>, after: seq<GroupRow>, at: Place, ps: seq<Prop>)
    requires before <= after && Resolved(before, at, ps)
    ensures Resolved(after, at, ps) && FlatProps(after, at, ps) == FlatProps(before, at, ps)
    decreases ps
  {
    if ps != [] {
      ResolvedParts(before, at, ps);
      FlatPropsStable(before, after, at, ps[1..]);
      if ps[0].Page? {
        GroupKept(before, after, PageParent(at), ps[0].key);
        FlatPropsStable(before, after, Inside(before, at, ps[0].key), ps[0].children);
      }
      ResolvedWhole(after, at, ps);
      hide Resolved;
    }
  }

  lemma {:induction false} FlatInstancesStable(a: Db, b: Db, service: nat, insts: seq<Instance>)
    requires a.groups <= b.groups && a.instances <= b.instances && InstancesResolved(a.groups, a.instances, service, insts)
    ensures InstancesResolved(b.groups, b.instances, service, insts)
    ensures FlatInstances(b.groups, b.instances, service, insts) == FlatInstances(a.groups, a.instances, service, insts)
    decreases insts
  {
    if insts != [] {
      assert forall k :: 0 <= k < |insts[1..]| ==> insts[1..][k] == insts[k + 1];
      FlatInstancesStable(a, b, service, insts[1..]);
      InstanceKept(a.instances, b.instances, service, insts[0].name);
      FlatPropsStable(a.groups, b.groups, InstancePlace(a.instances, service, insts[0].name), insts[0].props);
      assert forall k :: 0 < k < |insts| ==> insts[k] == insts[1..][k - 1];
      hide Resolved, FlatProps;
    }
  }

  /** A class that is in the tables is flattened the same way once they have grown. */
  lemma FlatClassStable(a: Db, b: Db, service: nat, c: Class)
    requires a.groups <= b.groups && a.instances <= b.instances && ClassResolved(a.groups, a.instances, service, c)
    ensures ClassResolved(b.groups, b.instances, service, c)
    ensures FlatClass(b.groups, b.instances, service, c) == FlatClass(a.groups, a.instances, service, c)
  {
    FlatPropsStable(a.groups, b.groups, Place(service, 0, 0), c.props);
    FlatInstancesStable(a, b, service, c.instances);
  }

  /** After an import the new bundle holds the class. */
  lemma ImportHolds(db: Db, layer: int, file: string, c: Class)
    requires Valid(db) && SnapshotsOk(db)
    ensures HoldsClass(Import(db, layer, file, c), db.nextBundle, c)
  {
    ImportView(db, layer, file, c, db.nextBundle);
    ImportedServiceExists(db, layer, file, c);
  }

  lemma ImportedServiceExists(db: Db, layer: int, file: string, c: Class)
    requires Valid(db) && SnapshotsOk(db)
    ensures FindService(Import(db, layer, file, c).services, c.name) != 0
  {
    ImportView(db, layer, file, c, 0);
    hide Valid, SnapshotsOk, Grown, DropOld;
    var db1 := AddBundle(DropOld(db, file), file, layer);
    DropOldKeeps(db, file);
    AddBundleKeeps(DropOld(db, file), file, layer);
    EnsureServiceKeeps(db1, c.name);
    var db2 := EnsureService(db1, c.name);
    var service := FindService(db2.services, c.name);
    var db3 := ImportProps(db2, db.nextBundle, Place(service, 0, 0), c.props);
    DropOldCounters(db, file);
    RootPlace(db1, db2, Place(service, 0, 0), db.nextBundle);
    ImportPropsKeeps(db2, db.nextBundle, Place(service, 0, 0), c.props);
    PlaceStaysOk(db2, db3, Place(service, 0, 0), db.nextBundle);
    PlaceHasService(db3, Place(service, 0, 0));
    ImportInstancesKeeps(db3, db.nextBundle, service, c.instances);
    GrownIsTransitive(db2, db3, Import(db, layer, file, c));
    ServiceKept(db2, Import(db, layer, file, c), c.name);
  }

  /** A bundle keeps holding its class through the import of other files. */
  lemma OtherImportKeepsHolding(db: Db, layer: int, file: string, other: Class, bundle: nat, c: Class)
    requires Valid(db) && SnapshotsOk(db) && HoldsClass(db, bundle, c) && bundle != db.nextBundle
    requires var old_ := FindBundle(db.bundles, file); old_.Some? ==> old_.value.id != bundle
    ensures HoldsClass(Import(db, layer, file, other), bundle, c)
  {
    var db' := Import(db, layer, file, other);
    ImportView(db, layer, file, other, bundle);
    DropOldView(db, file, bundle);
    GrownOverDrop(db, layer, file, db');
    var service := FindService(db.services, c.name);
    FlatClassStable(db, db', service, c);
    hide Valid, SnapshotsOk, Import, ClassResolved, View, FlatClass, DropOld;
  }

  lemma GrownOverDrop(db: Db, layer: int, file: string, db': Db)
    requires Grown(AddBundle(DropOld(db, file), file, layer), db')
    ensures db.groups <= db'.groups && db.instances <= db'.instances
    ensures forall name :: FindService(db.services, name) != 0 ==> FindService(db'.services, name) == FindService(db.services, name)
  {
    forall name | FindService(db.services, name) != 0
      ensures FindService(db'.services, name) == FindService(db.services, name)
    {
      ServiceKept(AddBundle(DropOld(db, file), file, layer), db', name);
    }
  }

  // ------------------------------------------------------------------------ bundle rows

  lemma {:induction false} ImportPropBundles(db: Db, bundle: nat, at: Place, p: Prop)
    ensures ImportProp(db, bundle, at, p).bundles == db.bundles
    decreases p
  {
    if p.Page? {
      var db1 := EnsureGroup(db, PageParent(at), p.key);
      ImportPropsBundles(db1, bundle, at.(page := FindGroup(db1.groups, PageParent(at), p.key)), p.children);
    }
  }

  lemma {:induction false} ImportPropsBundles(db: Db, bundle: nat, at: Place, ps: seq<Prop>)
    ensures ImportProps(db, bundle, at, ps).bundles == db.bundles
    decreases ps
  {
    if ps != [] {
      ImportPropBundles(db, bundle, at, ps[0]);
      ImportPropsBundles(ImportProp(db, bundle, at, ps[0]), bundle, at, ps[1..]);
    }
  }

  lemma {:induction false} ImportInstancesBundles(db: Db, bundle: nat, service: nat, insts: seq<Instance>)
    ensures ImportInstances(db, bundle, service, insts).bundles == db.bundles
    decreases insts
  {
    if insts != [] {
      var db1 := EnsureInstance(db, service, insts[0].name);
      var at := Place(service, FindInstance(db1.instances, service, insts[0].name), 0);
      ImportPropsBundles(db1, bundle, at, insts[0].props);
      ImportInstancesBundles(ImportProps(db1, bundle, at, insts[0].props), bundle, service, insts[1..]);
    }
  }

  /** An import adds one bundle row. */
  lemma ImportBundles(db: Db, layer: int, file: string, c: Class)
    ensures Import(db, layer, file, c).bundles == DropOld(db, file).bundles + [BundleRow(db.nextBundle, 0, file, layer)]
  {
    DropOldCounters(db, file);
    var db2 := EnsureService(AddBundle(DropOld(db, file), file, layer), c.name);
    var service := FindService(db2.services, c.name);
    ImportPropsBundles(db2, db.nextBundle, Place(service, 0, 0), c.props);
    ImportInstancesBundles(ImportProps(db2, db.nextBundle, Place(service, 0, 0), c.props), db.nextBundle, service, c.instances);
  }

  // ------------------------------------------------------------------------ importing again

  lemma CountsStable(a: Db, b: Db, parent: Parent, instance: nat, level: int)
    requires a.instances <= b.instances && HasInstance(a, instance) && InstanceIdsUnique(b.instances)
    ensures Counts(b, parent, instance, level) <==> Counts(a, parent, instance, level)
  {
    var i :| 0 <= i < |a.instances| && a.instances[i].id == instance;
    assert b.instances[i] == a.instances[i];
    if parent.OfService? {
      if InstanceOf(b, instance, parent.id) {
        var j :| 0 <= j < |b.instances| && b.instances[j].id == instance && b.instances[j].service == parent.id;
        assert j == i;
      }
      if InstanceOf(a, instance, parent.id) {
        var j :| 0 <= j < |a.instances| && a.instances[j].id == instance && a.instances[j].service == parent.id;
        assert b.instances[j] == a.instances[j];
      }
    }
  }

  /** Re-import over the file's own bundle: what changed, bundle by bundle. */
  ghost predicate Replaced(a: Db, b: Db, row: BundleRow, fresh_: BundleRow) {
    && row in a.bundles && fresh_.layer == row.layer && fresh_ in b.bundles
    && (forall r :: r in b.bundles ==> r == fresh_ || (r in a.bundles && r.id != row.id))
    && (forall r :: r in a.bundles && r.id != row.id ==> r in b.bundles && r.id != fresh_.id)
    && (forall r :: r in a.bundles && r.id == row.id ==> r == row)
    && View(b, fresh_.id) == View(a, row.id)
    && (forall id :: id != fresh_.id && id != row.id ==> View(b, id) == View(a, id))
  }

  lemma ReplacedKeepsFacts(a: Db, b: Db, row: BundleRow, fresh_: BundleRow, instance: nat, f: Fact)
    requires Replaced(a, b, row, fresh_) && row.id != fresh_.id
    requires a.instances <= b.instances && HasInstance(a, instance) && InstanceIdsUnique(b.instances)
    requires forall r :: r in b.bundles && r.id == fresh_.id ==> r == fresh_
    ensures Known(a, instance, f) <==> Known(b, instance, f)
  {
    if Known(a, instance, f) {
      var r, item :| StoredIn(a, instance, f, r, item);
      CountsStable(a, b, item.parent, instance, f.level);
      assert StoredIn(b, instance, f, if r.id == row.id then fresh_ else r, item);
    }
    if Known(b, instance, f) {
      var r, item :| StoredIn(b, instance, f, r, item);
      CountsStable(a, b, item.parent, instance, f.level);
      assert StoredIn(a, instance, f, if r == fresh_ then row else r, item);
    }
  }

  lemma ReimportView(db: Db, row: BundleRow, file: string, c: Class, id: nat)
    requires Valid(db) && SnapshotsOk(db) && FindBundle(db.bundles, file) == Some(row) && row.refs == 0 && HoldsClass(db, row.id, c)
    ensures var b := Import(db, row.layer, file, c);
      if id == db.nextBundle then View(b, id) == View(db, row.id) else id != row.id ==> View(b, id) == View(db, id)
  {
    var b := Import(db, row.layer, file, c);
    ImportView(db, row.layer, file, c, id);
    DropOldView(db, file, id);
    GrownOverDrop(db, row.layer, file, b);
    FlatClassStable(db, b, FindService(db.services, c.name), c);
    hide Import, View, Valid, SnapshotsOk, ClassResolved, FlatClass, DropOld;
  }

  lemma ReimportBundles(db: Db, row: BundleRow, file: string, c: Class)
    requires BundlesOk(db) && FindBundle(db.bundles, file) == Some(row) && row.refs == 0
    ensures var b := Import(db, row.layer, file, c); var new_ := BundleRow(db.nextBundle, 0, file, row.layer);
      && row in db.bundles && row.id != new_.id && new_ in b.bundles
      && (forall r :: r in b.bundles ==> r == new_ || (r in db.bundles && r.id != row.id))
      && (forall r :: r in db.bundles && r.id != row.id ==> r in b.bundles)
      && (forall r :: r in db.bundles ==> r.id != new_.id)
      && (forall r :: r in db.bundles && r.id == row.id ==> r == row)
  {
    FoundBundle(db.bundles, file);
    OtherBundleRows(db.bundles, row.id);
    ImportBundles(db, row.layer, file, c);
    assert DropOld(db, file).bundles == OtherBundles(db.bundles, row.id);
    hide Import, OtherBundles, DropOld;
  }

  lemma ReimportReplaces(db: Db, row: BundleRow, file: string, c: Class)
    requires Valid(db) && SnapshotsOk(db) && FindBundle(db.bundles, file) == Some(row) && row.refs == 0 && HoldsClass(db, row.id, c)
    ensures Replaced(db, Import(db, row.layer, file, c), row, BundleRow(db.nextBundle, 0, file, row.layer))
    ensures row.id != db.nextBundle
    ensures forall r :: r in Import(db, row.layer, file, c).bundles && r.id == db.nextBundle ==> r == BundleRow(db.nextBundle, 0, file, row.layer)
  {
    var b := Import(db, row.layer, file, c);
    ReimportBundles(db, row, file, c);
    hide Import, View, HoldsClass, Valid, SnapshotsOk;
    forall id ensures if id == db.nextBundle then View(b, id) == View(db, row.id) else id != row.id ==> View(b, id) == View(db, id) {
      ReimportView(db, row, file, c, id);
    }
  }

  /** Importing a class again over its own, unreferenced bundle at the same layer leaves what every
      instance sees unchanged, and every other bundle's rows as they were. The new bundle holds the
      class, under a new id. */
  lemma ReimportChangesNothing(db: Db, row: BundleRow, file: string, c: Class, instance: nat)
    requires Valid(db) && SnapshotsOk(db) && FindBundle(db.bundles, file) == Some(row) && row.refs == 0 && HoldsClass(db, row.id, c)
    requires HasInstance(db, instance)
    ensures var b := Import(db, row.layer, file, c);
      && ComposedPairs(b, instance) == ComposedPairs(db, instance)
      && (forall id :: id != row.id && id != db.nextBundle ==> View(b, id) == View(db, id))
      && HoldsClass(b, db.nextBundle, c) && row.id != db.nextBundle
  {
    var b := Import(db, row.layer, file, c);
    var new_ := BundleRow(db.nextBundle, 0, file, row.layer);
    ReimportReplaces(db, row, file, c);
    ImportHolds(db, row.layer, file, c);
    ImportKeepsIntegrity(db, row.layer, file, c);
    UniqueIds(b);
    ImportView(db, row.layer, file, c, 0);
    GrownOverDrop(db, row.layer, file, b);
    hide Import, HoldsClass, Valid, SnapshotsOk, Known, ComposedPairs, View;
    forall f ensures Known(db, instance, f) <==> Known(b, instance, f) {
      ReplacedKeepsFacts(db, b, row, new_, instance, f);
    }
    SameFactsSameView(db, b, instance);
  }
}
