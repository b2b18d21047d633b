/** Referential integrity of the repository, kept by every import and every deletion of a bundle. */
module Integrity {
  import opened Ucl
  import opened Repository

  // ------------------------------------------------------------------------ the tables, one by one

  ghost predicate HasService(db: Db, id: nat) { exists i :: 0 <= i < |db.services| && db.services[i].id == id }
  ghost predicate HasInstance(db: Db, id: nat) { exists i :: 0 <= i < |db.instances| && db.instances[i].id == id }
  ghost predicate HasBundle(db: Db, id: nat) { exists i :: 0 <= i < |db.bundles| && db.bundles[i].id == id }
  ghost predicate HasGroup(db: Db, id: nat) { exists i :: 0 <= i < |db.groups| && db.groups[i].id == id }

  ghost predicate HasParent(db: Db, p: Parent) {
    match p
    case OfService(id) => HasService(db, id)
    case OfInstance(id) => HasInstance(db, id)
    case OfGroup(id) => HasGroup(db, id)
  }

  ghost predicate ServicesOk(db: Db) {
    && (forall i :: 0 <= i < |db.services| ==> 1 <= db.services[i].id < db.nextService)
    && (forall i, j :: 0 <= i < j < |db.services| ==> db.services[i].id < db.services[j].id)
    && 1 <= db.nextService
  }

  ghost predicate InstancesOk(db: Db) {
    && (forall i :: 0 <= i < |db.instances| ==> 1 <= db.instances[i].id < db.nextInstance && HasService(db, db.instances[i].service))
    && (forall i, j :: 0 <= i < j < |db.instances| ==> db.instances[i].id < db.instances[j].id)
    && 1 <= db.nextInstance
  }

  ghost predicate BundlesOk(db: Db) {
    && (forall i :: 0 <= i < |db.bundles| ==> 1 <= db.bundles[i].id < db.nextBundle)
    && (forall i, j :: 0 <= i < j < |db.bundles| ==> db.bundles[i].id < db.bundles[j].id)
    && 1 <= db.nextBundle
  }

  ghost predicate GroupParentOk(db: Db, g: GroupRow) {
    match g.parent
    case InService(s) => HasService(db, s)
    case InGroup(p) => HasGroup(db, p) && p < g.id
  }

  /** A group's parent is an older group, so the parent relation has no cycle. */
  ghost predicate GroupsOk(db: Db) {
    && (forall i :: 0 <= i < |db.groups| ==> 1 <= db.groups[i].id < db.nextGroup && GroupParentOk(db, db.groups[i]))
    && (forall i, j :: 0 <= i < j < |db.groups| ==> db.groups[i].id < db.groups[j].id)
    && 1 <= db.nextGroup
  }

  ghost predicate ValuesOk(db: Db) {
    && (forall v :: v in db.values ==> 1 <= v < db.nextValue)
    && (forall v :: v in db.values ==> HasBundle(db, db.values[v].bundle))
    && (forall v :: v in db.values && db.values[v].content.PageValue? ==> HasGroup(db, db.values[v].content.group))
    && 1 <= db.nextValue
  }

  ghost predicate PropsOk(db: Db) {
    && (forall i :: 0 <= i < |db.props| ==> db.props[i].id < db.nextProp && db.props[i].value in db.values && HasParent(db, db.props[i].parent))
    && (forall i, j :: 0 <= i < j < |db.props| ==> db.props[i].id < db.props[j].id)
  }

  ghost predicate Valid(db: Db) {
    ServicesOk(db) && InstancesOk(db) && BundlesOk(db) && GroupsOk(db) && ValuesOk(db) && PropsOk(db)
  }

  /** The property a snapshot uses exists, and its bundle is counted as referenced. */
  ghost predicate PinHeld(db: Db, id: nat) {
    exists i, j :: 0 <= i < |db.props| && 0 <= j < |db.bundles| && db.props[i].id == id && db.props[i].value in db.values
      && db.bundles[j].id == db.values[db.props[i].value].bundle && db.bundles[j].refs > 0
  }

  ghost predicate SnapshotsOk(db: Db) {
    forall id :: id in db.pinned ==> PinHeld(db, id)
  }

  // ------------------------------------------------------------------------ searches

  lemma {:induction false} FoundGroup(groups: seq<GroupRow>, parent: GroupParent, name: string) returns (k: nat)
    requires forall i :: 0 <= i < |groups| ==> groups[i].id != 0
    ensures k <= |groups| && (k < |groups| <==> FindGroup(groups, parent, name) != 0)
    ensures k < |groups| ==> groups[k] == GroupRow(FindGroup(groups, parent, name), name, parent)
    ensures k == |groups| ==> forall i :: 0 <= i < |groups| ==> groups[i].parent != parent || groups[i].name != name
  {
    if groups == [] || (groups[0].parent == parent && groups[0].name == name) {
      k := 0;
    } else {
      var j := FoundGroup(groups[1..], parent, name);
      k := j + 1;
    }
  }

  lemma {:induction false} FoundService(services: seq<ServiceRow>, name: string) returns (k: nat)
    requires forall i :: 0 <= i < |services| ==> services[i].id != 0
    ensures k <= |services| && (k < |services| <==> FindService(services, name) != 0)
    ensures k < |services| ==> services[k] == ServiceRow(FindService(services, name), name)
    ensures k == |services| ==> forall i :: 0 <= i < |services| ==> services[i].name != name
  {
    if services == [] || services[0].name == name {
      k := 0;
    } else {
      var j := FoundService(services[1..], name);
      k := j + 1;
    }
  }

  lemma {:induction false} FoundInstance(instances: seq<InstanceRow>, service: nat, name: string) returns (k: nat)
    requires forall i :: 0 <= i < |instances| ==> instances[i].id != 0
    ensures k <= |instances| && (k < |instances| <==> FindInstance(instances, service, name) != 0)
    ensures k < |instances| ==> instances[k] == InstanceRow(FindInstance(instances, service, name), service, name)
    ensures k == |instances| ==> forall i :: 0 <= i < |instances| ==> instances[i].service != service || instances[i].name != name
  {
    if instances == [] || (instances[0].service == service && instances[0].name == name) {
      k := 0;
    } else {
      var j := FoundInstance(instances[1..], service, name);
      k := j + 1;
    }
  }

  /** A search that succeeded keeps its result when rows are appended. */
  lemma {:induction false} GroupStable(groups: seq<GroupRow>, more: seq<GroupRow>, parent: GroupParent, name: string)
    requires FindGroup(groups, parent, name) != 0
    ensures FindGroup(groups + more, parent, name) == FindGroup(groups, parent, name)
  {
    assert (groups + more)[1..] == groups[1..] + more;
    if !(groups[0].parent == parent && groups[0].name == name) { GroupStable(groups[1..], more, parent, name); }
  }

  lemma {:induction false} GroupAppended(groups: seq<GroupRow>, g: GroupRow)
    requires FindGroup(groups, g.parent, g.name) == 0 && forall i :: 0 <= i < |groups| ==> groups[i].id != 0
    ensures FindGroup(groups + [g], g.parent, g.name) == g.id
  {
    if groups == [] {
      assert groups + [g] == [g];
    } else {
      assert (groups + [g])[1..] == groups[1..] + [g];
      GroupAppended(groups[1..], g);
    }
  }

  lemma {:induction false} InstanceStable(instances: seq<InstanceRow>, more: seq<InstanceRow>, service: nat, name: string)
    requires FindInstance(instances, service, name) != 0
    ensures FindInstance(instances + more, service, name) == FindInstance(instances, service, name)
  {
    assert (instances + more)[1..] == instances[1..] + more;
    if !(instances[0].service == service && instances[0].name == name) { InstanceStable(instances[1..], more, service, name); }
  }

  lemma {:induction false} InstanceAppended(instances: seq<InstanceRow>, r: InstanceRow)
    requires FindInstance(instances, r.service, r.name) == 0 && forall i :: 0 <= i < |instances| ==> instances[i].id != 0
    ensures FindInstance(instances + [r], r.service, r.name) == r.id
  {
    if instances == [] {
      assert instances + [r] == [r];
    } else {
      assert (instances + [r])[1..] == instances[1..] + [r];
      InstanceAppended(instances[1..], r);
    }
  }

  lemma {:induction false} ServiceAppended(services: seq<ServiceRow>, r: ServiceRow)
    requires FindService(services, r.name) == 0 && forall i :: 0 <= i < |services| ==> services[i].id != 0
    ensures FindService(services + [r], r.name) == r.id
  {
    if services == [] {
      assert services + [r] == [r];
    } else {
      assert (services + [r])[1..] == services[1..] + [r];
      ServiceAppended(services[1..], r);
    }
  }

  // ------------------------------------------------------------------------ growth

  /** `after` is `before` with rows appended. */
  ghost predicate Grown(before: Db, after: Db) {
    && before.services <= after.services && before.instances <= after.instances
    && before.bundles <= after.bundles && before.groups <= after.groups
    && before.props <= after.props && before.pinned == after.pinned
    && (forall v :: v in before.values ==> v in after.values && after.values[v] == before.values[v])
    && before.nextBundle <= after.nextBundle
  }

  lemma GrownIsReflexive(db: Db)
    ensures Grown(db, db)
  {
  }

  lemma GrownIsTransitive(a: Db, b: Db, c: Db)
    requires Grown(a, b) && Grown(b, c)
    ensures Grown(a, c)
  {
  }

  lemma GrownKeepsRows(a: Db, b: Db)
    requires Grown(a, b)
    ensures forall id :: HasService(a, id) ==> HasService(b, id)
    ensures forall id :: HasInstance(a, id) ==> HasInstance(b, id)
    ensures forall id :: HasBundle(a, id) ==> HasBundle(b, id)
    ensures forall id :: HasGroup(a, id) ==> HasGroup(b, id)
  {
    forall id | HasService(a, id) ensures HasService(b, id) {
      var i :| 0 <= i < |a.services| && a.services[i].id == id;
      assert b.services[i].id == id;
    }
    forall id | HasInstance(a, id) ensures HasInstance(b, id) {
      var i :| 0 <= i < |a.instances| && a.instances[i].id == id;
      assert b.instances[i].id == id;
    }
    forall id | HasBundle(a, id) ensures HasBundle(b, id) {
      var i :| 0 <= i < |a.bundles| && a.bundles[i].id == id;
      assert b.bundles[i].id == id;
    }
    forall id | HasGroup(a, id) ensures HasGroup(b, id) {
      var i :| 0 <= i < |a.groups| && a.groups[i].id == id;
      assert b.groups[i].id == id;
    }
  }

  lemma GrownKeepsPins(a: Db, b: Db)
    requires Grown(a, b) && SnapshotsOk(a)
    ensures SnapshotsOk(b)
  {
    forall id | id in b.pinned ensures PinHeld(b, id) {
      var i, j :| 0 <= i < |a.props| && 0 <= j < |a.bundles| && a.props[i].id == id && a.props[i].value in a.values
        && a.bundles[j].id == a.values[a.props[i].value].bundle && a.bundles[j].refs > 0;
      assert b.props[i] == a.props[i] && b.bundles[j] == a.bundles[j];
    }
  }

  // ------------------------------------------------------------------------ every insertion keeps validity

  lemma GroupsCarry(a: Db, b: Db)
    requires Grown(a, b) && GroupsOk(a) && b.groups == a.groups && b.nextGroup == a.nextGroup
    ensures GroupsOk(b)
  {
    GrownKeepsRows(a, b);
    hide Grown;
  }

  lemma InstancesCarry(a: Db, b: Db)
    requires Grown(a, b) && InstancesOk(a) && b.instances == a.instances && b.nextInstance == a.nextInstance
    ensures InstancesOk(b)
  {
    GrownKeepsRows(a, b);
    hide Grown;
  }

  lemma ValuesCarry(a: Db, b: Db)
    requires Grown(a, b) && ValuesOk(a) && b.values == a.values && b.nextValue == a.nextValue
    ensures ValuesOk(b)
  {
    GrownKeepsRows(a, b);
    hide Grown;
  }

  lemma PropsCarry(a: Db, b: Db)
    requires Grown(a, b) && PropsOk(a) && b.props == a.props && b.nextProp == a.nextProp
    ensures PropsOk(b)
  {
    GrownKeepsRows(a, b);
  }

  lemma AddPropertyValues(db: Db, parent: Parent, v: Value)
    requires ValuesOk(db) && HasBundle(db, v.bundle)
    requires v.content.PageValue? ==> HasGroup(db, v.content.group)
    ensures ValuesOk(AddProperty(db, parent, v)) && Grown(db, AddProperty(db, parent, v))
  {
    var b := AddProperty(db, parent, v);
    assert db.nextValue !in db.values;
    assert Grown(db, b);
    GrownKeepsRows(db, b);
    hide Grown;
  }

  lemma AddPropertyProps(db: Db, parent: Parent, v: Value)
    requires PropsOk(db) && HasParent(db, parent) && Grown(db, AddProperty(db, parent, v))
    ensures PropsOk(AddProperty(db, parent, v))
  {
    var b := AddProperty(db, parent, v);
    GrownKeepsRows(db, b);
  }

  lemma AddPropertyKeeps(db: Db, parent: Parent, v: Value)
    requires Valid(db) && HasParent(db, parent) && HasBundle(db, v.bundle)
    requires v.content.PageValue? ==> HasGroup(db, v.content.group)
    ensures Valid(AddProperty(db, parent, v)) && Grown(db, AddProperty(db, parent, v))
  {
    var b := AddProperty(db, parent, v);
    AddPropertyValues(db, parent, v);
    AddPropertyProps(db, parent, v);
    GroupsCarry(db, b);
    InstancesCarry(db, b);
    hide GroupsOk, InstancesOk, ValuesOk, PropsOk, Grown;
  }

  lemma AppendGroup(db: Db, g: GroupRow)
    requires GroupsOk(db) && g.id == db.nextGroup
    requires PageParentOk(db, g.parent)
    ensures var b := db.(groups := db.groups + [g], nextGroup := g.id + 1); GroupsOk(b) && Grown(db, b) && HasGroup(b, g.id)
  {
    var b := db.(groups := db.groups + [g], nextGroup := g.id + 1);
    assert b.groups[|db.groups|] == g;
    assert Grown(db, b);
    GrownKeepsRows(db, b);
    hide Grown;
  }

  ghost predicate PageParentOk(db: Db, p: GroupParent) {
    match p
    case InService(s) => HasService(db, s)
    case InGroup(g) => HasGroup(db, g)
  }

  lemma EnsuredGroupIsFound(db: Db, parent: GroupParent, name: string)
    requires GroupsOk(db)
    ensures var b := EnsureGroup(db, parent, name);
      FindGroup(b.groups, parent, name) != 0 && HasGroup(b, FindGroup(b.groups, parent, name))
  {
    var b := EnsureGroup(db, parent, name);
    var k := FoundGroup(db.groups, parent, name);
    if k == |db.groups| {
      GroupAppended(db.groups, GroupRow(db.nextGroup, name, parent));
      assert b.groups[k].id == db.nextGroup;
    } else {
      assert b.groups[k].id == FindGroup(b.groups, parent, name);
    }
  }

  lemma GroupsOnlyChange(db: Db, b: Db)
    requires Valid(db) && Grown(db, b) && GroupsOk(b) && b == db.(groups := b.groups, nextGroup := b.nextGroup)
    ensures Valid(b)
  {
    InstancesCarry(db, b);
    ValuesCarry(db, b);
    PropsCarry(db, b);
    hide GroupsOk, InstancesOk, ValuesOk, PropsOk, Grown;
  }

  lemma EnsureGroupKeeps(db: Db, parent: GroupParent, name: string)
    requires Valid(db) && PageParentOk(db, parent)
    ensures var b := EnsureGroup(db, parent, name);
      && Valid(b) && Grown(db, b)
      && FindGroup(b.groups, parent, name) != 0 && HasGroup(b, FindGroup(b.groups, parent, name))
  {
    EnsuredGroupIsFound(db, parent, name);
    hide FindGroup, HasGroup, Grown;
    if FindGroup(db.groups, parent, name) == 0 {
      AppendGroup(db, GroupRow(db.nextGroup, name, parent));
      hide GroupsOk, InstancesOk, ValuesOk, PropsOk, ServicesOk, BundlesOk;
      GroupsOnlyChange(db, EnsureGroup(db, parent, name));
    } else {
      hide Valid;
      GrownIsReflexive(db);
    }
  }

  lemma ServicesOnlyChange(db: Db, b: Db)
    requires Valid(db) && Grown(db, b) && ServicesOk(b) && b == db.(services := b.services, nextService := b.nextService)
    ensures Valid(b)
  {
    GroupsCarry(db, b);
    InstancesCarry(db, b);
    ValuesCarry(db, b);
    PropsCarry(db, b);
    hide GroupsOk, InstancesOk, ValuesOk, PropsOk, ServicesOk, Grown;
  }

  lemma AppendService(db: Db, r: ServiceRow)
    requires ServicesOk(db) && r.id == db.nextService
    ensures var b := db.(services := db.services + [r], nextService := r.id + 1);
      ServicesOk(b) && Grown(db, b) && HasService(b, r.id)
  {
    var b := db.(services := db.services + [r], nextService := r.id + 1);
    assert b.services[|db.services|] == r;
  }

  lemma EnsureServiceKeeps(db: Db, name: string)
    requires Valid(db)
    ensures var b := EnsureService(db, name);
      && Valid(b) && Grown(db, b)
      && FindService(b.services, name) != 0 && HasService(b, FindService(b.services, name))
  {
    var k := FoundService(db.services, name);
    if k == |db.services| {
      var r := ServiceRow(db.nextService, name);
      ServiceAppended(db.services, r);
      AppendService(db, r);
      hide GroupsOk, InstancesOk, ValuesOk, PropsOk, Grown, HasService, FindService;
      ServicesOnlyChange(db, EnsureService(db, name));
    } else {
      hide GroupsOk, InstancesOk, ValuesOk, PropsOk;
    }
  }

  lemma AppendInstance(db: Db, r: InstanceRow)
    requires InstancesOk(db) && r.id == db.nextInstance && HasService(db, r.service)
    ensures var b := db.(instances := db.instances + [r], nextInstance := r.id + 1);
      InstancesOk(b) && Grown(db, b) && HasInstance(b, r.id)
  {
    var b := db.(instances := db.instances + [r], nextInstance := r.id + 1);
    assert b.instances[|db.instances|] == r;
    assert Grown(db, b);
    GrownKeepsRows(db, b);
    hide Grown;
  }

  lemma InstancesOnlyChange(db: Db, b: Db)
    requires Valid(db) && Grown(db, b) && InstancesOk(b) && b == db.(instances := b.instances, nextInstance := b.nextInstance)
    ensures Valid(b)
  {
    GroupsCarry(db, b);
    ValuesCarry(db, b);
    PropsCarry(db, b);
    hide GroupsOk, InstancesOk, ValuesOk, PropsOk, Grown;
  }

  lemma EnsureInstanceKeeps(db: Db, service: nat, name: string)
    requires Valid(db) && HasService(db, service)
    ensures var b := EnsureInstance(db, service, name);
      && Valid(b) && Grown(db, b)
      && FindInstance(b.instances, service, name) != 0 && HasInstance(b, FindInstance(b.instances, service, name))
  {
    var k := FoundInstance(db.instances, service, name);
    if k == |db.instances| {
      var r := InstanceRow(db.nextInstance, service, name);
      InstanceAppended(db.instances, r);
      AppendInstance(db, r);
      hide GroupsOk, InstancesOk, ValuesOk, PropsOk, Grown, HasInstance, FindInstance;
      InstancesOnlyChange(db, EnsureInstance(db, service, name));
    } else {
      hide GroupsOk, InstancesOk, ValuesOk, PropsOk;
    }
  }

  lemma AddBundleKeeps(db: Db, file: string, layer: int)
    requires Valid(db)
    ensures var b := AddBundle(db, file, layer);
      Valid(b) && Grown(db, b) && HasBundle(b, db.nextBundle)
  {
    var b := AddBundle(db, file, layer);
    assert b.bundles[|db.bundles|].id == db.nextBundle;
    GroupsCarry(db, b);
    InstancesCarry(db, b);
    ValuesCarry(db, b);
    PropsCarry(db, b);
    hide GroupsOk, InstancesOk, ValuesOk, PropsOk;
  }

  // ------------------------------------------------------------------------ imports

  ghost predicate PlaceOk(db: Db, at: Place) {
    && HasService(db, at.service)
    && (at.instance != 0 ==> HasInstance(db, at.instance))
    && (at.page != 0 ==> HasGroup(db, at.page))
  }

  lemma PlaceStaysOk(a: Db, b: Db, at: Place, bundle: nat)
    requires Grown(a, b) && PlaceOk(a, at) && HasBundle(a, bundle)
    ensures PlaceOk(b, at) && HasBundle(b, bundle)
  {
    GrownKeepsRows(a, b);
  }

  lemma {:induction false} ImportPropKeeps(db: Db, bundle: nat, at: Place, p: Prop)
    requires Valid(db) && PlaceOk(db, at) && HasBundle(db, bundle)
    ensures Valid(ImportProp(db, bundle, at, p)) && Grown(db, ImportProp(db, bundle, at, p))
    decreases p
  {
    hide Valid, Grown;
    match p
    case Text(key, value) =>
      AddPropertyKeeps(db, PropParent(at), Value(bundle, key, TextValue(value)));
    case Page(key, children) =>
      var db1 := EnsureGroup(db, PageParent(at), key);
      EnsureGroupKeeps(db, PageParent(at), key);
      var group := FindGroup(db1.groups, PageParent(at), key);
      GrownKeepsRows(db, db1);
      ImportPropsKeeps(db1, bundle, at.(page := group), children);
      var db2 := ImportProps(db1, bundle, at.(page := group), children);
      GrownIsTransitive(db, db1, db2);
      GrownKeepsRows(db, db2);
      GrownKeepsRows(db1, db2);
      AddPropertyKeeps(db2, PropParent(at), Value(bundle, key, PageValue(group)));
      GrownIsTransitive(db, db2, ImportProp(db, bundle, at, p));
  }

  lemma {:induction false} ImportPropsKeeps(db: Db, bundle: nat, at: Place, ps: seq<Prop>)
    requires Valid(db) && PlaceOk(db, at) && HasBundle(db, bundle)
    ensures Valid(ImportProps(db, bundle, at, ps)) && Grown(db, ImportProps(db, bundle, at, ps))
    decreases ps
  {
    if ps != [] {
      hide Valid, Grown;
      var db1 := ImportProp(db, bundle, at, ps[0]);
      ImportPropKeeps(db, bundle, at, ps[0]);
      GrownKeepsRows(db, db1);
      ImportPropsKeeps(db1, bundle, at, ps[1..]);
      GrownIsTransitive(db, db1, ImportProps(db, bundle, at, ps));
    }
  }

  lemma {:induction false} ImportInstancesKeeps(db: Db, bundle: nat, service: nat, insts: seq<Instance>)
    requires Valid(db) && HasService(db, service) && HasBundle(db, bundle)
    ensures Valid(ImportInstances(db, bundle, service, insts)) && Grown(db, ImportInstances(db, bundle, service, insts))
    decreases insts
  {
    if insts != [] {
      hide Valid, Grown;
      var db1 := EnsureInstance(db, service, insts[0].name);
      EnsureInstanceKeeps(db, service, insts[0].name);
      GrownKeepsRows(db, db1);
      var at := Place(service, FindInstance(db1.instances, service, insts[0].name), 0);
      var db2 := ImportProps(db1, bundle, at, insts[0].props);
      ImportPropsKeeps(db1, bundle, at, insts[0].props);
      GrownIsTransitive(db, db1, db2);
      GrownKeepsRows(db, db2);
      ImportInstancesKeeps(db2, bundle, service, insts[1..]);
      GrownIsTransitive(db, db2, ImportInstances(db, bundle, service, insts));
    }
  }

  // ------------------------------------------------------------------------ deletion of a bundle

  lemma {:induction false} SurvivingRows(props: seq<PropRow>, gone: set<nat>)
    requires forall i, j :: 0 <= i < j < |props| ==> props[i].id < props[j].id
    ensures forall r :: r in Surviving(props, gone) <==> r in props && r.value !in gone
    ensures forall i, j :: 0 <= i < j < |Surviving(props, gone)| ==> Surviving(props, gone)[i].id < Surviving(props, gone)[j].id
  {
    if props != [] {
      SurvivingRows(props[1..], gone);
      var rest := Surviving(props[1..], gone);
      assert forall r :: r in rest ==> r in props[1..];
      forall j | 0 <= j < |rest| ensures props[0].id < rest[j].id {
        assert rest[j] in props[1..];
      }
    }
  }

  lemma {:induction false} OtherBundleRows(bundles: seq<BundleRow>, id: nat)
    requires forall i, j :: 0 <= i < j < |bundles| ==> bundles[i].id < bundles[j].id
    ensures forall r :: r in OtherBundles(bundles, id) <==> r in bundles && r.id != id
    ensures forall i, j :: 0 <= i < j < |OtherBundles(bundles, id)| ==> OtherBundles(bundles, id)[i].id < OtherBundles(bundles, id)[j].id
  {
    if bundles != [] {
      OtherBundleRows(bundles[1..], id);
      var rest := OtherBundles(bundles[1..], id);
      forall j | 0 <= j < |rest| ensures bundles[0].id < rest[j].id {
        assert rest[j] in bundles[1..];
      }
    }
  }

  lemma BundlesAfterDelete(db: Db, bundle: nat)
    requires BundlesOk(db)
    ensures BundlesOk(DeleteBundle(db, bundle))
    ensures forall id :: HasBundle(db, id) && id != bundle ==> HasBundle(DeleteBundle(db, bundle), id)
  {
    var b := DeleteBundle(db, bundle);
    OtherBundleRows(db.bundles, bundle);
    forall id | HasBundle(db, id) && id != bundle ensures HasBundle(b, id) {
      var i :| 0 <= i < |db.bundles| && db.bundles[i].id == id;
      assert db.bundles[i] in b.bundles;
    }
    forall i | 0 <= i < |b.bundles| ensures 1 <= b.bundles[i].id < b.nextBundle {
      assert b.bundles[i] in db.bundles;
    }
    hide OtherBundles, Surviving;
  }

  lemma ValuesAfterDelete(db: Db, bundle: nat)
    requires ValuesOk(db) && BundlesOk(db)
    ensures ValuesOk(DeleteBundle(db, bundle))
  {
    var b := DeleteBundle(db, bundle);
    BundlesAfterDelete(db, bundle);
    assert forall id :: HasGroup(db, id) ==> HasGroup(b, id);
    hide OtherBundles, Surviving, HasBundle, HasGroup, BundlesOk;
  }

  lemma PropsAfterDelete(db: Db, bundle: nat)
    requires PropsOk(db)
    ensures PropsOk(DeleteBundle(db, bundle))
  {
    var b := DeleteBundle(db, bundle);
    SurvivingRows(db.props, ValuesOf(db, bundle));
    forall i | 0 <= i < |b.props|
      ensures b.props[i].id < b.nextProp && b.props[i].value in b.values && HasParent(b, b.props[i].parent)
    {
      assert b.props[i] in db.props;
      assert HasParent(db, b.props[i].parent);
    }
    hide OtherBundles, Surviving;
  }

  lemma DeleteBundleKeeps(db: Db, bundle: nat)
    requires Valid(db)
    ensures Valid(DeleteBundle(db, bundle))
  {
    BundlesAfterDelete(db, bundle);
    ValuesAfterDelete(db, bundle);
    PropsAfterDelete(db, bundle);
    var b := DeleteBundle(db, bundle);
    assert InstancesOk(b) by {
      assert forall id :: HasService(db, id) ==> HasService(b, id);
    }
    assert GroupsOk(b) by {
      assert forall id :: HasService(db, id) ==> HasService(b, id);
      assert forall id :: HasGroup(db, id) ==> HasGroup(b, id);
    }
    hide ValuesOk, PropsOk, BundlesOk, ValuesOf;
  }

  /** Two rows of one bundle table with the same id are the same row. */
  lemma BundleIdIsKey(db: Db, a: BundleRow, b: BundleRow)
    requires BundlesOk(db) && a in db.bundles && b in db.bundles && a.id == b.id
    ensures a == b
  {
    var i :| 0 <= i < |db.bundles| && db.bundles[i] == a;
    var j :| 0 <= j < |db.bundles| && db.bundles[j] == b;
  }

  lemma PinHeldBy(db: Db, p: PropRow, b: BundleRow)
    requires p in db.props && b in db.bundles && p.value in db.values && b.id == db.values[p.value].bundle && b.refs > 0
    ensures PinHeld(db, p.id)
  {
    var i :| 0 <= i < |db.props| && db.props[i] == p;
    var j :| 0 <= j < |db.bundles| && db.bundles[j] == b;
  }

  lemma PinnedRowSurvives(db: Db, old_: BundleRow, i: nat, j: nat)
    requires Valid(db) && old_ in db.bundles && old_.refs == 0
    requires i < |db.props| && j < |db.bundles| && db.props[i].value in db.values
    requires db.bundles[j].id == db.values[db.props[i].value].bundle && db.bundles[j].refs > 0
    ensures PinHeld(DeleteBundle(db, old_.id), db.props[i].id)
  {
    var p, b := db.props[i], db.bundles[j];
    SurvivingRows(db.props, ValuesOf(db, old_.id));
    OtherBundleRows(db.bundles, old_.id);
    if b.id == old_.id { BundleIdIsKey(db, b, old_); }
    assert p in db.props && b in db.bundles;
    hide Surviving, OtherBundles, ValuesOk, InstancesOk, GroupsOk, ServicesOk, PropsOk, BundlesOk, PinHeld;
    PinHeldBy(DeleteBundle(db, old_.id), p, b);
  }

  /** Deleting a bundle that no snapshot refers to leaves no snapshot property dangling. */
  lemma DeleteBundleKeepsPins(db: Db, old_: BundleRow)
    requires Valid(db) && SnapshotsOk(db) && old_ in db.bundles && old_.refs == 0
    ensures SnapshotsOk(DeleteBundle(db, old_.id))
  {
    forall id | id in db.pinned ensures PinHeld(DeleteBundle(db, old_.id), id) {
      assert PinHeld(db, id);
      var i, j :| 0 <= i < |db.props| && 0 <= j < |db.bundles| && db.props[i].id == id && db.props[i].value in db.values
        && db.bundles[j].id == db.values[db.props[i].value].bundle && db.bundles[j].refs > 0;
      PinnedRowSurvives(db, old_, i, j);
    }
    hide Valid, PinHeld;
  }

  lemma {:induction false} FoundBundle(bundles: seq<BundleRow>, file: string)
    ensures FindBundle(bundles, file).Some? ==> FindBundle(bundles, file).value in bundles && FindBundle(bundles, file).value.file == file
    ensures FindBundle(bundles, file).None? ==> forall r :: r in bundles ==> r.file != file
  {
    if bundles != [] && bundles[0].file != file { FoundBundle(bundles[1..], file); }
  }

  lemma DropOldKeeps(db: Db, file: string)
    requires Valid(db) && SnapshotsOk(db)
    ensures Valid(DropOld(db, file)) && SnapshotsOk(DropOld(db, file))
  {
    FoundBundle(db.bundles, file);
    var old_ := FindBundle(db.bundles, file);
    if old_.Some? && old_.value.refs == 0 {
      DeleteBundleKeeps(db, old_.value.id);
      DeleteBundleKeepsPins(db, old_.value);
    }
    hide Valid, SnapshotsOk, DeleteBundle;
  }

  /** An import keeps every reference in the repository intact, whatever was in the tables. */
  lemma ImportKeepsIntegrity(db: Db, layer: int, file: string, c: Class)
    requires Valid(db) && SnapshotsOk(db)
    ensures Valid(Import(db, layer, file, c)) && SnapshotsOk(Import(db, layer, file, c))
  {
    hide Valid, SnapshotsOk, Grown;
    var db0 := DropOld(db, file);
    DropOldKeeps(db, file);
    assert db0.nextBundle == db.nextBundle;
    var db1 := AddBundle(db0, file, layer);
    AddBundleKeeps(db0, file, layer);
    var db2 := EnsureService(db1, c.name);
    EnsureServiceKeeps(db1, c.name);
    GrownKeepsRows(db1, db2);
    var service := FindService(db2.services, c.name);
    var db3 := ImportProps(db2, db.nextBundle, Place(service, 0, 0), c.props);
    ImportPropsKeeps(db2, db.nextBundle, Place(service, 0, 0), c.props);
    GrownKeepsRows(db2, db3);
    ImportInstancesKeeps(db3, db.nextBundle, service, c.instances);
    var db4 := ImportInstances(db3, db.nextBundle, service, c.instances);
    GrownIsTransitive(db0, db1, db2);
    GrownIsTransitive(db0, db2, db3);
    GrownIsTransitive(db0, db3, db4);
    GrownKeepsPins(db0, db4);
  }

  // ------------------------------------------------------------------------ nothing is created twice

  /** No two services have one name, no two instances of a service, and no two groups in the same place. */
  ghost predicate NamesUnique(db: Db) {
    && (forall i, j :: 0 <= i < j < |db.services| ==> db.services[i].name != db.services[j].name)
    && (forall i, j :: 0 <= i < j < |db.instances| ==>
         db.instances[i].service != db.instances[j].service || db.instances[i].name != db.instances[j].name)
    && (forall i, j :: 0 <= i < j < |db.groups| ==> db.groups[i].parent != db.groups[j].parent || db.groups[i].name != db.groups[j].name)
  }

  lemma EnsureGroupUnique(db: Db, parent: GroupParent, name: string)
    requires GroupsOk(db) && NamesUnique(db)
    ensures NamesUnique(EnsureGroup(db, parent, name))
  {
    var k := FoundGroup(db.groups, parent, name);
    hide FindGroup;
  }

  lemma EnsureInstanceUnique(db: Db, service: nat, name: string)
    requires InstancesOk(db) && NamesUnique(db)
    ensures NamesUnique(EnsureInstance(db, service, name))
  {
    var k := FoundInstance(db.instances, service, name);
    hide FindInstance;
  }

  lemma EnsureServiceUnique(db: Db, name: string)
    requires ServicesOk(db) && NamesUnique(db)
    ensures NamesUnique(EnsureService(db, name))
  {
    var k := FoundService(db.services, name);
    hide FindService;
  }

  lemma {:induction false} ImportPropUnique(db: Db, bundle: nat, at: Place, p: Prop)
    requires Valid(db) && NamesUnique(db) && PlaceOk(db, at) && HasBundle(db, bundle)
    ensures NamesUnique(ImportProp(db, bundle, at, p))
    decreases p
  {
    if p.Page? {
      var db1 := EnsureGroup(db, PageParent(at), p.key);
      EnsureGroupUnique(db, PageParent(at), p.key);
      EnsureGroupKeeps(db, PageParent(at), p.key);
      var inside := at.(page := FindGroup(db1.groups, PageParent(at), p.key));
      PlaceInside(db, db1, at, inside.page, bundle);
      hide Valid, PlaceOk, HasBundle, HasGroup, Grown, EnsureGroup, FindGroup, NamesUnique, ImportProps;
      ImportPropsUnique(db1, bundle, inside, p.children);
      AddPropertyUnique(ImportProps(db1, bundle, inside, p.children), PropParent(at), Value(bundle, p.key, PageValue(inside.page)));
    } else {
      AddPropertyUnique(db, PropParent(at), Value(bundle, p.key, TextValue(p.value)));
      hide Valid, PlaceOk, HasBundle, NamesUnique;
    }
  }

  lemma AddPropertyUnique(db: Db, parent: Parent, v: Value)
    requires NamesUnique(db)
    ensures NamesUnique(AddProperty(db, parent, v))
  {
  }

  lemma NewBundleUnique(db: Db, file: string, layer: int)
    requires NamesUnique(db)
    ensures NamesUnique(AddBundle(DropOld(db, file), file, layer)) && DropOld(db, file).nextBundle == db.nextBundle
  {
    hide Surviving, OtherBundles, ValuesOf, FindBundle;
  }

  lemma PlaceInside(db: Db, db1: Db, at: Place, page: nat, bundle: nat)
    requires PlaceOk(db, at) && HasBundle(db, bundle) && Grown(db, db1) && page != 0 && HasGroup(db1, page)
    ensures PlaceOk(db1, at.(page := page)) && HasBundle(db1, bundle)
  {
    GrownKeepsRows(db, db1);
    hide Grown;
  }

  lemma {:induction false} ImportPropsUnique(db: Db, bundle: nat, at: Place, ps: seq<Prop>)
    requires Valid(db) && NamesUnique(db) && PlaceOk(db, at) && HasBundle(db, bundle)
    ensures NamesUnique(ImportProps(db, bundle, at, ps))
    decreases ps
  {
    if ps != [] {
      ImportPropUnique(db, bundle, at, ps[0]);
      ImportPropKeeps(db, bundle, at, ps[0]);
      PlaceStaysOk(db, ImportProp(db, bundle, at, ps[0]), at, bundle);
      hide Valid, NamesUnique, PlaceOk, HasBundle, ImportProp, Grown;
      ImportPropsUnique(ImportProp(db, bundle, at, ps[0]), bundle, at, ps[1..]);
    }
  }

  lemma {:induction false} ImportInstancesUnique(db: Db, bundle: nat, service: nat, insts: seq<Instance>)
    requires Valid(db) && NamesUnique(db) && HasService(db, service) && HasBundle(db, bundle) && service != 0
    ensures NamesUnique(ImportInstances(db, bundle, service, insts))
    decreases insts
  {
    if insts != [] {
      var db1 := EnsureInstance(db, service, insts[0].name);
      EnsureInstanceUnique(db, service, insts[0].name);
      EnsureInstanceKeeps(db, service, insts[0].name);
      GrownKeepsRows(db, db1);
      var at := Place(service, FindInstance(db1.instances, service, insts[0].name), 0);
      assert PlaceOk(db1, at);
      var db2 := ImportProps(db1, bundle, at, insts[0].props);
      hide Valid, NamesUnique, HasBundle, HasService, HasInstance, EnsureInstance, Grown, ImportProps;
      ImportPropsUnique(db1, bundle, at, insts[0].props);
      ImportPropsKeeps(db1, bundle, at, insts[0].props);
      GrownKeepsRows(db1, db2);
      ImportInstancesUnique(db2, bundle, service, insts[1..]);
    }
  }

  lemma ValidServices(db: Db)
    requires Valid(db)
    ensures ServicesOk(db)
  {
  }

  /** An import gets what is there and creates only what is not. */
  lemma ImportKeepsNamesUnique(db: Db, layer: int, file: string, c: Class)
    requires Valid(db) && SnapshotsOk(db) && NamesUnique(db)
    ensures NamesUnique(Import(db, layer, file, c))
  {
    NewBundleUnique(db, file, layer);
    hide Valid, SnapshotsOk, Grown, NamesUnique, DropOld;
    var db0 := DropOld(db, file);
    DropOldKeeps(db, file);
    var db1 := AddBundle(db0, file, layer);
    AddBundleKeeps(db0, file, layer);
    var db2 := EnsureService(db1, c.name);
    ValidServices(db1);
    EnsureServiceUnique(db1, c.name);
    EnsureServiceKeeps(db1, c.name);
    GrownKeepsRows(db1, db2);
    var service := FindService(db2.services, c.name);
    var at := Place(service, 0, 0);
    assert PlaceOk(db2, at);
    var db3 := ImportProps(db2, db.nextBundle, at, c.props);
    ImportPropsUnique(db2, db.nextBundle, at, c.props);
    ImportPropsKeeps(db2, db.nextBundle, at, c.props);
    GrownKeepsRows(db2, db3);
    ImportInstancesUnique(db3, db.nextBundle, service, c.instances);
  }

  // ------------------------------------------------------------------------ whole runs

  datatype Job = Job(layer: int, file: string, class_: Class)

  function ImportEach(db: Db, jobs: seq<Job>): Db
    decreases |jobs|
  {
    if jobs == [] then db else ImportEach(Import(db, jobs[0].layer, jobs[0].file, jobs[0].class_), jobs[1..])
  }

  const EMPTY := Db([], 1, [], 1, [], 1, [], 1, map[], 1, [], 1, {})

  /** From the empty repository on, no sequence of imports, repeated ones included, breaks a reference. */
  lemma {:induction false} ImportsKeepIntegrity(db: Db, jobs: seq<Job>)
    requires db == EMPTY || (Valid(db) && SnapshotsOk(db))
    ensures Valid(ImportEach(db, jobs)) && SnapshotsOk(ImportEach(db, jobs))
    decreases |jobs|
  {
    assert Valid(EMPTY) && SnapshotsOk(EMPTY);
    hide Valid, SnapshotsOk, Import;
    if jobs != [] {
      ImportKeepsIntegrity(db, jobs[0].layer, jobs[0].file, jobs[0].class_);
      ImportsKeepIntegrity(Import(db, jobs[0].layer, jobs[0].file, jobs[0].class_), jobs[1..]);
    }
  }

  /** Each group of the chain lies directly in the next. */
  ghost predicate Chain(db: Db, chain: seq<GroupRow>) {
    && (forall i :: 0 <= i < |chain| ==> chain[i] in db.groups)
    && forall i :: 0 <= i < |chain| - 1 ==> chain[i].parent == InGroup(chain[i + 1].id)
  }

  /** No group lies in itself, through however many others. */
  lemma {:induction false} GroupsAreAcyclic(db: Db, chain: seq<GroupRow>)
    requires GroupsOk(db) && Chain(db, chain) && |chain| > 1
    ensures chain[|chain| - 1].id < chain[0].id
    decreases |chain|
  {
    assert chain[0].parent == InGroup(chain[1].id);
    var k :| 0 <= k < |db.groups| && db.groups[k] == chain[0];
    assert GroupParentOk(db, db.groups[k]);
    if |chain| > 2 {
      var rest := chain[1..];
      assert forall i :: 0 <= i < |rest| ==> rest[i] == chain[i + 1];
      GroupsAreAcyclic(db, rest);
    }
  }
}
