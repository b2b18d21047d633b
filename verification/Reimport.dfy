/** Whole classes: when an import can be re-read, and what a second import of the same class changes. */
module Reimport {
  import opened Ucl
  import opened Repository
  import opened Integrity
  import opened Rebuild
  import opened Sections

  // ------------------------------------------------------------------------ a class, flattened

  function InstancePlace(instances: seq<InstanceRow>, service: nat, name: string): Place {
    Place(service, FindInstance(instances, service, name), 0)
  }

  function FlatInstances(groups: seq<GroupRow>, instances: seq<InstanceRow>, service: nat, insts: seq<Instance>): seq<Item>
    decreases insts
  {
    if insts == [] then []
    else
      FlatProps(groups, InstancePlace(instances, service, insts[0].name), insts[0].props) +
      FlatInstances(groups, instances, service, insts[1..])
  }

  /** All the items an import of the class stores, in the order of their ids. */
  function FlatClass(groups: seq<GroupRow>, instances: seq<InstanceRow>, service: nat, c: Class): seq<Item> {
    FlatProps(groups, Place(service, 0, 0), c.props) + FlatInstances(groups, instances, service, c.instances)
  }

  function InstanceSections(groups: seq<GroupRow>, instances: seq<InstanceRow>, service: nat, insts: seq<Instance>): seq<Section>
    decreases insts
  {
    if insts == [] then []
    else
      SectionsOf(groups, InstancePlace(instances, service, insts[0].name), insts[0].props) +
      InstanceSections(groups, instances, service, insts[1..])
  }

  function ClassSections(groups: seq<GroupRow>, instances: seq<InstanceRow>, service: nat, c: Class): seq<Section> {
    SectionsOf(groups, Place(service, 0, 0), c.props) + InstanceSections(groups, instances, service, c.instances)
  }

  ghost predicate ClassResolved(groups: seq<GroupRow>, instances: seq<InstanceRow>, service: nat, c: Class) {
    && Resolved(groups, Place(service, 0, 0), c.props)
    && InstancesResolved(groups, instances, service, c.instances)
  }

  ghost predicate InstancesResolved(groups: seq<GroupRow>, instances: seq<InstanceRow>, service: nat, insts: seq<Instance>) {
    forall k :: 0 <= k < |insts| ==>
      && FindInstance(instances, service, insts[k].name) != 0
      && Resolved(groups, InstancePlace(instances, service, insts[k].name), insts[k].props)
  }

  lemma {:induction false} InstancesGather(groups: seq<GroupRow>, instances: seq<InstanceRow>, service: nat, insts: seq<Instance>, parent: Parent)
    requires InstancesResolved(groups, instances, service, insts)
    ensures At(FlatInstances(groups, instances, service, insts), parent) == Gather(groups, InstanceSections(groups, instances, service, insts), parent)
    decreases insts
  {
    if insts != [] {
      var at := InstancePlace(instances, service, insts[0].name);
      assert forall k :: 0 <= k < |insts[1..]| ==> insts[1..][k] == insts[k + 1];
      InstancesGather(groups, instances, service, insts[1..], parent);
      AtIsGather(groups, at, insts[0].props, parent);
      AtConcat(FlatProps(groups, at, insts[0].props), FlatInstances(groups, instances, service, insts[1..]), parent);
      GatherConcat(groups, SectionsOf(groups, at, insts[0].props), InstanceSections(groups, instances, service, insts[1..]), parent);
    }
  }

  lemma ClassIsStored(groups: seq<GroupRow>, instances: seq<InstanceRow>, service: nat, c: Class)
    requires ClassResolved(groups, instances, service, c)
    ensures Stores(groups, FlatClass(groups, instances, service, c), ClassSections(groups, instances, service, c))
  {
    var root := Place(service, 0, 0);
    var a, b := FlatProps(groups, root, c.props), FlatInstances(groups, instances, service, c.instances);
    forall parent ensures At(a + b, parent) == Gather(groups, ClassSections(groups, instances, service, c), parent) {
      AtIsGather(groups, root, c.props, parent);
      InstancesGather(groups, instances, service, c.instances, parent);
      AtConcat(a, b, parent);
      GatherConcat(groups, SectionsOf(groups, root, c.props), InstanceSections(groups, instances, service, c.instances), parent);
    }
  }

  lemma {:induction false} InstanceSectionsContain(groups: seq<GroupRow>, instances: seq<InstanceRow>, service: nat, insts: seq<Instance>, s: Section)
    ensures s in InstanceSections(groups, instances, service, insts) <==>
      exists k :: 0 <= k < |insts| && s in SectionsOf(groups, InstancePlace(instances, service, insts[k].name), insts[k].props)
    decreases insts
  {
    if insts != [] {
      InstanceSectionsContain(groups, instances, service, insts[1..], s);
      if s in InstanceSections(groups, instances, service, insts[1..]) {
        var k :| 0 <= k < |insts[1..]| && s in SectionsOf(groups, InstancePlace(instances, service, insts[1..][k].name), insts[1..][k].props);
        assert s in SectionsOf(groups, InstancePlace(instances, service, insts[k + 1].name), insts[k + 1].props);
      }
      if k :| 0 <= k < |insts| && s in SectionsOf(groups, InstancePlace(instances, service, insts[k].name), insts[k].props) {
        assert k > 0 ==> s in SectionsOf(groups, InstancePlace(instances, service, insts[1..][k - 1].name), insts[1..][k - 1].props);
      }
    }
  }

  /** Re-reading yields the class: its own properties, and those of each instance. */
  ghost predicate ReadsClass(items: seq<Item>, instances: seq<InstanceRow>, service: nat, c: Class) {
    && Reads(items, OfService(service), c.props)
    && forall k :: 0 <= k < |c.instances| ==>
         Reads(items, PropParent(InstancePlace(instances, service, c.instances[k].name)), c.instances[k].props)
  }

  lemma ReadsClassIffClashFree(groups: seq<GroupRow>, instances: seq<InstanceRow>, service: nat, c: Class)
    requires ClassResolved(groups, instances, service, c)
    ensures ReadsClass(FlatClass(groups, instances, service, c), instances, service, c) <==>
            ClashFree(ClassSections(groups, instances, service, c))
  {
    var items, ss := FlatClass(groups, instances, service, c), ClassSections(groups, instances, service, c);
    var root := Place(service, 0, 0);
    ClassIsStored(groups, instances, service, c);
    ClearIffClashFree(groups, items, ss);
    ReadsIffClear(groups, items, ss, root, c.props);
    forall k | 0 <= k < |c.instances|
      ensures var at := InstancePlace(instances, service, c.instances[k].name);
        && (forall s :: s in SectionsOf(groups, at, c.instances[k].props) ==> s in ss)
        && (Reads(items, PropParent(at), c.instances[k].props) <==> AllClear(groups, items, at, c.instances[k].props))
    {
      var at := InstancePlace(instances, service, c.instances[k].name);
      forall s | s in SectionsOf(groups, at, c.instances[k].props) ensures s in ss {
        InstanceSectionsContain(groups, instances, service, c.instances, s);
      }
      ReadsIffClear(groups, items, ss, at, c.instances[k].props);
    }
    if ReadsClass(items, instances, service, c) {
      forall s | s in ss ensures Clear(groups, items, s) {
        if s !in SectionsOf(groups, root, c.props) {
          InstanceSectionsContain(groups, instances, service, c.instances, s);
        }
      }
    }
  }

  // ------------------------------------------------------------------------ places by name

  /** A place as the bundle's author names it. Pages of an instance and of the class itself share paths. */
  datatype Spot = TopLevel | NamedInstance(name: string) | PagePath(path: seq<string>)

  datatype Listing = Listing(spot: Spot, props: seq<Prop>)

  function PathsOf(path: seq<string>, p: Prop): seq<Listing>
    decreases p
  {
    match p
    case Text(_, _) => []
    case Page(key, children) => [Listing(PagePath(path + [key]), children)] + Paths(path + [key], children)
  }

  function Paths(path: seq<string>, ps: seq<Prop>): seq<Listing>
    decreases ps
  {
    if ps == [] then [] else PathsOf(path, ps[0]) + Paths(path, ps[1..])
  }

  function InstanceListings(insts: seq<Instance>): seq<Listing>
    decreases insts
  {
    if insts == [] then []
    else [Listing(NamedInstance(insts[0].name), insts[0].props)] + Paths([], insts[0].props) + InstanceListings(insts[1..])
  }

  /** Every list of properties in the class, with its place. */
  function Listings(c: Class): seq<Listing> {
    [Listing(TopLevel, c.props)] + Paths([], c.props) + InstanceListings(c.instances)
  }

  /** No two lists share a place, unless both are empty. A caller can check this on the class alone. */
  ghost predicate MergesNothing(c: Class) {
    var ls := Listings(c);
    forall i, j :: 0 <= i < j < |ls| && ls[i].spot == ls[j].spot ==> ls[i].props == [] && ls[j].props == []
  }

  /** The group a path leads to, 0 for the service itself. */
  function GroupAt(groups: seq<GroupRow>, service: nat, path: seq<string>): nat
    decreases |path|
  {
    if path == [] then 0
    else GroupOf(groups, Place(service, 0, GroupAt(groups, service, path[..|path| - 1])), path[|path| - 1])
  }

  ghost predicate Named(groups: seq<GroupRow>, service: nat, path: seq<string>)
    decreases |path|
  {
    path == [] || (GroupAt(groups, service, path) != 0 && Named(groups, service, path[..|path| - 1]))
  }

  ghost predicate IdsUnique(groups: seq<GroupRow>) {
    && (forall i :: 0 <= i < |groups| ==> groups[i].id != 0)
    && (forall i, j :: 0 <= i < j < |groups| ==> groups[i].id != groups[j].id)
  }

  /** Different paths lead to different groups. */
  lemma {:induction false} PathsDiffer(groups: seq<GroupRow>, service: nat, p: seq<string>, q: seq<string>)
    requires IdsUnique(groups) && Named(groups, service, p) && Named(groups, service, q)
    requires GroupAt(groups, service, p) == GroupAt(groups, service, q)
    ensures p == q
    decreases |p|
  {
    if p != [] && q != [] {
      var p', q' := p[..|p| - 1], q[..|q| - 1];
      var pp := PageParent(Place(service, 0, GroupAt(groups, service, p')));
      var qp := PageParent(Place(service, 0, GroupAt(groups, service, q')));
      var i := FoundGroup(groups, pp, p[|p| - 1]);
      var j := FoundGroup(groups, qp, q[|q| - 1]);
      assert groups[i].id == groups[j].id;
      assert i == j;
      PathsDiffer(groups, service, p', q');
      assert p == p' + [p[|p| - 1]] && q == q' + [q[|q| - 1]];
    }
  }

  ghost predicate InstanceIdsUnique(instances: seq<InstanceRow>) {
    && (forall i :: 0 <= i < |instances| ==> instances[i].id != 0)
    && (forall i, j :: 0 <= i < j < |instances| ==> instances[i].id != instances[j].id)
  }

  lemma InstancesDiffer(instances: seq<InstanceRow>, service: nat, n: string, m: string)
    requires InstanceIdsUnique(instances) && FindInstance(instances, service, n) != 0
    requires FindInstance(instances, service, n) == FindInstance(instances, service, m)
    ensures n == m
  {
    var i := FoundInstance(instances, service, n);
    var j := FoundInstance(instances, service, m);
    assert i == j;
  }

  /** The place in the tables that a named place stands for. */
  function Locate(groups: seq<GroupRow>, instances: seq<InstanceRow>, service: nat, spot: Spot): Parent {
    match spot
    case TopLevel => OfService(service)
    case NamedInstance(n) => OfInstance(FindInstance(instances, service, n))
    case PagePath(p) => OfGroup(GroupAt(groups, service, p))
  }

  ghost predicate SpotOk(groups: seq<GroupRow>, instances: seq<InstanceRow>, service: nat, spot: Spot) {
    match spot
    case TopLevel => true
    case NamedInstance(n) => FindInstance(instances, service, n) != 0
    case PagePath(p) => p != [] && Named(groups, service, p)
  }

  lemma LocateIsInjective(groups: seq<GroupRow>, instances: seq<InstanceRow>, service: nat, a: Spot, b: Spot)
    requires IdsUnique(groups) && InstanceIdsUnique(instances)
    requires SpotOk(groups, instances, service, a) && SpotOk(groups, instances, service, b)
    ensures Locate(groups, instances, service, a) == Locate(groups, instances, service, b) <==> a == b
  {
    if Locate(groups, instances, service, a) == Locate(groups, instances, service, b) {
      match a
      case TopLevel =>
      case NamedInstance(n) => InstancesDiffer(instances, service, n, b.name);
      case PagePath(p) => PathsDiffer(groups, service, p, b.path);
    }
  }

  /** One section and one listing that describe the same list. */
  ghost predicate Corresponds(groups: seq<GroupRow>, instances: seq<InstanceRow>, service: nat, s: Section, l: Listing) {
    && s.props == l.props
    && SpotOk(groups, instances, service, l.spot)
    && PropParent(s.at) == Locate(groups, instances, service, l.spot)
  }

  ghost predicate Parallel(groups: seq<GroupRow>, instances: seq<InstanceRow>, service: nat, ss: seq<Section>, ls: seq<Listing>) {
    |ss| == |ls| && forall k :: 0 <= k < |ss| ==> Corresponds(groups, instances, service, ss[k], ls[k])
  }

  lemma ParallelConcat(groups: seq<GroupRow>, instances: seq<InstanceRow>, service: nat,
                       ss: seq<Section>, ls: seq<Listing>, ss': seq<Section>, ls': seq<Listing>)
    requires Parallel(groups, instances, service, ss, ls) && Parallel(groups, instances, service, ss', ls')
    ensures Parallel(groups, instances, service, ss + ss', ls + ls')
  {
  }

  lemma {:induction false} NestedParallel(groups: seq<GroupRow>, instances: seq<InstanceRow>, at: Place, path: seq<string>, ps: seq<Prop>)
    requires Resolved(groups, at, ps) && Named(groups, at.service, path) && at.page == GroupAt(groups, at.service, path)
    ensures Parallel(groups, instances, at.service, Nested(groups, at, ps), Paths(path, ps))
    decreases ps
  {
    if ps != [] {
      ResolvedParts(groups, at, ps);
      NestedParallel(groups, instances, at, path, ps[1..]);
      if ps[0].Page? {
        var key, inside := ps[0].key, Inside(groups, at, ps[0].key);
        var deeper := path + [key];
        assert deeper[..|deeper| - 1] == path;
        assert PageParent(at) == PageParent(Place(at.service, 0, at.page));
        assert inside.page == GroupAt(groups, at.service, deeper);
        NestedParallel(groups, instances, inside, deeper, ps[0].children);
        var s, l := Section(inside, ps[0].children), Listing(PagePath(deeper), ps[0].children);
        assert Corresponds(groups, instances, at.service, s, l);
        ParallelConcat(groups, instances, at.service, [s], [l], Nested(groups, inside, ps[0].children), Paths(deeper, ps[0].children));
      }
      ParallelConcat(groups, instances, at.service, NestedOf(groups, at, ps[0]), PathsOf(path, ps[0]), Nested(groups, at, ps[1..]), Paths(path, ps[1..]));
    }
  }

  lemma {:induction false} InstancesParallel(groups: seq<GroupRow>, instances: seq<InstanceRow>, service: nat, insts: seq<Instance>)
    requires InstancesResolved(groups, instances, service, insts)
    ensures Parallel(groups, instances, service, InstanceSections(groups, instances, service, insts), InstanceListings(insts))
    decreases insts
  {
    if insts != [] {
      var at := InstancePlace(instances, service, insts[0].name);
      assert forall k :: 0 <= k < |insts[1..]| ==> insts[1..][k] == insts[k + 1];
      InstancesParallel(groups, instances, service, insts[1..]);
      NestedParallel(groups, instances, at, [], insts[0].props);
      var s, l := Section(at, insts[0].props), Listing(NamedInstance(insts[0].name), insts[0].props);
      assert Corresponds(groups, instances, service, s, l);
      ParallelConcat(groups, instances, service, [s], [l], Nested(groups, at, insts[0].props), Paths([], insts[0].props));
      ParallelConcat(groups, instances, service, SectionsOf(groups, at, insts[0].props), [l] + Paths([], insts[0].props),
        InstanceSections(groups, instances, service, insts[1..]), InstanceListings(insts[1..]));
    }
  }

  lemma ClassParallel(groups: seq<GroupRow>, instances: seq<InstanceRow>, service: nat, c: Class)
    requires ClassResolved(groups, instances, service, c)
    ensures Parallel(groups, instances, service, ClassSections(groups, instances, service, c), Listings(c))
  {
    var root := Place(service, 0, 0);
    InstancesParallel(groups, instances, service, c.instances);
    NestedParallel(groups, instances, root, [], c.props);
    var s, l := Section(root, c.props), Listing(TopLevel, c.props);
    ParallelConcat(groups, instances, service, [s], [l], Nested(groups, root, c.props), Paths([], c.props));
    ParallelConcat(groups, instances, service, SectionsOf(groups, root, c.props), [l] + Paths([], c.props),
      InstanceSections(groups, instances, service, c.instances), InstanceListings(c.instances));
  }

  lemma ClashFreeIffMergesNothing(groups: seq<GroupRow>, instances: seq<InstanceRow>, service: nat, c: Class)
    requires ClassResolved(groups, instances, service, c) && IdsUnique(groups) && InstanceIdsUnique(instances)
    ensures ClashFree(ClassSections(groups, instances, service, c)) <==> MergesNothing(c)
  {
    var ss, ls := ClassSections(groups, instances, service, c), Listings(c);
    ClassParallel(groups, instances, service, c);
    hide ClassSections, Listings, ClassResolved;
    forall i, j | 0 <= i < j < |ss|
      ensures PropParent(ss[i].at) == PropParent(ss[j].at) <==> ls[i].spot == ls[j].spot
    {
      assert Corresponds(groups, instances, service, ss[i], ls[i]) && Corresponds(groups, instances, service, ss[j], ls[j]);
      LocateIsInjective(groups, instances, service, ls[i].spot, ls[j].spot);
    }
    assert forall k :: 0 <= k < |ss| ==> ss[k].props == ls[k].props by {
      forall k | 0 <= k < |ss| ensures ss[k].props == ls[k].props {
        assert Corresponds(groups, instances, service, ss[k], ls[k]);
      }
    }
  }

  // ------------------------------------------------------------------------ imports into the tables

  /** In a valid repository a group is younger than the page it was found in. */
  lemma FoundGroupIsYounger(db: Db, at: Place, key: string)
    requires GroupsOk(db) && GroupOf(db.groups, at, key) != 0
    ensures GroupOf(db.groups, at, key) > at.page
  {
    var k := FoundGroup(db.groups, PageParent(at), key);
    assert GroupParentOk(db, db.groups[k]);
  }

  /** Once imported, a list is resolved in every later state of the tables. */
  lemma {:induction false} ImportPropResolves(db: Db, bundle: nat, at: Place, p: Prop, later: Db)
    requires Valid(db) && PlaceOk(db, at) && HasBundle(db, bundle)
    requires Valid(later) && ImportProp(db, bundle, at, p).groups <= later.groups
    ensures p.Page? ==> GroupOf(later.groups, at, p.key) > at.page && Resolved(later.groups, Inside(later.groups, at, p.key), p.children)
    decreases p
  {
    if p.Page? {
      var db1 := EnsureGroup(db, PageParent(at), p.key);
      EnsureGroupKeeps(db, PageParent(at), p.key);
      GrownKeepsRows(db, db1);
      var in1 := Inside(db1.groups, at, p.key);
      ImportPropsKeeps(db1, bundle, in1, p.children);
      GroupsGrow(db1, ImportProps(db1, bundle, in1, p.children));
      GroupKept(db1.groups, later.groups, PageParent(at), p.key);
      FoundGroupIsYounger(later, at, p.key);
      ImportPropsResolve(db1, bundle, in1, p.children, later);
      hide Valid, Grown, PlaceOk;
    }
  }

  lemma {:induction false} ImportPropsResolve(db: Db, bundle: nat, at: Place, ps: seq<Prop>, later: Db)
    requires Valid(db) && PlaceOk(db, at) && HasBundle(db, bundle)
    requires Valid(later) && ImportProps(db, bundle, at, ps).groups <= later.groups
    ensures Resolved(later.groups, at, ps)
    decreases ps
  {
    if ps != [] {
      hide Valid, Grown, PlaceOk, HasBundle, ImportProp;
      var db1 := ImportProp(db, bundle, at, ps[0]);
      ImportPropKeeps(db, bundle, at, ps[0]);
      PlaceStaysOk(db, db1, at, bundle);
      ImportPropsKeeps(db1, bundle, at, ps[1..]);
      GroupsGrow(db1, ImportProps(db, bundle, at, ps));
      ImportPropResolves(db, bundle, at, ps[0], later);
      ImportPropsResolve(db1, bundle, at, ps[1..], later);
      ResolvedWhole(later.groups, at, ps);
      hide Resolved, ImportProps;
    }
  }

  lemma ResolvedWhole(groups: seq<GroupRow>, at: Place, ps: seq<Prop>)
    requires ps != [] && Resolved(groups, at, ps[1..])
    requires ps[0].Page? ==> GroupOf(groups, at, ps[0].key) > at.page && Resolved(groups, Inside(groups, at, ps[0].key), ps[0].children)
    ensures Resolved(groups, at, ps)
  {
    assert forall i :: 0 < i < |ps| ==> ps[i] == ps[1..][i - 1];
  }

  lemma InstanceKept(before: seq<InstanceRow>, after: seq<InstanceRow>, service: nat, name: string)
    requires before <= after && FindInstance(before, service, name) != 0
    ensures FindInstance(after, service, name) == FindInstance(before, service, name)
  {
    InstanceStable(before, after[|before|..], service, name);
    assert before + after[|before|..] == after;
  }

  lemma {:induction false} ImportInstancesView(db: Db, bundle: nat, service: nat, insts: seq<Instance>, b: nat, later: Db)
    requires Valid(db) && HasService(db, service) && HasBundle(db, bundle) && Valid(later)
    requires Grown(ImportInstances(db, bundle, service, insts), later)
    ensures View(ImportInstances(db, bundle, service, insts), b) ==
      View(db, b) + (if b == bundle then FlatInstances(later.groups, later.instances, service, insts) else [])
    ensures InstancesResolved(later.groups, later.instances, service, insts)
    decreases insts
  {
    hide Valid, Grown, View, PlaceOk, HasBundle, HasService, HasInstance;
    if insts == [] {
      Regroup(View(db, b), [], []);
    } else {
      var db1 := EnsureInstance(db, service, insts[0].name);
      EnsureInstanceKeeps(db, service, insts[0].name);
      var at := InstancePlace(db1.instances, service, insts[0].name);
      PlaceOfInstance(db, db1, at, bundle);
      EnsureInstanceView(db, service, insts[0].name, b);
      var db2 := ImportProps(db1, bundle, at, insts[0].props);
      ImportPropsKeeps(db1, bundle, at, insts[0].props);
      PlaceStaysOk(db1, db2, at, bundle);
      PlaceHasService(db2, at);
      ImportInstancesKeeps(db2, bundle, service, insts[1..]);
      var db3 := ImportInstances(db2, bundle, service, insts[1..]);
      GrownIsTransitive(db2, db3, later);
      GrownIsTransitive(db1, db2, later);
      GroupsGrow(db2, later);
      GroupsGrow(db1, later);
      InstanceKept(db1.instances, later.instances, service, insts[0].name);
      ImportPropsView(db1, bundle, at, insts[0].props, b, later.groups);
      ImportPropsResolve(db1, bundle, at, insts[0].props, later);
      ImportInstancesView(db2, bundle, service, insts[1..], b, later);
      assert ImportInstances(db, bundle, service, insts) == db3;
      assert FlatInstances(later.groups, later.instances, service, insts) ==
        FlatProps(later.groups, at, insts[0].props) + FlatInstances(later.groups, later.instances, service, insts[1..]);
      Regroup(View(db, b), FlatProps(later.groups, at, insts[0].props), FlatInstances(later.groups, later.instances, service, insts[1..]));
      assert forall k :: 0 < k < |insts| ==> insts[k] == insts[1..][k - 1];
      hide ImportInstances, ImportProps, FlatInstances, FlatProps, Resolved;
    }
  }

  lemma PlaceOfInstance(db: Db, db1: Db, at: Place, bundle: nat)
    requires Grown(db, db1) && HasService(db, at.service) && HasBundle(db, bundle) && at.page == 0
    requires at.instance != 0 ==> HasInstance(db1, at.instance)
    ensures PlaceOk(db1, at) && HasBundle(db1, bundle)
  {
    GrownKeepsRows(db, db1);
  }

  lemma PlaceHasService(db: Db, at: Place)
    requires PlaceOk(db, at)
    ensures HasService(db, at.service)
  {
  }

  lemma EnsureInstanceView(db: Db, service: nat, name: string, b: nat)
    ensures View(EnsureInstance(db, service, name), b) == View(db, b)
  {
  }

  lemma {:induction false} ViewAfterDelete(values: map<nat, Value>, rows: seq<PropRow>, gone: set<nat>, bundle: nat, b: nat)
    requires gone == set id | id in values && values[id].bundle == bundle
    requires forall i :: 0 <= i < |rows| ==> rows[i].value in values
    ensures ViewRows(values - gone, Surviving(rows, gone), b) == if b == bundle then [] else ViewRows(values, rows, b)
  {
    if rows != [] {
      ViewAfterDelete(values, rows[1..], gone, bundle, b);
      var rest := Surviving(rows[1..], gone);
      if rows[0].value in gone {
        assert Surviving(rows, gone) == rest;
      } else {
        assert Surviving(rows, gone)[1..] == rest;
      }
    }
  }

  /** Dropping the old bundle empties its view and leaves all others. */
  lemma DropOldView(db: Db, file: string, b: nat)
    requires Valid(db)
    ensures var old_ := FindBundle(db.bundles, file);
      View(DropOld(db, file), b) == if old_.Some? && old_.value.refs == 0 && b == old_.value.id then [] else View(db, b)
  {
    var old_ := FindBundle(db.bundles, file);
    if old_.Some? && old_.value.refs == 0 {
      ViewAfterDelete(db.values, db.props, ValuesOf(db, old_.value.id), old_.value.id, b);
    }
  }

  lemma {:induction false} NoRowsYet(values: map<nat, Value>, rows: seq<PropRow>, b: nat)
    requires forall v :: v in values ==> values[v].bundle != b
    ensures ViewRows(values, rows, b) == []
  {
    if rows != [] { NoRowsYet(values, rows[1..], b); }
  }

  /** What an import leaves in the tables: its own bundle holds the class, every other bundle is as it
      was, except the old bundle of the file if it was dropped. */
  lemma ImportView(db: Db, layer: int, file: string, c: Class, b: nat)
    requires Valid(db) && SnapshotsOk(db)
    ensures var db' := Import(db, layer, file, c);
      var service := FindService(db'.services, c.name);
      && View(db', b) == (if b == db.nextBundle then FlatClass(db'.groups, db'.instances, service, c) else View(DropOld(db, file), b))
      && ClassResolved(db'.groups, db'.instances, service, c)
      && Grown(AddBundle(DropOld(db, file), file, layer), db')
  {
    hide Valid, SnapshotsOk, Grown, View, PlaceOk, HasBundle, HasService, DropOld;
    var bundle := db.nextBundle;
    var db0 := DropOld(db, file);
    DropOldKeeps(db, file);
    DropOldCounters(db, file);
    var db1 := AddBundle(db0, file, layer);
    AddBundleKeeps(db0, file, layer);
    NewBundleView(db0, file, layer, b);
    var db2 := EnsureService(db1, c.name);
    EnsureServiceKeeps(db1, c.name);
    EnsureServiceView(db1, c.name, b);
    var service := FindService(db2.services, c.name);
    var root := Place(service, 0, 0);
    RootPlace(db1, db2, root, bundle);
    var db3 := ImportProps(db2, bundle, root, c.props);
    ImportPropsKeeps(db2, bundle, root, c.props);
    PlaceStaysOk(db2, db3, root, bundle);
    PlaceHasService(db3, root);
    ImportInstancesKeeps(db3, bundle, service, c.instances);
    var db4 := ImportInstances(db3, bundle, service, c.instances);
    GrownIsTransitive(db2, db3, db4);
    GrownIsTransitive(db1, db2, db4);
    GroupsGrow(db3, db4);
    ServiceKept(db2, db4, c.name);
    ImportPropsView(db2, bundle, root, c.props, b, db4.groups);
    ImportPropsResolve(db2, bundle, root, c.props, db4);
    GrownIsReflexive(db4);
    ImportInstancesView(db3, bundle, service, c.instances, b, db4);
    hide ImportInstances, ImportProps, FlatProps, FlatInstances, InstancesResolved, Resolved;
    assert Import(db, layer, file, c) == db4;
    var fp, fi := FlatProps(db4.groups, root, c.props), FlatInstances(db4.groups, db4.instances, service, c.instances);
    Regroup(View(db0, b), fp, fi);
    if b == bundle {
      assert [] + (fp + fi) == fp + fi;
    } else {
      Regroup(View(db0, b), [], []);
    }
  }

  lemma DropOldCounters(db: Db, file: string)
    ensures var d := DropOld(db, file);
      && d.nextBundle == db.nextBundle && d.groups == db.groups && d.instances == db.instances && d.services == db.services
  {
  }

  lemma NewBundleView(db: Db, file: string, layer: int, b: nat)
    requires Valid(db)
    ensures View(AddBundle(db, file, layer), b) == View(db, b)
    ensures b == db.nextBundle ==> View(db, b) == []
  {
    if b == db.nextBundle {
      assert !HasBundle(db, b);
      NoRowsYet(db.values, db.props, b);
    }
  }

  lemma EnsureServiceView(db: Db, name: string, b: nat)
    ensures View(EnsureService(db, name), b) == View(db, b)
  {
  }

  lemma RootPlace(db: Db, db2: Db, root: Place, bundle: nat)
    requires Grown(db, db2) && HasBundle(db, bundle) && HasService(db2, root.service) && root.instance == 0 && root.page == 0
    ensures PlaceOk(db2, root) && HasBundle(db2, bundle)
  {
    GrownKeepsRows(db, db2);
  }

  lemma {:induction false} ServiceStable(services: seq<ServiceRow>, more: seq<ServiceRow>, name: string)
    requires FindService(services, name) != 0
    ensures FindService(services + more, name) == FindService(services, name)
  {
    assert (services + more)[1..] == services[1..] + more;
    if services[0].name != name { ServiceStable(services[1..], more, name); }
  }

  lemma ServiceKept(a: Db, b: Db, name: string)
    requires Grown(a, b) && FindService(a.services, name) != 0
    ensures FindService(b.services, name) == FindService(a.services, name)
  {
    ServiceStable(a.services, b.services[|a.services|..], name);
    assert a.services + b.services[|a.services|..] == b.services;
  }

  /** Import, then re-read the new bundle: the class comes back exactly when no two of its lists share a
      place, whatever other bundles are in the tables. */
  lemma ImportThenRebuild(db: Db, layer: int, file: string, c: Class)
    requires Valid(db) && SnapshotsOk(db)
    ensures var db' := Import(db, layer, file, c);
      ReadsClass(View(db', db.nextBundle), db'.instances, FindService(db'.services, c.name), c) <==> MergesNothing(c)
  {
    var db' := Import(db, layer, file, c);
    var service := FindService(db'.services, c.name);
    ImportView(db, layer, file, c, db.nextBundle);
    ImportKeepsIntegrity(db, layer, file, c);
    assert IdsUnique(db'.groups) && InstanceIdsUnique(db'.instances) by { UniqueIds(db'); }
    ReadsClassIffClashFree(db'.groups, db'.instances, service, c);
    ClashFreeIffMergesNothing(db'.groups, db'.instances, service, c);
    hide Valid, SnapshotsOk, Import, ClassResolved, ReadsClass, ClashFree, MergesNothing;
  }

  const OWN := [Text("a", "1")]
  const INSTANCES := [Text("b", "2")]

  /** A service with a page "p", and an instance with a page of the same name. */
  const SHARING := Class("s", [Instance("i", [Page("p", INSTANCES)])], [Page("p", OWN)])

  lemma OnePage(key: string, children: seq<Prop>)
    requires forall p :: p in children ==> p.Text?
    ensures Paths([], [Page(key, children)]) == [Listing(PagePath([key]), children)]
  {
    assert [] + [key] == [key] && [Page(key, children)][1..] == [];
    NoPages([key], children);
  }

  lemma {:induction false} NoPages(path: seq<string>, ps: seq<Prop>)
    requires forall p :: p in ps ==> p.Text?
    ensures Paths(path, ps) == []
  {
    if ps != [] {
      assert ps[0] in ps;
      NoPages(path, ps[1..]);
    }
  }

  /** Imported into any repository, it is not read back: the two pages share one group. */
  lemma SharedPageIsMerged(db: Db, layer: int, file: string)
    requires Valid(db) && SnapshotsOk(db)
    ensures var db' := Import(db, layer, file, SHARING);
      !ReadsClass(View(db', db.nextBundle), db'.instances, FindService(db'.services, "s"), SHARING)
  {
    OnePage("p", OWN);
    OnePage("p", INSTANCES);
    var insts := SHARING.instances;
    assert insts[1..] == [] && InstanceListings([]) == [];
    assert InstanceListings(insts) == [Listing(NamedInstance("i"), insts[0].props)] + [Listing(PagePath(["p"]), INSTANCES)] + [];
    var ls := Listings(SHARING);
    assert ls[1] == Listing(PagePath(["p"]), OWN) && ls[3] == Listing(PagePath(["p"]), INSTANCES);
    assert !MergesNothing(SHARING);
    hide Import, ReadsClass, MergesNothing, Valid, SnapshotsOk, View;
    ImportThenRebuild(db, layer, file, SHARING);
  }

  lemma UniqueIds(db: Db)
    requires Valid(db)
    ensures IdsUnique(db.groups) && InstanceIdsUnique(db.instances)
  {
  }
}
