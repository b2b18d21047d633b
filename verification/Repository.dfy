/** The repository's tables and the import of a service bundle into them.

    Ids come from AUTOINCREMENT keys: they start at 1 and are never used again. Tables whose rows are
    searched for a first match, or read in key order, are sequences in key order. */
module Repository {
  import opened Ucl

  datatype Prop =
    | Text(key: string, value: string)
    | Page(key: string, children: seq<Prop>)

  datatype Instance = Instance(name: string, props: seq<Prop>)
  datatype Class = Class(name: string, instances: seq<Instance>, props: seq<Prop>)

  datatype Content = TextValue(value: string) | PageValue(group: nat)
  datatype Value = Value(bundle: nat, key: string, content: Content)

  /** Parent of a property: exactly one of the three columns is set. */
  datatype Parent = OfService(id: nat) | OfInstance(id: nat) | OfGroup(id: nat)
  datatype PropRow = PropRow(id: nat, parent: Parent, value: nat)

  /** Parent of a property group; there is no column for an instance. */
  datatype GroupParent = InService(id: nat) | InGroup(id: nat)
  datatype GroupRow = GroupRow(id: nat, name: string, parent: GroupParent)

  datatype ServiceRow = ServiceRow(id: nat, name: string)
  datatype InstanceRow = InstanceRow(id: nat, service: nat, name: string)
  datatype BundleRow = BundleRow(id: nat, refs: nat, file: string, layer: int)

  datatype Db = Db(
    services: seq<ServiceRow>, nextService: nat,
    instances: seq<InstanceRow>, nextInstance: nat,
    bundles: seq<BundleRow>, nextBundle: nat,
    groups: seq<GroupRow>, nextGroup: nat,
    values: map<nat, Value>, nextValue: nat,
    props: seq<PropRow>, nextProp: nat,
    pinned: set<nat>)                       // SnapshotProperty: ids of properties a snapshot uses

  // ------------------------------------------------------------------------ queries

  /** `SELECT PropertyGroupID ... WHERE parent = ? AND Name = ?`; 0 when there is none. */
  function FindGroup(groups: seq<GroupRow>, parent: GroupParent, name: string): nat {
    if groups == [] then 0
    else if groups[0].parent == parent && groups[0].name == name then groups[0].id
    else FindGroup(groups[1..], parent, name)
  }

  function FindService(services: seq<ServiceRow>, name: string): nat {
    if services == [] then 0
    else if services[0].name == name then services[0].id
    else FindService(services[1..], name)
  }

  function FindInstance(instances: seq<InstanceRow>, service: nat, name: string): nat {
    if instances == [] then 0
    else if instances[0].service == service && instances[0].name == name then instances[0].id
    else FindInstance(instances[1..], service, name)
  }

  /** `SELECT BundleID, RefCount FROM Bundles WHERE Filename = ?`: the first row only. */
  function FindBundle(bundles: seq<BundleRow>, file: string): Option<BundleRow> {
    if bundles == [] then None
    else if bundles[0].file == file then Some(bundles[0])
    else FindBundle(bundles[1..], file)
  }

  // ------------------------------------------------------------------------ updates

  /** A value row and the property row that refers to it. */
  function AddProperty(db: Db, parent: Parent, v: Value): Db {
    db.(values := db.values[db.nextValue := v], nextValue := db.nextValue + 1,
        props := db.props + [PropRow(db.nextProp, parent, db.nextValue)], nextProp := db.nextProp + 1)
  }

  function EnsureGroup(db: Db, parent: GroupParent, name: string): Db {
    if FindGroup(db.groups, parent, name) != 0 then db
    else db.(groups := db.groups + [GroupRow(db.nextGroup, name, parent)], nextGroup := db.nextGroup + 1)
  }

  function EnsureService(db: Db, name: string): Db {
    if FindService(db.services, name) != 0 then db
    else db.(services := db.services + [ServiceRow(db.nextService, name)], nextService := db.nextService + 1)
  }

  function EnsureInstance(db: Db, service: nat, name: string): Db {
    if FindInstance(db.instances, service, name) != 0 then db
    else db.(instances := db.instances + [InstanceRow(db.nextInstance, service, name)], nextInstance := db.nextInstance + 1)
  }

  function AddBundle(db: Db, file: string, layer: int): Db {
    db.(bundles := db.bundles + [BundleRow(db.nextBundle, 0, file, layer)], nextBundle := db.nextBundle + 1)
  }

  /** Where the properties of a list go: 0 stands for "no page" and "no instance". */
  datatype Place = Place(service: nat, instance: nat, page: nat)

  function PropParent(p: Place): Parent {
    if p.page != 0 then OfGroup(p.page) else if p.instance != 0 then OfInstance(p.instance) else OfService(p.service)
  }

  function PageParent(p: Place): GroupParent {
    if p.page != 0 then InGroup(p.page) else InService(p.service)
  }

  /** `importProp`. */
  function ImportProp(db: Db, bundle: nat, at: Place, p: Prop): Db
    decreases p
  {
    match p
    case Text(key, value) => AddProperty(db, PropParent(at), Value(bundle, key, TextValue(value)))
    case Page(key, children) =>
      var db1 := EnsureGroup(db, PageParent(at), key);
      var group := FindGroup(db1.groups, PageParent(at), key);
      var db2 := ImportProps(db1, bundle, at.(page := group), children);
      AddProperty(db2, PropParent(at), Value(bundle, key, PageValue(group)))
  }

  function ImportProps(db: Db, bundle: nat, at: Place, ps: seq<Prop>): Db
    decreases ps
  {
    if ps == [] then db else ImportProps(ImportProp(db, bundle, at, ps[0]), bundle, at, ps[1..])
  }

  function ImportInstances(db: Db, bundle: nat, service: nat, insts: seq<Instance>): Db
    decreases insts
  {
    if insts == [] then db
    else
      var db1 := EnsureInstance(db, service, insts[0].name);
      var id := FindInstance(db1.instances, service, insts[0].name);
      ImportInstances(ImportProps(db1, bundle, Place(service, id, 0), insts[0].props), bundle, service, insts[1..])
  }

  /** Property rows that do not refer to a deleted value. */
  function Surviving(props: seq<PropRow>, gone: set<nat>): seq<PropRow> {
    if props == [] then []
    else (if props[0].value in gone then [] else [props[0]]) + Surviving(props[1..], gone)
  }

  function ValuesOf(db: Db, bundle: nat): set<nat> {
    set id | id in db.values && db.values[id].bundle == bundle
  }

  function OtherBundles(bundles: seq<BundleRow>, id: nat): seq<BundleRow> {
    if bundles == [] then []
    else (if bundles[0].id == id then [] else [bundles[0]]) + OtherBundles(bundles[1..], id)
  }

  /** `deleteBundle`. */
  function DeleteBundle(db: Db, bundle: nat): Db {
    var gone := ValuesOf(db, bundle);
    db.(values := db.values - gone, props := Surviving(db.props, gone), bundles := OtherBundles(db.bundles, bundle))
  }

  /** The old bundle of this file goes, unless a snapshot refers to it. */
  function DropOld(db: Db, file: string): Db {
    var old_ := FindBundle(db.bundles, file);
    if old_.Some? && old_.value.refs == 0 then DeleteBundle(db, old_.value.id) else db
  }

  /** `import`. */
  function Import(db: Db, layer: int, file: string, c: Class): Db {
    var db1 := AddBundle(DropOld(db, file), file, layer);
    var bundle := db.nextBundle;
    var db2 := EnsureService(db1, c.name);
    var service := FindService(db2.services, c.name);
    ImportInstances(ImportProps(db2, bundle, Place(service, 0, 0), c.props), bundle, service, c.instances)
  }
}
