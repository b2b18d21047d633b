/** addsys(8): the import as the program performs it, row by row, against the specification in
    `Repository`. */
module AddSys {
  import opened Ucl
  import opened Repository
  import Integrity

  // ------------------------------------------------------------------------ deleting in steps

  lemma {:induction false} SurvivingStep(props: seq<PropRow>, gone: set<nat>, id: nat)
    ensures Surviving(Surviving(props, gone), {id}) == Surviving(props, gone + {id})
  {
    if props != [] {
      SurvivingStep(props[1..], gone, id);
      SurvivingCons(props[0], Surviving(props[1..], gone), {id});
      assert props[0].value in gone ==> Surviving(props, gone) == Surviving(props[1..], gone);
      assert props[0].value !in gone ==> Surviving(props, gone) == [props[0]] + Surviving(props[1..], gone);
      assert Surviving(props, gone + {id}) == (if props[0].value in gone + {id} then [] else [props[0]]) + Surviving(props[1..], gone + {id});
      hide Surviving;
    }
  }

  lemma SurvivingCons(p: PropRow, props: seq<PropRow>, gone: set<nat>)
    ensures Surviving([p] + props, gone) == (if p.value in gone then [] else [p]) + Surviving(props, gone)
  {
    assert ([p] + props)[1..] == props;
  }

  lemma {:induction false} SurvivingAll(props: seq<PropRow>)
    ensures Surviving(props, {}) == props
  {
    if props != [] {
      SurvivingAll(props[1..]);
      assert props == [props[0]] + props[1..];
    }
  }

  lemma DeleteStep(db: Db, before: Db, done: set<nat>, id: nat)
    requires db == before.(values := before.values - done, props := Surviving(before.props, done))
    ensures db.(values := db.values - {id}, props := Surviving(db.props, {id})) ==
      before.(values := before.values - (done + {id}), props := Surviving(before.props, done + {id}))
  {
    SurvivingStep(before.props, done, id);
    assert before.values - done - {id} == before.values - (done + {id});
  }

  // ------------------------------------------------------------------------ loops that run left to right

  lemma {:induction false} ImportPropsAppend(db: Db, bundle: nat, at: Place, ps: seq<Prop>, p: Prop)
    ensures ImportProps(db, bundle, at, ps + [p]) == Repository.ImportProp(ImportProps(db, bundle, at, ps), bundle, at, p)
    decreases ps
  {
    if ps == [] {
      assert ps + [p] == [p] && [p][1..] == [];
    } else {
      assert (ps + [p])[1..] == ps[1..] + [p];
      ImportPropsAppend(Repository.ImportProp(db, bundle, at, ps[0]), bundle, at, ps[1..], p);
    }
    hide Repository.ImportProp;
  }

  /** Ids start at 1. */
  ghost predicate GroupIdsPositive(db: Db) {
    db.nextGroup > 0 && forall g :: g in db.groups ==> g.id > 0
  }

  class AddSys {
    var db: Db

    constructor (db: Db)
      ensures this.db == db
    {
      this.db := db;
    }

    /** The ids are those that `SELECT rowid FROM PropertyValues WHERE FK_BundleID = ?` yields, in whatever
        order. */
    method DeleteBundle(bundle: nat)
      modifies this
      ensures db == Repository.DeleteBundle(old(db), bundle)
    {
      var todo, done := ValuesOf(db, bundle), {};
      SurvivingAll(db.props);
      while todo != {}
        invariant done + todo == ValuesOf(old(db), bundle) && done !! todo
        invariant db == old(db).(values := old(db).values - done, props := Surviving(old(db).props, done))
        decreases todo
      {
        var id :| id in todo;
        DeleteStep(db, old(db), done, id);
        hide Surviving, ValuesOf;
        DeleteValue(id);
        DeletePropertiesOf(id);
        todo, done := todo - {id}, done + {id};
      }
      assert done == ValuesOf(old(db), bundle);
      db := db.(bundles := OtherBundles(db.bundles, bundle));
    }

    method DeleteValue(id: nat)
      modifies this
      ensures db == old(db).(values := old(db).values - {id})
    {
      db := db.(values := db.values - {id});
    }

    /** `DELETE FROM Properties WHERE FK_PropertyValueID = ?`. */
    method DeletePropertiesOf(value: nat)
      modifies this
      ensures db == old(db).(props := Surviving(old(db).props, {value}))
    {
      db := db.(props := Surviving(db.props, {value}));
    }

    /** The id of the group of this name, which is created if there is none. */
    method GetOrCreateGroup(parent: GroupParent, name: string) returns (group: nat)
      requires GroupIdsPositive(db)
      modifies this
      ensures db == EnsureGroup(old(db), parent, name) && group == FindGroup(db.groups, parent, name) && GroupIdsPositive(db)
    {
      group := FindGroup(db.groups, parent, name);
      if group == 0 {
        group := db.nextGroup;
        Integrity.GroupAppended(db.groups, GroupRow(group, name, parent));
        db := db.(groups := db.groups + [GroupRow(group, name, parent)], nextGroup := group + 1);
      }
    }

    /** `importProp`: for a page, its group, then its children, then the page itself. */
    method ImportProp(bundle: nat, at: Place, p: Prop)
      requires GroupIdsPositive(db)
      modifies this
      ensures db == Repository.ImportProp(old(db), bundle, at, p) && GroupIdsPositive(db)
      decreases p
    {
      var content: Content;
      match p {
        case Text(_, value) => content := TextValue(value);
        case Page(key, children) =>
          var group := GetOrCreateGroup(PageParent(at), key);
          ghost var db1 := db;
          assert children[..0] == [];
          for i := 0 to |children|
            invariant db == ImportProps(db1, bundle, at.(page := group), children[..i]) && GroupIdsPositive(db)
          {
            ImportPropsAppend(db1, bundle, at.(page := group), children[..i], children[i]);
            assert children[..i + 1] == children[..i] + [children[i]];
            ImportProp(bundle, at.(page := group), children[i]);
          }
          assert children[..|children|] == children;
          content := PageValue(group);
      }
      db := AddProperty(db, PropParent(at), Value(bundle, p.key, content));
    }

    method ImportAll(bundle: nat, at: Place, ps: seq<Prop>)
      requires GroupIdsPositive(db)
      modifies this
      ensures db == ImportProps(old(db), bundle, at, ps) && GroupIdsPositive(db)
    {
      assert ps[..0] == [];
      for i := 0 to |ps|
        invariant db == ImportProps(old(db), bundle, at, ps[..i]) && GroupIdsPositive(db)
      {
        ImportPropsAppend(old(db), bundle, at, ps[..i], ps[i]);
        assert ps[..i + 1] == ps[..i] + [ps[i]];
        ImportProp(bundle, at, ps[i]);
      }
      assert ps[..|ps|] == ps;
    }

    /** The loop over the class's instances. */
    method ImportInstances(bundle: nat, service: nat, insts: seq<Instance>)
      requires GroupIdsPositive(db)
      modifies this
      ensures db == Repository.ImportInstances(old(db), bundle, service, insts)
    {
      hide ImportProps;
      for i := 0 to |insts|
        invariant GroupIdsPositive(db)
        invariant Repository.ImportInstances(db, bundle, service, insts[i..]) == Repository.ImportInstances(old(db), bundle, service, insts)
      {
        assert insts[i..][0] == insts[i] && insts[i..][1..] == insts[i + 1..];
        db := EnsureInstance(db, service, insts[i].name);
        ImportAll(bundle, Place(service, FindInstance(db.instances, service, insts[i].name), 0), insts[i].props);
      }
    }

    /** `import`. The table of bundles takes layers 1 to 4 only; otherwise the program ends before the
        transaction is committed. */
    method Import(layer: int, file: string, c: Class) returns (ok: bool)
      requires GroupIdsPositive(db)
      modifies this
      ensures ok <==> 1 <= layer <= 4
      ensures db == if ok then Repository.Import(old(db), layer, file, c) else old(db)
    {
      if !(1 <= layer <= 4) { return false; }
      var bundle := db.nextBundle;
      var previous := FindBundle(db.bundles, file);
      if previous.Some? && previous.value.refs == 0 { DeleteBundle(previous.value.id); }
      hide FindBundle, Repository.DeleteBundle, ImportProps, Repository.ImportInstances;
      db := AddBundle(db, file, layer);
      db := EnsureService(db, c.name);
      var service := FindService(db.services, c.name);
      ImportAll(bundle, Place(service, 0, 0), c.props);
      ImportInstances(bundle, service, c.instances);
      return true;
    }
  }
}
