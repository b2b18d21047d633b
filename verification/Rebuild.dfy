/** Import followed by re-reading: the rows of the new bundle, in key order, against the tree that was
    imported. Pages are merged by path, because groups are looked up by parent and name and have no
    instance parent; the theorem says exactly when that does no harm. */
module Rebuild {
  import opened Ucl
  import opened Repository
  import opened Integrity

  // ------------------------------------------------------------------------ what is stored for a bundle

  datatype Item = Item(parent: Parent, key: string, content: Content)

  /** The properties of one bundle in PropertyID order, joined with their values. */
  function View(db: Db, bundle: nat): seq<Item> {
    ViewRows(db.values, db.props, bundle)
  }

  function ViewRow(values: map<nat, Value>, r: PropRow, bundle: nat): seq<Item> {
    if r.value in values && values[r.value].bundle == bundle
    then [Item(r.parent, values[r.value].key, values[r.value].content)] else []
  }

  function ViewRows(values: map<nat, Value>, rows: seq<PropRow>, bundle: nat): seq<Item> {
    if rows == [] then [] else ViewRow(values, rows[0], bundle) + ViewRows(values, rows[1..], bundle)
  }

  /** The (key, content) pairs stored under one parent. */
  function At(items: seq<Item>, parent: Parent): seq<(string, Content)> {
    if items == [] then []
    else (if items[0].parent == parent then [(items[0].key, items[0].content)] else []) + At(items[1..], parent)
  }

  /** Re-reading the rows under `parent` yields the list `ps`. */
  ghost predicate Reads(items: seq<Item>, parent: Parent, ps: seq<Prop>)
    decreases ps
  {
    var es := At(items, parent);
    |es| == |ps| && forall i :: 0 <= i < |ps| ==> ReadsOne(items, es[i], ps[i])
  }

  ghost predicate ReadsOne(items: seq<Item>, e: (string, Content), p: Prop)
    decreases p
  {
    match p
    case Text(key, value) => e == (key, TextValue(value))
    case Page(key, children) => e.0 == key && e.1.PageValue? && Reads(items, OfGroup(e.1.group), children)
  }

  /** At most one tree can be read from a set of rows. */
  lemma {:induction false} ReadsIsFunctional(items: seq<Item>, parent: Parent, ps: seq<Prop>, qs: seq<Prop>)
    requires Reads(items, parent, ps) && Reads(items, parent, qs)
    ensures ps == qs
    decreases ps
  {
    var es := At(items, parent);
    forall i | 0 <= i < |ps| ensures ps[i] == qs[i] {
      assert ReadsOne(items, es[i], ps[i]) && ReadsOne(items, es[i], qs[i]);
      if ps[i].Page? {
        ReadsIsFunctional(items, OfGroup(es[i].1.group), ps[i].children, qs[i].children);
      }
    }
  }

  // ------------------------------------------------------------------------ what an import stores

  function GroupOf(groups: seq<GroupRow>, at: Place, key: string): nat {
    FindGroup(groups, PageParent(at), key)
  }

  function Inside(groups: seq<GroupRow>, at: Place, key: string): Place {
    at.(page := GroupOf(groups, at, key))
  }

  /** The items an import of `p` adds, children of a page before the page itself. */
  function FlatProp(groups: seq<GroupRow>, at: Place, p: Prop): seq<Item>
    decreases p
  {
    match p
    case Text(key, value) => [Item(PropParent(at), key, TextValue(value))]
    case Page(key, children) =>
      FlatProps(groups, Inside(groups, at, key), children) + [Item(PropParent(at), key, PageValue(GroupOf(groups, at, key)))]
  }

  function FlatProps(groups: seq<GroupRow>, at: Place, ps: seq<Prop>): seq<Item>
    decreases ps
  {
    if ps == [] then [] else FlatProp(groups, at, ps[0]) + FlatProps(groups, at, ps[1..])
  }

  lemma {:induction false} ViewRowsAppend(values: map<nat, Value>, rows: seq<PropRow>, r: PropRow, bundle: nat)
    ensures ViewRows(values, rows + [r], bundle) == ViewRows(values, rows, bundle) + ViewRow(values, r, bundle)
  {
    if rows == [] {
      assert rows + [r] == [r];
    } else {
      assert (rows + [r])[1..] == rows[1..] + [r];
      ViewRowsAppend(values, rows[1..], r, bundle);
    }
  }

  lemma {:induction false} ViewRowsStable(values: map<nat, Value>, values': map<nat, Value>, rows: seq<PropRow>, bundle: nat)
    requires forall i :: 0 <= i < |rows| ==> rows[i].value in values && rows[i].value in values' && values'[rows[i].value] == values[rows[i].value]
    ensures ViewRows(values', rows, bundle) == ViewRows(values, rows, bundle)
  {
    if rows != [] { ViewRowsStable(values, values', rows[1..], bundle); }
  }

  lemma AddPropertyView(db: Db, parent: Parent, v: Value, bundle: nat)
    requires Valid(db)
    ensures View(AddProperty(db, parent, v), bundle) ==
      View(db, bundle) + (if v.bundle == bundle then [Item(parent, v.key, v.content)] else [])
  {
    var db' := AddProperty(db, parent, v);
    var r := PropRow(db.nextProp, parent, db.nextValue);
    assert db.nextValue !in db.values;
    ViewRowsAppend(db'.values, db.props, r, bundle);
    ViewRowsStable(db.values, db'.values, db.props, bundle);
  }

  /** The groups table still holds a group that was found before it grew. */
  lemma GroupKept(before: seq<GroupRow>, after: seq<GroupRow>, parent: GroupParent, name: string)
    requires before <= after && FindGroup(before, parent, name) != 0
    ensures FindGroup(after, parent, name) == FindGroup(before, parent, name)
  {
    GroupStable(before, after[|before|..], parent, name);
    assert before + after[|before|..] == after;
  }

  /** An import appends exactly `FlatProp` to its own bundle's view, in terms of any later state of the
      groups table, and leaves every other bundle's view alone. */
  lemma {:induction false} ImportPropView(db: Db, bundle: nat, at: Place, p: Prop, b: nat, groups: seq<GroupRow>)
    requires Valid(db) && PlaceOk(db, at) && HasBundle(db, bundle)
    requires ImportProp(db, bundle, at, p).groups <= groups
    ensures View(ImportProp(db, bundle, at, p), b) == View(db, b) + (if b == bundle then FlatProp(groups, at, p) else [])
    decreases p
  {
    hide Valid, Grown, View;
    match p
    case Text(key, value) =>
      AddPropertyView(db, PropParent(at), Value(bundle, key, TextValue(value)), b);
    case Page(key, children) =>
      var db1 := EnsureGroup(db, PageParent(at), key);
      EnsureGroupKeeps(db, PageParent(at), key);
      GrownKeepsRows(db, db1);
      assert View(db1, b) == View(db, b) by { EnsureGroupView(db, PageParent(at), key, b); }
      var group := FindGroup(db1.groups, PageParent(at), key);
      var in1 := at.(page := group);
      var db2 := ImportProps(db1, bundle, in1, children);
      ImportPropsKeeps(db1, bundle, in1, children);
      assert db1.groups <= db2.groups && db2.groups <= groups by { GroupsGrow(db1, db2); }
      GroupKept(db1.groups, groups, PageParent(at), key);
      ImportPropsView(db1, bundle, in1, children, b, groups);
      AddPropertyView(db2, PropParent(at), Value(bundle, key, PageValue(group)), b);
  }

  lemma EnsureGroupView(db: Db, parent: GroupParent, name: string, b: nat)
    ensures View(EnsureGroup(db, parent, name), b) == View(db, b)
  {
  }

  lemma GroupsGrow(a: Db, b: Db)
    requires Grown(a, b)
    ensures a.groups <= b.groups && a.instances <= b.instances
  {
  }

  lemma {:induction false} ImportPropsView(db: Db, bundle: nat, at: Place, ps: seq<Prop>, b: nat, groups: seq<GroupRow>)
    requires Valid(db) && PlaceOk(db, at) && HasBundle(db, bundle)
    requires ImportProps(db, bundle, at, ps).groups <= groups
    ensures View(ImportProps(db, bundle, at, ps), b) == View(db, b) + (if b == bundle then FlatProps(groups, at, ps) else [])
    decreases ps
  {
    if ps == [] {
      assert View(db, b) + [] == View(db, b);
    } else {
      hide Valid, Grown, View, PlaceOk, HasBundle, ImportProp, FlatProp;
      var db1 := ImportProp(db, bundle, at, ps[0]);
      ImportPropKeeps(db, bundle, at, ps[0]);
      PlaceStaysOk(db, db1, at, bundle);
      ImportPropsKeeps(db1, bundle, at, ps[1..]);
      GroupsGrow(db1, ImportProps(db, bundle, at, ps));
      ImportPropView(db, bundle, at, ps[0], b, groups);
      ImportPropsView(db1, bundle, at, ps[1..], b, groups);
      assert ImportProps(db, bundle, at, ps) == ImportProps(db1, bundle, at, ps[1..]);
      assert FlatProps(groups, at, ps) == FlatProp(groups, at, ps[0]) + FlatProps(groups, at, ps[1..]);
      hide ImportProps, FlatProps;
      Regroup(View(db, b), FlatProp(groups, at, ps[0]), FlatProps(groups, at, ps[1..]));
    }
  }
}
