/** Lists of properties and the place each is stored under: the pure part of re-reading an import. */
module Sections {
  import opened Ucl
  import opened Repository
  import opened Rebuild

  /** A list of sibling properties and where it is stored. */
  datatype Section = Section(at: Place, props: seq<Prop>)

  /** The sections of all pages in a list, at any depth. */
  function NestedOf(groups: seq<GroupRow>, at: Place, p: Prop): seq<Section>
    decreases p
  {
    match p
    case Text(_, _) => []
    case Page(key, children) =>
      [Section(Inside(groups, at, key), children)] + Nested(groups, Inside(groups, at, key), children)
  }

  function Nested(groups: seq<GroupRow>, at: Place, ps: seq<Prop>): seq<Section>
    decreases ps
  {
    if ps == [] then [] else NestedOf(groups, at, ps[0]) + Nested(groups, at, ps[1..])
  }

  /** Every page below has its group, younger than the group it is in. */
  ghost predicate Resolved(groups: seq<GroupRow>, at: Place, ps: seq<Prop>)
    decreases ps
  {
    forall i :: 0 <= i < |ps| && ps[i].Page? ==>
      && GroupOf(groups, at, ps[i].key) > at.page
      && Resolved(groups, Inside(groups, at, ps[i].key), ps[i].children)
  }

  /** What one property contributes to its own section. */
  function Top(groups: seq<GroupRow>, at: Place, p: Prop): (string, Content) {
    match p
    case Text(key, value) => (key, TextValue(value))
    case Page(key, _) => (key, PageValue(GroupOf(groups, at, key)))
  }

  function Tops(groups: seq<GroupRow>, at: Place, ps: seq<Prop>): (r: seq<(string, Content)>)
    ensures |r| == |ps| && forall i :: 0 <= i < |ps| ==> r[i] == Top(groups, at, ps[i])
  {
    if ps == [] then [] else [Top(groups, at, ps[0])] + Tops(groups, at, ps[1..])
  }

  /** Everything that sections stored under `parent` put there, in order. */
  function Gather(groups: seq<GroupRow>, ss: seq<Section>, parent: Parent): seq<(string, Content)> {
    if ss == [] then []
    else (if PropParent(ss[0].at) == parent then Tops(groups, ss[0].at, ss[0].props) else []) + Gather(groups, ss[1..], parent)
  }

  // ------------------------------------------------------------------------ concatenation

  lemma {:induction false} AtConcat(a: seq<Item>, b: seq<Item>, parent: Parent)
    ensures At(a + b, parent) == At(a, parent) + At(b, parent)
  {
    if a == [] {
      assert a + b == b;
    } else {
      assert (a + b)[1..] == a[1..] + b;
      AtConcat(a[1..], b, parent);
      var first := if a[0].parent == parent then [(a[0].key, a[0].content)] else [];
      assert At(a + b, parent) == first + At(a[1..] + b, parent) && At(a, parent) == first + At(a[1..], parent);
      hide At;
      Regroup(first, At(a[1..], parent), At(b, parent));
    }
  }

  lemma {:induction false} GatherConcat(groups: seq<GroupRow>, a: seq<Section>, b: seq<Section>, parent: Parent)
    ensures Gather(groups, a + b, parent) == Gather(groups, a, parent) + Gather(groups, b, parent)
  {
    if a == [] {
      assert a + b == b;
    } else {
      assert (a + b)[1..] == a[1..] + b;
      GatherConcat(groups, a[1..], b, parent);
      var first := if PropParent(a[0].at) == parent then Tops(groups, a[0].at, a[0].props) else [];
      assert Gather(groups, a + b, parent) == first + Gather(groups, a[1..] + b, parent);
      assert Gather(groups, a, parent) == first + Gather(groups, a[1..], parent);
      hide Gather;
      Regroup(first, Gather(groups, a[1..], parent), Gather(groups, b, parent));
    }
  }

  /** Sections elsewhere, or without properties, contribute nothing. */
  lemma {:induction false} GatherNothing(groups: seq<GroupRow>, ss: seq<Section>, parent: Parent)
    requires forall s :: s in ss && PropParent(s.at) == parent ==> s.props == []
    ensures Gather(groups, ss, parent) == []
  {
    if ss != [] {
      assert ss[0] in ss;
      GatherNothing(groups, ss[1..], parent);
    }
  }

  lemma {:induction false} NestedMember(groups: seq<GroupRow>, at: Place, ps: seq<Prop>, s: Section)
    ensures s in Nested(groups, at, ps) <==> exists i :: 0 <= i < |ps| && s in NestedOf(groups, at, ps[i])
    decreases ps
  {
    if ps != [] {
      NestedMember(groups, at, ps[1..], s);
      if s in Nested(groups, at, ps[1..]) {
        var i :| 0 <= i < |ps[1..]| && s in NestedOf(groups, at, ps[1..][i]);
        assert s in NestedOf(groups, at, ps[i + 1]);
      }
      if i :| 0 <= i < |ps| && s in NestedOf(groups, at, ps[i]) {
        assert i > 0 ==> s in NestedOf(groups, at, ps[1..][i - 1]);
      }
    }
  }

  /** Pages below a place are stored under younger groups than the place's own. */
  lemma {:induction false} NestedBelow(groups: seq<GroupRow>, at: Place, ps: seq<Prop>, s: Section)
    requires Resolved(groups, at, ps) && s in Nested(groups, at, ps)
    ensures s.at.page > at.page && s.at.service == at.service
    decreases ps
  {
    NestedMember(groups, at, ps, s);
    var i :| 0 <= i < |ps| && s in NestedOf(groups, at, ps[i]);
    var inside := Inside(groups, at, ps[i].key);
    if s != Section(inside, ps[i].children) {
      NestedBelow(groups, inside, ps[i].children, s);
    }
  }

  // ------------------------------------------------------------------------ stored items = gathered sections

  lemma ResolvedParts(groups: seq<GroupRow>, at: Place, ps: seq<Prop>)
    requires Resolved(groups, at, ps) && ps != []
    ensures Resolved(groups, at, ps[1..])
    ensures ps[0].Page? ==> GroupOf(groups, at, ps[0].key) > at.page && Resolved(groups, Inside(groups, at, ps[0].key), ps[0].children)
  {
    assert forall i :: 0 <= i < |ps[1..]| ==> ps[1..][i] == ps[i + 1];
  }

  /** The items an import stores under `parent`: the list's own, or those of the pages below. */
  lemma {:induction false} AtFlatProps(groups: seq<GroupRow>, at: Place, ps: seq<Prop>, parent: Parent)
    requires Resolved(groups, at, ps)
    ensures At(FlatProps(groups, at, ps), parent) ==
      if parent == PropParent(at) then Tops(groups, at, ps) else Gather(groups, Nested(groups, at, ps), parent)
    decreases ps
  {
    if ps != [] {
      ResolvedParts(groups, at, ps);
      AtFlatProps(groups, at, ps[1..], parent);
      AtConcat(FlatProp(groups, at, ps[0]), FlatProps(groups, at, ps[1..]), parent);
      GatherConcat(groups, NestedOf(groups, at, ps[0]), Nested(groups, at, ps[1..]), parent);
      AtFlatProp(groups, at, ps[0], parent);
    }
  }

  lemma {:induction false} AtFlatProp(groups: seq<GroupRow>, at: Place, p: Prop, parent: Parent)
    requires p.Page? ==> GroupOf(groups, at, p.key) > at.page && Resolved(groups, Inside(groups, at, p.key), p.children)
    ensures At(FlatProp(groups, at, p), parent) ==
      if parent == PropParent(at) then [Top(groups, at, p)] else Gather(groups, NestedOf(groups, at, p), parent)
    decreases p
  {
    match p
    case Text(key, value) =>
      assert FlatProp(groups, at, p)[1..] == [];
    case Page(key, children) =>
      var inside := Inside(groups, at, key);
      var own := Item(PropParent(at), key, PageValue(GroupOf(groups, at, key)));
      AtFlatProps(groups, inside, children, parent);
      AtConcat(FlatProps(groups, inside, children), [own], parent);
      assert [own][1..] == [];
      assert PropParent(inside) == OfGroup(inside.page);
      var nested := Nested(groups, inside, children);
      assert NestedOf(groups, at, p)[1..] == nested;
      if parent == PropParent(at) || parent == PropParent(inside) {
        forall s | s in nested ensures PropParent(s.at) != parent {
          NestedBelow(groups, inside, children, s);
        }
        GatherNothing(groups, nested, parent);
      }
      assert FlatProp(groups, at, p) == FlatProps(groups, inside, children) + [own];
      assert At([own], parent) == if own.parent == parent then [(own.key, own.content)] else [];
      var below := if PropParent(inside) == parent then Tops(groups, inside, children) else [];
      assert Gather(groups, NestedOf(groups, at, p), parent) == below + Gather(groups, nested, parent);
      hide At, Gather, FlatProp, FlatProps, Nested, NestedOf, Tops, Resolved;
      assert parent != PropParent(at) ==> At(FlatProps(groups, inside, children), parent) + [] == At(FlatProps(groups, inside, children), parent);
  }

  /** A list and everything below it. */
  function SectionsOf(groups: seq<GroupRow>, at: Place, ps: seq<Prop>): seq<Section> {
    [Section(at, ps)] + Nested(groups, at, ps)
  }

  lemma AtIsGather(groups: seq<GroupRow>, at: Place, ps: seq<Prop>, parent: Parent)
    requires Resolved(groups, at, ps)
    ensures At(FlatProps(groups, at, ps), parent) == Gather(groups, SectionsOf(groups, at, ps), parent)
  {
    AtFlatProps(groups, at, ps, parent);
    assert SectionsOf(groups, at, ps)[1..] == Nested(groups, at, ps);
    if parent == PropParent(at) {
      forall s | s in Nested(groups, at, ps) ensures PropParent(s.at) != parent {
        NestedBelow(groups, at, ps, s);
      }
      GatherNothing(groups, Nested(groups, at, ps), parent);
    }
  }

  // ------------------------------------------------------------------------ when re-reading is exact

  /** What is stored under the section's place is exactly its own properties. */
  ghost predicate Clear(groups: seq<GroupRow>, items: seq<Item>, s: Section) {
    At(items, PropParent(s.at)) == Tops(groups, s.at, s.props)
  }

  /** `items` is what storing all of `ss` amounts to. */
  ghost predicate Stores(groups: seq<GroupRow>, items: seq<Item>, ss: seq<Section>) {
    forall parent :: At(items, parent) == Gather(groups, ss, parent)
  }

  /** Sections that share a place are all empty. */
  ghost predicate ClashFree(ss: seq<Section>) {
    forall i, j :: 0 <= i < j < |ss| && PropParent(ss[i].at) == PropParent(ss[j].at) ==> ss[i].props == [] && ss[j].props == []
  }

  lemma GatherAround(groups: seq<GroupRow>, ss: seq<Section>, i: nat)
    requires i < |ss|
    ensures var parent := PropParent(ss[i].at);
      Gather(groups, ss, parent) ==
        Gather(groups, ss[..i], parent) + Tops(groups, ss[i].at, ss[i].props) + Gather(groups, ss[i + 1..], parent)
  {
    var parent := PropParent(ss[i].at);
    GatherConcat(groups, ss[..i], ss[i..], parent);
    assert ss[..i] + ss[i..] == ss;
    assert ss[i..][1..] == ss[i + 1..];
  }

  /** If the number of rows is right, so are the rows. */
  lemma LengthForces(groups: seq<GroupRow>, items: seq<Item>, ss: seq<Section>, s: Section)
    requires Stores(groups, items, ss) && s in ss && |At(items, PropParent(s.at))| == |s.props|
    ensures Clear(groups, items, s)
  {
    var i :| 0 <= i < |ss| && ss[i] == s;
    GatherAround(groups, ss, i);
    var parent := PropParent(s.at);
    assert Gather(groups, ss[..i], parent) == [] && Gather(groups, ss[i + 1..], parent) == [];
    assert [] + Tops(groups, s.at, s.props) + [] == Tops(groups, s.at, s.props);
  }

  lemma {:induction false} GatherAtLeast(groups: seq<GroupRow>, ss: seq<Section>, s: Section)
    requires s in ss
    ensures |Gather(groups, ss, PropParent(s.at))| >= |s.props|
  {
    var i :| 0 <= i < |ss| && ss[i] == s;
    GatherAround(groups, ss, i);
  }

  lemma ClearIffClashFree(groups: seq<GroupRow>, items: seq<Item>, ss: seq<Section>)
    requires Stores(groups, items, ss)
    ensures (forall s :: s in ss ==> Clear(groups, items, s)) <==> ClashFree(ss)
  {
    if forall s :: s in ss ==> Clear(groups, items, s) {
      forall i, j | 0 <= i < j < |ss| && PropParent(ss[i].at) == PropParent(ss[j].at)
        ensures ss[i].props == [] && ss[j].props == []
      {
        GatherAround(groups, ss, i);
        assert ss[j] in ss[i + 1..] by { assert ss[i + 1..][j - i - 1] == ss[j]; }
        GatherAtLeast(groups, ss[i + 1..], ss[j]);
        assert Clear(groups, items, ss[i]) && Clear(groups, items, ss[j]);
      }
    }
    if ClashFree(ss) {
      forall s | s in ss ensures Clear(groups, items, s) {
        var i :| 0 <= i < |ss| && ss[i] == s;
        GatherAround(groups, ss, i);
        GatherNothing(groups, ss[..i], PropParent(s.at));
        GatherNothing(groups, ss[i + 1..], PropParent(s.at));
      }
    }
  }

  lemma NestedSubset(groups: seq<GroupRow>, at: Place, ps: seq<Prop>, i: nat)
    requires i < |ps| && ps[i].Page?
    ensures forall s :: s in SectionsOf(groups, Inside(groups, at, ps[i].key), ps[i].children) ==> s in Nested(groups, at, ps)
  {
    forall s | s in SectionsOf(groups, Inside(groups, at, ps[i].key), ps[i].children) ensures s in Nested(groups, at, ps) {
      NestedMember(groups, at, ps, s);
      assert s in NestedOf(groups, at, ps[i]);
    }
  }

  ghost predicate AllClear(groups: seq<GroupRow>, items: seq<Item>, at: Place, ps: seq<Prop>) {
    forall s :: s in SectionsOf(groups, at, ps) ==> Clear(groups, items, s)
  }

  /** The list and all pages below it are read back exactly when each of their places is clear. */
  lemma {:induction false} ReadsIffClear(groups: seq<GroupRow>, items: seq<Item>, ss: seq<Section>, at: Place, ps: seq<Prop>)
    requires Stores(groups, items, ss) && Resolved(groups, at, ps)
    requires forall s :: s in SectionsOf(groups, at, ps) ==> s in ss
    ensures Reads(items, PropParent(at), ps) <==> AllClear(groups, items, at, ps)
    decreases ps
  {
    var own := Section(at, ps);
    assert SectionsOf(groups, at, ps)[0] == own;
    forall i | 0 <= i < |ps| && ps[i].Page?
      ensures Reads(items, OfGroup(GroupOf(groups, at, ps[i].key)), ps[i].children) <==>
              AllClear(groups, items, Inside(groups, at, ps[i].key), ps[i].children)
    {
      NestedSubset(groups, at, ps, i);
      ReadsIffClear(groups, items, ss, Inside(groups, at, ps[i].key), ps[i].children);
    }
    if Reads(items, PropParent(at), ps) {
      LengthForces(groups, items, ss, own);
      ReadsThenNestedClear(groups, items, at, ps);
    }
    if AllClear(groups, items, at, ps) {
      ClearThenReads(groups, items, at, ps);
    }
  }

  /** The pages of a list, read back one by one. */
  ghost predicate PagesAgree(groups: seq<GroupRow>, items: seq<Item>, at: Place, ps: seq<Prop>) {
    forall i :: 0 <= i < |ps| && ps[i].Page? ==>
      (Reads(items, OfGroup(GroupOf(groups, at, ps[i].key)), ps[i].children) <==>
       AllClear(groups, items, Inside(groups, at, ps[i].key), ps[i].children))
  }

  lemma ReadsThenNestedClear(groups: seq<GroupRow>, items: seq<Item>, at: Place, ps: seq<Prop>)
    requires PagesAgree(groups, items, at, ps) && Clear(groups, items, Section(at, ps)) && Reads(items, PropParent(at), ps)
    ensures AllClear(groups, items, at, ps)
  {
    forall s | s in Nested(groups, at, ps) ensures Clear(groups, items, s) {
      NestedMember(groups, at, ps, s);
      var i :| 0 <= i < |ps| && s in NestedOf(groups, at, ps[i]);
      assert ReadsOne(items, At(items, PropParent(at))[i], ps[i]);
      assert At(items, PropParent(at))[i] == Top(groups, at, ps[i]);
      assert s in SectionsOf(groups, Inside(groups, at, ps[i].key), ps[i].children);
    }
  }

  lemma ClearThenReads(groups: seq<GroupRow>, items: seq<Item>, at: Place, ps: seq<Prop>)
    requires PagesAgree(groups, items, at, ps) && AllClear(groups, items, at, ps)
    ensures Reads(items, PropParent(at), ps)
  {
    assert SectionsOf(groups, at, ps)[0] == Section(at, ps);
    assert Clear(groups, items, Section(at, ps));
    forall i | 0 <= i < |ps| ensures ReadsOne(items, At(items, PropParent(at))[i], ps[i]) {
      assert At(items, PropParent(at))[i] == Top(groups, at, ps[i]);
      if ps[i].Page? {
        NestedSubset(groups, at, ps, i);
        assert forall s :: s in Nested(groups, at, ps) ==> s in SectionsOf(groups, at, ps);
      }
    }
  }
}
