/** The composed view of an instance: for each key, what the instance says overrides what its service
    says, and at the same level a higher layer overrides a lower one. */
module Composed {
  /** A row of AllValues: level 0 for the service's properties, 1 for the instance's own. */
  datatype Row = Row(level: int, property: nat, value: nat, layer: int, key: string)

  ghost function MaxOf(s: set<int>): (m: int)
    requires s != {}
    ensures m in s && forall x :: x in s ==> x <= m
  {
    assert (forall x :: x !in s) ==> s == {};
    var x :| x in s;
    if s == {x} then x
    else
      assert s - {x} == {} ==> s == {x};
      var y := MaxOf(s - {x});
      assert forall z :: z in s ==> z == x || z in s - {x};
      if x > y then x else y
  }

  // ------------------------------------------------------------------------ the query, table by table

  ghost function LevelsOf(rows: set<Row>, key: string): set<int> {
    set r | r in rows && r.key == key :: r.level
  }

  ghost function LayersAt(rows: set<Row>, key: string, level: int): set<int> {
    set r | r in rows && r.key == key && r.level == level :: r.layer
  }

  ghost function LayersOf(rows: set<Row>, key: string): set<int> {
    set r | r in rows && r.key == key :: r.layer
  }

  /** MaxInstance(PropertyKey, Instance). */
  ghost function MaxInstance(rows: set<Row>): set<(string, int)> {
    set r | r in rows :: (assert r.level in LevelsOf(rows, r.key); (r.key, MaxOf(LevelsOf(rows, r.key))))
  }

  /** MaxLayerForHighestInstance(PropertyKey, Instance, Layer). */
  ghost function MaxLayer(rows: set<Row>): set<(string, int, int)> {
    set r, m | r in rows && m in MaxInstance(rows) && r.key == m.0 && r.level == m.1 ::
      (assert r.layer in LayersAt(rows, m.0, m.1); (m.0, m.1, MaxOf(LayersAt(rows, m.0, m.1))))
  }

  /** The final join. */
  ghost function Select(rows: set<Row>): set<Row> {
    set r, m | r in rows && m in MaxLayer(rows) && m == (r.key, r.level, r.layer) :: r
  }

  /** The earlier draft, with the two maxima taken independently. */
  ghost function DraftSelect(rows: set<Row>): set<Row> {
    set r | r in rows
      && (assert r.level in LevelsOf(rows, r.key); r.level == MaxOf(LevelsOf(rows, r.key)))
      && (assert r.layer in LayersOf(rows, r.key); r.layer == MaxOf(LayersOf(rows, r.key)))
  }

  // ------------------------------------------------------------------------ what it computes

  /** `a` overrides `b`: same key, and higher in the order (level, layer). */
  predicate Overrides(a: Row, b: Row) {
    a.key == b.key && (a.level > b.level || (a.level == b.level && a.layer > b.layer))
  }

  lemma SelectAsMaxima(rows: set<Row>, r: Row)
    requires r in rows
    ensures r.level in LevelsOf(rows, r.key) && r.layer in LayersAt(rows, r.key, r.level)
    ensures r in Select(rows) <==>
      r.level == MaxOf(LevelsOf(rows, r.key)) && r.layer == MaxOf(LayersAt(rows, r.key, r.level))
  {
    assert r.level in LevelsOf(rows, r.key) && r.layer in LayersAt(rows, r.key, r.level);
    var top := MaxOf(LevelsOf(rows, r.key));
    assert (r.key, top) in MaxInstance(rows);
    if r.level == top && r.layer == MaxOf(LayersAt(rows, r.key, r.level)) {
      assert (r.key, r.level, r.layer) in MaxLayer(rows);
    }
    if r in Select(rows) {
      var m :| m in MaxLayer(rows) && m == (r.key, r.level, r.layer);
      var q, n :| q in rows && n in MaxInstance(rows) && q.key == n.0 && q.level == n.1 && m.0 == n.0 && m.1 == n.1
        && LayersAt(rows, n.0, n.1) != {} && m.2 == MaxOf(LayersAt(rows, n.0, n.1));
    }
  }

  /** A property is selected exactly when no property with the same key overrides it. */
  lemma SelectIsOverride(rows: set<Row>, r: Row)
    ensures r in Select(rows) <==> r in rows && forall q :: q in rows ==> !Overrides(q, r)
  {
    if r in rows {
      SelectAsMaxima(rows, r);
      if r in Select(rows) {
        forall q | q in rows ensures !Overrides(q, r) {
          if q.key == r.key {
            assert q.level in LevelsOf(rows, r.key);
            if q.level == r.level { assert q.layer in LayersAt(rows, r.key, r.level); }
          }
        }
      } else if r.level != MaxOf(LevelsOf(rows, r.key)) {
        var q :| q in rows && q.key == r.key && q.level == MaxOf(LevelsOf(rows, r.key));
        assert Overrides(q, r);
      } else {
        var q :| q in rows && q.key == r.key && q.level == r.level && q.layer == MaxOf(LayersAt(rows, r.key, r.level));
        assert Overrides(q, r);
      }
    }
  }

  /** Every key that is present at either level is selected. */
  lemma EveryKeySelected(rows: set<Row>, r: Row)
    requires r in rows
    ensures exists q :: q in Select(rows) && q.key == r.key
  {
    assert r.level in LevelsOf(rows, r.key);
    var top := MaxOf(LevelsOf(rows, r.key));
    var p :| p in rows && p.key == r.key && p.level == top;
    assert p.layer in LayersAt(rows, r.key, top);
    var q :| q in rows && q.key == r.key && q.level == top && q.layer == MaxOf(LayersAt(rows, r.key, top));
    SelectAsMaxima(rows, q);
  }

  /** ... exactly once, if no two rows agree on key, level and layer. */
  lemma SelectedOnce(rows: set<Row>, a: Row, b: Row)
    requires a in Select(rows) && b in Select(rows) && a.key == b.key
    requires forall p, q :: p in rows && q in rows && p.key == q.key && p.level == q.level && p.layer == q.layer ==> p == q
    ensures a == b
  {
    SelectIsOverride(rows, a);
    SelectIsOverride(rows, b);
    assert !Overrides(a, b) && !Overrides(b, a);
  }

  /** The key's highest layer anywhere is found at its highest level. */
  ghost predicate HighestLayerOnTop(rows: set<Row>, key: string)
    requires LevelsOf(rows, key) != {} && LayersOf(rows, key) != {}
  {
    exists q :: q in rows && q.key == key && q.level == MaxOf(LevelsOf(rows, key)) && q.layer == MaxOf(LayersOf(rows, key))
  }

  /** The draft selects a subset of what the final query selects. */
  lemma DraftIsSubset(rows: set<Row>)
    ensures DraftSelect(rows) <= Select(rows)
  {
    forall r | r in DraftSelect(rows) ensures r in Select(rows) {
      SelectAsMaxima(rows, r);
      var m := MaxOf(LayersAt(rows, r.key, r.level));
      var q :| q in rows && q.key == r.key && q.level == r.level && q.layer == m;
      assert q.layer in LayersOf(rows, r.key);
    }
  }

  ghost predicate AllOnTop(rows: set<Row>) {
    forall r :: r in rows ==>
      (assert r.level in LevelsOf(rows, r.key) && r.layer in LayersOf(rows, r.key); HighestLayerOnTop(rows, r.key))
  }

  /** They agree exactly when every key attains its highest layer at its highest level. */
  lemma DraftAgreesIff(rows: set<Row>)
    ensures DraftSelect(rows) == Select(rows) <==> AllOnTop(rows)
  {
    DraftIsSubset(rows);
    if DraftSelect(rows) == Select(rows) {
      forall r | r in rows
        ensures (assert r.level in LevelsOf(rows, r.key) && r.layer in LayersOf(rows, r.key); HighestLayerOnTop(rows, r.key))
      {
        EveryKeySelected(rows, r);
        var q :| q in Select(rows) && q.key == r.key;
        assert q in DraftSelect(rows);
      }
    }
    if AllOnTop(rows) {
      forall r | r in Select(rows) ensures r in DraftSelect(rows) {
        assert r.level in LevelsOf(rows, r.key) && r.layer in LayersOf(rows, r.key);
        assert HighestLayerOnTop(rows, r.key);
        var q :| q in rows && q.key == r.key && q.level == MaxOf(LevelsOf(rows, r.key)) && q.layer == MaxOf(LayersOf(rows, r.key));
        SelectIsOverride(rows, r);
        assert !Overrides(q, r);
        SelectAsMaxima(rows, r);
      }
    }
  }
}
