/** The knowledge taxonomy as the server hands it out: the flat rows of the
    `knowledge` table regrouped into scenes, each holding categories, each
    holding items (`GET /api/knowledge`), and the start-up migration that
    flattens such a tree into the table. */
module KnowledgeTree {

  import opened Common

  /** One row of the `knowledge` table. */
  datatype KnowledgeRow = KnowledgeRow(id: string, scene: string, category: string, title: string,
                                       content: string, scoreWeight: int, standardCode: string)

  /** A leaf of the tree: a hazard description with its clause and weight. */
  datatype KnowledgeItem = KnowledgeItem(id: string, desc: string, clause: string, weight: int)

  /** A category ("type") of a scene. */
  datatype TypeGroup = TypeGroup(typeName: string, items: seq<KnowledgeItem>)

  /** A scene with its categories. */
  datatype SceneGroup = SceneGroup(scene: string, types: seq<TypeGroup>)

  /** The item a row becomes: title and content are renamed, and a falsy
      weight becomes 10. */
  function ItemOf(r: KnowledgeRow): (it: KnowledgeItem)
    ensures it.id == r.id && it.desc == r.title && it.clause == r.content
    ensures it.weight != 0 && (r.scoreWeight != 0 ==> it.weight == r.scoreWeight)
    ensures r.scoreWeight == 0 ==> it.weight == DefaultWeight
  {
    KnowledgeItem(r.id, r.title, r.content, OrDefault(r.scoreWeight, DefaultWeight))
  }

  function SceneNames(tree: seq<SceneGroup>): seq<string>
  {
    seq(|tree|, k requires 0 <= k < |tree| => tree[k].scene)
  }

  function TypeNames(types: seq<TypeGroup>): seq<string>
  {
    seq(|types|, j requires 0 <= j < |types| => types[j].typeName)
  }

  /** Adds a row's item to its category, creating the category at the end
      when the scene does not have it yet. */
  function AddToTypes(types: seq<TypeGroup>, r: KnowledgeRow): (res: seq<TypeGroup>)
    ensures |res| > 0
  {
    match IndexOf(TypeNames(types), r.category)
    case Some(j) => types[j := TypeGroup(types[j].typeName, types[j].items + [ItemOf(r)])]
    case None => types + [TypeGroup(r.category, [ItemOf(r)])]
  }

  /** One step of the regrouping loop: the row's item goes under its scene
      and category, each created at the end on first sight. */
  function AddRow(tree: seq<SceneGroup>, r: KnowledgeRow): seq<SceneGroup>
  {
    match IndexOf(SceneNames(tree), r.scene)
    case Some(k) => tree[k := SceneGroup(tree[k].scene, AddToTypes(tree[k].types, r))]
    case None => tree + [SceneGroup(r.scene, AddToTypes([], r))]
  }

  /** The regrouping of `rows` on top of an existing tree, row by row. */
  function Fold(acc: seq<SceneGroup>, rows: seq<KnowledgeRow>): seq<SceneGroup>
    decreases |rows|
  {
    if rows == [] then acc else Fold(AddRow(acc, rows[0]), rows[1..])
  }

  /** The `forEach` over the table's rows that builds the tree. */
  method Regroup(rows: seq<KnowledgeRow>) returns (tree: seq<SceneGroup>)
    ensures tree == Fold([], rows)
  {
    tree := [];
    var i := 0;
    while i < |rows|
      invariant 0 <= i <= |rows|
      invariant Fold(tree, rows[i..]) == Fold([], rows)
    {
      assert rows[i..][0] == rows[i] && rows[i..][1..] == rows[i + 1..];
      tree := AddRow(tree, rows[i]);
      i := i + 1;
    }
    assert rows[i..] == [];
  }

  // ---------------------------------------------------------------------
  // Where every row ends up

  /** The items of the rows with scene `s` and category `c`, in row order. */
  function ItemsIn(rows: seq<KnowledgeRow>, s: string, c: string): seq<KnowledgeItem>
  {
    if rows == [] then []
    else (if rows[0].scene == s && rows[0].category == c then [ItemOf(rows[0])] else [])
         + ItemsIn(rows[1..], s, c)
  }

  /** The items stored under category `c` (none when it is absent). */
  function TypeLookup(types: seq<TypeGroup>, c: string): seq<KnowledgeItem>
  {
    match IndexOf(TypeNames(types), c)
    case Some(j) => types[j].items
    case None => []
  }

  /** The items stored under scene `s`, category `c`. */
  function Lookup(tree: seq<SceneGroup>, s: string, c: string): seq<KnowledgeItem>
  {
    match IndexOf(SceneNames(tree), s)
    case Some(k) => TypeLookup(tree[k].types, c)
    case None => []
  }

  /** Scene names are distinct, category names are distinct within a scene,
      and no scene or category is empty. */
  predicate WellGrouped(tree: seq<SceneGroup>)
  {
    && NoDup(SceneNames(tree))
    && (forall k :: 0 <= k < |tree| ==> NoDup(TypeNames(tree[k].types)) && |tree[k].types| > 0)
    && (forall k, j :: 0 <= k < |tree| && 0 <= j < |tree[k].types| ==> |tree[k].types[j].items| > 0)
  }

  lemma {:induction false} AddToTypesLookup(types: seq<TypeGroup>, r: KnowledgeRow, c: string)
    ensures TypeLookup(AddToTypes(types, r), c)
            == TypeLookup(types, c) + (if r.category == c then [ItemOf(r)] else [])
  {
    var names := TypeNames(types);
    var res := AddToTypes(types, r);
    match IndexOf(names, r.category)
    case Some(j0) =>
      assert TypeNames(res) == names;
      if r.category == c {
        assert IndexOf(names, c) == Some(j0);
      }
    case None =>
      assert TypeNames(res) == names + [r.category];
      IndexOfSnoc(names, r.category, c);
  }

  lemma {:induction false} AddRowLookup(acc: seq<SceneGroup>, r: KnowledgeRow, s: string, c: string)
    ensures Lookup(AddRow(acc, r), s, c)
            == Lookup(acc, s, c) + (if r.scene == s && r.category == c then [ItemOf(r)] else [])
  {
    var names := SceneNames(acc);
    var res := AddRow(acc, r);
    match IndexOf(names, r.scene)
    case Some(k0) =>
      assert SceneNames(res) == names;
      if r.scene == s {
        assert IndexOf(names, s) == Some(k0);
        AddToTypesLookup(acc[k0].types, r, c);
      }
    case None =>
      assert SceneNames(res) == names + [r.scene];
      IndexOfSnoc(names, r.scene, s);
      if r.scene == s {
        AddToTypesLookup([], r, c);
        assert TypeNames([]) == [];
      }
  }

  lemma {:induction false} AddToTypesWellGrouped(types: seq<TypeGroup>, r: KnowledgeRow)
    requires NoDup(TypeNames(types))
    requires forall j :: 0 <= j < |types| ==> |types[j].items| > 0
    ensures NoDup(TypeNames(AddToTypes(types, r)))
    ensures forall j :: 0 <= j < |AddToTypes(types, r)| ==> |AddToTypes(types, r)[j].items| > 0
  {
    var names := TypeNames(types);
    match IndexOf(names, r.category)
    case Some(j0) =>
      assert TypeNames(AddToTypes(types, r)) == names;
    case None =>
      assert TypeNames(AddToTypes(types, r)) == names + [r.category];
  }

  lemma {:induction false} AddRowWellGrouped(acc: seq<SceneGroup>, r: KnowledgeRow)
    requires WellGrouped(acc)
    ensures WellGrouped(AddRow(acc, r))
  {
    var names := SceneNames(acc);
    var res := AddRow(acc, r);
    match IndexOf(names, r.scene)
    case Some(k0) =>
      assert SceneNames(res) == names;
      AddToTypesWellGrouped(acc[k0].types, r);
    case None =>
      assert SceneNames(res) == names + [r.scene];
      AddToTypesWellGrouped([], r);
      assert TypeNames([]) == [];
  }

  lemma {:induction false} FoldWellGrouped(acc: seq<SceneGroup>, rows: seq<KnowledgeRow>)
    requires WellGrouped(acc)
    ensures WellGrouped(Fold(acc, rows))
    decreases |rows|
  {
    if rows != [] {
      AddRowWellGrouped(acc, rows[0]);
      FoldWellGrouped(AddRow(acc, rows[0]), rows[1..]);
    }
  }

  lemma {:induction false} FoldLookup(acc: seq<SceneGroup>, rows: seq<KnowledgeRow>, s: string, c: string)
    ensures Lookup(Fold(acc, rows), s, c) == Lookup(acc, s, c) + ItemsIn(rows, s, c)
    decreases |rows|
  {
    if rows == [] {
      assert Lookup(acc, s, c) + [] == Lookup(acc, s, c);
    } else {
      var r := rows[0];
      var hit := if r.scene == s && r.category == c then [ItemOf(r)] else [];
      AddRowLookup(acc, r, s, c);
      FoldLookup(AddRow(acc, r), rows[1..], s, c);
      AppendAssoc(Lookup(acc, s, c), hit, ItemsIn(rows[1..], s, c));
    }
  }

  lemma {:induction false} ItemsInHasRow(rows: seq<KnowledgeRow>, i: nat)
    requires i < |rows|
    ensures ItemOf(rows[i]) in ItemsIn(rows, rows[i].scene, rows[i].category)
  {
    if i > 0 {
      ItemsInHasRow(rows[1..], i - 1);
    }
  }

  /** The regrouped tree has distinct, non-empty scenes and categories; every
      category holds exactly the items of the rows with its scene and
      category, in row order; and every row's item is found under its own
      scene and category. With the distinct names this places each row
      exactly once. */
  lemma RegroupPlacesEachRow(rows: seq<KnowledgeRow>)
    ensures WellGrouped(Fold([], rows))
    ensures forall s, c :: Lookup(Fold([], rows), s, c) == ItemsIn(rows, s, c)
    ensures var tree := Fold([], rows);
            forall k, j :: 0 <= k < |tree| && 0 <= j < |tree[k].types| ==>
              tree[k].types[j].items == ItemsIn(rows, tree[k].scene, tree[k].types[j].typeName)
    ensures forall i :: 0 <= i < |rows| ==>
              ItemOf(rows[i]) in Lookup(Fold([], rows), rows[i].scene, rows[i].category)
  {
    var tree := Fold([], rows);
    assert WellGrouped([]) by { assert SceneNames([]) == []; }
    FoldWellGrouped([], rows);
    forall s, c ensures Lookup(tree, s, c) == ItemsIn(rows, s, c) {
      FoldLookup([], rows, s, c);
      assert SceneNames([]) == [];
    }
    forall k, j | 0 <= k < |tree| && 0 <= j < |tree[k].types|
      ensures tree[k].types[j].items == ItemsIn(rows, tree[k].scene, tree[k].types[j].typeName)
    {
      var s, c := tree[k].scene, tree[k].types[j].typeName;
      IndexOfAt(SceneNames(tree), s, k);
      IndexOfAt(TypeNames(tree[k].types), c, j);
      assert Lookup(tree, s, c) == tree[k].types[j].items;
    }
    forall i | 0 <= i < |rows|
      ensures ItemOf(rows[i]) in Lookup(tree, rows[i].scene, rows[i].category)
    {
      ItemsInHasRow(rows, i);
    }
  }

  // ---------------------------------------------------------------------
  // The start-up migration (db.js) as the inverse of the regrouping

  function RowOf(s: string, c: string, it: KnowledgeItem): KnowledgeRow
  {
    KnowledgeRow(it.id, s, c, it.desc, it.clause, OrDefault(it.weight, DefaultWeight), "")
  }

  function FlattenItems(s: string, c: string, items: seq<KnowledgeItem>): seq<KnowledgeRow>
  {
    if items == [] then [] else [RowOf(s, c, items[0])] + FlattenItems(s, c, items[1..])
  }

  function FlattenTypes(s: string, types: seq<TypeGroup>): seq<KnowledgeRow>
  {
    if types == [] then []
    else FlattenItems(s, types[0].typeName, types[0].items) + FlattenTypes(s, types[1..])
  }

  /** The rows the migration writes, scene by scene, category by category. */
  function Flatten(tree: seq<SceneGroup>): seq<KnowledgeRow>
  {
    if tree == [] then [] else FlattenTypes(tree[0].scene, tree[0].types) + Flatten(tree[1..])
  }

  function RowIds(rows: seq<KnowledgeRow>): seq<string>
  {
    seq(|rows|, i requires 0 <= i < |rows| => rows[i].id)
  }

  /** The rows whose id is not `id`. */
  function OtherId(id: string): KnowledgeRow -> bool
  {
    (x: KnowledgeRow) => x.id != id
  }

  /** `INSERT OR REPLACE` on a table keyed by `id`: a row with the same id is
      deleted and the new row is stored after all others. */
  function InsertOrReplace(table: seq<KnowledgeRow>, r: KnowledgeRow): seq<KnowledgeRow>
  {
    Filter(table, OtherId(r.id)) + [r]
  }

  function InsertAll(table: seq<KnowledgeRow>, rows: seq<KnowledgeRow>): seq<KnowledgeRow>
    decreases |rows|
  {
    if rows == [] then table else InsertAll(InsertOrReplace(table, rows[0]), rows[1..])
  }

  /** No id of `table` occurs among the ids of `rows`. */
  predicate FreshIds(table: seq<KnowledgeRow>, rows: seq<KnowledgeRow>)
  {
    forall i, j :: 0 <= i < |table| && 0 <= j < |rows| ==> table[i].id != rows[j].id
  }

  /** After the first row is stored, the remaining rows are still new. */
  lemma FreshTail(table: seq<KnowledgeRow>, rows: seq<KnowledgeRow>)
    requires rows != [] && NoDup(RowIds(rows)) && FreshIds(table, rows)
    ensures FreshIds(table + [rows[0]], rows[1..])
  {
    forall i, j | 0 <= i < |table + [rows[0]]| && 0 <= j < |rows[1..]|
      ensures (table + [rows[0]])[i].id != rows[1..][j].id
    {
      assert rows[1..][j] == rows[j + 1];
      if i == |table| {
        assert RowIds(rows)[0] == rows[0].id && RowIds(rows)[j + 1] == rows[j + 1].id;
      } else {
        assert (table + [rows[0]])[i] == table[i];
      }
    }
  }

  /** The remaining rows keep distinct ids. */
  lemma NoDupTail(rows: seq<KnowledgeRow>)
    requires rows != [] && NoDup(RowIds(rows))
    ensures NoDup(RowIds(rows[1..]))
  {
    forall i, j | 0 <= i < j < |rows[1..]| ensures RowIds(rows[1..])[i] != RowIds(rows[1..])[j] {
      assert RowIds(rows)[i + 1] == RowIds(rows[1..])[i] && RowIds(rows)[j + 1] == RowIds(rows[1..])[j];
    }
  }

  /** The first insert appends, and the rest stay distinct and new. */
  lemma InsertAllStep(table: seq<KnowledgeRow>, rows: seq<KnowledgeRow>)
    requires rows != [] && NoDup(RowIds(rows)) && FreshIds(table, rows)
    ensures InsertOrReplace(table, rows[0]) == table + [rows[0]]
    ensures NoDup(RowIds(rows[1..])) && FreshIds(table + [rows[0]], rows[1..])
  {
    FilterKeepsAll(table, OtherId(rows[0].id));
    NoDupTail(rows);
    FreshTail(table, rows);
  }

  /** With distinct ids, none already in the table, every insert appends. */
  lemma {:induction false} InsertAllAppends(table: seq<KnowledgeRow>, rows: seq<KnowledgeRow>)
    requires NoDup(RowIds(rows)) && FreshIds(table, rows)
    ensures InsertAll(table, rows) == table + rows
    decreases |rows|
  {
    if rows == [] {
      assert table + rows == table;
    } else {
      InsertAllStep(table, rows);
      ShiftHead(table, rows);
      InsertAllAppends(table + [rows[0]], rows[1..]);
    }
  }

  /** The tree shapes that survive a migration and a regrouping: distinct
      scene names, distinct category names within a scene, no empty scene or
      category, distinct item ids and no zero weight. */
  predicate RoundTrips(tree: seq<SceneGroup>)
  {
    && WellGrouped(tree)
    && NoDup(RowIds(Flatten(tree)))
    && (forall k, j, i :: 0 <= k < |tree| && 0 <= j < |tree[k].types| && 0 <= i < |tree[k].types[j].items|
          ==> tree[k].types[j].items[i].weight != 0)
  }

  lemma {:induction false} FoldAppend(acc: seq<SceneGroup>, a: seq<KnowledgeRow>, b: seq<KnowledgeRow>)
    ensures Fold(acc, a + b) == Fold(Fold(acc, a), b)
    decreases |a|
  {
    if a == [] {
      assert a + b == b;
    } else {
      AppendTail(a, b);
      FoldAppend(AddRow(acc, a[0]), a[1..], b);
    }
  }

  /** `acc` followed by scene `s` holding `ts`, or just `acc` while `ts` is empty. */
  function WithScene(acc: seq<SceneGroup>, s: string, ts: seq<TypeGroup>): seq<SceneGroup>
  {
    if ts == [] then acc else acc + [SceneGroup(s, ts)]
  }

  /** `ts` followed by category `c` holding `items`, or just `ts` while `items` is empty. */
  function WithType(ts: seq<TypeGroup>, c: string, items: seq<KnowledgeItem>): seq<TypeGroup>
  {
    if items == [] then ts else ts + [TypeGroup(c, items)]
  }

  lemma AddToTypesWithType(ts: seq<TypeGroup>, c: string, items: seq<KnowledgeItem>, r: KnowledgeRow)
    requires c !in TypeNames(ts) && r.category == c
    ensures AddToTypes(WithType(ts, c, items), r) == WithType(ts, c, items + [ItemOf(r)])
  {
    if items == [] {
      assert WithType(ts, c, items) == ts;
      assert items + [ItemOf(r)] == [ItemOf(r)];
    } else {
      var t := WithType(ts, c, items);
      assert TypeNames(t) == TypeNames(ts) + [c];
      IndexOfSnoc(TypeNames(ts), c, c);
    }
  }

  lemma AddRowWithScene(acc: seq<SceneGroup>, s: string, ts: seq<TypeGroup>, r: KnowledgeRow)
    requires s !in SceneNames(acc) && r.scene == s
    ensures AddRow(WithScene(acc, s, ts), r) == WithScene(acc, s, AddToTypes(ts, r))
  {
    if ts == [] {
      assert s !in SceneNames(WithScene(acc, s, ts));
    } else {
      var t := WithScene(acc, s, ts);
      assert SceneNames(t) == SceneNames(acc) + [s];
      IndexOfSnoc(SceneNames(acc), s, s);
    }
  }

  /** No item of `items` has a zero weight. */
  predicate Weighted(items: seq<KnowledgeItem>)
  {
    forall i :: 0 <= i < |items| ==> items[i].weight != 0
  }

  /** Categories `types` that follow `ts` in one scene and survive the round
      trip: all names distinct, none empty, no zero weight. */
  predicate TypesShaped(ts: seq<TypeGroup>, types: seq<TypeGroup>)
  {
    && NoDup(TypeNames(ts + types))
    && forall j :: 0 <= j < |types| ==> |types[j].items| > 0 && Weighted(types[j].items)
  }

  /** A scene that survives the round trip. */
  predicate SceneShaped(sc: SceneGroup)
  {
    |sc.types| > 0 && TypesShaped([], sc.types)
  }

  /** Scenes `tree` that follow `acc` and survive the round trip. */
  predicate ScenesShaped(acc: seq<SceneGroup>, tree: seq<SceneGroup>)
  {
    && NoDup(SceneNames(acc + tree))
    && forall k :: 0 <= k < |tree| ==> SceneShaped(tree[k])
  }

  /** Regrouping one row appends its item to the last category of the last scene. */
  lemma ItemRoundTrip(acc: seq<SceneGroup>, s: string, ts: seq<TypeGroup>,
                      c: string, items0: seq<KnowledgeItem>, it: KnowledgeItem)
    requires s !in SceneNames(acc) && c !in TypeNames(ts) && it.weight != 0
    ensures AddRow(WithScene(acc, s, WithType(ts, c, items0)), RowOf(s, c, it))
            == WithScene(acc, s, WithType(ts, c, items0 + [it]))
  {
    var row := RowOf(s, c, it);
    assert ItemOf(row) == it;
    AddToTypesWithType(ts, c, items0, row);
    AddRowWithScene(acc, s, WithType(ts, c, items0), row);
  }

  /** The first step of `ItemsRoundTrip`: the first row is regrouped. */
  lemma ItemsRoundTripStep(acc: seq<SceneGroup>, s: string, ts: seq<TypeGroup>,
                           c: string, items0: seq<KnowledgeItem>, items: seq<KnowledgeItem>)
    requires s !in SceneNames(acc) && c !in TypeNames(ts)
    requires items != [] && Weighted(items)
    ensures Fold(WithScene(acc, s, WithType(ts, c, items0)), FlattenItems(s, c, items))
            == Fold(WithScene(acc, s, WithType(ts, c, items0 + [items[0]])), FlattenItems(s, c, items[1..]))
  {
    var rows := FlattenItems(s, c, items);
    assert rows[0] == RowOf(s, c, items[0]) && rows[1..] == FlattenItems(s, c, items[1..]);
    ItemRoundTrip(acc, s, ts, c, items0, items[0]);
  }

  lemma WeightedTail(items: seq<KnowledgeItem>)
    requires items != [] && Weighted(items)
    ensures Weighted(items[1..])
  {
    forall i | 0 <= i < |items[1..]| ensures items[1..][i].weight != 0 {
      assert items[1..][i] == items[i + 1];
    }
  }

  lemma {:induction false} ItemsRoundTrip(acc: seq<SceneGroup>, s: string, ts: seq<TypeGroup>,
                                          c: string, items0: seq<KnowledgeItem>, items: seq<KnowledgeItem>)
    requires s !in SceneNames(acc) && c !in TypeNames(ts)
    requires Weighted(items)
    ensures Fold(WithScene(acc, s, WithType(ts, c, items0)), FlattenItems(s, c, items))
            == WithScene(acc, s, WithType(ts, c, items0 + items))
    decreases |items|
  {
    if items == [] {
      assert items0 + items == items0;
    } else {
      ItemsRoundTripStep(acc, s, ts, c, items0, items);
      WeightedTail(items);
      ShiftHead(items0, items);
      ItemsRoundTrip(acc, s, ts, c, items0 + [items[0]], items[1..]);
    }
  }

  /** Peeling the first category off a shaped list. */
  lemma TypesShapedStep(ts: seq<TypeGroup>, types: seq<TypeGroup>)
    requires types != [] && TypesShaped(ts, types)
    ensures types[0].typeName !in TypeNames(ts)
    ensures |types[0].items| > 0 && Weighted(types[0].items)
    ensures TypesShaped(ts + [types[0]], types[1..])
  {
    assert TypeNames(ts + types)[|ts|] == types[0].typeName;
    forall j | 0 <= j < |ts| ensures TypeNames(ts)[j] != types[0].typeName {
      assert TypeNames(ts + types)[j] == TypeNames(ts)[j];
    }
    ShiftHead(ts, types);
    forall j | 0 <= j < |types[1..]| ensures |types[1..][j].items| > 0 && Weighted(types[1..][j].items) {
      assert types[1..][j] == types[j + 1];
    }
  }

  /** Regrouping one category's rows appends that category to the scene. */
  lemma TypeRoundTrip(acc: seq<SceneGroup>, s: string, ts: seq<TypeGroup>, t: TypeGroup)
    requires s !in SceneNames(acc) && t.typeName !in TypeNames(ts) && |t.items| > 0 && Weighted(t.items)
    ensures Fold(WithScene(acc, s, ts), FlattenItems(s, t.typeName, t.items)) == WithScene(acc, s, ts + [t])
  {
    assert WithType(ts, t.typeName, []) == ts;
    ItemsRoundTrip(acc, s, ts, t.typeName, [], t.items);
    assert [] + t.items == t.items;
    assert WithType(ts, t.typeName, t.items) == ts + [t];
  }

  lemma {:induction false} TypesRoundTrip(acc: seq<SceneGroup>, s: string, ts: seq<TypeGroup>, types: seq<TypeGroup>)
    requires s !in SceneNames(acc) && TypesShaped(ts, types)
    ensures Fold(WithScene(acc, s, ts), FlattenTypes(s, types)) == WithScene(acc, s, ts + types)
    decreases |types|
  {
    if types == [] {
      assert ts + types == ts;
    } else {
      var t := types[0];
      assert FlattenTypes(s, types) == FlattenItems(s, t.typeName, t.items) + FlattenTypes(s, types[1..]);
      TypesShapedStep(ts, types);
      TypeRoundTrip(acc, s, ts, t);
      FoldAppend(WithScene(acc, s, ts), FlattenItems(s, t.typeName, t.items), FlattenTypes(s, types[1..]));
      ShiftHead(ts, types);
      TypesRoundTrip(acc, s, ts + [t], types[1..]);
    }
  }

  /** Peeling the first scene off a shaped list. */
  lemma ScenesShapedStep(acc: seq<SceneGroup>, tree: seq<SceneGroup>)
    requires tree != [] && ScenesShaped(acc, tree)
    ensures tree[0].scene !in SceneNames(acc) && SceneShaped(tree[0])
    ensures ScenesShaped(acc + [tree[0]], tree[1..])
  {
    assert SceneNames(acc + tree)[|acc|] == tree[0].scene;
    forall k | 0 <= k < |acc| ensures SceneNames(acc)[k] != tree[0].scene {
      assert SceneNames(acc + tree)[k] == SceneNames(acc)[k];
    }
    ShiftHead(acc, tree);
    forall k | 0 <= k < |tree[1..]| ensures SceneShaped(tree[1..][k]) {
      assert tree[1..][k] == tree[k + 1];
    }
  }

  /** Regrouping one scene's rows appends that scene. */
  lemma SceneRoundTrip(acc: seq<SceneGroup>, sc: SceneGroup)
    requires sc.scene !in SceneNames(acc) && SceneShaped(sc)
    ensures Fold(acc, FlattenTypes(sc.scene, sc.types)) == acc + [sc]
  {
    assert WithScene(acc, sc.scene, []) == acc;
    assert [] + sc.types == sc.types;
    TypesRoundTrip(acc, sc.scene, [], sc.types);
    assert WithScene(acc, sc.scene, sc.types) == acc + [sc];
  }

  lemma {:induction false} ScenesRoundTrip(acc: seq<SceneGroup>, tree: seq<SceneGroup>)
    requires ScenesShaped(acc, tree)
    ensures Fold(acc, Flatten(tree)) == acc + tree
    decreases |tree|
  {
    if tree == [] {
      assert acc + tree == acc;
    } else {
      var sc := tree[0];
      assert Flatten(tree) == FlattenTypes(sc.scene, sc.types) + Flatten(tree[1..]);
      ScenesShapedStep(acc, tree);
      SceneRoundTrip(acc, sc);
      FoldAppend(acc, FlattenTypes(sc.scene, sc.types), Flatten(tree[1..]));
      ShiftHead(acc, tree);
      ScenesRoundTrip(acc + [sc], tree[1..]);
    }
  }

  /** A scene of a well-grouped tree without zero weights is shaped. */
  lemma SceneShapedOf(sc: SceneGroup)
    requires NoDup(TypeNames(sc.types)) && |sc.types| > 0
    requires forall j :: 0 <= j < |sc.types| ==> |sc.types[j].items| > 0
    requires forall j, i :: 0 <= j < |sc.types| && 0 <= i < |sc.types[j].items| ==> sc.types[j].items[i].weight != 0
    ensures SceneShaped(sc)
  {
    assert [] + sc.types == sc.types;
  }

  /** A tree that satisfies `RoundTrips` is shaped scene by scene. */
  lemma RoundTripsShaped(tree: seq<SceneGroup>)
    requires RoundTrips(tree)
    ensures ScenesShaped([], tree)
  {
    assert [] + tree == tree;
    forall k | 0 <= k < |tree| ensures SceneShaped(tree[k]) {
      SceneShapedOf(tree[k]);
    }
  }

  /** Migrating a tree into an empty `knowledge` table and regrouping the
      table gives the tree back. */
  lemma MigrateThenRegroup(tree: seq<SceneGroup>)
    requires RoundTrips(tree)
    ensures InsertAll([], Flatten(tree)) == Flatten(tree)
    ensures Fold([], InsertAll([], Flatten(tree))) == tree
  {
    InsertAllAppends([], Flatten(tree));
    assert [] + Flatten(tree) == Flatten(tree);
    assert [] + tree == tree;
    RoundTripsShaped(tree);
    ScenesRoundTrip([], tree);
  }
}
