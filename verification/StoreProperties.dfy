/** What the store guarantees over every run, and what its queries mean. */
module StoreProperties {
  import opened Wrappers
  import opened Json
  import opened StableSort
  import opened Names
  import opened Values
  import opened Store

  ghost function Run(cfg: Config, data: Data, ops: seq<Op>): (r: Data) {
    if ops == [] then data
    else Apply(cfg, Run(cfg, data, ops[..|ops| - 1]), ops[|ops| - 1]).0
  }

  // ---- rows stay valid ----

  ghost predicate SeedAccepted(cfg: Config) {
    forall store, row | store in cfg.seed && row in cfg.seed[store] :: cfg.Accepts(store, row)
  }

  ghost predicate AllAccepted(cfg: Config, data: Data) {
    forall store, id | store in data && id in data[store].rows :: cfg.Accepts(store, data[store].rows[id])
  }

  lemma {:induction false} SeedTableRows(cfg: Config, store: string, rows: seq<Row>)
    ensures forall id | id in cfg.SeedTable(store, rows).rows :: cfg.SeedTable(store, rows).rows[id] in rows
  {
    if rows != [] {
      SeedTableRows(cfg, store, rows[..|rows| - 1]);
      assert rows == rows[..|rows| - 1] + [rows[|rows| - 1]];
    }
  }

  /** From valid seed rows, every row is valid in every reachable state. */
  lemma {:induction false} RunKeepsRowsValid(cfg: Config, ops: seq<Op>)
    requires SeedAccepted(cfg)
    ensures AllAccepted(cfg, Run(cfg, cfg.SeedData(), ops))
  {
    var seed := cfg.SeedData();
    forall store, id | store in seed && id in seed[store].rows ensures cfg.Accepts(store, seed[store].rows[id]) {
      SeedTableRows(cfg, store, cfg.seed[store]);
    }
    if ops != [] {
      RunKeepsRowsValid(cfg, ops[..|ops| - 1]);
    }
  }

  /** A rejected operation changes nothing, and no operation but a reset
      touches another store. */
  lemma FailureChangesNothing(cfg: Config, data: Data, op: Op)
    ensures Apply(cfg, data, op).1.Err? ==> Apply(cfg, data, op).0 == data
    ensures !op.Reset? ==>
              && Apply(cfg, data, op).0.Keys == data.Keys
              && forall store | store in data && store != op.store :: Apply(cfg, data, op).0[store] == data[store]
  {
  }

  /** Deleting a row that was just inserted gives back the very same table. */
  lemma InsertThenDelete(cfg: Config, data: Data, store: string, row: Row)
    requires ValidData(data) && Apply(cfg, data, Insert(store, row)).1.Ok?
    ensures var key := cfg.text(row[cfg.KeyField(store)]);
            var inserted := Apply(cfg, data, Insert(store, row)).0;
            && inserted[store].rows[key] == row
            && Apply(cfg, inserted, Delete(store, key)) == (data, Ok(row))
  {
    var key := cfg.text(row[cfg.KeyField(store)]);
    var table := data[store];
    assert key !in table.order;
    WithoutFacts(table.order, key);
    WithoutAppend(table.order, key);
    assert table.rows[key := row] - {key} == table.rows;
    assert data[store := table.Put(key, row)][store := table] == data;
  }

  lemma {:induction false} WithoutAppend(keys: seq<string>, key: string)
    ensures Without(keys + [key], key) == Without(keys, key)
  {
    if keys != [] {
      assert (keys + [key])[1..] == keys[1..] + [key];
      WithoutAppend(keys[1..], key);
    }
  }

  // ---- rows and their keys ----

  /** Each row is filed under the text of its own key field. */
  ghost predicate FiledByKey(cfg: Config, data: Data) {
    forall store, id | store in data && id in data[store].rows :: Filed(cfg, store, id, data[store].rows[id])
  }

  ghost predicate Filed(cfg: Config, store: string, id: string, row: Row) {
    var field := cfg.KeyField(store);
    field in row && row[field] != Null && cfg.text(row[field]) == id
  }

  /** What a caller can check before an update: it leaves the key's text alone. */
  ghost predicate KeepsKey(cfg: Config, store: string, id: string, patch: Row) {
    cfg.KeyField(store) in patch ==> patch[cfg.KeyField(store)] != Null && cfg.text(patch[cfg.KeyField(store)]) == id
  }

  lemma {:induction false} SeedTableFiled(cfg: Config, store: string, rows: seq<Row>)
    ensures forall id | id in cfg.SeedTable(store, rows).rows :: Filed(cfg, store, id, cfg.SeedTable(store, rows).rows[id])
  {
    if rows != [] {
      SeedTableFiled(cfg, store, rows[..|rows| - 1]);
    }
  }

  lemma SeedFiled(cfg: Config)
    ensures FiledByKey(cfg, cfg.SeedData())
  {
    var seed := cfg.SeedData();
    forall store, id | store in seed && id in seed[store].rows ensures Filed(cfg, store, id, seed[store].rows[id]) {
      SeedTableFiled(cfg, store, cfg.seed[store]);
    }
  }

  /** An accepted operation keeps rows filed by key, except an update that
      changes the key field, which always breaks it. */
  lemma FiledUnlessKeyPatched(cfg: Config, data: Data, op: Op)
    requires FiledByKey(cfg, data) && Apply(cfg, data, op).1.Ok?
    ensures FiledByKey(cfg, Apply(cfg, data, op).0) <==> (op.Update? ==> KeepsKey(cfg, op.store, op.id, op.patch))
  {
    var after := Apply(cfg, data, op).0;
    match op
    case Reset => SeedFiled(cfg);
    case Insert(_, _) =>
    case Delete(_, _) =>
    case Update(store, id, patch) =>
      var merged := data[store].rows[id] + patch;
      assert after[store].rows[id] == merged;
      assert Filed(cfg, store, id, data[store].rows[id]);
      assert Filed(cfg, store, id, merged) <==> KeepsKey(cfg, store, id, patch);
  }

  /** One pet, filed under "a"; no entity schema restricts it. */
  const PETS := Config(map["pets" := "id"], map[], map["pets" := [map["id" := Str("a")]]],
                       (_, _, _) => true, (j: Json) => if j.Str? then j.text else "")

  /** A fresh store whose one pet is renamed: the update is accepted, and the
      row is still found under "a" while its key field says "b". */
  lemma KeyPatchMisfiles()
    ensures var cfg, rename := PETS, Update("pets", "a", map["id" := Str("b")]);
            var data := cfg.SeedData();
            && FiledByKey(cfg, data)
            && Apply(cfg, data, rename).1.Ok?
            && Apply(cfg, data, rename).0["pets"].rows == map["a" := map["id" := Str("b")]]
            && !FiledByKey(cfg, Apply(cfg, data, rename).0)
  {
    var cfg, rows: seq<Row> := PETS, [map["id" := Str("a")]];
    var data, rename := cfg.SeedData(), Update("pets", "a", map["id" := Str("b")]);
    assert rows[..0] == [];
    assert cfg.SeedTable("pets", rows) == EMPTY_TABLE.Put("a", rows[0]);
    assert data["pets"].rows == map["a" := rows[0]];
    assert rows[0] + rename.patch == map["id" := Str("b")];
    SeedFiled(cfg);
    FiledUnlessKeyPatched(cfg, data, rename);
  }

  // ---- queries ----

  lemma {:induction false} FilterMembers(rows: seq<Row>, where_: seq<Condition>)
    requires Filter(rows, where_).Ok?
    ensures forall row :: row in Filter(rows, where_).value <==> row in rows && Matches(row, where_).Holds?
    ensures forall row | row in rows :: !Matches(row, where_).Raises?
  {
    hide Matches;
    if rows != [] {
      FilterMembers(rows[..|rows| - 1], where_);
      assert rows == rows[..|rows| - 1] + [rows[|rows| - 1]];
    }
  }

  ghost function Judged(value: Json, op: string, operand: Json): Verdict {
    Judge(value, Obj(map[op := operand]))
  }

  /** The comparison operators fit together: exactly one of below, equal and
      above holds of comparable values, and others make every comparison raise. */
  lemma ComparisonsFit(value: Json, x: Json)
    ensures Comparable(value, x) ==>
              && (Judged(value, "$gt", x).Holds? <==> Judged(value, "$lte", x).Fails?)
              && (Judged(value, "$lt", x).Holds? <==> Judged(value, "$gte", x).Fails?)
              && !(Judged(value, "$lt", x).Holds? && Judged(value, "$gt", x).Holds?)
              && (Equal(value, x) <==> Judged(value, "$lte", x).Holds? && Judged(value, "$gte", x).Holds?)
    ensures !Comparable(value, x) ==>
              forall op | op in {"$gt", "$gte", "$lt", "$lte"} :: Judged(value, op, x) == Raises(TypeError)
  {
    CompareReversed(value, x);
    if Comparable(value, x) { ComparedEqual(value, x); }
    hide Compare, Comparable, Equal;
  }

  /** An unlimited list is the matching rows, each as often as stored, ordered
      by the first key that separates them; rows no key separates keep their
      stored order. */
  lemma ListIsStableSort(cfg: Config, data: Data, store: string, where_: seq<Condition>, sort: seq<SortKey>)
    requires ValidData(data) && sort != [] && Listed(cfg, data, store, where_, sort, None).Ok?
    ensures var rows := Filter(data[store].Values(), where_).value;
            var r := Listed(cfg, data, store, where_, sort, None).value;
            && multiset(r) == multiset(rows)
            && (forall i, j | 0 <= i < j < |r| :: MayPrecede(Orders(sort), r[i], r[j]))
            && (forall v :: Ties(r, v, SortOrder(sort)) == Ties(rows, v, SortOrder(sort)))
  {
    var rows := Filter(data[store].Values(), where_).value;
    var r := Listed(cfg, data, store, where_, sort, None).value;
    SortOrderTotal(sort);
    SortMultiset(rows, SortOrder(sort));
    SortSorted(rows, SortOrder(sort));
    forall i, j | 0 <= i < j < |r| ensures MayPrecede(Orders(sort), r[i], r[j]) {
      LexAllMeaning(Orders(sort), r[i], r[j]);
    }
    forall v ensures Ties(r, v, SortOrder(sort)) == Ties(rows, v, SortOrder(sort)) {
      SortStable(rows, v, SortOrder(sort));
    }
  }

  /** Without sort keys the rows come in primary-key order, ties as stored. */
  lemma DefaultListIsSorted(cfg: Config, data: Data, store: string, where_: seq<Condition>)
    requires ValidData(data) && Listed(cfg, data, store, where_, [], None).Ok?
    ensures var rows := Filter(data[store].Values(), where_).value;
            var r := Listed(cfg, data, store, where_, [], None).value;
            var field := cfg.KeyField(store);
            && multiset(r) == multiset(rows)
            && (forall i, j | 0 <= i < j < |r| :: ValueLe(DefaultKey(field)(r[i]), DefaultKey(field)(r[j])))
            && (forall v :: Ties(r, v, DefaultOrder(field)) == Ties(rows, v, DefaultOrder(field)))
  {
    var rows := Filter(data[store].Values(), where_).value;
    var le := DefaultOrder(cfg.KeyField(store));
    ValueOrder();
    ByTotal(DefaultKey(cfg.KeyField(store)), ValueLe);
    SortMultiset(rows, le);
    SortSorted(rows, le);
    forall v ensures Ties(Sort(rows, le), v, le) == Ties(rows, v, le) {
      SortStable(rows, v, le);
    }
  }

  /** A positive limit keeps a prefix, any other limit keeps everything, and
      `count` is the length of the unlimited list. */
  lemma LimitAndCount(cfg: Config, data: Data, store: string, where_: seq<Condition>, sort: seq<SortKey>, limit: Option<int>)
    requires ValidData(data) && Listed(cfg, data, store, where_, sort, None).Ok?
    ensures var all := Listed(cfg, data, store, where_, sort, None).value;
            && Counted(data, store, Some(where_)) == Ok(|all|)
            && Listed(cfg, data, store, where_, sort, limit).Ok?
            && var cut := Listed(cfg, data, store, where_, sort, limit).value;
               && cut <= all
               && |cut| == if limit.Some? && 0 < limit.value < |all| then limit.value else |all|
  {
    var rows := Filter(data[store].Values(), where_).value;
    SortMultiset(rows, if sort != [] then SortOrder(sort) else DefaultOrder(cfg.KeyField(store)));
  }
}
