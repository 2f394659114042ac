/** When the store accepts an operation or a query, and what an accepted
    operation leaves (state/store.py). */
module StoreRules {
  import opened Wrappers
  import opened Json
  import opened Names
  import opened Values
  import opened Store

  /** The store's key field: the configured one, else `id`. */
  ghost predicate KeyedBy(cfg: Config, store: string, field: string) {
    (store in cfg.primaryKeys && cfg.primaryKeys[store] == field) || (store !in cfg.primaryKeys && field == "id")
  }

  /** There is no schema for the store's rows, an empty one, or one that accepts the row. */
  ghost predicate AcceptedBy(cfg: Config, store: string, row: Row) {
    || store !in cfg.entitySchemas || cfg.entitySchemas[store] == Obj(map[])
    || cfg.accepts(store, row, cfg.entitySchemas[store])
  }

  ghost predicate BlankText(s: string) {
    forall c | c in s :: c in " \t\n\U{b}\U{c}\r\U{1c}\U{1d}\U{1e}\U{1f}"
  }

  /** The row has a key: it is there, not null and not a blank text. */
  ghost predicate HasKey(row: Row, field: string) {
    field in row && row[field] != Null && (row[field].Str? ==> !BlankText(row[field].text))
  }

  lemma BlankMeaning(s: string)
    ensures BlankText(s) <==> forall c | c in s :: Space(c)
  {
    var blanks := " \t\n\U{b}\U{c}\r\U{1c}\U{1d}\U{1e}\U{1f}";
    forall c: char ensures c in blanks <==> Space(c) {
      assert blanks[0] == ' ' && blanks[1] == '\t' && blanks[2] == '\n' && blanks[3] == '\U{b}' && blanks[4] == '\U{c}'
          && blanks[5] == '\r' && blanks[6] == '\U{1c}' && blanks[7] == '\U{1d}' && blanks[8] == '\U{1e}' && blanks[9] == '\U{1f}';
    }
  }

  /** An insert is accepted exactly if its row has a key that is not taken and is
      valid; the row is then the last one. The first reason against it is given. */
  lemma InsertExactly(cfg: Config, data: Data, store: string, row: Row, field: string)
    requires ValidData(data) && KeyedBy(cfg, store, field)
    ensures var (after, r) := Apply(cfg, data, Insert(store, row));
            if store !in data then r == Err(UnknownStore)
            else if !HasKey(row, field) then r == Err(Invalid)
            else if cfg.text(row[field]) in data[store].order then r == Err(DuplicateKey)
            else if !AcceptedBy(cfg, store, row) then r == Err(Invalid)
            else
              && r == Ok(row)
              && store in after && after[store].order == data[store].order + [cfg.text(row[field])]
              && cfg.text(row[field]) in after[store].rows && after[store].rows[cfg.text(row[field])] == row
              && forall id | id in data[store].rows :: id in after[store].rows && after[store].rows[id] == data[store].rows[id]
  {
    if field in row && row[field].Str? { BlankMeaning(row[field].text); }
    hide BlankText, Space;
  }

  /** The row with the patch's values for the patch's fields. */
  ghost predicate Patched(row: Row, patch: Row, merged: Row) {
    forall f :: Obj(merged).Get(f) == if f in patch then Some(patch[f]) else Obj(row).Get(f)
  }

  /** An update is accepted exactly if there is such a row and the patched one is
      valid, which then takes its place. */
  lemma UpdateExactly(cfg: Config, data: Data, store: string, id: string, patch: Row, merged: Row)
    requires ValidData(data)
    requires store in data && id in data[store].order ==> Patched(data[store].rows[id], patch, merged)
    ensures var (after, r) := Apply(cfg, data, Update(store, id, patch));
            if store !in data then r == Err(UnknownStore)
            else if id !in data[store].order then r == Err(NotFound)
            else if !AcceptedBy(cfg, store, merged) then r == Err(Invalid)
            else
              && r == Ok(merged)
              && store in after && after[store].order == data[store].order && id in after[store].rows && after[store].rows[id] == merged
              && forall other | other in data[store].rows && other != id ::
                   other in after[store].rows && after[store].rows[other] == data[store].rows[other]
  {
    if store in data && id in data[store].order {
      var row := data[store].rows[id];
      forall f ensures (f in merged <==> f in row + patch) && (f in merged ==> merged[f] == (row + patch)[f]) {
        assert Obj(merged).Get(f) == if f in patch then Some(patch[f]) else Obj(row).Get(f);
      }
      assert merged == row + patch;
    }
  }

  /** A delete takes the row out and leaves the others in order. */
  lemma DeleteExactly(cfg: Config, data: Data, store: string, id: string)
    requires ValidData(data)
    ensures var (after, r) := Apply(cfg, data, Delete(store, id));
            if store !in data then r == Err(UnknownStore)
            else if id !in data[store].order then r == Err(NotFound)
            else
              && id in data[store].rows && r == Ok(data[store].rows[id])
              && store in after && id !in after[store].rows
              && (exists i :: 0 <= i < |data[store].order| && data[store].order[i] == id
                    && after[store].order == data[store].order[..i] + data[store].order[i + 1..])
              && forall other | other in data[store].rows && other != id ::
                   other in after[store].rows && after[store].rows[other] == data[store].rows[other]
  {
    if store in data && id in data[store].order {
      var order := data[store].order;
      var i :| 0 <= i < |order| && order[i] == id;
      WithoutOne(order, id, i);
    }
  }

  lemma {:induction false} WithoutOne(keys: seq<string>, key: string, i: nat)
    requires Distinct(keys) && i < |keys| && keys[i] == key
    ensures Without(keys, key) == keys[..i] + keys[i + 1..]
  {
    if i == 0 {
      WithoutFacts(keys[1..], key);
      forall k | k in keys[1..] ensures k != key { }
    } else {
      WithoutOne(keys[1..], key, i - 1);
      assert keys[..i] == [keys[0]] + keys[1..][..i - 1];
      assert keys[i + 1..] == keys[1..][i..];
    }
  }

  // ---- seeding ----

  /** Row `i` of the seed is the last one with this key. */
  ghost predicate LastSeeded(cfg: Config, field: string, rows: seq<Row>, id: string, i: int) {
    && SeededAs(cfg, field, rows, id, i)
    && forall k | i < k < |rows| :: !SeededAs(cfg, field, rows, id, k)
  }

  ghost predicate SeededAs(cfg: Config, field: string, rows: seq<Row>, id: string, i: int) {
    0 <= i < |rows| && field in rows[i] && rows[i][field] != Null && cfg.text(rows[i][field]) == id
  }

  lemma SeededMore(cfg: Config, field: string, rows: seq<Row>, row: Row, id: string)
    ensures forall i | 0 <= i < |rows| :: SeededAs(cfg, field, rows + [row], id, i) <==> SeededAs(cfg, field, rows, id, i)
    ensures SeededAs(cfg, field, rows + [row], id, |rows|) <==> field in row && row[field] != Null && cfg.text(row[field]) == id
  {
  }

  /** A seeded store holds, under each key, the last row of the seed with that key. */
  lemma {:induction false} SeedExactly(cfg: Config, store: string, rows: seq<Row>, field: string, id: string)
    requires KeyedBy(cfg, store, field)
    ensures var t := cfg.SeedTable(store, rows);
            && (id in t.rows <==> exists i :: SeededAs(cfg, field, rows, id, i))
            && (id in t.rows ==> exists i :: LastSeeded(cfg, field, rows, id, i) && t.rows[id] == rows[i])
  {
    hide SeededAs;
    if rows != [] {
      var n := |rows| - 1;
      var init, last := rows[..n], rows[n];
      assert rows == init + [last];
      SeedExactly(cfg, store, init, field, id);
      SeededMore(cfg, field, init, last, id);
      SeededWithin(cfg, field, rows, id);
      SeededWithin(cfg, field, init, id);
      var before := cfg.SeedTable(store, init);
      if SeededAs(cfg, field, rows, id, n) {
        assert LastSeeded(cfg, field, rows, id, n);
      } else if id in before.rows {
        var i :| LastSeeded(cfg, field, init, id, i) && before.rows[id] == init[i];
        assert LastSeeded(cfg, field, rows, id, i);
      }
    } else {
      SeededWithin(cfg, field, rows, id);
    }
  }

  lemma SeededWithin(cfg: Config, field: string, rows: seq<Row>, id: string)
    ensures forall i | SeededAs(cfg, field, rows, id, i) :: 0 <= i < |rows|
  {
  }

  // ---- when a list fails ----

  /** Some row lacks the path, or two rows have values there that do not compare. */
  ghost predicate Unsortable(rows: seq<Row>, path: string) {
    || (exists row | row in rows :: At(row, path).None?)
    || (|rows| > 1 && exists a, b | a in rows && b in rows ::
          At(a, path).Some? && At(b, path).Some? && !Comparable(At(a, path).value, At(b, path).value))
  }

  /** The value a row is sorted by when no order is asked for. */
  ghost predicate SortedBy(row: Row, field: string, v: Json) {
    (field in row && row[field] == v) || (field !in row && v == Str(""))
  }

  lemma SortableMeaning(key: SortKey, rows: seq<Row>)
    ensures key.Sortable(rows) <==> !Unsortable(rows, key.path)
  {
    hide At, Comparable;
  }

  lemma DefaultMeaning(rows: seq<Row>, field: string)
    ensures !DefaultSortable(rows, field) <==>
              |rows| > 1 && exists a, b, u, v :: a in rows && b in rows && SortedBy(a, field, u) && SortedBy(b, field, v) && !Comparable(u, v)
  {
    hide Comparable;
    if !DefaultSortable(rows, field) {
      var a, b :| a in rows && b in rows && !Comparable(DefaultKey(field)(a), DefaultKey(field)(b));
      assert SortedBy(a, field, DefaultKey(field)(a)) && SortedBy(b, field, DefaultKey(field)(b));
    }
  }

  /** A list fails exactly if there is no such store, if the clause cannot be
      evaluated on some row, or if the matching rows cannot be sorted. */
  lemma ListFails(cfg: Config, data: Data, store: string, where_: seq<Condition>, sort: seq<SortKey>, limit: Option<int>, field: string)
    requires ValidData(data) && KeyedBy(cfg, store, field)
    ensures var r := Listed(cfg, data, store, where_, sort, limit);
            if store !in data then r == Err(UnknownStore)
            else match Filter(data[store].Values(), where_)
              case Err(e) => r == Err(e)
              case Ok(rows) =>
                if sort != [] then (r.Err? <==> exists k | k in sort :: Unsortable(rows, k.path)) && (r.Err? ==> r == Err(BadQuery))
                else
                  && (r.Err? <==> |rows| > 1 && exists a, b, u, v ::
                        a in rows && b in rows && SortedBy(a, field, u) && SortedBy(b, field, v) && !Comparable(u, v))
                  && (r.Err? ==> r == Err(TypeError))
  {
    if store in data && Filter(data[store].Values(), where_).Ok? {
      var rows := Filter(data[store].Values(), where_).value;
      DefaultMeaning(rows, field);
      forall k | k in sort ensures k.Sortable(rows) <==> !Unsortable(rows, k.path) { SortableMeaning(k, rows); }
    }
    hide Unsortable, SortedBy, DefaultSortable, Filter;
  }
}
