/** The per-session state store (state/store.py, state/validator.py). */
module Store {
  import opened Wrappers
  import opened Json
  import opened StableSort
  import opened Names
  import opened Values

  type Row = map<string, Json>

  /** One collection: its keys in order of first insertion, and a row for each. */
  datatype Table = Table(order: seq<string>, rows: map<string, Row>) {
    ghost predicate Valid() {
      Distinct(order) && forall k :: k in order <==> k in rows
    }

    function Values(): (r: seq<Row>)
      requires Valid()
    {
      seq(|order|, i requires 0 <= i < |order| => assert order[i] in order; rows[order[i]])
    }

    function Put(key: string, row: Row): (r: Table) {
      Table(if key in rows then order else order + [key], rows[key := row])
    }

    function Remove(key: string): (r: Table) {
      Table(Without(order, key), rows - {key})
    }
  }

  function Without(keys: seq<string>, key: string): (r: seq<string>) {
    if keys == [] then []
    else (if keys[0] == key then [] else [keys[0]]) + Without(keys[1..], key)
  }

  const EMPTY_TABLE := Table([], map[])

  type Data = map<string, Table>

  ghost predicate ValidData(data: Data) {
    forall store | store in data :: data[store].Valid()
  }

  /** What a store is built from. `accepts` is the JSON-Schema verdict on an
      entity and `text` is Python's `str`; neither is part of this model. */
  datatype Config = Config(
    primaryKeys: map<string, string>,
    entitySchemas: map<string, Json>,
    seed: map<string, seq<Row>>,
    accepts: (string, Row, Json) -> bool,
    text: Json -> string)
  {
    function KeyField(store: string): (r: string) {
      if store in primaryKeys then primaryKeys[store] else "id"
    }

    /** A store without an entity schema, or with an empty one, accepts anything. */
    predicate Accepts(store: string, row: Row) {
      store in entitySchemas && entitySchemas[store] != Obj(map[]) ==> accepts(store, row, entitySchemas[store])
    }

    function SeedTable(store: string, rows: seq<Row>): (r: Table) {
      if rows == [] then EMPTY_TABLE
      else
        var before, row := SeedTable(store, rows[..|rows| - 1]), rows[|rows| - 1];
        var field := KeyField(store);
        if field in row && row[field] != Null then before.Put(text(row[field]), row) else before
    }

    function SeedData(): (r: Data) {
      map store | store in seed :: SeedTable(store, seed[store])
    }
  }

  datatype Error = UnknownStore | NotFound | DuplicateKey | Invalid | BadQuery | TypeError

  datatype Outcome<+T> = Ok(value: T) | Err(error: Error)

  // ---- operations that change the data ----

  datatype Op =
    | Reset
    | Insert(store: string, row: Row)
    | Update(store: string, id: string, patch: Row)
    | Delete(store: string, id: string)

  /** Present, not null, and not a blank string. */
  predicate KeyPresent(row: Row, field: string) {
    && field in row
    && match row[field]
       case Null => false
       case Str(s) => exists c | c in s :: !Space(c)
       case _ => true
  }

  /** Data and result of one operation. */
  function Apply(cfg: Config, data: Data, op: Op): (r: (Data, Outcome<Row>)) {
    match op
    case Reset => (cfg.SeedData(), Ok(map[]))
    case Insert(store, row) =>
      if store !in data then (data, Err(UnknownStore))
      else if !KeyPresent(row, cfg.KeyField(store)) then (data, Err(Invalid))
      else
        var key := cfg.text(row[cfg.KeyField(store)]);
        if key in data[store].rows then (data, Err(DuplicateKey))
        else if !cfg.Accepts(store, row) then (data, Err(Invalid))
        else (data[store := data[store].Put(key, row)], Ok(row))
    case Update(store, id, patch) =>
      if store !in data then (data, Err(UnknownStore))
      else if id !in data[store].rows then (data, Err(NotFound))
      else
        var merged := data[store].rows[id] + patch;
        if !cfg.Accepts(store, merged) then (data, Err(Invalid))
        else (data[store := data[store].Put(id, merged)], Ok(merged))
    case Delete(store, id) =>
      if store !in data then (data, Err(UnknownStore))
      else if id !in data[store].rows then (data, Err(NotFound))
      else (data[store := data[store].Remove(id)], Ok(data[store].rows[id]))
  }

  // ---- queries ----

  function Nested(value: Json, parts: seq<string>): (r: Option<Json>) {
    if parts == [] then Some(value)
    else match value.Get(parts[0])
      case Some(next) => Nested(next, parts[1..])
      case None => None
  }

  /** The value at a dotted path; none where Python raises `KeyError`. */
  function At(row: Row, path: string): (r: Option<Json>) {
    Nested(Obj(row), Split(path, '.'))
  }

  datatype Verdict = Holds | Fails | Raises(error: Error)

  function Decide(b: bool): (r: Verdict) {
    if b then Holds else Fails
  }

  /** Python's `value in options`. */
  function Member(value: Json, options: Json): (r: Verdict) {
    match options
    case Arr(items) => Decide(exists i | 0 <= i < |items| :: Equal(value, items[i]))
    case Str(s) => if value.Str? then Decide(Substring(s, value.text)) else Raises(TypeError)
    case Obj(fields) => if value.Arr? || value.Obj? then Raises(TypeError) else Decide(value.Str? && value.text in fields)
    case _ => Raises(TypeError)
  }

  function Ordered(a: Json, b: Json, holds: bool): (r: Verdict) {
    if Comparable(a, b) then Decide(holds) else Raises(TypeError)
  }

  /** The first operator in the code's order decides; the others are ignored. */
  function Judge(value: Json, predicate_: Json): (r: Verdict) {
    if !predicate_.Obj? then Decide(Equal(value, predicate_))
    else
      var ops := predicate_.fields;
      if "$ieq" in ops then
        Decide(value.Str? && ops["$ieq"].Str? && Lower(value.text) == Lower(ops["$ieq"].text))
      else if "$in" in ops then Member(value, ops["$in"])
      else if "$gt" in ops then Ordered(value, ops["$gt"], !ValueLe(value, ops["$gt"]))
      else if "$gte" in ops then Ordered(value, ops["$gte"], ValueLe(ops["$gte"], value))
      else if "$lt" in ops then Ordered(value, ops["$lt"], !ValueLe(ops["$lt"], value))
      else if "$lte" in ops then Ordered(value, ops["$lte"], ValueLe(value, ops["$lte"]))
      else if "$exists" in ops then Decide(Truthy(ops["$exists"]))
      else Raises(BadQuery)
  }

  /** One condition of a where clause. */
  datatype Condition = Condition(path: string, predicate_: Json)

  function Check(row: Row, condition: Condition): (r: Verdict) {
    match At(row, condition.path)
    case Some(value) => Judge(value, condition.predicate_)
    case None => Decide(condition.predicate_.Get("$exists") == Some(Bool(false)))
  }

  /** Conditions are joined by "and", up to the first that fails or raises. */
  function Matches(row: Row, where_: seq<Condition>): (r: Verdict) {
    if where_ == [] then Holds
    else
      var first := Check(row, where_[0]);
      if first.Holds? then Matches(row, where_[1..]) else first
  }

  /** The matching rows in order; none if a row makes the clause raise. */
  function Filter(rows: seq<Row>, where_: seq<Condition>): (r: Outcome<seq<Row>>) {
    if rows == [] then Ok([])
    else
      var before := Filter(rows[..|rows| - 1], where_);
      if before.Err? then before
      else match Matches(rows[|rows| - 1], where_)
        case Raises(e) => Err(e)
        case Holds => Ok(before.value + [rows[|rows| - 1]])
        case Fails => before
  }

  datatype SortKey = SortKey(path: string, direction: string) {
    predicate Descending() {
      Lower(direction) == "desc"
    }

    function Value(row: Row): (r: Json) {
      At(row, path).GetOr(Null)
    }

    function Order(): (r: Order<Row>) {
      var up := By(row => Value(row), ValueLe);
      if Descending() then Reversed(up) else up
    }

    /** Whether Python can compute every key and compare any two; a single row
        is never compared. */
    predicate Sortable(rows: seq<Row>) {
      && (forall row | row in rows :: At(row, path).Some?)
      && (|rows| > 1 ==> forall a, b | a in rows && b in rows :: Comparable(Value(a), Value(b)))
    }
  }

  function Orders(keys: seq<SortKey>): (r: seq<Order<Row>>) {
    seq(|keys|, i requires 0 <= i < |keys| => keys[i].Order())
  }

  /** The first key decides, then the second, and so on. */
  function SortOrder(keys: seq<SortKey>): (r: Order<Row>) {
    LexAll(Orders(keys))
  }

  function DefaultKey(field: string): Row -> Json {
    (row: Row) => if field in row then row[field] else Str("")
  }

  function DefaultOrder(field: string): (r: Order<Row>) {
    By(DefaultKey(field), ValueLe)
  }

  function Limit(rows: seq<Row>, limit: Option<int>): (r: seq<Row>) {
    if limit.Some? && 0 < limit.value < |rows| then rows[..limit.value] else rows
  }

  // ---- the store ----

  class SimulationStore {
    const cfg: Config
    var data: Data

    ghost predicate Valid()
      reads this
    {
      ValidData(data)
    }

    constructor (cfg: Config)
      ensures Valid() && this.cfg == cfg && data == cfg.SeedData()
    {
      this.cfg := cfg;
      new;
      Reset();
    }

    method Reset()
      modifies this
      ensures Valid() && data == cfg.SeedData()
    {
      data := map[];
      var rest := cfg.seed.Keys;
      while rest != {}
        invariant rest <= cfg.seed.Keys
        invariant data == map store | store in cfg.seed.Keys - rest :: cfg.SeedTable(store, cfg.seed[store])
      {
        var store :| store in rest;
        var field, rows, table := cfg.KeyField(store), cfg.seed[store], EMPTY_TABLE;
        for i := 0 to |rows|
          invariant table == cfg.SeedTable(store, rows[..i])
        {
          assert rows[..i + 1][..i] == rows[..i];
          if field in rows[i] && rows[i][field] != Null {
            table := table.Put(cfg.text(rows[i][field]), rows[i]);
          }
        }
        assert rows[..|rows|] == rows;
        data := data[store := table];
        rest := rest - {store};
      }
      assert data == cfg.SeedData();
      SeedDataValid(cfg);
    }

    method InsertRow(store: string, row: Row) returns (r: Outcome<Row>)
      requires Valid()
      modifies this
      ensures Valid() && (data, r) == Apply(cfg, old(data), Insert(store, row))
    {
      ApplyValid(cfg, data, Insert(store, row));
      if store !in data { return Err(UnknownStore); }
      var field := cfg.KeyField(store);
      if !KeyPresent(row, field) { return Err(Invalid); }
      var key := cfg.text(row[field]);
      if key in data[store].rows { return Err(DuplicateKey); }
      if !cfg.Accepts(store, row) { return Err(Invalid); }
      data := data[store := data[store].Put(key, row)];
      return Ok(row);
    }

    method UpdateRow(store: string, id: string, patch: Row) returns (r: Outcome<Row>)
      requires Valid()
      modifies this
      ensures Valid() && (data, r) == Apply(cfg, old(data), Update(store, id, patch))
    {
      ApplyValid(cfg, data, Update(store, id, patch));
      if store !in data { return Err(UnknownStore); }
      if id !in data[store].rows { return Err(NotFound); }
      var merged := data[store].rows[id] + patch;
      if !cfg.Accepts(store, merged) { return Err(Invalid); }
      data := data[store := data[store].Put(id, merged)];
      return Ok(merged);
    }

    method DeleteRow(store: string, id: string) returns (r: Outcome<Row>)
      requires Valid()
      modifies this
      ensures Valid() && (data, r) == Apply(cfg, old(data), Delete(store, id))
    {
      ApplyValid(cfg, data, Delete(store, id));
      if store !in data { return Err(UnknownStore); }
      if id !in data[store].rows { return Err(NotFound); }
      var deleted := data[store].rows[id];
      data := data[store := data[store].Remove(id)];
      return Ok(deleted);
    }

    /** Filter, sort by each key from the last to the first, cut. */
    method List(store: string, where_: seq<Condition>, sort: seq<SortKey>, limit: Option<int>)
      returns (r: Outcome<seq<Row>>)
      requires Valid()
      ensures r == Listed(cfg, data, store, where_, sort, limit)
    {
      if store !in data { return Err(UnknownStore); }
      var entities := data[store].Values();
      var filtered := FilterRows(entities, where_);
      if filtered.Err? { return filtered; }
      entities := filtered.value;
      ghost var matching := entities;
      hide Filter, Sort, SortOrder;
      if sort != [] {
        var i := |sort|;
        SortedByNone(matching, sort[|sort|..]);
        while i > 0
          invariant 0 <= i <= |sort|
          invariant entities == Sort(matching, SortOrder(sort[i..]))
          invariant forall k | i <= k < |sort| :: sort[k].Sortable(matching)
        {
          i := i - 1;
          SortedByOneMore(matching, sort, i);
          if !sort[i].Sortable(entities) { return Err(BadQuery); }
          entities := Sort(entities, sort[i].Order());
        }
        assert sort[0..] == sort;
      } else {
        if !DefaultSortable(entities, cfg.KeyField(store)) { return Err(TypeError); }
        entities := Sort(entities, DefaultOrder(cfg.KeyField(store)));
      }
      return Ok(Limit(entities, limit));
    }

    method Count(store: string, where_: Option<seq<Condition>>) returns (r: Outcome<nat>)
      requires Valid()
      ensures r == Counted(data, store, where_)
    {
      hide Matches;
      if store !in data { return Err(UnknownStore); }
      var rows := data[store].Values();
      if where_.None? {
        FilterAll(rows, []);
        return Ok(|data[store].order|);
      }
      var n := 0;
      for i := 0 to |rows|
        invariant Filter(rows[..i], where_.value).Ok? && n == |Filter(rows[..i], where_.value).value|
      {
        assert rows[..i + 1][..i] == rows[..i];
        match Matches(rows[i], where_.value)
        case Raises(e) =>
          FilterFirstError(rows, where_.value, i + 1);
          return Err(e);
        case Holds => n := n + 1;
        case Fails =>
      }
      assert rows[..|rows|] == rows;
      return Ok(n);
    }
  }

  method FilterRows(rows: seq<Row>, where_: seq<Condition>) returns (r: Outcome<seq<Row>>)
    ensures r == Filter(rows, where_)
  {
    var kept: seq<Row> := [];
    for i := 0 to |rows|
      invariant Filter(rows[..i], where_) == Ok(kept)
    {
      assert rows[..i + 1][..i] == rows[..i];
      match Matches(rows[i], where_)
      case Raises(e) =>
        FilterFirstError(rows, where_, i + 1);
        return Err(e);
      case Holds => kept := kept + [rows[i]];
      case Fails =>
    }
    assert rows[..|rows|] == rows;
    return Ok(kept);
  }

  /** What `List` answers, stated with one stable sort. */
  function Listed(cfg: Config, data: Data, store: string, where_: seq<Condition>, sort: seq<SortKey>, limit: Option<int>)
    : (r: Outcome<seq<Row>>)
    requires ValidData(data)
  {
    if store !in data then Err(UnknownStore)
    else match Filter(data[store].Values(), where_)
      case Err(e) => Err(e)
      case Ok(rows) =>
        if sort != [] then
          if exists k | k in sort :: !k.Sortable(rows) then Err(BadQuery)
          else Ok(Limit(Sort(rows, SortOrder(sort)), limit))
        else if !DefaultSortable(rows, cfg.KeyField(store)) then Err(TypeError)
        else Ok(Limit(Sort(rows, DefaultOrder(cfg.KeyField(store))), limit))
  }

  function Counted(data: Data, store: string, where_: Option<seq<Condition>>): (r: Outcome<nat>)
    requires ValidData(data)
  {
    if store !in data then Err(UnknownStore)
    else match Filter(data[store].Values(), where_.GetOr([]))
      case Err(e) => Err(e)
      case Ok(rows) => Ok(|rows|)
  }

  predicate DefaultSortable(rows: seq<Row>, field: string) {
    |rows| > 1 ==> forall a, b | a in rows && b in rows :: Comparable(DefaultKey(field)(a), DefaultKey(field)(b))
  }

  // ---- tables stay well-formed ----

  lemma {:induction false} WithoutFacts(keys: seq<string>, key: string)
    ensures forall k :: k in Without(keys, key) <==> k in keys && k != key
    ensures Distinct(keys) ==> Distinct(Without(keys, key))
    ensures key !in keys ==> Without(keys, key) == keys
  {
    if keys != [] {
      WithoutFacts(keys[1..], key);
      var rest := Without(keys[1..], key);
      if Distinct(keys) && keys[0] != key {
        forall j | 0 <= j < |rest| ensures rest[j] != keys[0] { assert rest[j] in rest; }
      }
    }
  }

  lemma PutValid(table: Table, key: string, row: Row)
    requires table.Valid()
    ensures table.Put(key, row).Valid()
  {
  }

  lemma RemoveValid(table: Table, key: string)
    requires table.Valid()
    ensures table.Remove(key).Valid()
  {
    WithoutFacts(table.order, key);
  }

  lemma {:induction false} SeedTableValid(cfg: Config, store: string, rows: seq<Row>)
    ensures cfg.SeedTable(store, rows).Valid()
  {
    if rows != [] {
      var init, row := rows[..|rows| - 1], rows[|rows| - 1];
      SeedTableValid(cfg, store, init);
      var field := cfg.KeyField(store);
      if field in row && row[field] != Null {
        PutValid(cfg.SeedTable(store, init), cfg.text(row[field]), row);
      }
    }
  }

  lemma SeedDataValid(cfg: Config)
    ensures ValidData(cfg.SeedData())
  {
    forall store | store in cfg.SeedData() ensures cfg.SeedData()[store].Valid() {
      SeedTableValid(cfg, store, cfg.seed[store]);
    }
  }

  lemma ApplyValid(cfg: Config, data: Data, op: Op)
    requires ValidData(data)
    ensures ValidData(Apply(cfg, data, op).0)
  {
    match op
    case Reset => SeedDataValid(cfg);
    case Insert(store, row) =>
      if store in data && cfg.KeyField(store) in row {
        PutValid(data[store], cfg.text(row[cfg.KeyField(store)]), row);
      }
    case Update(store, id, patch) =>
      if store in data && id in data[store].rows { PutValid(data[store], id, data[store].rows[id] + patch); }
    case Delete(store, id) =>
      if store in data { RemoveValid(data[store], id); }
  }

  // ---- sort orders ----

  lemma SortKeyTotal(key: SortKey)
    ensures TotalPreorder(key.Order())
  {
    ValueOrder();
    var up := By(row => key.Value(row), ValueLe);
    ByTotal(row => key.Value(row), ValueLe);
    ReversedTotal(up);
  }

  lemma SortOrderTotal(keys: seq<SortKey>)
    ensures TotalPreorder(SortOrder(keys))
  {
    forall i | 0 <= i < |keys| ensures TotalPreorder(Orders(keys)[i]) {
      SortKeyTotal(keys[i]);
    }
    LexAllTotal(Orders(keys));
  }

  /** Whether a key can be sorted by does not depend on the order of the rows. */
  lemma SortablePermuted(key: SortKey, a: seq<Row>, b: seq<Row>)
    requires multiset(a) == multiset(b)
    ensures key.Sortable(a) <==> key.Sortable(b)
  {
    assert |a| == |multiset(a)| == |multiset(b)| == |b|;
    forall x ensures x in a <==> x in b {
      InMultiset(a, x);
      InMultiset(b, x);
    }
  }

  lemma SortedByNone(rows: seq<Row>, sort: seq<SortKey>)
    requires sort == []
    ensures Sort(rows, SortOrder(sort)) == rows
  {
    assert Orders(sort) == [];
    SortByNothing(rows);
  }

  lemma OneMoreKey(sort: seq<SortKey>, i: nat)
    requires i < |sort|
    ensures SortOrder(sort[i..]) == Lex(sort[i].Order(), SortOrder(sort[i + 1..]))
  {
    var orders := Orders(sort[i..]);
    assert orders[1..] == Orders(sort[i + 1..]);
    assert orders[0] == sort[i].Order();
  }

  /** Sorting by one more key, in front of those already sorted by. */
  lemma SortedByOneMore(rows: seq<Row>, sort: seq<SortKey>, i: nat)
    requires i < |sort|
    ensures var sorted := Sort(rows, SortOrder(sort[i + 1..]));
            && (sort[i].Sortable(sorted) <==> sort[i].Sortable(rows))
            && Sort(sorted, sort[i].Order()) == Sort(rows, SortOrder(sort[i..]))
  {
    hide *;
    var minor := SortOrder(sort[i + 1..]);
    OneMoreKey(sort, i);
    SortMultiset(rows, minor);
    SortablePermuted(sort[i], Sort(rows, minor), rows);
    SortOrderTotal(sort[i + 1..]);
    SortKeyTotal(sort[i]);
    SortTwice(rows, sort[i].Order(), minor);
  }

  lemma NoConditions(row: Row, where_: seq<Condition>)
    requires where_ == []
    ensures Matches(row, where_) == Holds
  {
    hide Check;
  }

  lemma FilterHolding(init: seq<Row>, last: Row, where_: seq<Condition>)
    requires Filter(init, where_).Ok? && Matches(last, where_).Holds?
    ensures Filter(init + [last], where_) == Ok(Filter(init, where_).value + [last])
  {
    hide Matches;
    assert (init + [last])[..|init|] == init;
  }

  lemma {:induction false} FilterAll(rows: seq<Row>, where_: seq<Condition>)
    requires where_ == []
    ensures Filter(rows, where_) == Ok(rows)
    decreases |rows|
  {
    if rows != [] {
      var init, last := rows[..|rows| - 1], rows[|rows| - 1];
      assert rows == init + [last];
      hide Filter, Matches;
      NoConditions(last, where_);
      FilterAll(init, where_);
      FilterHolding(init, last, where_);
    }
  }

  lemma {:induction false} FilterFirstError(rows: seq<Row>, where_: seq<Condition>, n: nat)
    requires n <= |rows| && Filter(rows[..n], where_).Err?
    ensures Filter(rows, where_) == Filter(rows[..n], where_)
    decreases |rows|
  {
    if n < |rows| {
      assert rows[..|rows| - 1][..n] == rows[..n];
      FilterFirstError(rows[..|rows| - 1], where_, n);
    } else {
      assert rows[..n] == rows;
    }
  }
}
