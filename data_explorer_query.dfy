/**
 * DataExplorerQuery: plans the clause list of a data-explorer query from the
 * parameters present, and shapes the rows IoTDB returns into a data series
 * and a query result. The result set is an input: its column names, column
 * type names and rows.
 */
module ExplorerQuery {
  import opened JavaText
  import IotdbWriter
  import TagProvider

  // ---------------------------------------------------------------------------
  // Clause planning

  /** The parameter keys of DataLakeManagementUtils a query can carry. */
  datatype QueryKey = SelectFrom | DeleteFrom | Where | GroupByTime | GroupByTags | Fill | OrderDescending | Limit | Offset

  /** The position of a clause kind in the fixed clause order. */
  function Rank(k: QueryKey): nat {
    match k
    case SelectFrom => 0
    case DeleteFrom => 1
    case Where => 2
    case GroupByTime => 3
    case GroupByTags => 4
    case Fill => 5
    case OrderDescending => 6
    case Limit => 7
    case Offset => 8
  }

  /** The parameters of one clause; only the measurement index they name is modelled. */
  datatype QueryParams = QueryParams(index: string)

  /** A query element: its clause kind and the parameters it was built from (null when the key is absent). */
  datatype QueryElement = QueryElement(key: QueryKey, params: Option<QueryParams>)

  /** Map.get: the value under the key, or null. */
  function Lookup(params: map<QueryKey, QueryParams>, k: QueryKey): (r: Option<QueryParams>)
    ensures r.Some? <==> k in params
    ensures r.Some? ==> r.value == params[k]
  {
    if k in params then Some(params[k]) else None
  }

  /** The clauses appear in the fixed order, each kind at most once. */
  predicate InClauseOrder(es: seq<QueryElement>) {
    forall i, j | 0 <= i < j < |es| :: Rank(es[i].key) < Rank(es[j].key)
  }

  /** Clauses in the fixed order never repeat a kind. */
  lemma ClauseOrderHasNoRepeats(es: seq<QueryElement>, i: int, j: int)
    requires InClauseOrder(es)
    requires 0 <= i < |es| && 0 <= j < |es| && i != j
    ensures es[i].key != es[j].key
  {
    if i < j {
      assert Rank(es[i].key) < Rank(es[j].key);
    } else {
      assert Rank(es[j].key) < Rank(es[i].key);
    }
  }

  /** The clauses after the first, in the order getQueryElements tries them. */
  const CLAUSE_ORDER: seq<QueryKey> := [Where, GroupByTime, GroupByTags, Fill, OrderDescending, Limit, Offset]

  /** A clause after the first is added when its key is present; tag grouping only without time grouping. */
  predicate Wanted(params: map<QueryKey, QueryParams>, k: QueryKey) {
    k in params && k != SelectFrom && k != DeleteFrom && (k != GroupByTags || GroupByTime !in params)
  }

  function ClauseFor(params: map<QueryKey, QueryParams>, k: QueryKey): seq<QueryElement> {
    if Wanted(params, k) then [QueryElement(k, Some(params[k]))] else []
  }

  /** The wanted clauses among `keys`, in the order of `keys`. */
  function Clauses(params: map<QueryKey, QueryParams>, keys: seq<QueryKey>): seq<QueryElement> {
    if keys == [] then [] else ClauseFor(params, keys[0]) + Clauses(params, keys[1..])
  }

  /** The select when SELECT_FROM is present, the delete otherwise. */
  function FirstElement(params: map<QueryKey, QueryParams>): QueryElement {
    if SelectFrom in params then QueryElement(SelectFrom, Some(params[SelectFrom]))
    else QueryElement(DeleteFrom, Lookup(params, DeleteFrom))
  }

  /** The clause list of a query over `params`: the first element, then each clause in the fixed order. */
  function Plan(params: map<QueryKey, QueryParams>): seq<QueryElement> {
    [FirstElement(params)] + ClauseFor(params, Where) + ClauseFor(params, GroupByTime) + ClauseFor(params, GroupByTags)
      + ClauseFor(params, Fill) + ClauseFor(params, OrderDescending) + ClauseFor(params, Limit) + ClauseFor(params, Offset)
  }

  lemma AppendAssoc(x: seq<QueryElement>, y: seq<QueryElement>, z: seq<QueryElement>)
    ensures (x + y) + z == x + (y + z)
  {
  }

  /** Trying the next key appends its clause, when wanted, to the clauses tried so far. */
  lemma ClausesStep(params: map<QueryKey, QueryParams>, done: seq<QueryElement>, keys: seq<QueryKey>)
    requires keys != []
    ensures (done + ClauseFor(params, keys[0])) + Clauses(params, keys[1..]) == done + Clauses(params, keys)
  {
    var a := ClauseFor(params, keys[0]);
    var b := Clauses(params, keys[1..]);
    var c := Clauses(params, keys);
    assert c == a + b;
    AppendAssoc(done, a, b);
  }

  /** The plan is the first element followed by the wanted clauses of the fixed order. */
  lemma PlanFollowsClauseOrder(params: map<QueryKey, QueryParams>)
    ensures Plan(params) == [FirstElement(params)] + Clauses(params, CLAUSE_ORDER)
  {
    var p := params;
    var d0 := [FirstElement(p)];
    var d1 := d0 + ClauseFor(p, Where);
    var d2 := d1 + ClauseFor(p, GroupByTime);
    var d3 := d2 + ClauseFor(p, GroupByTags);
    var d4 := d3 + ClauseFor(p, Fill);
    var d5 := d4 + ClauseFor(p, OrderDescending);
    var d6 := d5 + ClauseFor(p, Limit);
    var d7 := d6 + ClauseFor(p, Offset);
    ClausesStep(p, d0, CLAUSE_ORDER);
    ClausesStep(p, d1, CLAUSE_ORDER[1..]);
    ClausesStep(p, d2, CLAUSE_ORDER[2..]);
    ClausesStep(p, d3, CLAUSE_ORDER[3..]);
    ClausesStep(p, d4, CLAUSE_ORDER[4..]);
    ClausesStep(p, d5, CLAUSE_ORDER[5..]);
    ClausesStep(p, d6, CLAUSE_ORDER[6..]);
    assert CLAUSE_ORDER[6..][1..] == [];
    assert d7 + Clauses(p, []) == d7;
  }

  predicate RanksIncrease(keys: seq<QueryKey>) {
    forall i, j | 0 <= i < j < |keys| :: Rank(keys[i]) < Rank(keys[j])
  }

  /** Every clause among `keys` is a wanted key of `keys`, with its parameters. */
  lemma {:induction false} ClausesSound(params: map<QueryKey, QueryParams>, keys: seq<QueryKey>)
    ensures forall e | e in Clauses(params, keys) :: e.key in keys && Wanted(params, e.key) && e.params == Some(params[e.key])
  {
    if keys != [] {
      ClausesSound(params, keys[1..]);
      assert Clauses(params, keys) == ClauseFor(params, keys[0]) + Clauses(params, keys[1..]);
    }
  }

  /** Every wanted key of `keys` has its clause among them. */
  lemma {:induction false} ClausesComplete(params: map<QueryKey, QueryParams>, keys: seq<QueryKey>)
    ensures forall k | k in keys && Wanted(params, k) :: QueryElement(k, Some(params[k])) in Clauses(params, keys)
  {
    if keys != [] {
      ClausesComplete(params, keys[1..]);
      assert Clauses(params, keys) == ClauseFor(params, keys[0]) + Clauses(params, keys[1..]);
      assert forall k | k in keys :: k == keys[0] || k in keys[1..];
    }
  }

  /** Keys of increasing rank give clauses in the fixed order. */
  lemma {:induction false} ClausesOrdered(params: map<QueryKey, QueryParams>, keys: seq<QueryKey>)
    requires RanksIncrease(keys)
    ensures InClauseOrder(Clauses(params, keys))
  {
    if keys != [] {
      var rest := Clauses(params, keys[1..]);
      ClausesOrdered(params, keys[1..]);
      ClausesSound(params, keys[1..]);
      forall e | e in rest ensures Rank(keys[0]) < Rank(e.key) {
        var j :| 0 <= j < |keys[1..]| && keys[1..][j] == e.key;
        assert keys[j + 1] == e.key;
      }
      assert Clauses(params, keys) == ClauseFor(params, keys[0]) + rest;
      if Wanted(params, keys[0]) {
        PrependKeepsOrder(QueryElement(keys[0], Some(params[keys[0]])), rest);
      } else {
        assert ClauseFor(params, keys[0]) + rest == rest;
      }
    }
  }

  /** A clause ranked before every clause of an ordered list keeps it ordered when put in front. */
  lemma PrependKeepsOrder(x: QueryElement, rest: seq<QueryElement>)
    requires InClauseOrder(rest)
    requires forall e | e in rest :: Rank(x.key) < Rank(e.key)
    ensures InClauseOrder([x] + rest)
  {
    var c := [x] + rest;
    forall i, j | 0 <= i < j < |c| ensures Rank(c[i].key) < Rank(c[j].key) {
      if i == 0 {
        assert c[j] == rest[j - 1] && c[j] in rest;
      } else {
        assert c[i] == rest[i - 1] && c[j] == rest[j - 1];
      }
    }
  }

  /** The wanted clauses among keys of increasing rank: exactly the wanted keys, each with its parameters, in rank order. */
  lemma ClausesShape(params: map<QueryKey, QueryParams>, keys: seq<QueryKey>)
    requires RanksIncrease(keys)
    ensures forall e | e in Clauses(params, keys) :: e.key in keys && Wanted(params, e.key) && e.params == Some(params[e.key])
    ensures forall k | k in keys && Wanted(params, k) :: QueryElement(k, Some(params[k])) in Clauses(params, keys)
    ensures InClauseOrder(Clauses(params, keys))
  {
    ClausesSound(params, keys);
    ClausesComplete(params, keys);
    ClausesOrdered(params, keys);
  }

  /**
   * A clause list over `params` as getQueryElements promises it: a select
   * when SELECT_FROM is present and a delete otherwise, then exactly the
   * wanted clauses, each with its parameters, in the fixed order; time
   * grouping replaces tag grouping, so at most one grouping clause appears.
   */
  predicate WellPlanned(params: map<QueryKey, QueryParams>, es: seq<QueryElement>) {
    && |es| >= 1
    && es[0].key == (if SelectFrom in params then SelectFrom else DeleteFrom)
    && es[0].params == Lookup(params, es[0].key)
    && InClauseOrder(es)
    && (forall i | 1 <= i < |es| :: Wanted(params, es[i].key) && es[i].params == Some(params[es[i].key]))
    && (forall k | Wanted(params, k) :: QueryElement(k, Some(params[k])) in es[1..])
    && !(QueryElement(GroupByTags, Lookup(params, GroupByTags)) in es && GroupByTime in params)
  }

  /** The first element followed by clauses of the shape ClausesShape gives is well planned. */
  lemma FirstThenClausesWellPlanned(params: map<QueryKey, QueryParams>, rest: seq<QueryElement>)
    requires forall e | e in rest :: e.key in CLAUSE_ORDER && Wanted(params, e.key) && e.params == Some(params[e.key])
    requires forall k | k in CLAUSE_ORDER && Wanted(params, k) :: QueryElement(k, Some(params[k])) in rest
    requires InClauseOrder(rest)
    ensures WellPlanned(params, [FirstElement(params)] + rest)
  {
    var es := [FirstElement(params)] + rest;
    forall e | e in rest ensures Rank(FirstElement(params).key) < Rank(e.key) {
      assert e.key in CLAUSE_ORDER;
    }
    PrependKeepsOrder(FirstElement(params), rest);
    assert es[1..] == rest;
    forall i | 1 <= i < |es| ensures Wanted(params, es[i].key) && es[i].params == Some(params[es[i].key]) {
      assert es[i] == rest[i - 1] && es[i] in rest;
    }
    forall k | Wanted(params, k) ensures QueryElement(k, Some(params[k])) in es[1..] {
      assert k in CLAUSE_ORDER;
    }
  }

  /** The first element followed by the wanted clauses of the fixed order is well planned. */
  lemma ClauseListWellPlanned(params: map<QueryKey, QueryParams>)
    ensures WellPlanned(params, [FirstElement(params)] + Clauses(params, CLAUSE_ORDER))
  {
    ClausesShape(params, CLAUSE_ORDER);
    FirstThenClausesWellPlanned(params, Clauses(params, CLAUSE_ORDER));
  }

  /** The plan of every parameter map is well planned. */
  lemma PlanShape(params: map<QueryKey, QueryParams>)
    ensures WellPlanned(params, Plan(params))
  {
    PlanFollowsClauseOrder(params);
    ClauseListWellPlanned(params);
  }

  // ---------------------------------------------------------------------------
  // Values and rows

  /** The accessor getValue uses for a column type name. */
  datatype ValueKind = IntV | LongV | BoolV | FloatV | DoubleV | StringV

  /** A cell of a result row: null, or a field read with one accessor (the number itself is not modelled). */
  datatype Cell = NullCell | TypedCell(kind: ValueKind, text: string)

  /** An entry of an output row: the timestamp first, then the cells. */
  datatype Entry = TimeEntry(timestamp: int) | ValueEntry(cell: Cell)

  /** A row of the result set: its timestamp and the string value of each field. */
  datatype RowRecord = RowRecord(timestamp: int, fields: seq<string>)

  datatype DataSeries = DataSeries(total: int, rows: seq<seq<Entry>>, headers: seq<string>, tags: map<string, string>)

  datatype SpQueryResult = SpQueryResult(headers: seq<string>, dataResults: seq<DataSeries>, total: int, forId: Option<string>)

  const INDEX_OUT_OF_BOUNDS: string := "IndexOutOfBoundsException"

  /** The accessor chosen for a TSDataType name; any other name is read as a string. */
  function KindOf(typeName: string): ValueKind {
    if typeName == "INT32" then IntV
    else if typeName == "INT64" then LongV
    else if typeName == "BOOLEAN" then BoolV
    else if typeName == "FLOAT" then FloatV
    else if typeName == "DOUBLE" then DoubleV
    else StringV
  }

  /** The name IoTDB reports for a storage type. */
  function TypeName(t: IotdbWriter.TSDataType): string {
    match t
    case INT32 => "INT32"
    case INT64 => "INT64"
    case FLOAT => "FLOAT"
    case DOUBLE => "DOUBLE"
    case BOOLEAN => "BOOLEAN"
    case TEXT => "TEXT"
  }

  /** A column written with one storage type is read back with the matching accessor, and different types with different accessors. */
  lemma StorageTypesReadBackDistinctly(t: IotdbWriter.TSDataType, u: IotdbWriter.TSDataType)
    ensures t == IotdbWriter.TEXT <==> KindOf(TypeName(t)) == StringV
    ensures t != u ==> KindOf(TypeName(t)) != KindOf(TypeName(u))
  {
  }

  /**
   * getValue: field i is typed by the column type at i + 1 (column 0 is the
   * time column); the literal "null" is read as null. A missing column type
   * throws.
   */
  function GetValue(fields: seq<string>, columnTypes: seq<string>, i: int): (r: Result<Cell>)
    requires 0 <= i < |fields|
    ensures r.Err? <==> |columnTypes| <= i + 1
    ensures r.Ok? ==> (r.value == NullCell <==> fields[i] == "null")
    ensures r.Ok? && r.value.TypedCell? ==> r.value.text == fields[i]
    ensures r.Ok? && fields[i] != "null" ==> r.value == TypedCell(KindOf(columnTypes[i + 1]), fields[i])
  {
    if i + 1 >= |columnTypes| then Err(INDEX_OUT_OF_BOUNDS)
    else if fields[i] == "null" then Ok(NullCell)
    else Ok(TypedCell(KindOf(columnTypes[i + 1]), fields[i]))
  }

  /** The cells of the first n fields, or the failure of the first that fails. */
  function Cells(fields: seq<string>, columnTypes: seq<string>, n: nat): (r: Result<seq<Entry>>)
    requires n <= |fields|
    ensures r.Err? ==> r.message == INDEX_OUT_OF_BOUNDS
    ensures r.Ok? ==> |r.value| == n && forall k | 0 <= k < n :: r.value[k].ValueEntry?
    ensures r.Ok? ==>
              forall k | 0 <= k < n :: GetValue(fields, columnTypes, k).Ok? && r.value[k] == ValueEntry(GetValue(fields, columnTypes, k).value)
  {
    if n == 0 then Ok([])
    else
      var init := Cells(fields, columnTypes, n - 1);
      if init.Err? then init
      else
        var v := GetValue(fields, columnTypes, n - 1);
        if v.Err? then Err(v.message) else Ok(init.value + [ValueEntry(v.value)])
  }

  lemma {:induction false} CellsFail(fields: seq<string>, columnTypes: seq<string>, n: nat)
    requires n <= |fields|
    ensures Cells(fields, columnTypes, n).Err? <==> n > 0 && |columnTypes| <= n
  {
    if n > 0 {
      CellsFail(fields, columnTypes, n - 1);
    }
  }

  /**
   * What one row becomes: kept as [timestamp] + cells, or dropped (None).
   * With ignoreMissingValues the first field is read and the row is then
   * dropped, so only rows without fields are kept.
   */
  function ConvertRow(row: RowRecord, columnTypes: seq<string>, ignoreMissingValues: bool)
    : Result<Option<seq<Entry>>>
  {
    if ignoreMissingValues then
      if |row.fields| == 0 then Ok(Some([TimeEntry(row.timestamp)]))
      else
        var v := GetValue(row.fields, columnTypes, 0);
        if v.Err? then Err(v.message) else Ok(None)
    else
      var cells := Cells(row.fields, columnTypes, |row.fields|);
      if cells.Err? then Err(cells.message) else Ok(Some([TimeEntry(row.timestamp)] + cells.value))
  }

  /** The rows kept from the result set, in order, or the first failure. */
  function ConvertRows(rows: seq<RowRecord>, columnTypes: seq<string>, ignoreMissingValues: bool)
    : (r: Result<seq<seq<Entry>>>)
    ensures r.Err? ==> r.message == INDEX_OUT_OF_BOUNDS
  {
    if rows == [] then Ok([])
    else
      var init := ConvertRows(rows[..|rows| - 1], columnTypes, ignoreMissingValues);
      if init.Err? then init
      else
        var last := ConvertRow(rows[|rows| - 1], columnTypes, ignoreMissingValues);
        if last.Err? then Err(last.message)
        else if last.value.None? then init
        else Ok(init.value + [last.value.value])
  }

  /** A row can fail to convert: it has a field whose column type is missing from the type list. */
  predicate RowFails(row: RowRecord, columnTypes: seq<string>, ignoreMissingValues: bool) {
    |row.fields| > 0 && |columnTypes| <= (if ignoreMissingValues then 1 else |row.fields|)
  }

  /** Conversion fails exactly when some row has a field without a column type. */
  lemma {:induction false} ConvertRowsFails(rows: seq<RowRecord>, columnTypes: seq<string>, ignoreMissingValues: bool)
    ensures ConvertRows(rows, columnTypes, ignoreMissingValues).Err? <==>
              exists j | 0 <= j < |rows| :: RowFails(rows[j], columnTypes, ignoreMissingValues)
  {
    if rows != [] {
      var init := rows[..|rows| - 1];
      ConvertRowsFails(init, columnTypes, ignoreMissingValues);
      CellsFail(rows[|rows| - 1].fields, columnTypes, |rows[|rows| - 1].fields|);
      if exists j | 0 <= j < |init| :: RowFails(init[j], columnTypes, ignoreMissingValues) {
        var j :| 0 <= j < |init| && RowFails(init[j], columnTypes, ignoreMissingValues);
        assert rows[j] == init[j];
      }
      if exists j | 0 <= j < |rows| :: RowFails(rows[j], columnTypes, ignoreMissingValues) {
        var j :| 0 <= j < |rows| && RowFails(rows[j], columnTypes, ignoreMissingValues);
        if j < |init| {
          assert init[j] == rows[j];
        }
      }
    }
  }

  /** Without ignoreMissingValues every row is kept, as its timestamp followed by one cell per field. */
  lemma {:induction false} AllRowsKept(rows: seq<RowRecord>, columnTypes: seq<string>)
    requires ConvertRows(rows, columnTypes, false).Ok?
    ensures var kept := ConvertRows(rows, columnTypes, false).value;
            |kept| == |rows| &&
            forall j | 0 <= j < |rows| ::
              |kept[j]| == 1 + |rows[j].fields| && kept[j][0] == TimeEntry(rows[j].timestamp)
    ensures var kept := ConvertRows(rows, columnTypes, false).value;
            forall j, k | 0 <= j < |rows| && 0 <= k < |rows[j].fields| ::
              GetValue(rows[j].fields, columnTypes, k).Ok? && kept[j][k + 1] == ValueEntry(GetValue(rows[j].fields, columnTypes, k).value)
  {
    if rows != [] {
      AllRowsKept(rows[..|rows| - 1], columnTypes);
    }
  }

  /** The rows that have no fields. */
  function RowsWithoutFields(rows: seq<RowRecord>): (r: seq<RowRecord>)
    ensures |r| <= |rows|
    ensures forall j | 0 <= j < |r| :: r[j] in rows && r[j].fields == []
    ensures forall j | 0 <= j < |rows| && rows[j].fields == [] :: rows[j] in r
  {
    if rows == [] then []
    else
      var init := RowsWithoutFields(rows[..|rows| - 1]);
      if rows[|rows| - 1].fields == [] then init + [rows[|rows| - 1]] else init
  }

  /**
   * With ignoreMissingValues only the rows with no field at all are kept,
   * each as just its timestamp: a row that has any field is dropped.
   */
  lemma {:induction false} IgnoringKeepsOnlyRowsWithoutFields(rows: seq<RowRecord>, columnTypes: seq<string>)
    requires ConvertRows(rows, columnTypes, true).Ok?
    ensures var kept := ConvertRows(rows, columnTypes, true).value;
            var empty := RowsWithoutFields(rows);
            |kept| == |empty| && forall j | 0 <= j < |kept| :: kept[j] == [TimeEntry(empty[j].timestamp)]
  {
    if rows != [] {
      IgnoringKeepsOnlyRowsWithoutFields(rows[..|rows| - 1], columnTypes);
    }
  }

  // ---------------------------------------------------------------------------
  // Headers

  /** The header of a column: "time" for "Time", otherwise the text after the last ".". */
  function HeaderName(column: string): (r: string)
    ensures column == "Time" ==> r == "time"
    ensures column != "Time" ==> '.' !in r && EndsWith(column, r)
    ensures column != "Time" && '.' !in column ==> r == column
    ensures column != "Time" && r != column ==> column[|column| - |r| - 1] == '.'
  {
    if column == "Time" then "time"
    else column[LastIndexOf(column, '.') + 1..]
  }

  /** setHeader: one header per column, in column order. */
  method SetHeader(columns: seq<string>) returns (headers: seq<string>)
    ensures |headers| == |columns|
    ensures forall i | 0 <= i < |columns| :: headers[i] == HeaderName(columns[i])
  {
    headers := [];
    for i := 0 to |columns|
      invariant |headers| == i
      invariant forall j | 0 <= j < i :: headers[j] == HeaderName(columns[j])
    {
      var column := columns[i];
      if column == "Time" {
        headers := headers + ["time"];
        continue;
      }
      headers := headers + [column[LastIndexOf(column, '.') + 1..]];
    }
  }

  // ---------------------------------------------------------------------------
  // The query

  class DataExplorerQuery {
    var params: map<QueryKey, QueryParams>
    var maximumAmountOfEvents: int
    var appendId: bool
    var forId: Option<string>

    /** A query over the given parameters, with no event limit and no id. */
    constructor (params: map<QueryKey, QueryParams>)
      ensures this.params == params && maximumAmountOfEvents == -1
      ensures !appendId && forId.None?
    {
      this.params := params;
      maximumAmountOfEvents := -1;
      appendId := false;
      forId := None;
    }

    /** A query whose result is labelled with the given id. */
    constructor WithId(params: map<QueryKey, QueryParams>, forId: Option<string>)
      ensures this.params == params && maximumAmountOfEvents == -1
      ensures appendId && this.forId == forId
    {
      this.params := params;
      maximumAmountOfEvents := -1;
      appendId := true;
      this.forId := forId;
    }

    /** A query with an event limit. */
    constructor WithLimit(params: map<QueryKey, QueryParams>, maximumAmountOfEvents: int)
      ensures this.params == params && this.maximumAmountOfEvents == maximumAmountOfEvents
      ensures !appendId && forId.None?
    {
      this.params := params;
      this.maximumAmountOfEvents := maximumAmountOfEvents;
      appendId := false;
      forId := None;
    }

    /**
     * getQueryElements: a select when SELECT_FROM is present and a delete
     * otherwise, then each present clause in the fixed order, with time
     * grouping taking the place of tag grouping when both are present.
     */
    method GetQueryElements() returns (es: seq<QueryElement>)
      ensures es == Plan(params)
    {
      var p := params;
      if SelectFrom in p {
        es := [QueryElement(SelectFrom, Some(p[SelectFrom]))];
      } else {
        es := [QueryElement(DeleteFrom, Lookup(p, DeleteFrom))];
      }
      es := AddIfPresent(es, p, Where);
      ghost var grouped := es;
      if GroupByTime in p {
        es := es + [QueryElement(GroupByTime, Some(p[GroupByTime]))];
      } else if GroupByTags in p {
        es := es + [QueryElement(GroupByTags, Some(p[GroupByTags]))];
      }
      assert es == grouped + ClauseFor(p, GroupByTime) + ClauseFor(p, GroupByTags);
      es := AddIfPresent(es, p, Fill);
      es := AddIfPresent(es, p, OrderDescending);
      es := AddIfPresent(es, p, Limit);
      es := AddIfPresent(es, p, Offset);
    }

    /** One `containsKey` test of getQueryElements: the clause is added when its key is present. */
    static method AddIfPresent(es: seq<QueryElement>, p: map<QueryKey, QueryParams>, k: QueryKey)
      returns (r: seq<QueryElement>)
      requires k != SelectFrom && k != DeleteFrom && k != GroupByTags
      ensures k in p ==> r == es + [QueryElement(k, Some(p[k]))]
      ensures k !in p ==> r == es
      ensures r == es + ClauseFor(p, k)
    {
      r := es;
      if k in p {
        r := r + [QueryElement(k, Some(p[k]))];
      }
    }

    /**
     * convertResult: the kept rows with their count, the column names as
     * headers, and the tags getTags finds when given the storage bucket's
     * name (getDatabaseName) as the measurement id. A failing row fails
     * first; a failing tag lookup fails the call. `iotdbBucket` is the
     * bucket getTagValues puts in front of the device path, and
     * `storedKeys` and `firstDevice` are the two tag rows IoTDB returns for
     * that id.
     */
    method ConvertResult(columns: seq<string>, columnTypes: seq<string>, rows: seq<RowRecord>,
                         databaseName: string, iotdbBucket: string, storedKeys: Option<string>, firstDevice: Option<string>,
                         ignoreMissingValues: bool)
      returns (r: Result<DataSeries>)
      ensures var kept := ConvertRows(rows, columnTypes, ignoreMissingValues);
              kept.Err? ==> r == Err(kept.message)
      ensures var kept := ConvertRows(rows, columnTypes, ignoreMissingValues);
              kept.Ok? ==>
                exists t :: TagProvider.TagsResult(iotdbBucket, databaseName, storedKeys, firstDevice, t)
                  && r == if t.Err? then Err(t.message) else Ok(DataSeries(|kept.value|, kept.value, columns, t.value))
    {
      var values: seq<seq<Entry>> := [];
      var next := 0;
      while next < |rows|
        invariant 0 <= next <= |rows|
        invariant ConvertRows(rows[..next], columnTypes, ignoreMissingValues) == Ok(values)
      {
        var put := true;
        var rowRecord := rows[next];
        assert rows[..next + 1][..next] == rows[..next];
        next := next + 1;
        var list := [TimeEntry(rowRecord.timestamp)];
        var fields := rowRecord.fields;
        for i := 0 to |fields|
          invariant put
          invariant ignoreMissingValues ==> i == 0
          invariant Cells(fields, columnTypes, i).Ok?
          invariant list == [TimeEntry(rowRecord.timestamp)] + Cells(fields, columnTypes, i).value
        {
          var value := GetValue(fields, columnTypes, i);
          if value.Err? {
            assert RowFails(rows[next - 1], columnTypes, ignoreMissingValues);
            ConvertRowsFails(rows, columnTypes, ignoreMissingValues);
            return Err(value.message);
          }
          if ignoreMissingValues {
            put := false;
            break;
          }
          list := list + [ValueEntry(value.value)];
        }
        if !put {
          continue;
        }
        values := values + [list];
      }
      assert rows[..|rows|] == rows;
      var tags := TagProvider.GetTags(iotdbBucket, databaseName, storedKeys, firstDevice);
      if tags.Err? {
        return Err(tags.message);
      }
      r := Ok(DataSeries(|values|, values, columns, tags.value));
    }

    /**
     * postQuery: one data series, the headers of its columns, its total, and
     * the id when the query was built with one.
     */
    method PostQuery(columns: seq<string>, columnTypes: seq<string>, rows: seq<RowRecord>,
                     databaseName: string, iotdbBucket: string, storedKeys: Option<string>, firstDevice: Option<string>,
                     ignoreMissingValues: bool)
      returns (r: Result<SpQueryResult>)
      ensures var kept := ConvertRows(rows, columnTypes, ignoreMissingValues);
              kept.Err? ==> r == Err(kept.message)
      ensures var kept := ConvertRows(rows, columnTypes, ignoreMissingValues);
              kept.Ok? ==>
                exists t :: TagProvider.TagsResult(iotdbBucket, databaseName, storedKeys, firstDevice, t)
                  && (t.Err? ==> r == Err(t.message))
                  && (t.Ok? ==>
                        && r.Ok?
                        && r.value.total == |kept.value|
                        && r.value.dataResults == [DataSeries(|kept.value|, kept.value, columns, t.value)]
                        && |r.value.headers| == |columns|
                        && (forall i | 0 <= i < |columns| :: r.value.headers[i] == HeaderName(columns[i]))
                        && r.value.forId == if appendId then forId else None)
    {
      var dataSeries := ConvertResult(columns, columnTypes, rows, databaseName, iotdbBucket, storedKeys, firstDevice,
                                      ignoreMissingValues);
      if dataSeries.Err? {
        return Err(dataSeries.message);
      }
      var headers := SetHeader(dataSeries.value.headers);
      var result := SpQueryResult(headers, [dataSeries.value], dataSeries.value.total, None);
      if appendId {
        result := result.(forId := forId);
      }
      r := Ok(result);
    }
  }
}
