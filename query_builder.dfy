/**
 * QueryBuilder: collects the statements of query elements in a joiner that
 * separates them with single spaces, and turns the joined query into a
 * count query.
 */
module QueryBuilding {
  import opened JavaText

  const COUNT_PREFIX: string := "SELECT COUNT(*) FROM "
  const SUBSTRING_OUT_OF_RANGE: string := "StringIndexOutOfBoundsException"

  /** The statements of the elements, in list order. */
  function Statements<E>(elements: seq<E>, statement: E -> string): (r: seq<string>)
    ensures |r| == |elements|
    ensures forall i | 0 <= i < |elements| :: r[i] == statement(elements[i])
  {
    seq(|elements|, i requires 0 <= i < |elements| => statement(elements[i]))
  }

  /**
   * toCountResultsQuery on a query text: the count prefix followed by the
   * text after the first "FROM". Without a "FROM" the start index is
   * -1 + 4 = 3, and `substring` throws when the text is shorter than that.
   */
  function CountQuery(query: string): (r: Result<string>)
    ensures r.Ok? ==> StartsWith(r.value, COUNT_PREFIX)
    ensures r.Err? ==> IndexOf(query, "FROM") == -1 && |query| < 3
  {
    var start := IndexOf(query, "FROM") + 4;
    if start > |query| then Err(SUBSTRING_OUT_OF_RANGE) else Ok(COUNT_PREFIX + query[start..])
  }

  /** A query whose first "FROM" follows `prefix` counts over everything after that "FROM". */
  lemma CountQueryAfterFirstFrom(prefix: string, rest: string)
    requires forall j | 0 <= j < |prefix| :: !MatchAt(prefix + "FROM" + rest, "FROM", j)
    ensures CountQuery(prefix + "FROM" + rest) == Ok(COUNT_PREFIX + rest)
  {
    var q := prefix + "FROM" + rest;
    assert q[|prefix|..|prefix| + 4] == "FROM";
    assert MatchAt(q, "FROM", |prefix|);
    assert IndexOf(q, "FROM") == |prefix|;
    assert q[|prefix| + 4..] == rest;
  }

  /** A query without "FROM" keeps everything from index 3, or fails when it is shorter than 3. */
  lemma CountQueryWithoutFrom(query: string)
    requires forall j | 0 <= j :: !MatchAt(query, "FROM", j)
    ensures |query| < 3 ==> CountQuery(query).Err?
    ensures |query| >= 3 ==> CountQuery(query) == Ok(COUNT_PREFIX + query[3..])
  {
    assert IndexOf(query, "FROM") == -1;
  }

  class QueryBuilder {
    /** The parts added to the joiner so far. */
    var queryParts: seq<string>
    const databaseName: string

    constructor (databaseName: string)
      ensures queryParts == [] && this.databaseName == databaseName
    {
      queryParts := [];
      this.databaseName := databaseName;
    }

    /** toQuery: the parts joined with single spaces; "" when there are none. */
    function ToQuery(): (r: string)
      reads this
      ensures queryParts == [] ==> r == ""
      ensures queryParts != [] ==> StartsWith(r, queryParts[0])
      ensures |queryParts| >= 2 ==> r == queryParts[0] + " " + Join(queryParts[1..], " ")
    {
      Join(queryParts, " ")
    }

    /** toCountResultsQuery: the count query for the joined parts. */
    function ToCountResultsQuery(): (r: Result<string>)
      reads this
      ensures r.Ok? ==> StartsWith(r.value, COUNT_PREFIX)
    {
      CountQuery(ToQuery())
    }

    /**
     * build: adds each element's statement to the joiner, in order and on
     * top of the parts of earlier calls, then returns the query or the count query.
     */
    method Build<E>(elements: seq<E>, statement: E -> string, onlyCountResults: bool) returns (query: Result<string>)
      modifies this`queryParts
      ensures queryParts == old(queryParts) + Statements(elements, statement)
      ensures !onlyCountResults ==> query == Ok(ToQuery())
      ensures onlyCountResults ==> query == ToCountResultsQuery()
    {
      for i := 0 to |elements|
        invariant queryParts == old(queryParts) + Statements(elements[..i], statement)
      {
        queryParts := queryParts + [statement(elements[i])];
      }
      assert elements[..|elements|] == elements;
      if onlyCountResults {
        query := ToCountResultsQuery();
      } else {
        query := Ok(ToQuery());
      }
    }
  }

  /** QueryBuilder.create: a fresh builder with no parts. */
  method Create(databaseName: string) returns (b: QueryBuilder)
    ensures fresh(b) && b.queryParts == [] && b.databaseName == databaseName
  {
    b := new QueryBuilder(databaseName);
  }

  /** On a fresh builder, build with no count returns the element statements joined by single spaces. */
  method BuildOnFreshBuilder<E>(databaseName: string, elements: seq<E>, statement: E -> string) returns (query: Result<string>)
    ensures query == Ok(Join(Statements(elements, statement), " "))
    ensures elements == [] ==> query == Ok("")
  {
    var b := Create(databaseName);
    query := b.Build(elements, statement, false);
    assert b.queryParts == [] + Statements(elements, statement) == Statements(elements, statement);
  }

  /** A second build on the same builder sees the parts of the first before its own. */
  method BuildTwice<E>(databaseName: string, first: seq<E>, second: seq<E>, statement: E -> string)
    returns (query: Result<string>)
    ensures query == Ok(Join(Statements(first, statement) + Statements(second, statement), " "))
  {
    var b := Create(databaseName);
    var _ := b.Build(first, statement, false);
    assert b.queryParts == [] + Statements(first, statement) == Statements(first, statement);
    query := b.Build(second, statement, false);
  }
}
