/**
 * The stored SQLite index: a query becomes one common table expression per clause, combined by a join or,
 * for many clauses, by a union that requires every clause. A table is the map from its row ids to scores.
 */
module SqliteSearch {
  import opened Wrappers
  import opened Utf8
  import opened Alphabets
  import opened Tokens
  import opened SearchItems
  import opened Search
  import opened SearchColumns
  import opened SearchClauses
  import opened Sorting
  import opened SearchOrder

  const JoinedClauseLimit := 16

  type Table = map<nat, nat>

  function AllRows(rows: nat): (all: Table)
    ensures forall p: nat :: (p in all <==> p < rows) && (p in all ==> all[p] == 0)
  {
    if rows == 0 then map[] else AllRows(rows - 1)[rows - 1 := 0]
  }

  // SELECT rowid, MAX(score) ... GROUP BY rowid over all columns.
  function ClauseTable(u: Alphabet, items: seq<Item>, clause: Clause): Table {
    map p | 0 <= p < |items| && AllSqlScores(Columns(u, items[p]), clause) != [] ::
      MaxOf(AllSqlScores(Columns(u, items[p]), clause))
  }

  // JOIN ... USING(rowid), adding the scores.
  function JoinTables(tables: seq<Table>): Table
    requires tables != []
  {
    if |tables| == 1 then tables[0]
    else
      var rest, last := JoinTables(tables[..|tables| - 1]), tables[|tables| - 1];
      map p | p in rest && p in last :: rest[p] + last[p]
  }

  function CountIn(tables: seq<Table>, p: nat): nat {
    if tables == [] then 0 else CountIn(tables[..|tables| - 1], p) + if p in tables[|tables| - 1] then 1 else 0
  }

  function SumIn(tables: seq<Table>, p: nat): nat {
    if tables == [] then 0
    else SumIn(tables[..|tables| - 1], p) + if p in tables[|tables| - 1] then tables[|tables| - 1][p] else 0
  }

  // UNION ALL ... GROUP BY rowid HAVING COUNT(*) = the number of clauses.
  function UnionTables(tables: seq<Table>, rows: nat): Table {
    map p | 0 <= p < rows && CountIn(tables, p) > 0 && CountIn(tables, p) == |tables| :: SumIn(tables, p)
  }

  method Candidates(u: Alphabet, items: seq<Item>, q: Query, selected: seq<Marker>) returns (result: Table)
    requires Parsed(q)
    ensures forall p: nat :: p in result <==>
              p < |items| && HasChain(items[p], selected) && Score(u, items[p], q).Some?
    ensures forall p: nat :: p in result ==> Score(u, items[p], q) == Some(result[p])
  {
    var clauses := Clauses(q);
    var tables: seq<Table> := [];
    for i := 0 to |clauses|
      invariant tables == ClauseTables(u, items, clauses[..i])
    {
      assert clauses[..i + 1][..i] == clauses[..i];
      tables := tables + [ClauseTable(u, items, clauses[i])];
    }
    assert clauses[..|clauses|] == clauses;
    var source: Table;
    if tables == [] {
      source := AllRows(|items|);
    } else if |tables| <= JoinedClauseLimit {
      source := JoinTables(tables);
    } else {
      source := UnionTables(tables, |items|);
    }
    result := map p | p in source && p < |items| && MarkersAtDepths(items[p], selected) :: source[p];
    SourceIsSpec(u, items, q, source);
    forall p | 0 <= p < |items| ensures MarkersAtDepths(items[p], selected) <==> HasChain(items[p], selected) {
      DepthsAreChain(items[p], selected);
    }
  }

  function ClauseTables(u: Alphabet, items: seq<Item>, clauses: seq<Clause>): seq<Table> {
    if clauses == [] then []
    else ClauseTables(u, items, clauses[..|clauses| - 1]) + [ClauseTable(u, items, clauses[|clauses| - 1])]
  }

  // --- Joining, or counting a union -----------------------------------------------------------

  lemma {:induction false} JoinIsSum(tables: seq<Table>, p: nat)
    requires tables != []
    ensures p in JoinTables(tables) <==> CountIn(tables, p) == |tables|
    ensures p in JoinTables(tables) ==> JoinTables(tables)[p] == SumIn(tables, p)
  {
    CountBound(tables[..|tables| - 1], p);
    if |tables| == 1 {
      assert tables[..0] == [];
    } else {
      JoinIsSum(tables[..|tables| - 1], p);
    }
  }

  lemma {:induction false} CountBound(tables: seq<Table>, p: nat)
    ensures CountIn(tables, p) <= |tables|
  {
    if tables != [] { CountBound(tables[..|tables| - 1], p); }
  }

  /** Both ways of combining the clauses give the same rows and scores. */
  lemma JoinAndUnionAgree(tables: seq<Table>, rows: nat)
    requires tables != [] && forall p: nat :: p in JoinTables(tables) ==> p < rows
    ensures JoinTables(tables) == UnionTables(tables, rows)
  {
    var join, union := JoinTables(tables), UnionTables(tables, rows);
    forall p: nat ensures (p in join <==> p in union) && (p in join ==> join[p] == union[p]) {
      JoinIsSum(tables, p);
    }
  }

  // --- The specification's rows and scores ----------------------------------------------------

  lemma ClauseRow(u: Alphabet, items: seq<Item>, clause: Clause, p: nat)
    requires p < |items| && Usable(clause)
    ensures var score := ClauseScore(Columns(u, items[p]), clause);
            (p in ClauseTable(u, items, clause) <==> score > 0) &&
            (p in ClauseTable(u, items, clause) ==> ClauseTable(u, items, clause)[p] == score)
  {
    PositiveWeights(u, items[p]);
    EnginesScoreClauses(Columns(u, items[p]), clause);
  }

  // The tables so far hold the row with the total score, unless a clause did not match.
  ghost predicate Holds(total: Option<nat>, tables: seq<Table>, p: nat) {
    (total.Some? <==> CountIn(tables, p) == |tables|) && (total.Some? ==> total.value == SumIn(tables, p))
  }

  lemma HoldsMore(total: Option<nat>, tables: seq<Table>, p: nat, here: Table, score: nat)
    requires Holds(total, tables, p) && (p in here <==> score > 0) && (p in here ==> here[p] == score)
    ensures Holds(AddScore(total, score), tables + [here], p)
  {
    assert (tables + [here])[..|tables|] == tables;
    CountBound(tables, p);
  }

  lemma {:induction false} TablesAreTotal(u: Alphabet, items: seq<Item>, clauses: seq<Clause>, p: nat)
    requires p < |items| && forall i :: 0 <= i < |clauses| ==> Usable(clauses[i])
    ensures Holds(ClauseTotal(Columns(u, items[p]), clauses), ClauseTables(u, items, clauses), p)
  {
    if clauses != [] {
      var init, c := clauses[..|clauses| - 1], clauses[|clauses| - 1];
      TablesAreTotal(u, items, init, p);
      ClauseRow(u, items, c, p);
      HoldsMore(ClauseTotal(Columns(u, items[p]), init), ClauseTables(u, items, init), p, ClauseTable(u, items, c),
                ClauseScore(Columns(u, items[p]), c));
    }
  }

  lemma {:induction false} TablesInRange(u: Alphabet, items: seq<Item>, clauses: seq<Clause>, p: nat)
    requires p >= |items|
    ensures CountIn(ClauseTables(u, items, clauses), p) == 0
  {
    if clauses != [] {
      var init := clauses[..|clauses| - 1];
      TablesInRange(u, items, init, p);
      var before := ClauseTables(u, items, init);
      assert ClauseTables(u, items, clauses)[..|before|] == before;
    }
  }

  lemma SourceRow(tables: seq<Table>, total: Option<nat>, rows: nat, source: Table, p: nat)
    requires tables == [] ==> source == AllRows(rows)
    requires tables != [] ==> source == JoinTables(tables) || source == UnionTables(tables, rows)
    requires if p < rows then Holds(total, tables, p) else CountIn(tables, p) == 0
    ensures p in source <==> p < rows && total.Some?
    ensures p in source ==> total == Some(source[p])
  {
    if tables != [] { JoinIsSum(tables, p); }
  }

  lemma SourceRowIsSpec(u: Alphabet, items: seq<Item>, q: Query, source: Table, p: nat)
    requires Parsed(q)
    requires var tables := ClauseTables(u, items, Clauses(q));
             (tables == [] ==> source == AllRows(|items|)) &&
             (tables != [] ==> source == JoinTables(tables) || source == UnionTables(tables, |items|))
    ensures p in source <==> p < |items| && Score(u, items[p], q).Some?
    ensures p in source ==> Score(u, items[p], q) == Some(source[p])
  {
    var clauses := Clauses(q);
    var tables := ClauseTables(u, items, clauses);
    if p < |items| {
      ScoreIsTotal(u, items[p], q);
      TablesAreTotal(u, items, clauses, p);
      SourceRow(tables, ClauseTotal(Columns(u, items[p]), clauses), |items|, source, p);
    } else {
      TablesInRange(u, items, clauses, p);
      SourceRow(tables, None, |items|, source, p);
    }
  }

  lemma SourceIsSpec(u: Alphabet, items: seq<Item>, q: Query, source: Table)
    requires Parsed(q)
    requires var tables := ClauseTables(u, items, Clauses(q));
             (tables == [] ==> source == AllRows(|items|)) &&
             (tables != [] ==> source == JoinTables(tables) || source == UnionTables(tables, |items|))
    ensures forall p: nat :: p in source <==> p < |items| && Score(u, items[p], q).Some?
    ensures forall p: nat :: p in source ==> Score(u, items[p], q) == Some(source[p])
  {
    forall p: nat
      ensures p in source <==> p < |items| && Score(u, items[p], q).Some?
      ensures p in source ==> Score(u, items[p], q) == Some(source[p])
    {
      SourceRowIsSpec(u, items, q, source, p);
    }
  }

  // --- Reading the result ---------------------------------------------------------------------

  /** The first rows of the materialized candidates in ORDER BY order are the first rows of the specification. */
  method TopRows(u: Alphabet, items: seq<Item>, q: Query, selected: seq<Marker>, o: Ordering, limit: nat)
    returns (total: nat, hits: seq<Row>)
    requires Sound(u) && Parsed(q)
    requires forall i :: 0 <= i < |items| ==> ShortTexts(items[i])
    requires forall i, j :: 0 <= i < j < |items| ==> items[i].id != items[j].id
    ensures total == |MatchRows(u, items, q, selected)|
    ensures hits == First(SortRows(u, o, MatchRows(u, items, q, selected)), limit)
  {
    var table := Candidates(u, items, q, selected);
    var rows: seq<Row> := [];
    for p := 0 to |items|
      invariant rows == MatchRows(u, items[..p], q, selected)
    {
      assert items[..p + 1][..p] == items[..p];
      if p in table {
        rows := rows + [Row(items[p], table[p])];
      }
    }
    assert items[..|items|] == items;
    MatchRowsSortable(u, items, q, selected);
    StoredOrdersAreTheSort(u, o, rows);
    total := |rows|;
    hits := First(SortBy(SqlOrder(u, o), rows), limit);
  }

  lemma {:induction false} MatchRowsSortable(u: Alphabet, items: seq<Item>, q: Query, selected: seq<Marker>)
    requires forall i :: 0 <= i < |items| ==> ShortTexts(items[i])
    requires forall i, j :: 0 <= i < j < |items| ==> items[i].id != items[j].id
    ensures var rows := MatchRows(u, items, q, selected);
            DistinctIds(rows) && forall i :: 0 <= i < |rows| ==> rows[i].item in items && ShortTexts(rows[i].item)
  {
    if items != [] {
      var n := |items| - 1;
      MatchRowsSortable(u, items[..n], q, selected);
      var init := MatchRows(u, items[..n], q, selected);
      forall i | 0 <= i < |init| ensures init[i].item.id != items[n].id {
        assert init[i].item in items[..n];
      }
      assert items == items[..n] + [items[n]];
    }
  }
}
