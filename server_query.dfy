/**
 * The query-parameter handling of `get_contacts`, the same in both servers
 * (backend/app.py and backend/app_hybrid.py): the sort and order whitelists,
 * the page offset, and the `LIKE` filters with their bound values.
 *
 * Query parameters are a map from name to text; `int()` parsing of `page`
 * and `limit` is not modelled, they arrive as integers.
 */
module ContactQuery {
  import opened Wrappers
  import opened Text

  /** The columns a client may sort or filter by, in the order the filters are built. */
  const AllowedSort: seq<string> := ["first_name", "last_name", "phone_number", "email_address", "address"]
  const AllowedOrder: seq<string> := ["asc", "desc"]
  const DefaultSort := "last_name"
  const DefaultOrder := "asc"

  type Args = map<string, string>

  /** `sort_by`: absent or outside the whitelist becomes `last_name`. */
  function NormalizeSort(sortBy: Option<string>): (r: string)
    ensures r in AllowedSort
    ensures sortBy.Some? && sortBy.value in AllowedSort ==> r == sortBy.value
    ensures !(sortBy.Some? && sortBy.value in AllowedSort) ==> r == DefaultSort
  {
    if sortBy.Some? && sortBy.value in AllowedSort then sortBy.value else DefaultSort
  }

  /** `sort_order`: absent or other than `asc`/`desc` becomes `asc`. */
  function NormalizeOrder(sortOrder: Option<string>): (r: string)
    ensures r in AllowedOrder
    ensures sortOrder.Some? && sortOrder.value in AllowedOrder ==> r == sortOrder.value
    ensures !(sortOrder.Some? && sortOrder.value in AllowedOrder) ==> r == DefaultOrder
  {
    if sortOrder.Some? && sortOrder.value in AllowedOrder then sortOrder.value else DefaultOrder
  }

  function Offset(page: int, limit: int): int {
    (page - 1) * limit
  }

  /** Multiplying by a non-negative page size keeps the order of page numbers. */
  lemma ScaleMonotone(a: int, b: int, limit: int)
    requires a <= b && limit >= 0
    ensures a * limit <= b * limit
  {
    assert b * limit - a * limit == (b - a) * limit;
  }

  /**
   * With a positive `limit`, the row ranges of the pages partition the rows:
   * row `row` (counted from 0) lies in the range of page `page` exactly when
   * `page` is `row / limit + 1`, so consecutive pages neither overlap nor
   * leave a gap.
   */
  lemma {:induction false} PageOfRow(page: int, limit: int, row: int)
    requires limit >= 1 && row >= 0
    ensures Offset(page, limit) <= row < Offset(page, limit) + limit <==> page == row / limit + 1
  {
    var q, m := row / limit, row % limit;
    assert row == q * limit + m && 0 <= m < limit;
    if Offset(page, limit) <= row < Offset(page, limit) + limit {
      if page - 1 < q {
        ScaleMonotone(page, q, limit);
        assert false;
      } else if page - 1 > q {
        ScaleMonotone(q + 1, page - 1, limit);
        assert false;
      }
    }
  }

  /** A filter is applied for a field exactly when its parameter is present and non-empty. */
  predicate Active(args: Args, field: string) {
    field in args && args[field] != []
  }

  /** The fields of `fields` that carry a filter, in order. */
  function ActiveFields(fields: seq<string>, args: Args): (r: seq<string>)
    ensures |r| <= |fields|
    ensures forall k :: 0 <= k < |r| ==> r[k] in fields && Active(args, r[k])
  {
    if fields == [] then []
    else
      var init := fields[..|fields| - 1];
      var f := fields[|fields| - 1];
      ActiveFields(init, args) + (if Active(args, f) then [f] else [])
  }

  /** Every whitelisted field that has a value is filtered on. */
  lemma {:induction false} ActiveFieldsComplete(fields: seq<string>, args: Args, f: string)
    requires f in fields && Active(args, f)
    ensures f in ActiveFields(fields, args)
  {
    var init := fields[..|fields| - 1];
    if f != fields[|fields| - 1] {
      assert f in init by {
        var k :| 0 <= k < |fields| && fields[k] == f;
        assert k < |fields| - 1 && init[k] == f;
      }
      ActiveFieldsComplete(init, args, f);
    }
  }

  /** Which fields are filtered on depends only on which parameters are non-empty. */
  lemma {:induction false} ActiveFieldsSameShape(fields: seq<string>, a: Args, b: Args)
    requires forall f :: f in fields ==> (Active(a, f) <==> Active(b, f))
    ensures ActiveFields(fields, a) == ActiveFields(fields, b)
  {
    if fields != [] {
      var init := fields[..|fields| - 1];
      assert forall f :: f in init ==> f in fields;
      ActiveFieldsSameShape(init, a, b);
    }
  }

  function Clause(field: string): string {
    field + " LIKE %s"
  }

  /** The bound value of a `LIKE` filter: the parameter wrapped in `%`. */
  function Pattern(val: string): (r: string)
    ensures |r| == |val| + 2 && r[0] == '%' && r[|r| - 1] == '%' && r[1..|r| - 1] == val
  {
    "%" + val + "%"
  }

  /** One `LIKE` clause per field, in order. */
  function Clauses(fields: seq<string>): (r: seq<string>)
    ensures |r| == |fields| && forall k :: 0 <= k < |fields| ==> r[k] == Clause(fields[k])
  {
    seq(|fields|, k requires 0 <= k < |fields| => Clause(fields[k]))
  }

  /**
   * The `filters`/`values` loop of `get_contacts`: one clause per whitelisted
   * field with a non-empty parameter, in whitelist order, and after the user
   * id one `%value%` per clause.
   */
  method BuildFilters(userId: string, args: Args) returns (filters: seq<string>, values: seq<string>)
    ensures |filters| == |ActiveFields(AllowedSort, args)| && |values| == 1 + |filters|
    ensures filters == Clauses(ActiveFields(AllowedSort, args))
    ensures values[0] == userId
    ensures forall k :: 0 <= k < |filters| ==>
      filters[k] == Clause(ActiveFields(AllowedSort, args)[k])
      && values[k + 1] == Pattern(args[ActiveFields(AllowedSort, args)[k]])
  {
    filters := [];
    values := [userId];
    for i := 0 to |AllowedSort|
      invariant |filters| == |ActiveFields(AllowedSort[..i], args)| && |values| == 1 + |filters|
      invariant values[0] == userId
      invariant forall k :: 0 <= k < |filters| ==>
        filters[k] == Clause(ActiveFields(AllowedSort[..i], args)[k])
        && values[k + 1] == Pattern(args[ActiveFields(AllowedSort[..i], args)[k]])
    {
      var field := AllowedSort[i];
      assert AllowedSort[..i + 1][..i] == AllowedSort[..i];
      if field in args && args[field] != [] {
        filters := filters + [Clause(field)];
        values := values + [Pattern(args[field])];
      }
    }
    assert AllowedSort[..|AllowedSort|] == AllowedSort;
  }

  /** `where_clause`: the user condition, then the filters joined by `AND`. */
  function WhereClause(filters: seq<string>): (r: string)
    ensures filters == [] ==> r == "WHERE user_id = %s"
    ensures |r| >= 18 && r[..18] == "WHERE user_id = %s"
  {
    "WHERE user_id = %s" + (if filters == [] then "" else " AND " + Join(filters, " AND "))
  }

  /** Each further filter clause is appended after ` AND `, behind the user condition. */
  lemma WhereSnoc(filters: seq<string>, c: string)
    ensures WhereClause(filters + [c]) == WhereClause(filters) + " AND " + c
  {
    if filters == [] {
      assert filters + [c] == [c];
    } else {
      JoinSnoc(filters, c, " AND ");
    }
  }

  /** The page query's text, built from the normalised sort and the filter clauses. */
  function PageQuery(sortBy: string, sortOrder: string, filters: seq<string>): string {
    "SELECT * FROM contacts " + WhereClause(filters)
      + " ORDER BY " + sortBy + " " + sortOrder + " LIMIT %s OFFSET %s"
  }

  /**
   * The SQL text never holds a parameter value: two requests whose non-empty
   * whitelisted parameters are the same fields, and whose sort and order
   * normalise alike, run the same query text, whatever the values.
   */
  lemma QueryTextIgnoresValues(a: Args, b: Args, sortA: Option<string>, sortB: Option<string>,
                               orderA: Option<string>, orderB: Option<string>)
    requires forall f :: f in AllowedSort ==> (Active(a, f) <==> Active(b, f))
    requires NormalizeSort(sortA) == NormalizeSort(sortB) && NormalizeOrder(orderA) == NormalizeOrder(orderB)
    ensures PageQuery(NormalizeSort(sortA), NormalizeOrder(orderA), Clauses(ActiveFields(AllowedSort, a)))
         == PageQuery(NormalizeSort(sortB), NormalizeOrder(orderB), Clauses(ActiveFields(AllowedSort, b)))
  {
    ActiveFieldsSameShape(AllowedSort, a, b);
  }
}
