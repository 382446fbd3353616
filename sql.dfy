/**
 * The shape every revision of the filter builder produces, and what such a
 * query means. A query is a base SELECT followed by a list of equality
 * predicates ` WHERE col = $k` / ` AND col = $k` and a ` LIMIT n OFFSET m`
 * suffix; the predicates are kept as records here instead of SQL text.
 */
module Sql {
  import opened Models

  datatype Connective = Where | And

  /** One predicate `<conn> column = $param`. */
  datatype Condition = Condition(conn: Connective, column: string, param: nat)

  /** The predicates of a SELECT and its LIMIT/OFFSET suffix. */
  datatype SelectQuery = SelectQuery(conditions: seq<Condition>, limit: int, offset: int)

  /** What a filter field asks for: the column must equal the value. */
  datatype Filter = Filter(column: string, value: Value)

  /** A result row of the base relation: column name to value; an absent column is NULL. */
  type Row = map<string, Value>

  predicate Agrees(f: Filter, row: Row)
  {
    f.column in row && row[f.column] == f.value
  }

  /** The row satisfies every filter of the list. */
  predicate AgreesAll(fs: seq<Filter>, row: Row)
  {
    forall k :: 0 <= k < |fs| ==> Agrees(fs[k], row)
  }

  /** The predicate, with its placeholder bound from `args`, is true of the row (NULL = x is not true). */
  predicate Holds(c: Condition, args: seq<Value>, row: Row)
  {
    1 <= c.param <= |args| && c.column in row && row[c.column] == args[c.param - 1]
  }

  /** The row passes the WHERE clause. */
  predicate Selects(cs: seq<Condition>, args: seq<Value>, row: Row)
  {
    forall k :: 0 <= k < |cs| ==> Holds(cs[k], args, row)
  }

  /**
   * `cs` with `args` is the predicate list for the filters `fs`, in that
   * order: the k-th filter (from 0) becomes the predicate on its column with
   * placeholder `$(k+1)`, bound to its value, and only the first predicate
   * is introduced by WHERE. Stated one appended predicate at a time, the
   * way the builders grow the list.
   */
  ghost predicate Encodes(cs: seq<Condition>, args: seq<Value>, fs: seq<Filter>)
    decreases |fs|
  {
    && |cs| == |fs| && |args| == |fs|
    && (fs != [] ==>
          var n := |fs| - 1;
          && Encodes(cs[..n], args[..n], fs[..n])
          && cs[n] == Condition(if n == 0 then Where else And, fs[n].column, n + 1)
          && args[n] == fs[n].value)
  }

  /** The empty query encodes no filters. */
  lemma EncodesEmpty()
    ensures Encodes([], [], [])
  {
  }

  /** Appending one filter to an encoded list keeps it encoded. */
  lemma EncodesExtend(cs: seq<Condition>, args: seq<Value>, fs: seq<Filter>, column: string, value: Value)
    requires Encodes(cs, args, fs)
    ensures Encodes(cs + [Condition(if fs == [] then Where else And, column, |args| + 1)], args + [value],
                    fs + [Filter(column, value)])
  {
    var cs' := cs + [Condition(if fs == [] then Where else And, column, |args| + 1)];
    assert cs'[..|fs|] == cs;
    assert (args + [value])[..|fs|] == args;
    assert (fs + [Filter(column, value)])[..|fs|] == fs;
  }

  /** Reading an encoded list position by position. */
  lemma {:induction false} EncodesAt(cs: seq<Condition>, args: seq<Value>, fs: seq<Filter>, k: nat)
    requires Encodes(cs, args, fs) && k < |fs|
    ensures cs[k] == Condition(if k == 0 then Where else And, fs[k].column, k + 1)
    ensures args[k] == fs[k].value
  {
    var n := |fs| - 1;
    if k < n {
      EncodesAt(cs[..n], args[..n], fs[..n], k);
    }
  }

  /** The number of WHERE keywords in the predicate list. */
  function WhereCount(cs: seq<Condition>): nat
  {
    if cs == [] then 0
    else WhereCount(cs[..|cs| - 1]) + (if cs[|cs| - 1].conn == Where then 1 else 0)
  }

  /** An encoded predicate list has one WHERE when it is not empty and none otherwise. */
  lemma {:induction false} EncodedHasOneWhere(cs: seq<Condition>, args: seq<Value>, fs: seq<Filter>)
    requires Encodes(cs, args, fs)
    ensures WhereCount(cs) == if fs == [] then 0 else 1
  {
    if fs != [] {
      var n := |fs| - 1;
      EncodedHasOneWhere(cs[..n], args[..n], fs[..n]);
    }
  }

  /** Running an encoded query selects exactly the rows that satisfy every filter. */
  lemma EncodedSelectsAgreeing(cs: seq<Condition>, args: seq<Value>, fs: seq<Filter>, row: Row)
    requires Encodes(cs, args, fs)
    ensures Selects(cs, args, row) <==> AgreesAll(fs, row)
  {
    if Selects(cs, args, row) {
      forall k | 0 <= k < |fs| ensures Agrees(fs[k], row) {
        EncodesAt(cs, args, fs, k);
        assert Holds(cs[k], args, row);
      }
    }
    if AgreesAll(fs, row) {
      forall k | 0 <= k < |cs| ensures Holds(cs[k], args, row) {
        EncodesAt(cs, args, fs, k);
        assert Agrees(fs[k], row);
      }
    }
  }

  /** AgreesAll distributes over concatenation of filter lists. */
  lemma AgreesAllAppend(a: seq<Filter>, b: seq<Filter>, row: Row)
    ensures AgreesAll(a + b, row) <==> AgreesAll(a, row) && AgreesAll(b, row)
  {
    if AgreesAll(a, row) && AgreesAll(b, row) {
      forall k | 0 <= k < |a + b| ensures Agrees((a + b)[k], row) {
        if k >= |a| {
          assert (a + b)[k] == b[k - |a|];
        }
      }
    }
    if AgreesAll(a + b, row) {
      forall k | 0 <= k < |a| ensures Agrees(a[k], row) {
        assert (a + b)[k] == a[k];
      }
      forall k | 0 <= k < |b| ensures Agrees(b[k], row) {
        assert (a + b)[|a| + k] == b[k];
      }
    }
  }

  /** SQL `LIMIT limit OFFSET offset` applied to a result list. */
  function Page<T>(rows: seq<T>, limit: nat, offset: nat): (r: seq<T>)
    ensures |r| == if offset < |rows| then (if limit < |rows| - offset then limit else |rows| - offset) else 0
    ensures forall i :: 0 <= i < |r| ==> offset + i < |rows| && r[i] == rows[offset + i]
  {
    var lo := if offset < |rows| then offset else |rows|;
    var hi := if offset + limit < |rows| then offset + limit else |rows|;
    rows[lo..hi]
  }

  /** A page of rows is empty exactly when it starts at or past the last row. */
  lemma EmptyPage<T>(rows: seq<T>, limit: nat, offset: nat)
    requires limit >= 1
    ensures Page(rows, limit, offset) == [] <==> |rows| <= offset
  {
    if offset < |rows| {
      assert Page(rows, limit, offset)[0] == rows[offset];
    }
  }

  /** Two consecutive pages are disjoint and together form the double-size page at the first offset. */
  lemma ConsecutivePages<T>(rows: seq<T>, size: nat, offset: nat)
    ensures Page(rows, size, offset) + Page(rows, size, offset + size) == Page(rows, 2 * size, offset)
  {
  }
}
