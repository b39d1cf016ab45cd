// Shared value types of the pipeline model: optional and failing results,
// the Python exception kinds the stages raise or swallow, JSON documents as
// the HTTP API and the object store hold them, and the tabular shape that the
// record normaliser produces.

module Values {

  datatype Option<+T> = None | Some(value: T)

  /** The result of a call that either returns normally or raises. */
  datatype Outcome<+E> = Pass | Fail(error: E)

  datatype Result<+R, +E> = Ok(value: R) | Err(error: E)

  /** The exception classes that matter for control flow. */
  datatype Error =
    | RuntimeError      // API key missing
    | ValueError        // bucket name missing
    | AttributeError    // `None.copy()` on absent request parameters
    | KeyError          // a dictionary or column lookup failed
    | IndexError        // `[0]` on an empty list
    | TypeError         // `len(None)`, iterating over None, ...
    | NameError         // a name used without being imported
    | ImportError       // a name imported from a module that does not define it
    | RequestError      // the HTTP request failed or returned a non-2xx status
    | ClientError       // the object store refused an operation
    | ParamValidationError  // a store request addressed to an unset bucket name
    | SqlError          // a warehouse statement failed
    | ZeroDivisionError // a division by a zero rate

  /** A JSON value; numbers are integers (floating point is not modelled). */
  datatype Json =
    | JNull
    | JBool(b: bool)
    | JNum(n: int)
    | JStr(s: string)
    | JArr(items: seq<Json>)
    | JObj(fields: seq<Field>)

  datatype Field = Field(name: string, value: Json)

  /** A JSON object as a list of fields; field names are taken to be distinct. */
  type Record = seq<Field>

  /** One cell of a table: null (NaN/None), a JSON scalar or list, or an ingestion time. */
  datatype Cell = Null | Scalar(v: Json) | Stamp(t: int)

  /** A data frame: column labels and row-major cells. */
  datatype Table = Table(columns: seq<string>, rows: seq<seq<Cell>>)

  /** Every row has one cell per column. */
  predicate WellFormed(t: Table)
  {
    forall i :: 0 <= i < |t.rows| ==> |t.rows[i]| == |t.columns|
  }

  /** Position of the first occurrence of `x` in `s`. */
  function IndexOf<T(==)>(s: seq<T>, x: T): (i: nat)
    requires x in s
    ensures i < |s| && s[i] == x
    ensures forall j :: 0 <= j < i ==> s[j] != x
  {
    if s[0] == x then 0 else 1 + IndexOf(s[1..], x)
  }

  /** The cell of row `i` under label `c`, or Null if the table has no such column. */
  function CellAt(t: Table, i: nat, c: string): Cell
    requires WellFormed(t) && i < |t.rows|
  {
    if c in t.columns then t.rows[i][IndexOf(t.columns, c)] else Null
  }

  /** The column labelled `c` (its first occurrence), top to bottom. */
  function Column(t: Table, c: string): (col: seq<Cell>)
    requires WellFormed(t) && c in t.columns
    ensures |col| == |t.rows|
    ensures forall i :: 0 <= i < |col| ==> col[i] == CellAt(t, i, c)
  {
    var j := IndexOf(t.columns, c);
    seq(|t.rows|, i requires 0 <= i < |t.rows| => t.rows[i][j])
  }

  /** The elements of `s` without repeats, each at its first appearance. */
  function Distinct<T(==)>(s: seq<T>): (r: seq<T>)
  {
    if s == [] then []
    else
      var init := Distinct(s[..|s| - 1]);
      if s[|s| - 1] in init then init else init + [s[|s| - 1]]
  }

  /** No element occurs twice. */
  predicate NoDuplicates<T(==)>(s: seq<T>)
  {
    forall i, j :: 0 <= i < j < |s| ==> s[i] != s[j]
  }

  lemma {:induction false} DistinctProperties<T>(s: seq<T>)
    ensures NoDuplicates(Distinct(s))
    ensures forall x :: x in Distinct(s) <==> x in s
  {
    if s != [] {
      DistinctProperties(s[..|s| - 1]);
      assert forall x :: x in s <==> x in s[..|s| - 1] || x == s[|s| - 1];
    }
  }

  /** `Distinct` keeps first-appearance order: it is a list already free of repeats
      exactly when it is the identity. */
  lemma {:induction false} DistinctOfDistinct<T>(s: seq<T>)
    requires NoDuplicates(s)
    ensures Distinct(s) == s
  {
    if s != [] {
      DistinctOfDistinct(s[..|s| - 1]);
    }
  }

  /** Each element of `Distinct(s)` sits at its first appearance in `s`: whatever
      precedes it in the result precedes it in `s`. */
  lemma {:induction false} DistinctIsFirstAppearanceOrder<T>(s: seq<T>, a: nat, b: nat)
    requires a < b < |Distinct(s)|
    ensures Distinct(s)[a] in s && Distinct(s)[b] in s
    ensures IndexOf(s, Distinct(s)[a]) < IndexOf(s, Distinct(s)[b])
  {
    var init := s[..|s| - 1];
    var last := s[|s| - 1];
    var x, y := Distinct(s)[a], Distinct(s)[b];
    DistinctMember(s, x);
    DistinctMember(s, y);
    assert Distinct(s) == Distinct(init) || Distinct(s) == Distinct(init) + [last];
    if b < |Distinct(init)| {
      assert x == Distinct(init)[a] && y == Distinct(init)[b];
      DistinctIsFirstAppearanceOrder(init, a, b);
      DistinctMember(init, x);
      DistinctMember(init, y);
      IndexOfPrefix(s, init, x);
      IndexOfPrefix(s, init, y);
    } else {
      assert Distinct(s) == Distinct(init) + [last] && last !in Distinct(init);
      DistinctProperties(init);
      assert x == Distinct(init)[a] && last !in init;
      DistinctMember(init, x);
      IndexOfPrefix(s, init, x);
      assert IndexOf(s, last) == |s| - 1;
    }
  }

  lemma DistinctMember<T>(s: seq<T>, x: T)
    requires x in Distinct(s)
    ensures x in s
  {
    DistinctProperties(s);
  }

  lemma IndexOfPrefix<T>(s: seq<T>, p: seq<T>, x: T)
    requires |p| <= |s| && p == s[..|p|] && x in p
    ensures x in s && IndexOf(s, x) == IndexOf(p, x)
  {
    var i := IndexOf(p, x);
    assert s[i] == x;
    var k := IndexOf(s, x);
    assert k <= i;
    assert p[k] == s[k];
  }
}
