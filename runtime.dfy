/** The pieces of Python's runtime behaviour that the chess engine relies on:
    list indexing (negative indices count from the end, anything else raises
    IndexError), dictionary lookup (a missing key raises KeyError) and the
    dictionary comprehension that inverts a table. */
module Runtime {

  /** The exceptions the engine's operations can raise. */
  datatype Error = IndexError | KeyError

  datatype Option<T> = None | Some(value: T)

  /** The value of an expression that either returns or raises. */
  datatype Result<T> = Ok(value: T) | Raised(error: Error)

  /** How a call that returns nothing ended. */
  datatype Outcome = Returned | Failed(error: Error)

  /** The position that `xs[i]` reads in a Python list of length `n`, or None
      when the subscript raises IndexError. */
  function ListIndex(i: int, n: nat): (r: Option<nat>)
    ensures r.Some? <==> -(n as int) <= i < n
    ensures r.Some? ==> r.value < n && (r.value == i || r.value == i + n)
    ensures 0 <= i < n ==> r == Some(i)
  {
    if 0 <= i < n then Some(i)
    else if -(n as int) <= i < 0 then Some(i + n)
    else None
  }

  /** The cell that `grid[row][col]` reads in a `rows` by `cols` Python list of
      lists, or None when either subscript raises IndexError. */
  function Locate(row: int, col: int, rows: nat, cols: nat): (r: Option<(nat, nat)>)
    ensures r.Some? <==> -(rows as int) <= row < rows && -(cols as int) <= col < cols
    ensures r.Some? ==> r.value.0 < rows && r.value.1 < cols
    ensures r.Some? ==> r.value == (ListIndex(row, rows).value, ListIndex(col, cols).value)
  {
    match ListIndex(row, rows)
    case None => None
    case Some(i) =>
      match ListIndex(col, cols)
      case None => None
      case Some(j) => Some((i, j))
  }

  /** A subscript in range reaches itself if it is not negative and itself
      plus the length if it is. */
  lemma {:induction false} LocateNormalises(row: int, col: int, rows: nat, cols: nat)
    requires -(rows as int) <= row < rows && -(cols as int) <= col < cols
    ensures Locate(row, col, rows, cols) ==
      Some((if row < 0 then row + rows else row, if col < 0 then col + cols else col))
  {
  }

  /** Two in-range pairs of subscripts reach the same cell exactly when,
      coordinate by coordinate, they are equal or differ by the grid's
      dimension: `(-1, 0)` and `(7, 0)` are the same cell of an 8 by 8 grid,
      and so are `(-1, -8)` and `(7, 0)`. */
  lemma {:induction false} LocateAliases(row: int, col: int, row': int, col': int, rows: nat, cols: nat)
    requires -(rows as int) <= row < rows && -(cols as int) <= col < cols
    requires -(rows as int) <= row' < rows && -(cols as int) <= col' < cols
    ensures Locate(row, col, rows, cols) == Locate(row', col', rows, cols) <==>
      SameSubscript(row, row', rows) && SameSubscript(col, col', cols)
  {
    LocateNormalises(row, col, rows, cols);
    LocateNormalises(row', col', rows, cols);
  }

  /** Two subscripts of a list of length `n` that name the same position. */
  predicate SameSubscript(i: int, j: int, n: nat) {
    i == j || i == j + n || j == i + n
  }

  /** `m[k]` on a Python dictionary. */
  function Lookup<K, V>(m: map<K, V>, k: K): (r: Result<V>)
    ensures r.Ok? <==> k in m
    ensures r.Ok? ==> r.value == m[k]
    ensures r.Raised? ==> r.error == KeyError
  {
    if k in m then Ok(m[k]) else Raised(KeyError)
  }

  ghost predicate Injective<K, V>(m: map<K, V>) {
    forall k, k' :: k in m && k' in m && m[k] == m[k'] ==> k == k'
  }

  /** `{value: key for key, value in m.items()}`: for an injective table the
      order of the items does not matter, since no value appears twice. */
  function Invert<K, V>(m: map<K, V>): (inv: map<V, K>)
    requires Injective(m)
    ensures inv.Keys == m.Values
    ensures forall k :: k in m ==> m[k] in inv && inv[m[k]] == k
    ensures forall v :: v in inv ==> inv[v] in m && m[inv[v]] == v
  {
    var inv := map v | v in m.Values :: var k :| k in m && m[k] == v; k;
    InvertUndoes(m, inv);
    inv
  }

  /** The comprehension maps the value of every key back to that key. */
  lemma {:induction false} InvertUndoes<K, V>(m: map<K, V>, inv: map<V, K>)
    requires Injective(m)
    requires inv.Keys == m.Values
    requires forall v :: v in inv ==> inv[v] in m && m[inv[v]] == v
    ensures forall k :: k in m ==> m[k] in inv && inv[m[k]] == k
  {
    forall k | k in m ensures m[k] in inv && inv[m[k]] == k {
      assert m[k] in m.Values;
    }
  }
}
