/** Python list access, as the particle store uses it: an index may count
    from the front (0, 1, ...) or from the back (-1, -2, ...), and an index
    outside the list raises IndexError, modelled here as None. */
module Common {

  datatype Option<+T> = None | Some(value: T)

  /** The position in a list of length `n` that the Python index `i` denotes,
      or None where Python raises IndexError. */
  function PyIndex(i: int, n: nat): (r: Option<nat>)
    ensures r.Some? <==> -(n as int) <= i < n
    ensures r.Some? ==> r.value < n && (r.value == i || r.value == i + n)
  {
    if 0 <= i < n then Some(i)
    else if -(n as int) <= i < 0 then Some(i + n)
    else None
  }

  /** `s[-1]`: the most recently appended element of a non-empty history. */
  function Last<T>(s: seq<T>): T
    requires |s| > 0
  {
    s[|s| - 1]
  }
}
