/** Options, results and small definitions shared by the modules. */
module Common {

  datatype Option<+T> = None | Some(value: T)

  datatype Result<+T, +E> = Ok(value: T) | Err(error: E)

  // Times are nanoseconds.
  const MINUTE: int := 60_000_000_000
  const DAY: int := 1440 * MINUTE

  /** A device and the group it belongs to, if any. */
  datatype Device = Device(id: int, group: Option<int>)

  function Min(a: nat, b: nat): nat {
    if a < b then a else b
  }

  /** No element occurs at two positions. */
  ghost predicate Distinct<T>(s: seq<T>) {
    forall i, j :: 0 <= i < j < |s| ==> s[i] != s[j]
  }
}
