/**
 The slice of Python semantics the cache buster relies on: exceptions as a
 failure-compatible `Result`, the handful of value types a configuration
 dictionary can hold, truthiness, the `in` operator and the `s[:n]` slice.
 */
module Python {

  datatype Option<+T> = None | Some(value: T)

  /** The exceptions the modelled code can raise, with their messages. */
  datatype Error =
    | ValueError(message: string)
    | TypeError(message: string)
    | AttributeError(message: string)
    | KeyError(key: string)

  /** A computation that either returns a value or raises an exception. */
  datatype Result<+T> = Success(value: T) | Failure(error: Error) {

    predicate IsFailure() {
      Failure?
    }

    function PropagateFailure<U>(): Result<U>
      requires Failure?
    {
      Failure(error)
    }

    function Extract(): T
      requires Success?
    {
      value
    }
  }

  /** A configuration value: `None`, an `int`, a `str`, or a list (or set)
      of strings. */
  datatype PyValue =
    | PyNone
    | PyInt(i: int)
    | PyStr(s: string)
    | PyList(items: seq<string>)

  /** Python truthiness: `None`, `0` and empty containers are false. */
  predicate Truthy(v: PyValue) {
    match v
    case PyNone => false
    case PyInt(i) => i != 0
    case PyStr(s) => s != ""
    case PyList(xs) => xs != []
  }

  /** `t` occurs in `s` starting at index `i`. */
  predicate OccursAt(t: string, s: string, i: int) {
    0 <= i && i + |t| <= |s| && s[i..i + |t|] == t
  }

  /** Python's `t in s` on two strings: a substring test. */
  function IsSubstring(t: string, s: string): (r: bool)
    ensures r <==> exists i :: OccursAt(t, s, i)
    decreases |s|
  {
    if |t| > |s| then
      false
    else if s[..|t|] == t then
      assert OccursAt(t, s, 0);
      true
    else
      OccursLater(t, s);
      IsSubstring(t, s[1..])
  }

  /** When `t` is not a prefix of `s`, its occurrences in `s` are exactly
      those in `s[1..]`, shifted by one. */
  lemma OccursLater(t: string, s: string)
    requires |t| <= |s| && s[..|t|] != t
    ensures (exists i :: OccursAt(t, s, i)) <==> (exists j :: OccursAt(t, s[1..], j))
  {
    if i :| OccursAt(t, s, i) {
      assert i != 0;
      assert s[1..][i - 1..i - 1 + |t|] == s[i..i + |t|];
      assert OccursAt(t, s[1..], i - 1);
    }
    if j :| OccursAt(t, s[1..], j) {
      assert s[1..][j..j + |t|] == s[j + 1..j + 1 + |t|];
      assert OccursAt(t, s, j + 1);
    }
  }

  /** Python's `item in xs` on a list: a scan from the front. */
  function ListContains(xs: seq<string>, item: string): bool
    decreases |xs|
  {
    xs != [] && (xs[0] == item || ListContains(xs[1..], item))
  }

  /** The scan finds exactly the items of the list. */
  lemma {:induction false} ListContainsIsMembership(xs: seq<string>, item: string)
    ensures ListContains(xs, item) <==> item in xs
    decreases |xs|
  {
    if xs != [] {
      ListContainsIsMembership(xs[1..], item);
      assert xs == [xs[0]] + xs[1..];
    }
  }

  /** Python's `item in container` for a string item: list membership,
      substring test on a `str`, and a `TypeError` for `None` and `int`,
      which are not containers. */
  function Contains(container: PyValue, item: string): (r: Result<bool>)
    ensures r.Success? <==> container.PyList? || container.PyStr?
    ensures container.PyList? ==> r == Success(item in container.items)
    ensures container.PyStr? ==> r == Success(exists i :: OccursAt(item, container.s, i))
    ensures r.Failure? ==> r.error.TypeError?
  {
    match container
    case PyList(xs) =>
      ListContainsIsMembership(xs, item);
      Success(ListContains(xs, item))
    case PyStr(s) => Success(IsSubstring(item, s))
    case PyNone => Failure(TypeError("argument of type 'NoneType' is not iterable"))
    case PyInt(_) => Failure(TypeError("argument of type 'int' is not iterable"))
  }

  function Min(a: int, b: int): int {
    if a <= b then a else b
  }

  function Max(a: int, b: int): int {
    if a >= b then a else b
  }

  /** The index at which `s[:stop]` ends on a sequence of length `len`:
      a negative stop counts from the end, and both clamp to `0..len`.
      The contract pins the index down: it is the stop itself (from the
      end when negative) unless that falls outside `0..len`, in which case
      it is the nearer bound. */
  function SliceStop(stop: int, len: nat): (r: nat)
    ensures r <= len
    ensures 0 <= stop ==> r <= stop && (r == stop || r == len)
    ensures stop < 0 ==> len + stop <= r && (r == len + stop || r == 0)
  {
    if stop >= 0 then Min(stop, len) else Max(0, len + stop)
  }

  /** Python's `s[:stop]`: `None` keeps the whole string, an `int` cuts at
      `SliceStop`, any other type raises a `TypeError`. */
  function SliceTo(s: string, stop: PyValue): (r: Result<string>)
    ensures r.Success? <==> stop.PyNone? || stop.PyInt?
    ensures r.Success? ==> r.value <= s
    ensures stop.PyNone? ==> r == Success(s)
    ensures stop.PyInt? ==> |r.value| == SliceStop(stop.i, |s|)
    ensures r.Failure? ==> r.error.TypeError?
  {
    match stop
    case PyNone => Success(s)
    case PyInt(n) => Success(s[..SliceStop(n, |s|)])
    case _ => Failure(TypeError("slice indices must be integers or None or have an __index__ method"))
  }
}
