/** Types and sequence helpers shared by every module. */
module Prelude {

  datatype Option<+T> = None | Some(value: T) {
    function GetOr(default: T): T {
      match this
      case Some(v) => v
      case None => default
    }
  }

  /** A value, or the error that was thrown or returned instead. */
  datatype Result<+T, +E> = Ok(value: T) | Err(error: E) {
    predicate IsFailure() {
      Err?
    }

    function PropagateFailure<U>(): Result<U, E>
      requires Err?
    {
      Err(error)
    }

    function Extract(): T
      requires Ok?
    {
      value
    }
  }

  /** One octet. */
  type byte = x: int | 0 <= x < 256

  /** An unsigned 64-bit integer. */
  type U64 = n: nat | n <= 0xFFFF_FFFF_FFFF_FFFF

  /** The later of two reports: `newer` wins when it is present. */
  function Later<T>(older: Option<T>, newer: Option<T>): Option<T> {
    if newer.Some? then newer else older
  }

  /** Concatenation of a list of sequences. */
  function Concat<T>(xss: seq<seq<T>>): seq<T> {
    if xss == [] then [] else xss[0] + Concat(xss[1..])
  }

  lemma Associative<T>(a: seq<T>, b: seq<T>, c: seq<T>)
    ensures (a + b) + c == a + (b + c)
  {}

  /** Regroups a run of five parts to the right, the first two of them split off. */
  lemma Regroup<T>(a: seq<T>, b: seq<T>, c: seq<T>, d: seq<T>, e: seq<T>)
    ensures (((a + b) + c) + d) + e == a + (b + ((c + d) + e))
  {}

  /** Regroups four parts, the first split off. */
  lemma SplitFirst<T>(a: seq<T>, b: seq<T>, c: seq<T>, d: seq<T>)
    ensures ((a + b) + c) + d == a + ((b + c) + d)
  {}

  lemma ConcatCons<T>(xs: seq<T>, xss: seq<seq<T>>)
    ensures Concat([xs] + xss) == xs + Concat(xss)
  {
    assert ([xs] + xss)[1..] == xss;
  }

  lemma {:induction false} ConcatAppend<T>(xss: seq<seq<T>>, yss: seq<seq<T>>)
    ensures Concat(xss + yss) == Concat(xss) + Concat(yss)
  {
    if xss == [] {
      assert xss + yss == yss;
    } else {
      var x, rest := xss[0], xss[1..];
      assert xss + yss == [x] + (rest + yss);
      ConcatCons(x, rest + yss);
      ConcatAppend(rest, yss);
      Associative(x, Concat(rest), Concat(yss));
    }
  }

  lemma ConcatSnoc<T>(xss: seq<seq<T>>, xs: seq<T>)
    ensures Concat(xss + [xs]) == Concat(xss) + xs
  {
    ConcatAppend(xss, [xs]);
    assert Concat([xs]) == xs;
  }

  /** One more than the largest number of `w` bytes. */
  function Limit(w: nat): (r: nat)
    ensures r > 0
  {
    if w == 0 then 1 else 256 * Limit(w - 1)
  }
}
