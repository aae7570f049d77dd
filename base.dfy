/**
 * Values shared by every part of the model: the error-first callback's two
 * outcomes, the errors the system can report, and lodash's `_.filter`, which
 * both `_.filter` and `_.remove` calls in the selection engine reduce to.
 */
module Base {

  datatype Option<+T> = None | Some(value: T)

  /** The kinds of error that reach a callback's first argument. */
  datatype Error =
    | Network(detail: string)      // the HTTP request itself failed
    | NoBody                       // a catalog response arrived without a body
    | Malformed                    // JSON.parse threw on a response body
    | FileUnavailable(name: string) // the file system refused an operation on a file

  /** An error-first callback's outcome: `callback(error, null)` or `callback(null, data)`. */
  datatype Result<+T> = Ok(value: T) | Err(error: Error)

  /** The elements of `s` that `keep` accepts, in their original order. */
  function Filter<T(!new)>(s: seq<T>, keep: T -> bool): (r: seq<T>)
    ensures |r| <= |s|
    ensures forall x :: x in r <==> x in s && keep(x)
    ensures (exists x :: x in s && !keep(x)) ==> |r| < |s|
  {
    if |s| == 0 then []
    else (if keep(s[0]) then [s[0]] else []) + Filter(s[1..], keep)
  }

  /** Filtering distributes over concatenation: the survivors keep their relative order. */
  lemma {:induction false} FilterConcat<T(!new)>(a: seq<T>, b: seq<T>, keep: T -> bool)
    ensures Filter(a + b, keep) == Filter(a, keep) + Filter(b, keep)
  {
    if |a| == 0 {
      assert a + b == b;
    } else {
      assert (a + b)[0] == a[0];
      assert (a + b)[1..] == a[1..] + b;
      FilterConcat(a[1..], b, keep);
    }
  }

  /** A filter that rejects nothing in `s` leaves `s` as it is. */
  lemma {:induction false} FilterKeepsAll<T(!new)>(s: seq<T>, keep: T -> bool)
    requires forall x :: x in s ==> keep(x)
    ensures Filter(s, keep) == s
  {
    if |s| > 0 {
      assert s[0] in s;
      forall x | x in s[1..] ensures keep(x) { assert x in s; }
      FilterKeepsAll(s[1..], keep);
    }
  }

  /** Filtering twice is filtering once by a predicate that demands both. */
  lemma {:induction false} FilterTwice<T(!new)>(s: seq<T>, f: T -> bool, g: T -> bool, both: T -> bool)
    requires forall x :: both(x) == (f(x) && g(x))
    ensures Filter(Filter(s, f), g) == Filter(s, both)
  {
    if |s| > 0 {
      FilterTwice(s[1..], f, g, both);
      var head := if f(s[0]) then [s[0]] else [];
      FilterConcat(head, Filter(s[1..], f), g);
    }
  }
}
