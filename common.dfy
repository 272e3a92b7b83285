/** Vocabulary shared by both game loops: image sizes and the Python exceptions a tick can raise. */
module Common {

  type Pos = n: int | n > 0 witness 1

  /**
   * Sizes of the loaded images, in pixels. The bird's height is that of its first frame, for the
   * whole run: the frame `Bird.draw` switches to in a nose-dive is not modelled.
   */
  datatype Sprites = Sprites(birdHeight: Pos, pipeWidth: Pos, pipeHeight: Pos, baseWidth: Pos)

  /** Exceptions the loops can raise: an out-of-range list index, or `str + int` on the score. */
  datatype PyError = IndexError | TypeError

  /** The result of running a piece of Python code that may raise. */
  datatype Outcome<T> = Ok(value: T) | Raised(error: PyError)

  /** `list.pop(x)` as a value: the list without its element at x; later elements shift down by one. */
  function Without<T>(s: seq<T>, x: nat): (r: seq<T>)
    requires x < |s|
    ensures |r| == |s| - 1
    ensures forall k :: 0 <= k < x ==> r[k] == s[k]
    ensures forall k :: x <= k < |r| ==> r[k] == s[k + 1]
  {
    s[..x] + s[x + 1..]
  }

  /** a is what is left of b after deleting some of its elements: the rest keep their order. */
  predicate Sublist<T(==)>(a: seq<T>, b: seq<T>)
    decreases |b|
  {
    if a == [] then true
    else if b == [] then false
    else (a[0] == b[0] && Sublist(a[1..], b[1..])) || Sublist(a, b[1..])
  }

  lemma {:induction false} SublistSelf<T>(b: seq<T>)
    ensures Sublist(b, b)
    decreases |b|
  {
    if b != [] {
      SublistSelf(b[1..]);
    }
  }

  /** Whatever survives deletions from `s.pop(x)` survives deletions from s. */
  lemma {:induction false} SublistWithout<T>(a: seq<T>, b: seq<T>, x: nat)
    requires x < |b| && Sublist(a, Without(b, x))
    ensures Sublist(a, b)
    decreases x
  {
    var w := Without(b, x);
    if a != [] && x > 0 {
      assert w[0] == b[0] && w[1..] == Without(b[1..], x - 1);
      if a[0] == w[0] && Sublist(a[1..], w[1..]) {
        SublistWithout(a[1..], b[1..], x - 1);
      } else {
        SublistWithout(a, b[1..], x - 1);
      }
    } else if a != [] {
      assert w == b[1..];
    }
  }

  function Abs(n: int): (r: nat)
    ensures r == n || r == -n
  {
    if n < 0 then -n else n
  }
}
