/**
 * Value types shared by the receiver blocks: complex baseband samples over
 * exact reals, bytes, optional values, and the floating-point operations that
 * the model does not interpret (they are passed in as parameters).
 */
module Signal {
  /** A gr_complex sample, with exact real components. */
  datatype Complex = Complex(re: real, im: real)

  const Zero: Complex := Complex(0.0, 0.0)

  function Add(a: Complex, b: Complex): Complex { Complex(a.re + b.re, a.im + b.im) }

  function Sub(a: Complex, b: Complex): Complex { Complex(a.re - b.re, a.im - b.im) }

  function Mul(a: Complex, b: Complex): Complex
  {
    Complex(a.re * b.re - a.im * b.im, a.re * b.im + a.im * b.re)
  }

  function Conj(a: Complex): Complex { Complex(a.re, -a.im) }

  /** std::norm: the squared magnitude, never negative. */
  function Norm(a: Complex): (r: real)
    ensures r >= 0.0
  {
    a.re * a.re + a.im * a.im
  }

  /** One byte of a byte stream (the blocks' char / uint8_t / unsigned char). */
  type byte = bv8

  datatype Option<T> = None | Some(value: T)

  /** xs followed by the entries of o, if o decoded (a decoder's prefix in front of the rest of its read). */
  function Prepend<T>(xs: seq<T>, o: Option<seq<T>>): Option<seq<T>>
  {
    if o.Some? then Some(xs + o.value) else None
  }

  lemma PrependNothing<T>(o: Option<seq<T>>)
    ensures Prepend([], o) == o
  {
    if o.Some? {
      assert [] + o.value == o.value;
    }
  }

  lemma PrependTwice<T>(xs: seq<T>, ys: seq<T>, o: Option<seq<T>>)
    ensures Prepend(xs, Prepend(ys, o)) == Prepend(xs + ys, o)
  {
    if o.Some? {
      assert xs + (ys + o.value) == (xs + ys) + o.value;
    }
  }

  /**
   * The transcendental float functions of the blocks, left uninterpreted:
   * `pi` is the float value of pi, `arg` is std::arg, `expj` is gr_expj
   * (exp(j x)), `wrapPhase` is the fmod-based wrap of a phase difference
   * into one turn, and `snrDb` is the ten-times-natural-log SNR formula
   * applied to (signal, noise) energies.
   */
  datatype FloatMath = FloatMath(
    pi: real,
    arg: Complex -> real,
    expj: real -> Complex,
    wrapPhase: real -> real,
    snrDb: (real, real) -> real)

  /**
   * Stream tags are given as their offsets relative to the first item of the
   * current call. A block that walks them with a cursor consumes the next tag
   * only when it sits exactly on the current item: this is the cursor before
   * item i.
   */
  function TagCursor(tags: seq<nat>, i: nat): (c: nat)
    ensures c <= |tags| && c <= i
  {
    if i == 0 then 0
    else
      var c := TagCursor(tags, i - 1);
      if c < |tags| && tags[c] == i - 1 then c + 1 else c
  }

  /** Item i is acted on: the next unconsumed tag sits exactly on it. */
  predicate HitAt(tags: seq<nat>, i: nat)
  {
    var c := TagCursor(tags, i);
    c < |tags| && tags[c] == i
  }

  predicate StrictlyAscending(tags: seq<nat>)
  {
    forall a, b :: 0 <= a < b < |tags| ==> tags[a] < tags[b]
  }

  /** With strictly ascending tag offsets, the cursor has passed exactly the tags below i. */
  lemma {:induction false} TagCursorPosition(tags: seq<nat>, i: nat)
    requires StrictlyAscending(tags)
    ensures forall a :: 0 <= a < TagCursor(tags, i) ==> tags[a] < i
    ensures forall a :: TagCursor(tags, i) <= a < |tags| ==> tags[a] >= i
  {
    if i > 0 {
      TagCursorPosition(tags, i - 1);
    }
  }

  /** With strictly ascending tag offsets, an item is acted on exactly when a tag sits on it. */
  lemma TagsHonoured(tags: seq<nat>, i: nat)
    requires StrictlyAscending(tags)
    ensures HitAt(tags, i) <==> i in tags
  {
    TagCursorPosition(tags, i);
    if i in tags {
      var a :| 0 <= a < |tags| && tags[a] == i;
    }
  }

  /**
   * Two tags on the same item: the second is never consumed, and the cursor
   * stops there for the rest of the call.
   */
  lemma {:induction false} DuplicateTagBlocks(tags: seq<nat>, c: nat, i: nat)
    requires c + 1 < |tags| && tags[c] == tags[c + 1]
    ensures TagCursor(tags, i) <= c + 1
  {
    if i > 0 {
      DuplicateTagBlocks(tags, c, i - 1);
      CursorPassed(tags, i - 1);
    }
  }

  /** Every consumed tag sat on an earlier item. */
  lemma {:induction false} CursorPassed(tags: seq<nat>, i: nat)
    ensures forall a :: 0 <= a < TagCursor(tags, i) ==> tags[a] < i
  {
    if i > 0 {
      CursorPassed(tags, i - 1);
    }
  }

  /**
   * k iterations of a sample loop whose body is f, from state t, the first
   * one for the sample at i.
   */
  function Iterate<T>(f: (T, nat) -> T, t: T, i: nat, k: nat): T
  {
    if k == 0 then t else f(Iterate(f, t, i, k - 1), i + k - 1)
  }

  /** Running n + j iterations is running n and then j more. */
  lemma {:induction false} IterateSplit<T>(f: (T, nat) -> T, t: T, i: nat, n: nat, j: nat)
    ensures Iterate(f, t, i, n + j) == Iterate(f, Iterate(f, t, i, n), i + n, j)
  {
    if j > 0 {
      IterateSplit(f, t, i, n, j - 1);
    }
  }
}
