/** The generic 3-component vector `Vec3<N>(N, N, N)`, the backing store of `Rgb`. */
module Vec3 {
  /** A 3-component vector; components are zero-indexed and kept in the order given. */
  datatype Vec3<N> = Vec3(0: N, 1: N, 2: N) {
    /** `_0`: the first component. */
    function First(): N { this.0 }

    /** `_1`: the second component. */
    function Second(): N { this.1 }

    /** `_2`: the third component. */
    function Third(): N { this.2 }

    /** Component `i` by position: the vector read as the sequence of its components. */
    function At(i: nat): N
      requires i < 3
    {
      if i == 0 then First() else if i == 1 then Second() else Third()
    }

    /**
     * `map`: applies `f` to every component and keeps each result at the position of
     * the component it came from.
     */
    function Map<M>(f: N -> M): (r: Vec3<M>)
      ensures forall i :: 0 <= i < 3 ==> r.At(i) == f(At(i))
    {
      Vec3(f(this.0), f(this.1), f(this.2))
    }
  }

  /** `Vec3::new(_0, _1, _2)`. */
  function New<N>(c0: N, c1: N, c2: N): Vec3<N> {
    Vec3(c0, c1, c2)
  }

  /** `From<(N, N, N)>`: the tuple's fields, in order. */
  function FromTuple<N>(t: (N, N, N)): Vec3<N> {
    Vec3(t.0, t.1, t.2)
  }

  /** The getters give back what `new` was given, each at its own position. */
  lemma NewThenGetters<N>(c0: N, c1: N, c2: N)
    ensures New(c0, c1, c2).First() == c0
    ensures New(c0, c1, c2).Second() == c1
    ensures New(c0, c1, c2).Third() == c2
  {}

  /** Converting a tuple builds the same vector as `new` on its fields. */
  lemma FromTupleIsNew<N>(t: (N, N, N))
    ensures FromTuple(t) == New(t.0, t.1, t.2)
  {}

  /** Two vectors are equal exactly when they agree position by position. */
  lemma EqualIffComponentsEqual<N>(v: Vec3<N>, w: Vec3<N>)
    ensures v == w <==> forall i :: 0 <= i < 3 ==> v.At(i) == w.At(i)
  {
    if forall i :: 0 <= i < 3 ==> v.At(i) == w.At(i) {
      assert v.At(0) == w.At(0) && v.At(1) == w.At(1) && v.At(2) == w.At(2);
    }
  }

  /** Construction is injective: `new` loses no component and mixes none up. */
  lemma NewInjective<N>(a0: N, a1: N, a2: N, b0: N, b1: N, b2: N)
    ensures New(a0, a1, a2) == New(b0, b1, b2) <==> a0 == b0 && a1 == b1 && a2 == b2
  {}

  /** Mapping the identity changes nothing. */
  lemma MapIdentity<N>(v: Vec3<N>)
    ensures v.Map(x => x) == v
  {}

  /** Mapping `f` and then `g` is mapping their composition once. */
  lemma MapCompose<N, M, P>(v: Vec3<N>, f: N -> M, g: M -> P)
    ensures v.Map(f).Map(g) == v.Map(x => g(f(x)))
  {}
}
