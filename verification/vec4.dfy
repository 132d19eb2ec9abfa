/** The generic 4-component vector `Vec4<N>(N, N, N, N)`. */
module Vec4 {
  import opened Wrappers

  /** A 4-component vector; components are zero-indexed and kept in the order given. */
  datatype Vec4<N> = Vec4(0: N, 1: N, 2: N, 3: N) {
    /** `_0`: the first component. */
    function First(): N { this.0 }

    /** `_1`: the second component. */
    function Second(): N { this.1 }

    /** `_2`: the third component. */
    function Third(): N { this.2 }

    /** `_3`: the fourth component. */
    function Fourth(): N { this.3 }

    /** Component `i` by position: the vector read as the sequence of its components. */
    function At(i: nat): N
      requires i < 4
    {
      if i == 0 then First() else if i == 1 then Second() else if i == 2 then Third() else Fourth()
    }

    /**
     * `map`: applies `f` to every component and keeps each result at the position of
     * the component it came from.
     */
    function Map<M>(f: N -> M): (r: Vec4<M>)
      ensures forall i :: 0 <= i < 4 ==> r.At(i) == f(At(i))
    {
      Vec4(f(this.0), f(this.1), f(this.2), f(this.3))
    }
  }

  /** `Vec4::new(_0, _1, _2, _3)`. */
  function New<N>(c0: N, c1: N, c2: N, c3: N): Vec4<N> {
    Vec4(c0, c1, c2, c3)
  }

  /** `From<(N, N, N, N)>`: the tuple's fields, in order. */
  function FromTuple<N>(t: (N, N, N, N)): Vec4<N> {
    Vec4(t.0, t.1, t.2, t.3)
  }

  /** `From<&(N, N, N, N)>` for `N: Copy`: the referenced tuple's fields, copied, in order. */
  function FromTupleRef<N>(t: Ref<(N, N, N, N)>): Vec4<N> {
    var fields := t.deref;
    Vec4(fields.0, fields.1, fields.2, fields.3)
  }

  /** The getters give back what `new` was given, each at its own position. */
  lemma NewThenGetters<N>(c0: N, c1: N, c2: N, c3: N)
    ensures New(c0, c1, c2, c3).First() == c0
    ensures New(c0, c1, c2, c3).Second() == c1
    ensures New(c0, c1, c2, c3).Third() == c2
    ensures New(c0, c1, c2, c3).Fourth() == c3
  {}

  /** Converting a tuple by value builds the same vector as `new` on its fields. */
  lemma FromTupleIsNew<N>(t: (N, N, N, N))
    ensures FromTuple(t) == New(t.0, t.1, t.2, t.3)
  {}

  /** Converting through a reference gives the same vector as converting the tuple itself. */
  lemma FromTupleRefIsFromTuple<N>(t: (N, N, N, N))
    ensures FromTupleRef(Borrow(t)) == FromTuple(t)
  {}

  /** Two vectors are equal exactly when they agree position by position. */
  lemma EqualIffComponentsEqual<N>(v: Vec4<N>, w: Vec4<N>)
    ensures v == w <==> forall i :: 0 <= i < 4 ==> v.At(i) == w.At(i)
  {
    if forall i :: 0 <= i < 4 ==> v.At(i) == w.At(i) {
      assert v.At(0) == w.At(0) && v.At(1) == w.At(1) && v.At(2) == w.At(2) && v.At(3) == w.At(3);
    }
  }

  /** Mapping `x + 1` over `(1, 2, 3, 4)` gives `(2, 3, 4, 5)`. */
  lemma MapIncrementExample()
    ensures New(1, 2, 3, 4).Map((x: int) => x + 1) == New(2, 3, 4, 5)
  {}

  /** Mapping the identity changes nothing. */
  lemma MapIdentity<N>(v: Vec4<N>)
    ensures v.Map(x => x) == v
  {}

  /** Mapping `f` and then `g` is mapping their composition once. */
  lemma MapCompose<N, M, P>(v: Vec4<N>, f: N -> M, g: M -> P)
    ensures v.Map(f).Map(g) == v.Map(x => g(f(x)))
  {}
}
