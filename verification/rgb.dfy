/** The RGB colour `Rgb`, a wrapper over `Vec3<u8>` holding red, green and blue in that order. */
module Rgb {
  import opened Ints
  import opened Wrappers
  import Vec3

  /** RGB colour: component 0 of `inner` is red, 1 is green, 2 is blue. */
  datatype Rgb = Rgb(inner: Vec3.Vec3<u8>) {
    /** The red component. */
    function Red(): u8 { inner.First() }

    /** The green component. */
    function Green(): u8 { inner.Second() }

    /** The blue component. */
    function Blue(): u8 { inner.Third() }
  }

  /** `Rgb::new(red, green, blue)`. */
  function New(red: u8, green: u8, blue: u8): Rgb {
    Rgb(Vec3.New(red, green, blue))
  }

  /** `Into<u8>` for `u8`: the identity conversion. */
  function IntoU8(x: u8): u8 {
    x
  }

  /**
   * `From<(N, N, N)>` where `N: Into<u8>`; `into` is `N`'s conversion. The tuple
   * `(n0, n1, n2)` becomes red `n0`, green `n1`, blue `n2`.
   */
  function FromTuple<N>(t: (N, N, N), into: N -> u8): Rgb {
    New(into(t.0), into(t.1), into(t.2))
  }

  /** `From<&(N, N, N)>` where `N: Into<u8> + Copy`: the same, reading through the reference. */
  function FromTupleRef<N>(t: Ref<(N, N, N)>, into: N -> u8): Rgb {
    var fields := t.deref;
    New(into(fields.0), into(fields.1), into(fields.2))
  }

  /** `From<Vec3<N>>` where `N: Into<u8> + Copy`: every component converted in place. */
  function FromVec3<N>(v: Vec3.Vec3<N>, into: N -> u8): Rgb {
    Rgb(v.Map(into))
  }

  /** `Into<Vec3<u8>>`: the vector `(red, green, blue)`. */
  function IntoVec3(c: Rgb): Vec3.Vec3<u8> {
    Vec3.New(c.Red(), c.Green(), c.Blue())
  }

  /** The getters give back what `new` was given, each in its own channel. */
  lemma NewThenGetters(red: u8, green: u8, blue: u8)
    ensures New(red, green, blue).Red() == red
    ensures New(red, green, blue).Green() == green
    ensures New(red, green, blue).Blue() == blue
  {}

  /** Tuple field 0 becomes red, field 1 green and field 2 blue, each converted. */
  lemma FromTupleChannels<N>(t: (N, N, N), into: N -> u8)
    ensures FromTuple(t, into).Red() == into(t.0)
    ensures FromTuple(t, into).Green() == into(t.1)
    ensures FromTuple(t, into).Blue() == into(t.2)
  {}

  /** With byte fields, converting a tuple is `new` on its fields: red, green, blue in tuple order. */
  lemma FromByteTupleIsNew(t: (u8, u8, u8))
    ensures FromTuple(t, IntoU8) == New(t.0, t.1, t.2)
  {}

  /**
   * Order is significant: two byte tuples give the same colour only when they are the
   * same tuple, so permuting the fields of a tuple with distinct fields changes the colour.
   */
  lemma FromTupleOrderSignificant(t: (u8, u8, u8), s: (u8, u8, u8))
    ensures FromTuple(t, IntoU8) == FromTuple(s, IntoU8) <==> t == s
  {}

  /** Converting through a reference gives the same colour as converting the tuple itself. */
  lemma FromTupleRefIsFromTuple<N>(t: (N, N, N), into: N -> u8)
    ensures FromTupleRef(Borrow(t), into) == FromTuple(t, into)
  {}

  /** Vector component 0 becomes red, 1 green and 2 blue, each converted. */
  lemma FromVec3Channels<N>(v: Vec3.Vec3<N>, into: N -> u8)
    ensures FromVec3(v, into).Red() == into(v.At(0))
    ensures FromVec3(v, into).Green() == into(v.At(1))
    ensures FromVec3(v, into).Blue() == into(v.At(2))
  {}

  /** Converting into a vector puts red at component 0, green at 1 and blue at 2. */
  lemma IntoVec3Channels(c: Rgb)
    ensures IntoVec3(c).At(0) == c.Red()
    ensures IntoVec3(c).At(1) == c.Green()
    ensures IntoVec3(c).At(2) == c.Blue()
  {}

  /** A colour converted to `Vec3<u8>` and back is the same colour. */
  lemma IntoVec3ThenFromVec3(c: Rgb)
    ensures FromVec3(IntoVec3(c), IntoU8) == c
  {}

  /** A byte vector converted to a colour and back is the same vector. */
  lemma FromVec3ThenIntoVec3(v: Vec3.Vec3<u8>)
    ensures IntoVec3(FromVec3(v, IntoU8)) == v
  {}
}
