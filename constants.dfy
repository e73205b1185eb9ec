/** The physical constants that berry.py and microscopic.py import from the
    package's constants module. Their values are not part of this model: they
    are held as reals that are only known to be positive. */
module Units {

  datatype Constants = Constants(q: real, hbar: real, muB: real, kB: real, me: real)

  predicate Physical(c: Constants) {
    c.q > 0.0 && c.hbar > 0.0 && c.muB > 0.0 && c.kB > 0.0 && c.me > 0.0
  }
}
