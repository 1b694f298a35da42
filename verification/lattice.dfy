/** The flat lattice over an enumeration used by bytecode analysis: one bottom
    value, one top value, and any number of middle values that are pairwise
    incomparable. */
module Lattice {

  datatype ELattice<T(==)> = ELattice(bot: T, top: T) {

    /** The two bounds are different values of the enumeration (in the source
        they are `Value.Bot` and `Value.Top`). */
    predicate WellFormed() {
      bot != top
    }

    /** Least upper bound: a flat lattice can only answer one of the operands
        or top. */
    function Join(x: T, y: T): (r: T)
      ensures r == x || r == y || r == top
      ensures x == y ==> r == x
    {
      if x == bot then y
      else if y == bot then x
      else if x == y then x
      else top
    }

    /** Greatest lower bound: a flat lattice can only answer one of the
        operands or bottom. */
    function Meet(x: T, y: T): (r: T)
      ensures r == x || r == y || r == bot
      ensures x == y ==> r == x
    {
      if x == top then y
      else if y == top then x
      else if x == y then x
      else bot
    }

    /** The lattice order, derived from the join. */
    predicate Leq(x: T, y: T) {
      Join(x, y) == y
    }
  }

  lemma JoinCommutative<T>(l: ELattice<T>, x: T, y: T)
    ensures l.Join(x, y) == l.Join(y, x)
  {
  }

  lemma MeetCommutative<T>(l: ELattice<T>, x: T, y: T)
    ensures l.Meet(x, y) == l.Meet(y, x)
  {
  }

  /** Bottom is the unit of join and top is the unit of meet. */
  lemma Units<T>(l: ELattice<T>, x: T)
    ensures l.Join(l.bot, x) == x && l.Join(x, l.bot) == x
    ensures l.Meet(l.top, x) == x && l.Meet(x, l.top) == x
  {
  }

  /** Top absorbs join and bottom absorbs meet; this needs the two bounds to
      be distinct. */
  lemma Absorbing<T>(l: ELattice<T>, x: T)
    requires l.WellFormed()
    ensures l.Join(x, l.top) == l.top && l.Join(l.top, x) == l.top
    ensures l.Meet(x, l.bot) == l.bot && l.Meet(l.bot, x) == l.bot
  {
  }

  lemma Idempotent<T>(l: ELattice<T>, x: T)
    ensures l.Join(x, x) == x && l.Meet(x, x) == x
  {
  }

  lemma JoinAssociative<T>(l: ELattice<T>, x: T, y: T, z: T)
    requires l.WellFormed()
    ensures l.Join(l.Join(x, y), z) == l.Join(x, l.Join(y, z))
  {
  }

  lemma MeetAssociative<T>(l: ELattice<T>, x: T, y: T, z: T)
    requires l.WellFormed()
    ensures l.Meet(l.Meet(x, y), z) == l.Meet(x, l.Meet(y, z))
  {
  }

  /** The absorption laws that make (join, meet) a lattice. */
  lemma Absorption<T>(l: ELattice<T>, x: T, y: T)
    requires l.WellFormed()
    ensures l.Join(x, l.Meet(x, y)) == x
    ensures l.Meet(x, l.Join(x, y)) == x
  {
  }

  /** Leq is a partial order with bot least and top greatest. */
  lemma LeqPartialOrder<T>(l: ELattice<T>, x: T, y: T, z: T)
    requires l.WellFormed()
    ensures l.Leq(x, x)
    ensures l.Leq(x, y) && l.Leq(y, x) ==> x == y
    ensures l.Leq(x, y) && l.Leq(y, z) ==> l.Leq(x, z)
    ensures l.Leq(l.bot, x) && l.Leq(x, l.top)
  {
  }

  /** Join is the least upper bound and meet the greatest lower bound with
      respect to Leq. */
  lemma Bounds<T>(l: ELattice<T>, x: T, y: T, z: T)
    requires l.WellFormed()
    ensures l.Leq(x, l.Join(x, y)) && l.Leq(y, l.Join(x, y))
    ensures l.Leq(x, z) && l.Leq(y, z) ==> l.Leq(l.Join(x, y), z)
    ensures l.Leq(l.Meet(x, y), x) && l.Leq(l.Meet(x, y), y)
    ensures l.Leq(z, x) && l.Leq(z, y) ==> l.Leq(z, l.Meet(x, y))
  {
  }

  /** Flatness: two different middle values are incomparable, their join is
      top and their meet is bottom. */
  lemma Flat<T>(l: ELattice<T>, x: T, y: T)
    requires x != y
    requires x != l.bot && x != l.top && y != l.bot && y != l.top
    ensures !l.Leq(x, y) && !l.Leq(y, x)
    ensures l.Join(x, y) == l.top && l.Meet(x, y) == l.bot
  {
  }
}
