/**
 * The calculator's state (`NNCalcModel1`): two registers, `top` and
 * `bottom`.  The fields are `final` in the source, so they are `const`
 * here: commands change the registers' values, never which objects they
 * are.  The accessors hand out the registers themselves, so whatever a
 * caller does to the returned object is done to the model.
 */
module NNCalcModel {
  import opened NaturalNumber

  class NNCalcModel1 {
    const top: NN
    const bottom: NN

    /** The two registers are distinct objects. */
    ghost predicate Valid()
    {
      top != bottom
    }

    /** A new model holds two fresh zero-valued registers. */
    constructor ()
      ensures Valid()
      ensures fresh(top) && fresh(bottom)
      ensures top.v == 0 && bottom.v == 0
    {
      top := new NN();
      bottom := new NN();
    }

    /** `top()`: the stored top register itself, not a copy. */
    method Top() returns (t: NN)
      ensures t == top
    {
      t := top;
    }

    /** `bottom()`: the stored bottom register itself, not a copy. */
    method Bottom() returns (b: NN)
      ensures b == bottom
    {
      b := bottom;
    }
  }
}
