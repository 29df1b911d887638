/**
 * The calculator's controller (`NNCalcController1`): the four validity
 * flags it derives from the two registers, a value-level reference
 * semantics of its commands, and the nine event handlers, which update
 * the model's registers in place through the aliases `top()` and
 * `bottom()` return.
 *
 * The view is not modelled; what the controller last told it is kept in
 * the field `view`, and the controller's invariant says that this record
 * always shows the current registers and the flags computed from them.
 */
module NNCalcController {
  import opened NaturalNumber
  import opened NNCalcModel

  datatype Option<T> = None | Some(value: T)

  /** A decimal digit, as delivered by the digit buttons. */
  type Digit = d: int | 0 <= d <= 9

  // ---------------------------------------------------------------------
  // Validity flags
  // ---------------------------------------------------------------------

  /** Which of the guarded commands the view lets the user invoke. */
  datatype Flags = Flags(rootAllowed: bool, powerAllowed: bool, subtractAllowed: bool, divideAllowed: bool)

  /** The flags as a function of the current register values. */
  function FlagsOf(top: nat, bottom: nat): Flags
  {
    Flags(2 <= bottom <= INT_MAX, bottom <= INT_MAX, bottom <= top, bottom != 0)
  }

  /** What the view has been told: both displayed values and the four flags. */
  datatype ViewState = ViewState(top: nat, bottom: nat, flags: Flags)

  function ViewOf(top: nat, bottom: nat): ViewState
  {
    ViewState(top, bottom, FlagsOf(top, bottom))
  }

  // ---------------------------------------------------------------------
  // Reference semantics on values
  // ---------------------------------------------------------------------

  /** The values held by the two registers. */
  datatype Regs = Regs(top: nat, bottom: nat)

  /** The events the controller handles. */
  datatype Event =
    | ClearEvent
    | SwapEvent
    | EnterEvent
    | AddEvent
    | SubtractEvent
    | MultiplyEvent
    | DivideEvent
    | PowerEvent
    | RootEvent
    | AddNewDigitEvent(digit: int)

  /** An event is enabled when its flag is set (digits: when it is a decimal digit). */
  predicate Enabled(s: Regs, e: Event)
  {
    var f := FlagsOf(s.top, s.bottom);
    match e
    case SubtractEvent => f.subtractAllowed
    case DivideEvent => f.divideAllowed
    case PowerEvent => f.powerAllowed
    case RootEvent => f.rootAllowed
    case AddNewDigitEvent(d) => 0 <= d <= 9
    case _ => true
  }

  /** The net effect of one enabled event on the register values. */
  function Step(s: Regs, e: Event): Regs
    requires Enabled(s, e)
  {
    match e
    case ClearEvent => Regs(s.top, 0)
    case SwapEvent => Regs(s.bottom, s.top)
    case EnterEvent => Regs(s.bottom, s.bottom)
    case AddEvent => Regs(0, s.top + s.bottom)
    case SubtractEvent => Regs(0, s.top - s.bottom)
    case MultiplyEvent => Regs(0, s.top * s.bottom)
    case DivideEvent => Regs(s.top % s.bottom, s.top / s.bottom)
    case PowerEvent => Regs(0, Pow(s.top, s.bottom))
    case RootEvent => Regs(0, IntRoot(s.top, s.bottom))
    case AddNewDigitEvent(d) => Regs(s.top, 10 * s.bottom + d)
  }

  /** Runs a session of events; `None` when some event is not enabled when it arrives. */
  function Run(s: Regs, es: seq<Event>): Option<Regs>
    decreases |es|
  {
    if es == [] then Some(s)
    else if Enabled(s, es[0]) then Run(Step(s, es[0]), es[1..])
    else None
  }

  /** Divide leaves the quotient in `bottom` and the remainder, below the divisor, in `top`. */
  lemma DivideStep(s: Regs)
    requires Enabled(s, DivideEvent)
    ensures Step(s, DivideEvent).bottom * s.bottom + Step(s, DivideEvent).top == s.top
    ensures Step(s, DivideEvent).top < s.bottom
  {
  }

  /** Root leaves in `bottom` the greatest `r` with `r^bottom <= top`, and 0 in `top`. */
  lemma RootStep(s: Regs)
    requires Enabled(s, RootEvent)
    ensures Step(s, RootEvent).top == 0
    ensures Pow(Step(s, RootEvent).bottom, s.bottom) <= s.top
    ensures forall k: nat :: Pow(k, s.bottom) <= s.top ==> k <= Step(s, RootEvent).bottom
  {
    var r := Step(s, RootEvent).bottom;
    forall k: nat | Pow(k, s.bottom) <= s.top
      ensures k <= r
    {
      RootIsGreatest(r, s.top, s.bottom, k);
    }
  }

  /** Swapping twice restores the original pair of values. */
  lemma SwapTwice(s: Regs)
    ensures Run(s, [SwapEvent, SwapEvent]) == Some(s)
  {
    assert [SwapEvent, SwapEvent][1..] == [SwapEvent];
    assert [SwapEvent][1..] == [];
  }

  /** The decimal number whose digits, most significant first, are `ds`. */
  function DecimalValue(ds: seq<Digit>): nat
  {
    if ds == [] then 0 else 10 * DecimalValue(ds[..|ds| - 1]) + ds[|ds| - 1]
  }

  /** The key presses that enter the digits `ds`, in order. */
  function Keys(ds: seq<Digit>): (es: seq<Event>)
  {
    if ds == [] then [] else [AddNewDigitEvent(ds[0])] + Keys(ds[1..])
  }

  /** A leading digit contributes its value times the weight of its position. */
  lemma {:induction false} DecimalValueLeading(d: Digit, rest: seq<Digit>)
    ensures DecimalValue([d] + rest) == d * Pow(10, |rest|) + DecimalValue(rest)
    decreases |rest|
  {
    var ds := [d] + rest;
    if rest != [] {
      var init := rest[..|rest| - 1];
      var last := rest[|rest| - 1];
      assert ds[..|ds| - 1] == [d] + init;
      assert ds[|ds| - 1] == last;
      DecimalValueLeading(d, init);
      var p := Pow(10, |init|);
      assert DecimalValue(ds) == 10 * (d * p + DecimalValue(init)) + last;
      assert 10 * (d * p) == d * (10 * p);
      assert Pow(10, |rest|) == 10 * p;
    } else {
      assert ds[..|ds| - 1] == [];
    }
  }

  /** Entering digits onto `bottom` shifts it left and appends their decimal value. */
  lemma {:induction false} RunKeys(t: nat, b: nat, ds: seq<Digit>)
    ensures Run(Regs(t, b), Keys(ds)) == Some(Regs(t, b * Pow(10, |ds|) + DecimalValue(ds)))
    decreases |ds|
  {
    if ds == [] {
      assert Keys(ds) == [];
    } else {
      var d, rest := ds[0], ds[1..];
      var es := Keys(ds);
      assert es[0] == AddNewDigitEvent(d) && es[1..] == Keys(rest);
      assert Run(Regs(t, b), es) == Run(Regs(t, 10 * b + d), Keys(rest));
      RunKeys(t, 10 * b + d, rest);
      assert ds == [d] + rest;
      DecimalValueLeading(d, rest);
      ShiftDigit(b, d, Pow(10, |rest|), DecimalValue(rest));
    }
  }

  /** The arithmetic step of `RunKeys`: appending `d` then shifting by `p` equals shifting by `10 * p`. */
  lemma ShiftDigit(b: nat, d: nat, p: nat, rest: nat)
    ensures (10 * b + d) * p + rest == b * (10 * p) + (d * p + rest)
  {
  }

  /** Starting from 0, the digit keys `d1 ... dk` leave the decimal number `d1...dk` in `bottom`. */
  lemma DigitEntry(t: nat, ds: seq<Digit>)
    ensures Run(Regs(t, 0), Keys(ds)) == Some(Regs(t, DecimalValue(ds)))
  {
    RunKeys(t, 0, ds);
  }

  /**
   * A short session: key 5, key 3, enter, key 2, divide.  The digit 2 is
   * appended to the 53 still in `bottom`, so the divisor is 532 and the
   * calculator ends with top = 53 and bottom = 0, which disables divide
   * and root.
   */
  lemma ExampleSession()
    ensures Run(Regs(0, 0), [AddNewDigitEvent(5), AddNewDigitEvent(3), EnterEvent, AddNewDigitEvent(2), DivideEvent])
            == Some(Regs(53, 0))
    ensures FlagsOf(53, 0) == Flags(false, true, true, false)
  {
    var es := [AddNewDigitEvent(5), AddNewDigitEvent(3), EnterEvent, AddNewDigitEvent(2), DivideEvent];
    assert es[1..] == [AddNewDigitEvent(3), EnterEvent, AddNewDigitEvent(2), DivideEvent];
    assert es[1..][1..] == [EnterEvent, AddNewDigitEvent(2), DivideEvent];
    assert es[1..][1..][1..] == [AddNewDigitEvent(2), DivideEvent];
    assert es[1..][1..][1..][1..] == [DivideEvent];
    assert es[1..][1..][1..][1..][1..] == [];
  }

  // ---------------------------------------------------------------------
  // The controller
  // ---------------------------------------------------------------------

  class NNCalcController1 {
    const model: NNCalcModel1
    /** The constants `TWO` and `INT_LIMIT` the flags are computed against. */
    const two: NN
    const intLimit: NN
    /** What the controller last told the view. */
    var view: ViewState

    /** The registers are distinct, and neither is one of the two constants. */
    ghost predicate Wired()
      reads two, intLimit
    {
      model.Valid() &&
      two.v == 2 && intLimit.v == INT_MAX &&
      two != model.top && two != model.bottom &&
      intLimit != model.top && intLimit != model.bottom
    }

    /** The view always shows the current registers and the flags derived from them. */
    ghost predicate Valid()
      reads this, two, intLimit, model.top, model.bottom
    {
      Wired() && view == ViewOf(model.top.v, model.bottom.v)
    }

    ghost function Registers(): Regs
      reads model.top, model.bottom
    {
      Regs(model.top.v, model.bottom.v)
    }

    /** Connects to `model` and brings the view up to date; the registers keep their values. */
    constructor (model: NNCalcModel1)
      requires model.Valid()
      ensures Valid()
      ensures this.model == model
    {
      this.model := model;
      two := new NN.FromInt(2);
      intLimit := new NN.FromInt(INT_MAX as int32);
      new;
      UpdateViewToMatchModel();
    }

    /** `updateViewToMatchModel`: shows both registers and recomputes the four flags. */
    method UpdateViewToMatchModel()
      requires Wired()
      modifies this`view
      ensures Valid()
    {
      var top := model.Top();
      var bottom := model.Bottom();
      var belowLimit := bottom.CompareTo(intLimit);
      var aboveTwo := bottom.CompareTo(two);
      var belowTop := bottom.CompareTo(top);
      var zero := bottom.IsZero();
      view := ViewState(top.v, bottom.v,
        Flags(belowLimit <= 0 && aboveTwo >= 0, belowLimit <= 0, belowTop <= 0, !zero));
    }

    /** Clear: `bottom` becomes 0, `top` is unchanged. */
    method ProcessClearEvent()
      requires Valid()
      modifies model.bottom, this`view
      ensures Valid()
      ensures model.bottom.v == 0 && model.top.v == old(model.top.v)
      ensures Registers() == Step(old(Registers()), ClearEvent)
    {
      var bottom := model.Bottom();
      bottom.Clear();
      UpdateViewToMatchModel();
    }

    /** Swap: the two values are exchanged through a temporary by three transfers. */
    method ProcessSwapEvent()
      requires Valid()
      modifies model.top, model.bottom, this`view
      ensures Valid()
      ensures model.top.v == old(model.bottom.v) && model.bottom.v == old(model.top.v)
      ensures Registers() == Step(old(Registers()), SwapEvent)
    {
      var top := model.Top();
      var bottom := model.Bottom();
      var temp := top.NewInstance();
      temp.TransferFrom(top);
      top.TransferFrom(bottom);
      bottom.TransferFrom(temp);
      UpdateViewToMatchModel();
    }

    /** Enter: `top` becomes a copy of `bottom`, `bottom` is unchanged. */
    method ProcessEnterEvent()
      requires Valid()
      modifies model.top, this`view
      ensures Valid()
      ensures model.top.v == old(model.bottom.v) && model.bottom.v == old(model.bottom.v)
      ensures Registers() == Step(old(Registers()), EnterEvent)
    {
      var top := model.Top();
      var bottom := model.Bottom();
      top.CopyFrom(bottom);
      UpdateViewToMatchModel();
    }

    /** Add: the sum lands in `bottom`, and the transfer out of `top` leaves it 0. */
    method ProcessAddEvent()
      requires Valid()
      modifies model.top, model.bottom, this`view
      ensures Valid()
      ensures model.bottom.v == old(model.top.v) + old(model.bottom.v) && model.top.v == 0
      ensures Registers() == Step(old(Registers()), AddEvent)
    {
      var top := model.Top();
      var bottom := model.Bottom();
      top.Add(bottom);
      bottom.TransferFrom(top);
      UpdateViewToMatchModel();
    }

    /** Subtract, offered only while the subtract flag is set: the difference lands in `bottom`. */
    method ProcessSubtractEvent()
      requires Valid() && view.flags.subtractAllowed
      modifies model.top, model.bottom, this`view
      ensures Valid()
      ensures model.bottom.v == old(model.top.v) - old(model.bottom.v) && model.top.v == 0
      ensures Registers() == Step(old(Registers()), SubtractEvent)
    {
      var top := model.Top();
      var bottom := model.Bottom();
      top.Subtract(bottom);
      bottom.TransferFrom(top);
      UpdateViewToMatchModel();
    }

    /** Multiply: the product lands in `bottom`, and `top` is left 0. */
    method ProcessMultiplyEvent()
      requires Valid()
      modifies model.top, model.bottom, this`view
      ensures Valid()
      ensures model.bottom.v == old(model.top.v) * old(model.bottom.v) && model.top.v == 0
      ensures Registers() == Step(old(Registers()), MultiplyEvent)
    {
      var top := model.Top();
      var bottom := model.Bottom();
      top.Multiply(bottom);
      bottom.TransferFrom(top);
      UpdateViewToMatchModel();
    }

    /**
     * Divide, offered only while the divide flag is set: the quotient
     * lands in `bottom` and the remainder, moved out of the fresh number
     * `divide` returns, in `top`.
     */
    method ProcessDivideEvent()
      requires Valid() && view.flags.divideAllowed
      modifies model.top, model.bottom, this`view
      ensures Valid()
      ensures model.bottom.v == old(model.top.v) / old(model.bottom.v)
      ensures model.top.v == old(model.top.v) % old(model.bottom.v)
      ensures model.bottom.v * old(model.bottom.v) + model.top.v == old(model.top.v)
      ensures model.top.v < old(model.bottom.v)
      ensures Registers() == Step(old(Registers()), DivideEvent)
    {
      var top := model.Top();
      var bottom := model.Bottom();
      var remain := top.Divide(bottom);
      bottom.TransferFrom(top);
      top.TransferFrom(remain);
      UpdateViewToMatchModel();
    }

    /** Power, offered only while the power flag is set: `top^bottom` lands in `bottom`. */
    method ProcessPowerEvent()
      requires Valid() && view.flags.powerAllowed
      modifies model.top, model.bottom, this`view
      ensures Valid()
      ensures model.bottom.v == Pow(old(model.top.v), old(model.bottom.v)) && model.top.v == 0
      ensures Registers() == Step(old(Registers()), PowerEvent)
    {
      var top := model.Top();
      var bottom := model.Bottom();
      var exponent := bottom.ToInt();
      top.Power(exponent);
      bottom.TransferFrom(top);
      UpdateViewToMatchModel();
    }

    /**
     * Root, offered only while the root flag is set: the greatest `r`
     * with `r^bottom <= top` lands in `bottom`.
     */
    method ProcessRootEvent()
      requires Valid() && view.flags.rootAllowed
      modifies model.top, model.bottom, this`view
      ensures Valid()
      ensures Pow(model.bottom.v, old(model.bottom.v)) <= old(model.top.v)
      ensures old(model.top.v) < Pow(model.bottom.v + 1, old(model.bottom.v))
      ensures model.top.v == 0
      ensures Registers() == Step(old(Registers()), RootEvent)
    {
      var top := model.Top();
      var bottom := model.Bottom();
      var index := bottom.ToInt();
      top.Root(index);
      bottom.TransferFrom(top);
      UpdateViewToMatchModel();
      RootUnique(model.bottom.v, IntRoot(old(model.top.v), old(model.bottom.v)),
                 old(model.top.v), old(model.bottom.v));
    }

    /** Add new digit: `bottom` becomes `10 * bottom + digit`, `top` is unchanged. */
    method ProcessAddNewDigitEvent(digit: int32)
      requires Valid() && 0 <= digit < 10
      modifies model.bottom, this`view
      ensures Valid()
      ensures model.bottom.v == 10 * old(model.bottom.v) + digit as int && model.top.v == old(model.top.v)
      ensures Registers() == Step(old(Registers()), AddNewDigitEvent(digit as int))
    {
      var bottom := model.Bottom();
      bottom.MultiplyBy10(digit);
      UpdateViewToMatchModel();
    }
  }

  /**
   * The session of `ExampleSession` driven through a freshly constructed
   * model and controller: the in-place handlers reach the same state and
   * leave the same flags in the view.
   */
  method ExampleSessionOnObjects() returns (top: nat, bottom: nat, flags: Flags)
    ensures top == 53 && bottom == 0
    ensures flags == Flags(false, true, true, false)
  {
    var model := new NNCalcModel1();
    var controller := new NNCalcController1(model);
    controller.ProcessAddNewDigitEvent(5);
    controller.ProcessAddNewDigitEvent(3);
    controller.ProcessEnterEvent();
    controller.ProcessAddNewDigitEvent(2);
    controller.ProcessDivideEvent();
    top, bottom, flags := model.top.v, model.bottom.v, controller.view.flags;
  }
}
