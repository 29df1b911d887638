# Natural-number calculator engine, in Dafny

This project models the engine of a two-register calculator over unbounded
natural numbers (`NNCalcModel1` and `NNCalcController1`), and proves
properties of that model.

- **`NaturalNumber`** (`natural_number.dfy`) models the natural-number component
  the calculator is built on (`NaturalNumber2`). The class `NN` holds one `nat`.
  Each operation used by the controller is a method; the mutating ones update
  the value in place, as the component's contract says: `clear`, `copyFrom`, `transferFrom`,
  `compareTo`, `isZero`, `toInt`, `multiplyBy10`, `add`, `subtract`, `multiply`,
  `divide`, `power`, `root` and `newInstance`. Its preconditions are the
  component's own: `subtract` needs `o <= this`, `divide` a non-zero divisor,
  `toInt` a value that fits in an `int`, `root` an index of at least 2, and
  `multiplyBy10` a digit in `[0, 9]`. Java's `int` is the newtype `int32`.
  `INT_MAX` is `2147483647`. `Pow` is the reference definition of a power, with
  `0^0 = 1`. `IntRoot` is a binary search that is proved to return the integer root.
- **`NNCalcModel`** (`nn_calc_model.dfy`) is the model class. The two registers
  are `const` fields because they are `final` in Java: a command can change
  their values but cannot replace the objects. The accessors return the stored
  objects themselves.
- **`NNCalcController`** (`nn_calc_controller.dfy`) has three parts:
  - `FlagsOf`, the four validity flags as a pure function of `(top, bottom)`.
  - A value-level reference semantics: `Step` gives the net effect of one event
    and `Run` the effect of a session of events.
  - The class `NNCalcController1` with the nine handlers. Each handler calls the
    `NN` methods on the aliases that `Top()` and `Bottom()` return, as the
    source does.

  Each handler's `ensures` gives the new register values directly and as
  `Step` of the old ones. The class invariant `Valid()` has two parts. First,
  the registers and the constants `TWO` and `INT_LIMIT` are four distinct
  objects. Second, the field `view` always equals `ViewOf(top, bottom)`, so the
  four flags cannot go stale. A guarded handler requires only that its flag is
  set in `view`. The handler body then verifies only if that flag implies the
  preconditions of the `NN` calls it makes.

A short session shows how digit entry works: key 5, key 3, enter, key 2,
divide. Enter copies 53 into `top` and leaves 53 in `bottom`, so key 2 appends
to it and makes `bottom` 532. Divide then ends at `top = 53` (the remainder)
and `bottom = 0` (the quotient), after which root and divide are disabled,
and power and subtract stay enabled. `ExampleSession` proves this on the reference semantics, and
`ExampleSessionOnObjects` proves it for the real handlers run in sequence on a
freshly constructed model and controller.

## Model

| member | source | states |
|---|---|---|
| `NaturalNumber.IntRoot` | src/NNCalcController1.java:176 | the result `r` of root with index `n >= 1` satisfies `r^n <= x < (r+1)^n` |
| `NaturalNumber.RootIsGreatest` | src/NNCalcController1.java:176 | every `k` with `k^n <= x` is at most the root, so the root is the greatest such value |
| `NaturalNumber.RootUnique` | src/NNCalcController1.java:176 | at most one value satisfies `r^n <= x < (r+1)^n`, so the root is determined |
| `NaturalNumber.RootOfZeroAndOne` | src/NNCalcController1.java:176 | for every index `n >= 1`, the root of 0 is 0 and the root of 1 is 1 |
| `NaturalNumber.NN.constructor` | src/NNCalcModel1.java:21-22 | `new NaturalNumber2()` is zero-valued |
| `NaturalNumber.NN.FromInt` | src/NNCalcController1.java:24-25 | `new NaturalNumber2(i)` for `i >= 0` holds `i` (used for `TWO` and `INT_LIMIT`) |
| `NaturalNumber.NN.NewInstance` | src/NNCalcController1.java:95 | `newInstance` returns a fresh object, independent of every existing one, holding 0 |
| `NaturalNumber.NN.Clear` | src/NNCalcController1.java:78 | the value becomes 0 |
| `NaturalNumber.NN.CopyFrom` | src/NNCalcController1.java:110 | this takes the source's value; the source keeps its value |
| `NaturalNumber.NN.TransferFrom` | src/NNCalcController1.java:96-98 | this takes the source's value; the source becomes 0 |
| `NaturalNumber.NN.CompareTo` | src/NNCalcController1.java:47-50 | the result is negative, zero or positive exactly when this is less than, equal to or greater than the argument |
| `NaturalNumber.NN.IsZero` | src/NNCalcController1.java:51 | true exactly when the value is 0 |
| `NaturalNumber.NN.ToInt` | src/NNCalcController1.java:165 | defined only for values up to `Integer.MAX_VALUE`; the returned `int` equals the value |
| `NaturalNumber.NN.MultiplyBy10` | src/NNCalcController1.java:186 | for a digit in `[0, 9]`, the value becomes `10 * value + digit` |
| `NaturalNumber.NN.Add` | src/NNCalcController1.java:120 | the value becomes `value + other` |
| `NaturalNumber.NN.Subtract` | src/NNCalcController1.java:131 | defined only when `other <= value`; the value becomes `value - other`, which is never negative |
| `NaturalNumber.NN.Multiply` | src/NNCalcController1.java:142 | the value becomes `value * other` |
| `NaturalNumber.NN.Divide` | src/NNCalcController1.java:153 | defined only for a non-zero divisor; the value becomes the quotient, and a fresh object holding the remainder is returned |
| `NaturalNumber.NN.Power` | src/NNCalcController1.java:165 | for an exponent `p >= 0`, the value becomes `value^p` |
| `NaturalNumber.NN.Root` | src/NNCalcController1.java:176 | for an index `k >= 2`, the value becomes the `r` with `r^k <= value < (r+1)^k` |
| `NNCalcModel.NNCalcModel1.constructor` | src/NNCalcModel1.java:20-23 | a new model holds two fresh, distinct registers, both 0 |
| `NNCalcModel.NNCalcModel1.Top` | src/NNCalcModel1.java:31-33 | returns the stored top register itself; the field is `const`, so every call returns the same object |
| `NNCalcModel.NNCalcModel1.Bottom` | src/NNCalcModel1.java:41-43 | returns the stored bottom register itself, the same object on every call |
| `NNCalcController.DivideStep` | src/NNCalcController1.java:149-158 | after divide, `bottom * old_bottom + top == old_top` and `top < old_bottom` |
| `NNCalcController.RootStep` | src/NNCalcController1.java:172-180 | after root, `top` is 0 and `bottom` is the greatest `r` with `r^old_bottom <= old_top` |
| `NNCalcController.SwapTwice` | src/NNCalcController1.java:86-103 | running swap twice restores the original `(top, bottom)` pair |
| `NNCalcController.DecimalValueLeading` | src/NNCalcController1.java:183-189 | a leading digit `d` of a digit string contributes `d * 10^(digits after it)` to its decimal value |
| `NNCalcController.RunKeys` | src/NNCalcController1.java:183-189 | digit keys `ds` turn `bottom = b` into `b * 10^|ds| + value(ds)` and leave `top` unchanged |
| `NNCalcController.DigitEntry` | src/NNCalcController1.java:183-189 | starting from `bottom = 0`, the digit keys `d1 ... dk` leave the decimal number `d1...dk` in `bottom` |
| `NNCalcController.ExampleSession` | src/NNCalcController1.java:106-189 | keys 5, 3, enter, 2, divide from `(0, 0)` end at `top = 53`, `bottom = 0`; then root and divide are disabled and power and subtract are enabled |
| `NNCalcController.ExampleSessionOnObjects` | src/NNCalcController1.java:106-189 | the same session run through the real handlers from a freshly constructed model and controller ends with `top = 53`, `bottom = 0` and view flags root off, power on, subtract on, divide off |
| `NNCalcController.NNCalcController1.constructor` | src/NNCalcController1.java:63-67 | the controller keeps the given model and leaves the view consistent with it (invariant `Valid()`) |
| `NNCalcController.NNCalcController1.UpdateViewToMatchModel` | src/NNCalcController1.java:37-53 | the flags computed with `compareTo` against `INT_LIMIT`, `TWO` and `top`, and with `isZero`, are exactly `FlagsOf(top, bottom)`; the displayed values are the registers' |
| `NNCalcController.NNCalcController1.ProcessClearEvent` | src/NNCalcController1.java:70-83 | `bottom` becomes 0; `top` is unchanged |
| `NNCalcController.NNCalcController1.ProcessSwapEvent` | src/NNCalcController1.java:86-103 | the three transfers through a temporary exchange `top` and `bottom` |
| `NNCalcController.NNCalcController1.ProcessEnterEvent` | src/NNCalcController1.java:106-113 | `top` becomes equal to `bottom`; `bottom` is unchanged |
| `NNCalcController.NNCalcController1.ProcessAddEvent` | src/NNCalcController1.java:116-124 | `bottom` becomes `old_top + old_bottom`; the transfer leaves `top` 0 |
| `NNCalcController.NNCalcController1.ProcessSubtractEvent` | src/NNCalcController1.java:127-135 | with the subtract flag set, `subtract`'s precondition holds; `bottom` becomes `old_top - old_bottom` and `top` 0 |
| `NNCalcController.NNCalcController1.ProcessMultiplyEvent` | src/NNCalcController1.java:138-146 | `bottom` becomes `old_top * old_bottom`; `top` becomes 0 |
| `NNCalcController.NNCalcController1.ProcessDivideEvent` | src/NNCalcController1.java:149-158 | with the divide flag set, the divisor is non-zero; `bottom` becomes `old_top div old_bottom` and `top` becomes `old_top mod old_bottom` (so `bottom * old_bottom + top == old_top` and `top < old_bottom`) |
| `NNCalcController.NNCalcController1.ProcessPowerEvent` | src/NNCalcController1.java:161-169 | with the power flag set, `toInt` is in range; `bottom` becomes `old_top^old_bottom` and `top` 0 |
| `NNCalcController.NNCalcController1.ProcessRootEvent` | src/NNCalcController1.java:172-180 | with the root flag set, `toInt` is in range and the index is at least 2; `bottom` becomes the greatest `r` with `r^old_bottom <= old_top`, and `top` becomes 0 |
| `NNCalcController.NNCalcController1.ProcessAddNewDigitEvent` | src/NNCalcController1.java:183-189 | for a digit in `[0, 9]`, `bottom` becomes `10 * bottom + digit`; `top` is unchanged |

Every handler also keeps `Valid()`, so the registers stay distinct, and its
frame names only the registers it changes and `view`. A change through one
alias therefore never changes the other register.

## Left out

- The view (`NNCalcView`) and its display and enable calls are presentation output. The model keeps only the values passed to them, in the field `view`.
- The `NNCalcController`, `NNCalcModel` and `NNCalcView` interfaces and the program's wiring are not part of this model.
- `NaturalNumber2`'s internals are not part of this model: its digit representation and the algorithms behind `divide`, `power` and `root`. Each operation is modelled by its contract over `nat`. `IntRoot` computes the root by binary search, not by the component's own algorithm.
- `TWO` and `INT_LIMIT` are `static` in the source, so all controllers share them. Here each controller allocates its own copy in its constructor. They are never mutated, so nothing observable differs.
- There is no event dispatch or threading to model: each handler runs to completion before the next one starts.
- ProcessSubtractEvent, ProcessDivideEvent, ProcessPowerEvent, ProcessRootEvent: the source has no guard of its own. It relies on the view to disable a command whose flag is false. So these handlers require their flag, and calling one with the flag off is not modelled. In the source, that would violate the natural-number component's precondition.
- ProcessAddNewDigitEvent requires a digit in `[0, 9]`, which is what `multiplyBy10` demands and what the digit buttons deliver. Other values are not modelled.
- NaturalNumber.NN.TransferFrom requires that the source and `this` are different objects. The source never transfers an object into itself.
