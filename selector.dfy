/** The two-valued LED selector of the firmware (`LedType`) and its `toggle`. */
module Selector {

  /** Which of the two user LEDs is the blinking one. */
  datatype LedType = Green | Blue

  /** `LedType::toggle`: the selector after one flip. `LedType::toggle`
      flips a `Copy` value in place (`*self = …`); the model returns the new value
      and callers reassign it (`t := Toggled(t)`). */
  function Toggled(t: LedType): (r: LedType)
    ensures r != t
  {
    match t
    case Green => Blue
    case Blue => Green
  }

  /** Flipping twice gives back the original selector. */
  lemma ToggledIsInvolution(t: LedType)
    ensures Toggled(Toggled(t)) == t
  {}

  /** The selector after `n` flips in a row. */
  function ToggledTimes(t: LedType, n: nat): LedType
  {
    if n == 0 then t else Toggled(ToggledTimes(t, n - 1))
  }

  /** Only the parity of the number of flips matters. */
  lemma {:induction false} ToggledTimesParity(t: LedType, n: nat)
    ensures ToggledTimes(t, n) == if n % 2 == 0 then t else Toggled(t)
  {
    if n > 0 {
      ToggledTimesParity(t, n - 1);
      ToggledIsInvolution(t);
    }
  }

  /** Starting from Green, `n` flips leave Green exactly when `n` is even,
      and Blue exactly when `n` is odd. */
  lemma {:induction false} GreenAfterEvenFlips(n: nat)
    ensures ToggledTimes(Green, n) == Green <==> n % 2 == 0
    ensures ToggledTimes(Green, n) == Blue <==> n % 2 == 1
  {
    ToggledTimesParity(Green, n);
  }
}
