/** A cancellation epoch: a 64-bit counter of cancels that wraps to zero. */
module Epochs {

  const EPOCHS: nat := 0x1_0000_0000_0000_0000

  /** The epoch counter wraps at 64 bits. */
  function NextEpoch(epoch: nat): nat {
    if epoch + 1 < EPOCHS then epoch + 1 else 0
  }

  /** What the counter shows once it has reached `total` without wrapping. */
  ghost function Shown(total: nat): nat
    decreases total
  {
    if total < EPOCHS then total else Shown(total - EPOCHS)
  }

  /** `n` is a positive multiple of the counter's range. */
  ghost predicate WholeLaps(n: nat)
    decreases n
  {
    n == EPOCHS || (n > EPOCHS && WholeLaps(n - EPOCHS))
  }

  /** Advancing the counter is advancing the total. */
  lemma {:induction false} ShownAdvances(total: nat)
    ensures Shown(total) < EPOCHS && Shown(total + 1) == NextEpoch(Shown(total))
    decreases total
  {
    if total >= EPOCHS { ShownAdvances(total - EPOCHS); }
  }

  /** Two totals look alike exactly when they are whole laps apart. */
  lemma {:induction false} ShownAlike(a: nat, b: nat)
    requires a < b
    ensures Shown(a) == Shown(b) <==> WholeLaps(b - a)
    decreases b
  {
    if b >= EPOCHS {
      if a < b - EPOCHS {
        ShownAlike(a, b - EPOCHS);
      } else if b - EPOCHS < a {
        ShownAlike(b - EPOCHS, a);
        assert !WholeLaps(b - a) && !WholeLaps(a - (b - EPOCHS));
      }
    }
  }
}
