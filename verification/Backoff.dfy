/** Reconnect delays of both clients, in nanoseconds as Go's time package counts them. */
module Backoff {

  const SECOND: nat := 1_000_000_000

  function Pow2(k: nat): nat {
    if k == 0 then 1 else 2 * Pow2(k - 1)
  }

  function Min(a: nat, b: nat): nat {
    if a < b then a else b
  }

  /** How many dials failed in a row directly before dial `i`. */
  function Streak(dials: seq<bool>, i: nat): nat
    requires i <= |dials|
  {
    if i == 0 || dials[i - 1] then 0 else 1 + Streak(dials, i - 1)
  }

  /** The SSH client's growth step, in internal/ssh/client.go. */
  function NextBackoff(d: nat): nat {
    if d >= 30 * SECOND then 30 * SECOND
    else if 2 * d > 30 * SECOND then 30 * SECOND
    else 2 * d
  }

  /** The tunnel client's growth step, in internal/tunnel/client.go: it doubles while below thirty seconds. */
  function Doubled(d: nat): nat {
    if d < 30 * SECOND then 2 * d else d
  }

  lemma {:induction false} Pow2AtLeast32(k: nat)
    requires k >= 5
    ensures Pow2(k) >= 32
    decreases k
  {
    if k == 5 {
      assert Pow2(2) == 4;
      assert Pow2(4) == 16;
    } else {
      Pow2AtLeast32(k - 1);
    }
  }

  /** The SSH client's delay after `k` failures is min(2^k, 30) seconds. */
  lemma SshDelay(k: nat)
    ensures NextBackoff(Min(Pow2(k), 30) * SECOND) == Min(Pow2(k + 1), 30) * SECOND
  {
  }

  /** The tunnel client's delay after failure `k + 1` is min(2^k, 32) seconds: the cap overshoots its test. */
  lemma TunnelDelay(k: nat)
    ensures Doubled(Min(Pow2(k), 32) * SECOND) == Min(Pow2(k + 1), 32) * SECOND
  {
    if k >= 5 {
      Pow2AtLeast32(k);
    } else {
      assert Pow2(2) == 4;
      assert Pow2(4) == 16;
    }
  }
}
