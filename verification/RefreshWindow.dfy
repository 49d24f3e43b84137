/** The deterministic early-refresh window of one OAuth grant. A 64-bit integer is
    modelled as its two's-complement word, so the unsigned wrap-around of the mixing
    steps and the signed range test are both explicit. */
module RefreshWindow {

  const MINUTE := 60 * 1_000_000_000
  const EARLY_WINDOW := 5 * MINUTE
  const EARLY_JITTER := 5 * MINUTE

  /** The int64 reading of the word is not positive. */
  predicate NotPositive(id: bv64) {
    id == 0 || id >= 0x8000_0000_0000_0000
  }

  // The steps of the finaliser, each with its inverse: a shift is undone by folding it
  // in again, a multiplication by the inverse of its odd constant modulo 2^64.

  function Offset(x: bv64): bv64 { x + 0x9e3779b97f4a7c15 }
  function Shift30(x: bv64): bv64 { x ^ (x >> 30) }
  function Scale1(x: bv64): bv64 { x * 0xbf58476d1ce4e5b9 }
  function Shift27(x: bv64): bv64 { x ^ (x >> 27) }
  function Scale2(x: bv64): bv64 { x * 0x94d049bb133111eb }
  function Shift31(x: bv64): bv64 { x ^ (x >> 31) }

  function Unoffset(y: bv64): bv64 { y - 0x9e3779b97f4a7c15 }
  function Unshift30(y: bv64): bv64 { y ^ (y >> 30) ^ (y >> 60) }
  function Unscale1(y: bv64): bv64 { y * 0x96de1b173f119089 }
  function Unshift27(y: bv64): bv64 { y ^ (y >> 27) ^ (y >> 54) }
  function Unscale2(y: bv64): bv64 { y * 0x319642b2d24d8ec3 }
  function Unshift31(y: bv64): bv64 { y ^ (y >> 31) ^ (y >> 62) }

  /** The SplitMix64 finaliser on the grant id. */
  function Mix(id: bv64): bv64 {
    Shift31(Scale2(Shift27(Scale1(Shift30(Offset(id))))))
  }

  function Unmix(y: bv64): bv64 {
    Unoffset(Unshift30(Unscale1(Unshift27(Unscale2(Unshift31(y))))))
  }

  /** The early-refresh window in nanoseconds: five minutes plus a jitter of at most
      five more, so it also fits a signed 64-bit duration for every grant id. */
  function Window(id: bv64): (w: int)
    ensures 5 * MINUTE <= w <= 10 * MINUTE < 0x8000_0000_0000_0000
    ensures NotPositive(id) ==> w == 5 * MINUTE
  {
    if NotPositive(id) then EARLY_WINDOW
    else EARLY_WINDOW + (Mix(id) as int) % (EARLY_JITTER + 1)
  }

  /** The jitter is the mixed id modulo its range, in nanoseconds: so two grants share a
      window exactly when their mixes agree modulo that range. */
  lemma WindowExactly(id: bv64, other: bv64)
    requires 0 < id < 0x8000_0000_0000_0000 && 0 < other < 0x8000_0000_0000_0000
    ensures Window(id) - 300_000_000_000 == Mix(id) as int % 300_000_000_001
    ensures Window(id) == Window(other) <==> Mix(id) as int % 300_000_000_001 == Mix(other) as int % 300_000_000_001
  {
    hide Mix;
  }

  lemma OffsetUndone(x: bv64)
    ensures Unoffset(Offset(x)) == x && Offset(Unoffset(x)) == x
  {}

  // The round trips below are first stated on the bare expressions, where they are
  // algebra on constants, and then carried over to the named steps.

  lemma ScalesCancel(x: bv64)
    ensures Unscale1(x * 0xbf58476d1ce4e5b9) == x && Scale1(x * 0x96de1b173f119089) == x
    ensures Unscale2(x * 0x94d049bb133111eb) == x && Scale2(x * 0x319642b2d24d8ec3) == x
  {}

  lemma ShiftsCancel(x: bv64)
    ensures Unshift30(x ^ (x >> 30)) == x && Shift30(x ^ (x >> 30) ^ (x >> 60)) == x
    ensures Unshift27(x ^ (x >> 27)) == x && Shift27(x ^ (x >> 27) ^ (x >> 54)) == x
    ensures Unshift31(x ^ (x >> 31)) == x && Shift31(x ^ (x >> 31) ^ (x >> 62)) == x
  {}

  lemma StepsUndone(x: bv64)
    ensures Unscale1(Scale1(x)) == x && Scale1(Unscale1(x)) == x
    ensures Unscale2(Scale2(x)) == x && Scale2(Unscale2(x)) == x
    ensures Unshift30(Shift30(x)) == x && Shift30(Unshift30(x)) == x
    ensures Unshift27(Shift27(x)) == x && Shift27(Unshift27(x)) == x
    ensures Unshift31(Shift31(x)) == x && Shift31(Unshift31(x)) == x
  {
    ScalesCancel(x);
    ShiftsCancel(x);
  }

  /** The mixing is a bijection on 64-bit words, with Unmix as its inverse. */
  lemma MixBijective(x: bv64)
    ensures Unmix(Mix(x)) == x
    ensures Mix(Unmix(x)) == x
  {
    hide Offset, Unoffset, Shift30, Unshift30, Scale1, Unscale1, Shift27, Unshift27,
         Scale2, Unscale2, Shift31, Unshift31;
    var a := Offset(x);
    OffsetUndone(x);
    StepsUndone(a);
    StepsUndone(Shift30(a));
    StepsUndone(Scale1(Shift30(a)));
    StepsUndone(Shift27(Scale1(Shift30(a))));
    StepsUndone(Scale2(Shift27(Scale1(Shift30(a)))));
    var b := Unshift31(x);
    StepsUndone(x);
    StepsUndone(b);
    StepsUndone(Unscale2(b));
    StepsUndone(Unshift27(Unscale2(b)));
    StepsUndone(Unscale1(Unshift27(Unscale2(b))));
    OffsetUndone(Unshift30(Unscale1(Unshift27(Unscale2(b)))));
  }

  /** Distinct grants never collide before the reduction to the jitter range. */
  lemma GrantsNeverCollide(id1: bv64, id2: bv64)
    requires id1 != id2
    ensures Mix(id1) != Mix(id2)
  {
    hide Mix, Unmix;
    MixBijective(id1);
    MixBijective(id2);
  }

  /** The first outputs of the published generator for the seeds zero and one. */
  lemma ReferenceOutputs()
    ensures Mix(0) == 0xe220a8397b1dcdaf
    ensures Mix(1) == 0x910a2dec89025cc1
    ensures Window(1) == 579_165_985_078
  {}
}
