/** The idle heartbeat (cmc/cmc.c:361-364, 532-553, 47-48): a frame with
    blobs resets the idle counters; a frame without them bumps the 16-bit
    `idle_word`; an idle frame is emitted when `idle_word == 1 << idle_bit`.
    Until `idle_bit` reaches the pacemaker each emission doubles the gap,
    afterwards the gap stays at 2^pacemaker. */
module Pacer {
  import opened CmcTypes
  import opened Arith

  /** `idle_word` is a `uint16_t`. */
  const WORD_MOD: nat := 0x1_0000

  datatype Idle = Idle(word: nat, bit: nat)

  /** The counters as stored: a 16-bit word and a bit that never passes 16. */
  predicate Bounded(s: Idle)
  {
    s.word < WORD_MOD && s.bit <= 16
  }

  /** The (not)advance step on the counters after the reset or the bump:
      whether the frame is emitted as a heartbeat, and the new counters. */
  function Advance(s: Idle, pacemaker: nat): (Idle, bool)
  {
    var beat := s.word == Pow2(s.bit);
    if s.bit < pacemaker then (if beat then Idle(s.word, s.bit + 1) else s, beat)
    else (if beat then Idle(0, s.bit) else s, beat)
  }

  /** One frame: busy frames reset the counters, idle ones bump the word. */
  function Tick(s: Idle, busy: bool, pacemaker: nat): (Idle, bool)
  {
    var s' := if busy then Idle(0, 0) else Idle((s.word + 1) % WORD_MOD, s.bit);
    Advance(s', pacemaker)
  }

  lemma {:induction false} Pow2Order(k: nat, k': nat)
    ensures k < k' ==> Pow2(k) < Pow2(k')
    ensures k <= k' ==> Pow2(k) <= Pow2(k')
    decreases k'
  {
    if k < k' {
      Pow2Order(k, k' - 1);
    }
  }

  lemma Pow2Sixteen()
    ensures Pow2(15) == 0x8000 && Pow2(16) == WORD_MOD
  {
    assert Pow2(4) == 16;
    assert Pow2(8) == 256;
    assert Pow2(12) == 4096;
  }

  /** A frame with blobs is never a heartbeat and leaves the counters at zero. */
  lemma BusyTick(s: Idle, pacemaker: nat)
    ensures Tick(s, true, pacemaker) == (Idle(0, 0), false)
  {
  }

  /** The counters stay within their widths, whatever the pacemaker. */
  lemma TickBounded(s: Idle, busy: bool, pacemaker: nat)
    requires Bounded(s)
    ensures Bounded(Tick(s, busy, pacemaker).0)
  {
    var s' := if busy then Idle(0, 0) else Idle((s.word + 1) % WORD_MOD, s.bit);
    Pow2Sixteen();
    Pow2Order(16, s'.bit);
  }

  // ---------------------------------------------------------------------
  // Cadence of an uninterrupted idle run

  /** The number of binary digits of n. */
  function BitLen(n: nat): nat
  {
    if n == 0 then 0 else 1 + BitLen(n / 2)
  }

  predicate IsPow2(n: nat)
  {
    n >= 1 && Pow2(BitLen(n) - 1) == n
  }

  lemma {:induction false} BitLenBounds(n: nat)
    requires n >= 1
    ensures BitLen(n) >= 1 && Pow2(BitLen(n) - 1) <= n < Pow2(BitLen(n))
  {
    if n >= 2 {
      BitLenBounds(n / 2);
    }
  }

  lemma BitLenUnique(n: nat, b: nat)
    requires b >= 1 && Pow2(b - 1) <= n < Pow2(b)
    ensures BitLen(n) == b
  {
    BitLenBounds(n);
    var c := BitLen(n);
    Pow2Order(c, b - 1);
    Pow2Order(b, c - 1);
  }

  /** From n - 1 to n the digit count grows exactly at a power of two. */
  lemma BitLenStep(n: nat)
    requires n >= 1
    ensures n == Pow2(BitLen(n - 1)) ==> BitLen(n) == BitLen(n - 1) + 1 && IsPow2(n)
    ensures n != Pow2(BitLen(n - 1)) ==> BitLen(n) == BitLen(n - 1) && !IsPow2(n)
  {
    var b := BitLen(n - 1);
    if n == 1 {
      assert BitLen(1) == 1;
    } else {
      BitLenBounds(n - 1);
      if n == Pow2(b) {
        BitLenUnique(n, b + 1);
      } else {
        BitLenUnique(n, b);
        assert Pow2(BitLen(n) - 1) <= n - 1;
      }
    }
  }

  lemma BitLenAtMost(n: nat, p: nat)
    requires n < Pow2(p)
    ensures BitLen(n) <= p
  {
    if n >= 1 {
      BitLenBounds(n);
      Pow2Order(p, BitLen(n) - 1);
    }
  }

  /** The counters and the last decision after n idle frames in a row,
      starting from zeroed counters (the start, or any busy frame). */
  function IdleRun(n: nat, pacemaker: nat): (Idle, bool)
  {
    if n == 0 then (Idle(0, 0), false)
    else Tick(IdleRun(n - 1, pacemaker).0, false, pacemaker)
  }

  /** The counters after n idle frames: the word counts the frames until
      2^pacemaker and the frames since the last beat afterwards. */
  predicate AfterIdle(s: Idle, n: nat, pacemaker: nat)
  {
    if n < Pow2(pacemaker) then s == Idle(n, BitLen(n))
    else s == Idle(n % Pow2(pacemaker), pacemaker)
  }

  /** The heartbeat frames of an idle run: the powers of two below
      2^pacemaker, then every multiple of 2^pacemaker. */
  predicate Beats(n: nat, pacemaker: nat)
  {
    if n < Pow2(pacemaker) then IsPow2(n) else n % Pow2(pacemaker) == 0
  }

  lemma MulSign(d: int, m: nat)
    ensures d >= 1 ==> d * m >= m
    ensures d <= -1 ==> d * m <= -(m as int)
  {
    if d >= 1 {
      MulAtLeast(d, m);
    } else if d <= -1 {
      MulAtLeast(-d, m);
      assert d * m == -((-d) * m);
    }
  }

  lemma ModStep(n: nat, m: nat)
    requires m >= 1 && n >= 1
    ensures (n - 1) % m + 1 == m ==> n % m == 0
    ensures (n - 1) % m + 1 != m ==> n % m == (n - 1) % m + 1
  {
    var q, r := (n - 1) / m, (n - 1) % m;
    assert n - 1 == q * m + r;
    if r + 1 == m {
      ModOf(n, m, q + 1, 0);
    } else {
      ModOf(n, m, q, r + 1);
    }
  }

  lemma PacemakerFits(pacemaker: nat)
    requires pacemaker <= 15
    ensures Pow2(pacemaker) <= 0x8000
  {
    Pow2Sixteen();
    Pow2Order(pacemaker, 15);
  }

  /** The word after an idle frame of the ramp, before the beat decision. */
  lemma RampWord(n: nat, pacemaker: nat)
    requires pacemaker <= 15 && n >= 1 && n - 1 < Pow2(pacemaker)
    ensures Tick(Idle(n - 1, BitLen(n - 1)), false, pacemaker) == Advance(Idle(n, BitLen(n - 1)), pacemaker)
    ensures BitLen(n - 1) <= pacemaker
  {
    PacemakerFits(pacemaker);
    BitLenAtMost(n - 1, pacemaker);
    assert (n - 1 + 1) % WORD_MOD == n;
  }

  /** A ramp frame short of 2^pacemaker: a beat exactly at a power of two. */
  lemma RampBelow(n: nat, pacemaker: nat)
    requires pacemaker <= 15 && n >= 1 && n < Pow2(pacemaker)
    ensures var t := Tick(Idle(n - 1, BitLen(n - 1)), false, pacemaker);
      t.0 == Idle(n, BitLen(n)) && (t.1 <==> IsPow2(n))
  {
    RampWord(n, pacemaker);
    BitLenStep(n);
    var b := BitLen(n - 1);
    if b == pacemaker {
      BitLenBounds(n - 1);
      assert Pow2(b) > n;
    }
  }

  /** The ramp frame that reaches 2^pacemaker beats and wraps the word. */
  lemma RampTop(n: nat, pacemaker: nat)
    requires pacemaker <= 15 && n >= 1 && n == Pow2(pacemaker)
    ensures Tick(Idle(n - 1, BitLen(n - 1)), false, pacemaker) == (Idle(0, pacemaker), true)
  {
    RampWord(n, pacemaker);
    BitLenStep(n);
    BitLenUnique(n, pacemaker + 1);
  }

  /** An idle frame while the word still counts from the last reset. */
  lemma RampStep(n: nat, pacemaker: nat)
    requires pacemaker <= 15 && n >= 1 && n - 1 < Pow2(pacemaker)
    ensures var t := Tick(Idle(n - 1, BitLen(n - 1)), false, pacemaker);
      AfterIdle(t.0, n, pacemaker) && (t.1 <==> Beats(n, pacemaker))
  {
    if n < Pow2(pacemaker) {
      RampBelow(n, pacemaker);
    } else {
      RampTop(n, pacemaker);
      assert n % Pow2(pacemaker) == 0;
    }
  }

  /** An idle frame once the pacemaker gap is reached. */
  lemma SteadyStep(n: nat, pacemaker: nat)
    requires pacemaker <= 15 && n >= 1 && n - 1 >= Pow2(pacemaker)
    ensures var t := Tick(Idle((n - 1) % Pow2(pacemaker), pacemaker), false, pacemaker);
      AfterIdle(t.0, n, pacemaker) && (t.1 <==> Beats(n, pacemaker))
  {
    var m := Pow2(pacemaker);
    PacemakerFits(pacemaker);
    ModStep(n, m);
    var w := (n - 1) % m;
    assert w + 1 <= m;
    assert (w + 1) % WORD_MOD == w + 1;
    var t := Tick(Idle(w, pacemaker), false, pacemaker);
    assert t == Advance(Idle(w + 1, pacemaker), pacemaker);
    assert t == (if w + 1 == m then Idle(0, pacemaker) else Idle(w + 1, pacemaker), w + 1 == m);
  }

  /** With a pacemaker of at most 15 (so that 2^pacemaker fits the word) an
      idle run emits exactly the frames of `Beats`. */
  lemma {:induction false} IdleCadence(n: nat, pacemaker: nat)
    requires pacemaker <= 15
    ensures AfterIdle(IdleRun(n, pacemaker).0, n, pacemaker)
    ensures n >= 1 ==> (IdleRun(n, pacemaker).1 <==> Beats(n, pacemaker))
  {
    if n >= 1 {
      IdleCadence(n - 1, pacemaker);
      if n - 1 < Pow2(pacemaker) {
        RampStep(n, pacemaker);
      } else {
        SteadyStep(n, pacemaker);
      }
    }
  }

  /** The default cadence: with pacemaker 3 an idle run emits at idle
      frames 1, 2 and 4 and then at every eighth frame. */
  lemma PacemakerThree(n: nat)
    requires n >= 1
    ensures IdleRun(n, 3).1 <==> (n == 1 || n == 2 || n == 4 || (n >= 8 && n % 8 == 0))
  {
    IdleCadence(n, 3);
    assert Pow2(3) == 8;
    if n < 8 {
      assert BitLen(1) == 1 && BitLen(2) == 2 && BitLen(3) == 2;
      assert BitLen(4) == 3 && BitLen(5) == 3 && BitLen(6) == 3 && BitLen(7) == 3;
    }
  }
}
