/** Positions on a ring of n slots: the "(idx + offset) % n" arithmetic shared by both indexes. */
module Ring {

  /** Slot reached from "home" after "off" forward steps. */
  function At(n: nat, home: nat, off: nat): (p: nat)
    requires home < n && off < n
    ensures p < n
  {
    if home + off < n then home + off else home + off - n
  }

  /** At agrees with the C expression. */
  lemma AtIsModulo(n: nat, home: nat, off: nat)
    requires home < n && off < n
    ensures At(n, home, off) == (home + off) % n
  {
  }

  /** One turn of "idx = (idx + 1) % n", starting from home. */
  lemma NextIsModulo(n: nat, home: nat, i: nat)
    requires home < n && i < n
    ensures (At(n, home, i) + 1) % n == At(n, home, if i + 1 < n then i + 1 else 0)
  {
  }

  /** Stepping back: "(n + idx - off) % n". */
  lemma BackIsModulo(n: nat, home: nat, off: nat)
    requires home < n && off < n
    ensures (n + At(n, home, off) - off) % n == home
  {
  }
}
