/** Multiples of a grain, of a segment, of a number of slots: the arithmetic that several modules share. */
module Multiples {

  lemma Quotient(x: nat, g: nat)
    requires 0 < g
    ensures x == g * (x / g) + x % g && x % g < g
  {
  }

  lemma Gap(g: nat, a: int, b: int)
    requires a < b
    ensures g * a + g <= g * b
  {
    assert g * b == g * a + g + g * (b - a - 1);
  }

  /** Quotient and remainder are unique. */
  lemma Remainder(g: nat, q: nat, r: nat)
    requires r < g
    ensures (g * q + r) % g == r && (g * q + r) / g == q
  {
    var x := g * q + r;
    Quotient(x, g);
    if q < x / g { Gap(g, q, x / g); }
    if x / g < q { Gap(g, x / g, q); }
  }

  lemma SumWithMultiple(x: nat, y: nat, g: nat)
    requires 0 < g && x % g == 0
    ensures (x + y) % g == y % g
  {
    Quotient(x, g);
    Quotient(y, g);
    assert x + y == g * (x / g + y / g) + y % g;
    Remainder(g, x / g + y / g, y % g);
  }

  lemma ProductOfMultiple(i: nat, y: nat, g: nat)
    requires 0 < g && y % g == 0
    ensures (i * y) % g == 0
  {
    Quotient(y, g);
    assert i * y == g * (i * (y / g));
    Remainder(g, i * (y / g), 0);
  }

  lemma OneGrain(n: nat, grain: nat)
    requires 0 < n
    ensures grain <= n * grain
  {
    assert n * grain == grain + (n - 1) * grain;
  }

  lemma WholeGrains(n: nat, len: nat, grain: nat)
    requires 0 < grain && n <= len / grain
    ensures n * grain <= len
  {
    var rest := len / grain - n;
    assert len == grain * (len / grain) + len % grain;
    assert grain * (len / grain) == grain * n + grain * rest;
  }

  /** Some whole grains make up all the bytes exactly when they are all the grains and nothing is left over. */
  lemma AllGrains(n: nat, len: nat, grain: nat)
    requires 0 < grain && n <= len / grain
    ensures n * grain == len <==> len % grain == 0 && n == len / grain
  {
    var rest := len / grain - n;
    assert len == grain * (len / grain) + len % grain;
    assert grain * (len / grain) == grain * n + grain * rest;
    if rest > 0 { OneGrain(rest, grain); }
  }

  /** A number's remainder by a product: its last digit by the first factor, the next one by the second. */
  lemma TwoDigits(x: nat, n: nat, limit: nat)
    requires 0 < n && 0 < limit
    ensures x % (n * limit) == n * (x / n % limit) + x % n
  {
    Quotient(x, n);
    Quotient(x / n, limit);
    Digits(n, limit, x / n / limit, x / n % limit, x % n);
  }

  lemma Digits(n: nat, limit: nat, d: nat, t: nat, h: nat)
    requires h < n && t < limit
    ensures (n * (limit * d + t) + h) % (n * limit) == n * t + h
  {
    Gap(n, t, limit);
    assert n * (limit * d + t) == n * limit * d + n * t;
    Remainder(n * limit, d, n * t + h);
  }
}
