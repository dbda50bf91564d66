/** The few facts about products that the proofs about proportional shares rest on. */
module Arith {

  function Abs(x: int): nat { if x < 0 then -x else x }

  lemma MulMono(a: int, b: int, c: int)
    requires a <= b && 0 <= c
    ensures a * c <= b * c && c * a <= c * b
  {
    assert (b - a) * c >= 0;
    assert (b - a) * c == b * c - a * c;
  }

  lemma MulStrict(a: int, b: int, c: int)
    requires a < b && 0 < c
    ensures a * c < b * c && c * a < c * b
  {
    MulMono(a + 1, b, c);
    assert (a + 1) * c == a * c + c;
  }

  lemma MulCancel(a: int, b: int, c: int)
    requires 0 < c && c * a <= c * b
    ensures a <= b
  {
    if b < a { MulStrict(b, a, c); }
  }

  lemma MulCancelStrict(a: int, b: int, c: int)
    requires 0 < c && c * a < c * b
    ensures a < b
  {
    if b <= a { MulMono(b, a, c); }
  }

  /** Consecutive multiples are a whole step apart. */
  lemma Gap(w: int, q: int, p: int)
    requires w > 0
    ensures q > p ==> w * q >= w * p + w
  {
    if q > p {
      MulMono(p + 1, q, w);
      assert w * (p + 1) == w * p + w;
    }
  }

  lemma DivMod(r: nat, v: nat, w: int)
    requires w > 0
    ensures w * (r * v / w) + r * v % w == r * v
    ensures 0 <= r * v % w < w
    ensures 0 <= r * v / w
  {
    MulMono(0, r, v);
  }

  lemma Monotone(w: int, q: int, f: int, p: int, g: int)
    requires w > 0 && 0 <= f < w && 0 <= g < w
    requires w * q + f <= w * p + g
    ensures q <= p
    ensures q == p ==> f <= g
  {
    Gap(w, q, p);
  }

  lemma NothingToRound(w: int, p: int)
    requires w > 0 && p >= 0 && Abs(w * p) < w
    ensures p == 0
  {
    Gap(w, p, 0);
  }

  lemma Squeeze(w: int, extra: int, n: int)
    requires w > 0 && extra > 0 && extra >= n >= 0
    ensures w * extra > (w - 1) * n
  {
    MulMono(n, extra, w - 1);
    assert w * extra == (w - 1) * extra + extra;
  }

  /** More than `h` whole requests rounded from `x / w` puts `h` strictly below it. */
  lemma RoundedAbove(w: int, p: int, h: int, x: int)
    requires w > 0 && p > h && Abs(w * p - x) < w
    ensures h * w < x
  {
    Gap(w, p, h);
    assert w * h == h * w;
  }

  /** Taking `h` out of `r` and `o` out of `w`, with `h / o` below `r / w`, raises the ratio. */
  lemma RatioRises(r: int, w: int, o: int, h: int)
    requires r * o - w * h >= 1
    ensures r * (w - o) < (r - h) * w
  {
    assert r * (w - o) == r * w - r * o;
    assert (r - h) * w == r * w - h * w;
    assert w * h == h * w;
  }

  lemma RatioChain(r: int, w: int, r1: int, w1: int, rf: int, wf: int)
    requires w > 0 && w1 > 0 && wf > 0 && r * w1 <= r1 * w && r1 * wf <= rf * w1
    ensures r * wf <= rf * w
  {
    MulMono(r * w1, r1 * w, wf);
    MulMono(r1 * wf, rf * w1, w);
    assert (r * w1) * wf == w1 * (r * wf);
    assert (rf * w1) * w == w1 * (rf * w);
    assert (r1 * w) * wf == (r1 * wf) * w;
    MulCancel(r * wf, rf * w, w1);
  }

  lemma BelowLater(h: int, v: int, r: int, w: int, rf: int, wf: int)
    requires w > 0 && wf > 0 && v >= 0
    requires h * w < r * v && r * wf <= rf * w
    ensures h * wf < rf * v
  {
    MulStrict(h * w, r * v, wf);
    MulMono(r * wf, rf * w, v);
    assert (r * v) * wf == (r * wf) * v;
    assert (h * w) * wf == w * (h * wf);
    assert (rf * w) * v == w * (rf * v);
    MulCancelStrict(h * wf, rf * v, w);
  }
}
