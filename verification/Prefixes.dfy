/** Bit prefixes: the values a decision diagram tests.

    A value of a header field is a signed 64-bit word; a test compares its top
    `len` bits.  `bits` holds those.  A mask may be written with any word that
    starts with them, and the word is kept: two masks that differ only below their
    length test the same, and yet they are two values. */
module Prefixes {

  import opened Wrappers

  const WIDTH: nat := 64

  /** `word` is the word of a mask; a constant has none. */
  datatype Prefix = Prefix(bits: int, len: nat, word: Option<int>)

  /** The test for one exact value. */
  function Full(x: int): Prefix {
    Prefix(x, WIDTH, None)
  }

  /** The two test the same bits. */
  predicate Same(p: Prefix, q: Prefix) {
    p.bits == q.bits && p.len == q.len
  }

  /** Arithmetic shift right: division by two, `k` times, rounding down. */
  function Shr(x: int, k: nat): int
    decreases k
  {
    if k == 0 then x else Shr(x / 2, k - 1)
  }

  /** Every word under `p` is under `q`. */
  predicate Within(p: Prefix, q: Prefix) {
    q.len <= p.len && Shr(p.bits, p.len - q.len) == q.bits
  }

  predicate Matches(x: int, q: Prefix) {
    Within(Full(x), q)
  }

  function Min(a: nat, b: nat): nat {
    if a < b then a else b
  }

  /** The bits of `p` cut to its first `m`. */
  function Cut(p: Prefix, m: nat): int
    requires m <= p.len
  {
    Shr(p.bits, p.len - m)
  }

  /** The order of tests on one field: by common leading bits, and a longer
      prefix before a shorter one that contains it. */
  predicate Before(p: Prefix, q: Prefix) {
    var m := Min(p.len, q.len);
    Cut(p, m) < Cut(q, m) || (Cut(p, m) == Cut(q, m) && p.len > q.len)
  }

  lemma {:induction false} ShrAdd(x: int, j: nat, k: nat)
    ensures Shr(Shr(x, j), k) == Shr(x, j + k)
    decreases j
  {
    if j > 0 {
      ShrAdd(x / 2, j - 1, k);
    }
  }

  lemma {:induction false} ShrMonotone(x: int, y: int, k: nat)
    requires x <= y
    ensures Shr(x, k) <= Shr(y, k)
    decreases k
  {
    if k > 0 {
      ShrMonotone(x / 2, y / 2, k - 1);
    }
  }

  lemma WithinTransitive(p: Prefix, q: Prefix, r: Prefix)
    requires Within(p, q) && Within(q, r)
    ensures Within(p, r)
  {
    ShrAdd(p.bits, p.len - q.len, q.len - r.len);
  }

  /** Two prefixes that share a word are nested. */
  lemma Laminar(p: Prefix, q: Prefix, r: Prefix)
    requires Within(p, q) && Within(p, r)
    ensures Within(q, r) || Within(r, q)
  {
    if r.len <= q.len {
      ShrAdd(p.bits, p.len - q.len, q.len - r.len);
    } else {
      ShrAdd(p.bits, p.len - r.len, r.len - q.len);
    }
  }

  lemma CutCut(p: Prefix, m: nat, n: nat)
    requires n <= m <= p.len
    ensures Shr(Cut(p, m), m - n) == Cut(p, n)
  {
    ShrAdd(p.bits, p.len - m, m - n);
  }

  lemma CutMonotone(p: Prefix, q: Prefix, m: nat, n: nat)
    requires n <= m <= p.len && m <= q.len
    requires Cut(p, m) <= Cut(q, m)
    ensures Cut(p, n) <= Cut(q, n)
  {
    CutCut(p, m, n);
    CutCut(q, m, n);
    ShrMonotone(Cut(p, m), Cut(q, m), m - n);
  }

  lemma BeforeTransitive(p: Prefix, q: Prefix, r: Prefix)
    requires Before(p, q) && Before(q, r)
    ensures Before(p, r)
  {
    var m := Min(p.len, Min(q.len, r.len));
    CutMonotone(p, q, Min(p.len, q.len), m);
    CutMonotone(q, r, Min(q.len, r.len), m);
    if Cut(r, Min(p.len, r.len)) <= Cut(p, Min(p.len, r.len)) {
      CutMonotone(r, p, Min(p.len, r.len), m);
    }
  }

  /** What decision diagrams need of the values they test. */
  lemma OrderFacts()
    ensures forall p, q {:trigger Before(p, q)} :: Same(p, q) || Before(p, q) || Before(q, p)
    ensures forall p, q {:trigger Before(p, q)} :: Before(p, q) ==> !Same(p, q) && !Before(q, p)
    ensures forall p, q, r {:trigger Same(p, q), Before(p, r)} :: Same(p, q) ==> Before(p, r) == Before(q, r)
    ensures forall p, q, r {:trigger Same(p, q), Within(r, p)} :: Same(p, q) ==> Within(r, p) == Within(r, q)
    ensures forall p, q, r {:trigger Before(p, q), Before(q, r)} :: Before(p, q) && Before(q, r) ==> Before(p, r)
    ensures forall p, q {:trigger Within(p, q)} :: Within(p, q) ==> Same(p, q) || Before(p, q)
    ensures forall p, q, r {:trigger Within(p, q), Within(q, r)} :: Within(p, q) && Within(q, r) ==> Within(p, r)
    ensures forall p, q, r {:trigger Within(p, q), Within(p, r)} :: Within(p, q) && Within(p, r) ==>
            Within(q, r) || Within(r, q)
    ensures forall p {:trigger Within(p, p)} :: Within(p, p)
  {
    forall p, q, r | Before(p, q) && Before(q, r) ensures Before(p, r) { BeforeTransitive(p, q, r); }
    forall p, q, r | Within(p, q) && Within(q, r) ensures Within(p, r) { WithinTransitive(p, q, r); }
    forall p, q, r | Within(p, q) && Within(p, r) ensures Within(q, r) || Within(r, q) { Laminar(p, q, r); }
  }
}
