/** Fixed-width integer views and the small value types every other module shares. */
module Types {

  const INT32_MAX := 0x7FFF_FFFF
  const UINT32_SIZE := 0x1_0000_0000

  // One 8-byte command (struct data_chunk).
  datatype Chunk = Chunk(data: seq<int>)

  datatype Option<+T> = None | Some(value: T)

  // The value a signed 32-bit quantity has once the source compares it as uint32_t.
  function ToU32(x: int): (u: nat)
    ensures u < UINT32_SIZE
    ensures 0 <= x < UINT32_SIZE ==> u == x
  {
    x % UINT32_SIZE
  }

  function Max(a: int, b: int): int {
    if a < b then b else a
  }

  function Min(a: int, b: int): int {
    if a < b then a else b
  }

  // x % w for an unsigned x, by repeated subtraction; RemainderIsMod ties it to `%`.
  function Remainder(x: nat, w: nat): (r: nat)
    requires w > 0
    ensures r < w
    decreases x
  {
    if x < w then x else Remainder(x - w, w)
  }

  lemma {:induction false} RemainderIsMod(x: nat, w: nat)
    requires w > 0
    ensures Remainder(x, w) == x % w
    decreases x
  {
    if x >= w {
      RemainderIsMod(x - w, w);
      var q, r := (x - w) / w, (x - w) % w;
      assert x == (q + 1) * w + r;
      DivModUnique(x, w, q + 1, r);
    }
  }

  // Fewer than `w` apart, two numbers with the same remainder are the same.
  lemma {:induction false} RemainderInjective(j: nat, k: nat, w: nat)
    requires w > 0 && j < k + w && k < j + w && Remainder(j, w) == Remainder(k, w)
    ensures j == k
    decreases j
  {
    if j >= w && k >= w {
      RemainderInjective(j - w, k - w, w);
    }
  }

  // ---------- multiplication and division ----------

  lemma MulGrows(d: int, w: int)
    requires d >= 1 && w >= 0
    ensures d * w >= w
  {
    if d > 1 {
      MulGrows(d - 1, w);
      assert d * w == (d - 1) * w + w;
    }
  }

  lemma SmallMultipleIsZero(d: int, w: int)
    requires -w < d * w < w
    ensures d == 0
  {
    if d >= 1 {
      MulGrows(d, w);
    } else if d <= -1 {
      assert (-d) * w == -(d * w);
      MulGrows(-d, w);
    }
  }

  // Quotient and remainder are determined by the division equation.
  lemma DivModUnique(x: int, w: int, q: int, r: int)
    requires 0 <= r < w && x == q * w + r
    ensures x / w == q && x % w == r
  {
    var q', r' := x / w, x % w;
    assert x == q' * w + r';
    assert (q' - q) * w == q' * w - q * w;
    SmallMultipleIsZero(q' - q, w);
  }
}
