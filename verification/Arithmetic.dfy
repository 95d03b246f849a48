/** Ring arithmetic by repeated addition and subtraction, with its link to multiplication. */
module Arithmetic {
  import opened Disk

  predicate Distinct(s: seq<nat>) {
    forall i, j :: 0 <= i < j < |s| ==> s[i] != s[j]
  }

  lemma {:induction false} CapIsProduct(n: nat, e: Pos)
    ensures Cap(n, e) == n * e
  {
    if n != 0 {
      CapIsProduct(n - 1, e);
    }
  }

  /** `Wrap(v, cap)` is below `cap` and differs from `v` by a multiple of `cap`. */
  lemma {:induction false} WrapIsRemainder(v: nat, cap: Pos) returns (q: nat)
    ensures v == q * cap + Wrap(v, cap)
  {
    q := 0;
    if v >= cap {
      var k := WrapIsRemainder(v - cap, cap);
      q := k + 1;
    }
  }

  lemma {:induction false} CapAdd(a: nat, b: nat, e: Pos)
    ensures Cap(a + b, e) == Cap(a, e) + Cap(b, e)
    ensures 0 < a ==> 0 < Cap(a, e)
  {
    if a != 0 {
      CapAdd(a - 1, b, e);
      assert a + b - 1 == a - 1 + b;
    }
  }

  lemma {:induction false} WrapDistinct(v: nat, w: nat, cap: Pos)
    requires v < w < v + cap
    ensures Wrap(v, cap) != Wrap(w, cap)
  {
    if cap <= v {
      WrapDistinct(v - cap, w - cap, cap);
    }
  }

  /** Under a doubled capacity a version keeps its position or moves up by the old capacity. */
  lemma {:induction false} WrapDouble(v: nat, cap: Pos)
    ensures Wrap(v, 2 * cap) == Wrap(v, cap) || Wrap(v, 2 * cap) == Wrap(v, cap) + cap
  {
    if 2 * cap <= v {
      WrapDouble(v - 2 * cap, cap);
      assert Wrap(v, cap) == Wrap(v - cap, cap) == Wrap(v - cap - cap, cap);
    }
  }

  // ---------------------------------------------------------------- positions

  lemma {:induction false} LocateHead(slots: seq<nat>, e: Pos, h: nat, p: nat)
    requires h <= |slots| && p < Cap(h, e)
    ensures Locate(slots, e, p) == Locate(slots[..h], e, p)
    ensures Locate(slots, e, p).0 in slots[..h]
  {
    if e <= p {
      LocateHead(slots[1..], e, h - 1, p - e);
      assert slots[..h][1..] == slots[1..][..h - 1];
    }
  }

  lemma {:induction false} LocateTail(slots: seq<nat>, e: Pos, h: nat, p: nat)
    requires h <= |slots| && Cap(h, e) <= p
    ensures Locate(slots, e, p) == Locate(slots[h..], e, p - Cap(h, e))
  {
    if h == 0 {
      assert slots[0..] == slots;
    } else {
      LocateTail(slots[1..], e, h - 1, p - e);
      assert slots[1..][h - 1..] == slots[h..];
    }
  }

  lemma LocateInTail(slots: seq<nat>, e: Pos, h: nat, p: nat)
    requires h <= |slots| && Cap(h, e) <= p < Cap(|slots|, e)
    ensures Locate(slots, e, p).0 in slots[h..]
  {
    LocateTail(slots, e, h, p);
    CapAdd(h, |slots| - h, e);
    LocateHead(slots[h..], e, |slots| - h, p - Cap(h, e));
    assert slots[h..][..|slots| - h] == slots[h..];
  }

  lemma {:induction false} LocateInjective(slots: seq<nat>, e: Pos, p: nat, q: nat)
    requires Distinct(slots) && p < q < Cap(|slots|, e)
    ensures Locate(slots, e, p) != Locate(slots, e, q)
  {
    if p < e <= q {
      LocateHead(slots[1..], e, |slots| - 1, q - e);
      assert slots[1..][..|slots| - 1] == slots[1..];
    } else if e <= p {
      LocateInjective(slots[1..], e, p - e, q - e);
    }
  }

  lemma LocateDiffer(slots: seq<nat>, e: Pos, p: nat, q: nat)
    requires Distinct(slots) && p != q && p < Cap(|slots|, e) && q < Cap(|slots|, e)
    ensures Locate(slots, e, p) != Locate(slots, e, q)
  {
    if p < q { LocateInjective(slots, e, p, q); } else { LocateInjective(slots, e, q, p); }
  }
}
