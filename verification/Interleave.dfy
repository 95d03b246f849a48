/**
 Spreading the sequential chunks of several devices evenly over one list of chunks.  The
 floating-point credits of the loop are modelled as real numbers.
 */
module Interleave {

  function Sum(s: seq<nat>): nat {
    if s == [] then 0 else Sum(s[..|s| - 1]) + s[|s| - 1]
  }

  lemma {:induction false} SumPut(s: seq<nat>, n: nat, x: nat)
    requires n < |s|
    ensures Sum(s[n := x]) == Sum(s) - s[n] + x
    decreases |s|
  {
    var last := |s| - 1;
    if n == last {
      assert s[n := x][..last] == s[..last];
    } else {
      SumPut(s[..last], n, x);
      assert s[n := x][..last] == s[..last][n := x];
    }
  }

  lemma {:induction false} SumOrder(s: seq<nat>, t: seq<nat>)
    requires |s| == |t| && forall n :: 0 <= n < |s| ==> s[n] <= t[n]
    ensures Sum(s) <= Sum(t)
    ensures (exists n :: 0 <= n < |s| && s[n] < t[n]) ==> Sum(s) < Sum(t)
    decreases |s|
  {
    if s != [] {
      var last := |s| - 1;
      SumOrder(s[..last], t[..last]);
      if n :| 0 <= n < last && s[n] < t[n] {
        assert s[..last][n] < t[..last][n];
      }
    }
  }

  lemma {:induction false} SumZero(n: nat)
    ensures Sum(seq(n, _ => 0)) == 0
  {
    if n != 0 {
      SumZero(n - 1);
      assert seq(n, _ => 0)[..n - 1] == seq(n - 1, _ => 0);
    }
  }

  lemma {:induction false} SumMember(s: seq<nat>, n: nat)
    requires n < |s|
    ensures s[n] <= Sum(s)
    decreases |s|
  {
    if n < |s| - 1 {
      SumMember(s[..|s| - 1], n);
    }
  }

  // ---------------------------------------------------------------- what a device is due

  /** The product, by repeated addition. */
  function Times(a: nat, b: nat): nat {
    if b == 0 then 0 else Times(a, b - 1) + a
  }

  lemma {:induction false} TimesIsProduct(a: nat, b: nat)
    ensures Times(a, b) == a * b
  {
    if b != 0 {
      TimesIsProduct(a, b - 1);
    }
  }

  lemma TimesOrder(a: nat, x: nat, y: nat)
    requires x <= y
    ensures Times(a, x) <= Times(a, y)
  {
    TimesIsProduct(a, x);
    TimesIsProduct(a, y);
  }

  lemma TimesSwap(a: nat, b: nat)
    ensures Times(a, b) == Times(b, a)
  {
    TimesIsProduct(a, b);
    TimesIsProduct(b, a);
  }

  /** After `p` rounds a device with `c` of `total` chunks has contributed `e`: for p > 0 this is
      the quotient p * c / total, rounded up, less one. */
  predicate Share(c: nat, total: nat, p: nat, e: nat) {
    if p == 0 then e == 0 else Times(total, e) < Times(c, p) <= Times(total, e + 1)
  }

  lemma ShareIsQuotient(c: nat, total: nat, p: nat, e: nat)
    requires p > 0 && total > 0 && c > 0
    ensures Share(c, total, p, e) <==> e == (p * c + total - 1) / total - 1
  {
    TimesIsProduct(total, e);
    TimesIsProduct(total, e + 1);
    TimesIsProduct(c, p);
    var x := p * c;
    QuotientIs(x, total, e);
    assert total * (e + 1) == total * e + total;
  }

  /** Rounding up, less one, is rounding down from one less. */
  lemma QuotientIs(x: nat, total: nat, e: nat)
    requires x > 0 && total > 0
    ensures total * e < x <= total * e + total <==> e == (x + total - 1) / total - 1
  {
    var y := x + total - 1;
    var q := y / total;
    assert y == total * q + y % total;
    assert total * q <= y < total * q + total;
    if total * e < x <= total * e + total {
      if q < e + 1 {
        MulOrder(total, q + 1, e + 1);
      } else if q > e + 1 {
        MulOrder(total, e + 2, q);
      }
    }
  }

  lemma MulOrder(a: nat, x: nat, y: nat)
    requires x <= y
    ensures a * x <= a * y
  {
  }

  lemma ShareStep(c: nat, total: nat, p: nat, e: nat)
    requires 1 <= c <= total && Share(c, total, p, e)
    ensures Share(c, total, p + 1, if Times(total, 1 + e) < Times(c, p + 1) then e + 1 else e)
  {
  }

  /** Up to round `total` one chunk is always held back, at round `total` exactly one, in the next round none. */
  lemma ShareBounds(c: nat, total: nat, p: nat, e: nat)
    requires 1 <= c <= total && Share(c, total, p, e)
    ensures p <= total ==> e < c
    ensures p == total ==> e == c - 1
    ensures p == total + 1 ==> e == c
  {
    TimesSwap(total, c);
    if c <= e {
      TimesOrder(total, c, e);
    }
    if c < e {
      TimesOrder(total, c + 1, e);
    }
    if e + 1 < c {
      TimesOrder(total, e + 1, c - 1);
    }
    if p <= total {
      TimesOrder(c, p, total);
    } else {
      TimesOrder(c, total + 1, p);
    }
  }

  // ---------------------------------------------------------------- credits

  /** A credit added `c` times. */
  function Scaled(x: real, c: nat): real {
    if c == 0 then 0.0 else Scaled(x, c - 1) + x
  }

  lemma {:induction false} ScaledIsProduct(x: real, c: nat)
    ensures Scaled(x, c) == x * c as real
  {
    if c != 0 {
      ScaledIsProduct(x, c - 1);
      assert x * c as real == x * (c - 1) as real + x;
    }
  }

  lemma {:induction false} ScaledAdd(x: real, y: real, c: nat)
    ensures Scaled(x + y, c) == Scaled(x, c) + Scaled(y, c)
  {
    if c != 0 {
      ScaledAdd(x, y, c - 1);
    }
  }

  lemma {:induction false} ScaledSign(x: real, c: nat)
    requires c > 0
    ensures x < 0.0 <==> Scaled(x, c) < 0.0
  {
    if c > 1 {
      ScaledSign(x, c - 1);
    }
  }

  lemma {:induction false} ScaledOne(c: nat)
    ensures Scaled(-1.0, c) == -(c as real)
  {
    if c != 0 {
      ScaledOne(c - 1);
    }
  }

  /** The chunk ratio of a device. */
  function Ratio(c: nat, total: nat): real
    requires c > 0
  {
    total as real / c as real
  }

  lemma RatioScaled(c: nat, total: nat)
    requires c > 0
    ensures Scaled(Ratio(c, total), c) == total as real
  {
    ScaledIsProduct(Ratio(c, total), c);
  }

  /** The credit of a device times its chunks, in whole numbers. */
  predicate Credit(c: nat, total: nat, p: nat, e: nat, count: real) {
    Scaled(count, c) == Times(total, 1 + e) as real - Times(c, p) as real
  }

  lemma CreditSpend(c: nat, total: nat, p: nat, e: nat, count: real)
    requires c > 0 && Credit(c, total, p, e, count)
    ensures Credit(c, total, p + 1, e, count - 1.0)
    ensures count - 1.0 < 0.0 <==> Times(total, 1 + e) < Times(c, p + 1)
  {
    ScaledAdd(count, -1.0, c);
    ScaledOne(c);
    ScaledSign(count - 1.0, c);
    assert count + -1.0 == count - 1.0;
  }

  lemma CreditEarn(c: nat, total: nat, p: nat, e: nat, count: real)
    requires c > 0 && Credit(c, total, p, e, count)
    ensures Credit(c, total, p, e + 1, count + Ratio(c, total))
  {
    ScaledAdd(count, Ratio(c, total), c);
    RatioScaled(c, total);
  }

  // ---------------------------------------------------------------- the list

  /** A chunk of the list: its device and its number on that device. */
  type Chunk = (nat, nat)

  function Count(out: seq<Chunk>, n: nat): nat {
    if out == [] then 0 else Count(out[..|out| - 1], n) + if out[|out| - 1].0 == n then 1 else 0
  }

  /** Every device contributes its chunks in order, from `first` on, none twice and none left out. */
  predicate InOrder(out: seq<Chunk>, first: nat) {
    out == [] ||
    (InOrder(out[..|out| - 1], first) && out[|out| - 1].1 == first + Count(out[..|out| - 1], out[|out| - 1].0))
  }

  lemma {:induction false} InOrderMeaning(out: seq<Chunk>, first: nat, i: nat)
    requires InOrder(out, first) && i < |out|
    ensures out[i].1 == first + Count(out[..i], out[i].0)
    decreases |out|
  {
    if i < |out| - 1 {
      InOrderMeaning(out[..|out| - 1], first, i);
      assert out[..|out| - 1][..i] == out[..i];
    }
  }

  lemma Append(out: seq<Chunk>, first: nat, n: nat)
    requires InOrder(out, first)
    ensures InOrder(out + [(n, first + Count(out, n))], first)
    ensures forall m :: Count(out + [(n, first + Count(out, n))], m) == Count(out, m) + if m == n then 1 else 0
  {
    var out' := out + [(n, first + Count(out, n))];
    assert out'[..|out|] == out;
  }

  /** What the counters mean: device `m` has taken part in `p + 1` rounds if it comes before `n`, else in `p`. */
  ghost predicate InRound(c: seq<nat>, total: nat, first: nat, p: nat, n: nat, e: seq<nat>, counts: seq<real>,
                          next: seq<nat>, out: seq<Chunk>) {
    && |c| == |e| == |counts| == |next| && n <= |c|
    && (forall m :: 0 <= m < |c| ==> 1 <= c[m] <= total)
    && (forall m :: 0 <= m < |c| ==> DeviceOk(c[m], total, if m < n then p + 1 else p, e[m], counts[m]))
    && (forall m :: 0 <= m < |c| ==> e[m] == Count(out, m) && next[m] == first + e[m])
    && InOrder(out, first) && |out| == Sum(e)
  }

  predicate DeviceOk(c: nat, total: nat, p: nat, e: nat, count: real)
    requires c > 0
  {
    Share(c, total, p, e) && Credit(c, total, p, e, count)
  }

  /** One device in one round. */
  lemma TurnDevice(c: nat, total: nat, p: nat, e: nat, count: real)
    requires 1 <= c <= total && DeviceOk(c, total, p, e, count)
    ensures count - 1.0 < 0.0 ==> DeviceOk(c, total, p + 1, e + 1, count - 1.0 + Ratio(c, total))
    ensures !(count - 1.0 < 0.0) ==> DeviceOk(c, total, p + 1, e, count - 1.0)
  {
    ShareStep(c, total, p, e);
    CreditSpend(c, total, p, e, count);
    CreditEarn(c, total, p + 1, e, count - 1.0);
  }

  lemma TurnSkips(c: seq<nat>, total: nat, first: nat, p: nat, n: nat, e: seq<nat>, counts: seq<real>, next: seq<nat>,
                  out: seq<Chunk>)
    requires InRound(c, total, first, p, n, e, counts, next, out) && n < |c| && counts[n] - 1.0 >= 0.0
    ensures InRound(c, total, first, p, n + 1, e, counts[n := counts[n] - 1.0], next, out)
  {
    TurnDevice(c[n], total, p, e[n], counts[n]);
  }

  lemma TurnEmits(c: seq<nat>, total: nat, first: nat, p: nat, n: nat, e: seq<nat>, counts: seq<real>, next: seq<nat>,
                  out: seq<Chunk>,
                  count: real)
    requires InRound(c, total, first, p, n, e, counts, next, out) && n < |c| && counts[n] - 1.0 < 0.0
    requires count == counts[n] - 1.0 + Ratio(c[n], total)
    ensures InRound(c, total, first, p, n + 1, e[n := e[n] + 1], counts[n := count], next[n := next[n] + 1],
                    out + [(n, next[n])])
  {
    TurnDevice(c[n], total, p, e[n], counts[n]);
    SumPut(e, n, e[n] + 1);
    Append(out, first, n);
  }

  /** The list is full exactly when every device has had its turn in round `total + 1`. */
  lemma FullIff(c: seq<nat>, total: nat, first: nat, p: nat, n: nat, e: seq<nat>, counts: seq<real>, next: seq<nat>,
                out: seq<Chunk>)
    requires InRound(c, total, first, p, n, e, counts, next, out) && total == Sum(c) && p <= total
    ensures |out| <= total && (|out| == total <==> p == total && n == |c|)
    ensures |out| == total ==> e == c
  {
    forall m | 0 <= m < |c|
      ensures e[m] <= c[m]
      ensures e[m] < c[m] <==> !(p == total && m < n)
    {
      assert DeviceOk(c[m], total, if m < n then p + 1 else p, e[m], counts[m]);
      ShareBounds(c[m], total, if m < n then p + 1 else p, e[m]);
    }
    SumOrder(e, c);
    if p == total && n == |c| {
      assert e == c;
    } else if |c| > 0 {
      assert e[|c| - 1] < c[|c| - 1];
    }
  }

  /** After each round so far every device had contributed its share. */
  ghost predicate Marked(c: seq<nat>, total: nat, out: seq<Chunk>, marks: seq<nat>) {
    forall p :: 0 <= p < |marks| ==> MarkOk(c, total, out, p, marks[p])
  }

  ghost predicate MarkOk(c: seq<nat>, total: nat, out: seq<Chunk>, p: nat, mark: nat) {
    mark <= |out| && forall m :: 0 <= m < |c| ==> Share(c[m], total, p, Count(out[..mark], m))
  }

  lemma MarkGrows(c: seq<nat>, total: nat, before: seq<Chunk>, out: seq<Chunk>, p: nat, mark: nat)
    requires MarkOk(c, total, before, p, mark) && before <= out
    ensures MarkOk(c, total, out, p, mark)
  {
    assert out[..mark] == before[..mark];
  }

  lemma MarkRound(c: seq<nat>, total: nat, first: nat, before: seq<Chunk>, out: seq<Chunk>, marks: seq<nat>,
                  e: seq<nat>, counts: seq<real>, next: seq<nat>)
    requires Marked(c, total, before, marks) && before <= out
    requires InRound(c, total, first, |marks|, 0, e, counts, next, out)
    ensures Marked(c, total, out, marks + [|out|])
  {
    forall p | 0 <= p < |marks| ensures MarkOk(c, total, out, p, marks[p]) {
      MarkGrows(c, total, before, out, p, marks[p]);
    }
    forall m | 0 <= m < |c| ensures Share(c[m], total, |marks|, Count(out[..|out|], m)) {
      assert out[..|out|] == out;
      assert DeviceOk(c[m], total, |marks|, e[m], counts[m]);
    }
  }

  /** One device's turn: it spends a credit and, when it has none left, contributes its next chunk. */
  method TakeTurn(c: seq<nat>, total: nat, first: nat, ratio: real, ghost p: nat, n: nat,
                  ghost e0: seq<nat>, counts0: seq<real>, next0: seq<nat>, out0: seq<Chunk>)
    returns (ghost e: seq<nat>, counts: seq<real>, next: seq<nat>, out: seq<Chunk>)
    requires InRound(c, total, first, p, n, e0, counts0, next0, out0) && n < |c| && ratio == Ratio(c[n], total)
    ensures InRound(c, total, first, p, n + 1, e, counts, next, out) && out0 <= out
    ensures |out| <= |out0| + 1 && (|out| > |out0| ==> out[|out0|].0 == n)
  {
    var count := counts0[n] - 1.0;
    if count < 0.0 {
      TurnEmits(c, total, first, p, n, e0, counts0, next0, out0, count + ratio);
      out := out0 + [(n, next0[n])];
      next := next0[n := next0[n] + 1];
      counts := counts0[n := count + ratio];
      e := e0[n := e0[n] + 1];
    } else {
      TurnSkips(c, total, first, p, n, e0, counts0, next0, out0);
      e, next, out := e0, next0, out0;
      counts := counts0[n := count];
    }
  }

  /** The devices ascend from one place of the list to another. */
  predicate Ascends(out: seq<Chunk>, from: nat, to: nat)
    requires to <= |out|
  {
    forall i, j :: from <= i < j < to ==> out[i].0 < out[j].0
  }

  /** From a place of the list on there are ascending devices below `n`. */
  predicate InTurn(out: seq<Chunk>, from: nat, n: nat) {
    Ascends(out, from, |out|) && forall i :: from <= i < |out| ==> out[i].0 < n
  }

  lemma TurnAscends(before: seq<Chunk>, out: seq<Chunk>, from: nat, n: nat)
    requires InTurn(before, from, n) && before <= out && |out| <= |before| + 1
    requires |out| > |before| ==> out[|before|].0 == n
    ensures InTurn(out, from, n + 1)
  {
    assert forall i :: 0 <= i < |before| ==> out[i] == before[i];
  }

  /** In each round the devices come in their order, each at most once. */
  predicate RoundsAscend(out: seq<Chunk>, marks: seq<nat>) {
    forall p :: 0 < p < |marks| ==> marks[p - 1] <= marks[p] <= |out| && Ascends(out, marks[p - 1], marks[p])
  }

  lemma RoundAscends(before: seq<Chunk>, out: seq<Chunk>, marks: seq<nat>)
    requires before <= out && marks != [] && marks[|marks| - 1] == |before| && RoundsAscend(before, marks)
    requires Ascends(out, |before|, |out|)
    ensures RoundsAscend(out, marks + [|out|])
  {
    var more := marks + [|out|];
    forall p | 0 < p < |more| ensures more[p - 1] <= more[p] <= |out| && Ascends(out, more[p - 1], more[p]) {
      if p < |marks| {
        assert Ascends(before, marks[p - 1], marks[p]);
      }
    }
  }

  /** One round of the loop: every device in turn, until the list is full. */
  method Round(c: seq<nat>, total: nat, first: nat, ratios: seq<real>, ghost p: nat,
               ghost e0: seq<nat>, counts0: seq<real>, next0: seq<nat>, out0: seq<Chunk>)
    returns (ghost e: seq<nat>, counts: seq<real>, next: seq<nat>, out: seq<Chunk>)
    requires InRound(c, total, first, p, 0, e0, counts0, next0, out0) && total == Sum(c) && p <= total && c != []
    requires |ratios| == |c| && forall m :: 0 <= m < |c| ==> ratios[m] == Ratio(c[m], total)
    ensures InRound(c, total, first, p + 1, 0, e, counts, next, out) && out0 <= out
    ensures |out| <= total && (|out| == total <==> p == total) && (|out| == total ==> e == c)
    ensures Ascends(out, |out0|, |out|)
  {
    e, counts, next, out := e0, counts0, next0, out0;
    var n := 0;
    while n < |c|
      invariant n <= |c| && InRound(c, total, first, p, n, e, counts, next, out) && out0 <= out
      invariant InTurn(out, |out0|, n)
    {
      ghost var before := out;
      e, counts, next, out := TakeTurn(c, total, first, ratios[n], p, n, e, counts, next, out);
      TurnAscends(before, out, |out0|, n);
      FullIff(c, total, first, p, n + 1, e, counts, next, out);
      n := n + 1;
      if |out| == total {
        break;
      }
    }
    FullIff(c, total, first, p, n, e, counts, next, out);
    RoundOver(c, total, first, p, e, counts, next, out);
  }

  /** The loop: it ends after `total + 1` rounds with every device's chunks, and after any `p` rounds device `m` has
      contributed its share.  `marks[p]` is the length of the list after `p` rounds. */
  method InterleaveEvenly(c: seq<nat>, first: nat) returns (out: seq<Chunk>, rounds: nat, ghost marks: seq<nat>)
    requires c != [] && forall m :: 0 <= m < |c| ==> c[m] >= 1
    ensures |out| == Sum(c) && rounds == Sum(c) + 1
    ensures InOrder(out, first) && forall m :: 0 <= m < |c| ==> Count(out, m) == c[m]
    ensures |marks| == rounds + 1 && marks[rounds] == |out| && Marked(c, Sum(c), out, marks)
    ensures marks[0] == 0 && RoundsAscend(out, marks)
  {
    var total := Sum(c);
    ghost var e: seq<nat>;
    var ratios, counts, next;
    ratios, counts, next, e := Start(c, total, first);
    out, rounds, marks := [], 0, [0];
    assert MarkOk(c, total, [], 0, 0);
    while |out| < total
      invariant Looping(c, total, first, rounds, e, counts, next, out, marks)
      invariant marks[0] == 0 && RoundsAscend(out, marks)
      decreases total + 1 - rounds
    {
      ghost var before := out;
      e, counts, next, out := Round(c, total, first, ratios, rounds, e, counts, next, out);
      RoundMarked(c, total, first, rounds, before, e, counts, next, out, marks);
      RoundAscends(before, out, marks);
      rounds := rounds + 1;
      marks := marks + [|out|];
    }
    Ended(c, total, first, rounds, e, counts, next, out);
  }

  /** Between rounds: the list is full exactly after round `total + 1`. */
  ghost predicate Looping(c: seq<nat>, total: nat, first: nat, rounds: nat, e: seq<nat>, counts: seq<real>,
                          next: seq<nat>,
                          out: seq<Chunk>, marks: seq<nat>)
  {
    && InRound(c, total, first, rounds, 0, e, counts, next, out)
    && |out| <= total && rounds <= total + 1 && (rounds == total + 1 <==> |out| == total) && (|out| == total ==> e == c)
    && |marks| == rounds + 1 && marks[rounds] == |out| && Marked(c, total, out, marks)
  }

  lemma RoundMarked(c: seq<nat>, total: nat, first: nat, p: nat, before: seq<Chunk>, e: seq<nat>, counts: seq<real>,
                    next: seq<nat>,
                    out: seq<Chunk>, marks: seq<nat>)
    requires |marks| == p + 1 && p <= total && Marked(c, total, before, marks) && before <= out
    requires InRound(c, total, first, p + 1, 0, e, counts, next, out)
    requires |out| <= total && (|out| == total <==> p == total) && (|out| == total ==> e == c)
    ensures Looping(c, total, first, p + 1, e, counts, next, out, marks + [|out|])
  {
    MarkRound(c, total, first, before, out, marks, e, counts, next);
  }

  lemma Ended(c: seq<nat>, total: nat, first: nat, p: nat, e: seq<nat>, counts: seq<real>, next: seq<nat>,
              out: seq<Chunk>)
    requires InRound(c, total, first, p, 0, e, counts, next, out) && e == c
    ensures InOrder(out, first) && forall m :: 0 <= m < |c| ==> Count(out, m) == c[m]
  {
  }

  lemma RoundOver(c: seq<nat>, total: nat, first: nat, p: nat, e: seq<nat>, counts: seq<real>, next: seq<nat>,
                  out: seq<Chunk>)
    requires InRound(c, total, first, p, |c|, e, counts, next, out)
    ensures InRound(c, total, first, p + 1, 0, e, counts, next, out)
  {
  }

  method Start(c: seq<nat>, total: nat, first: nat)
    returns (ratios: seq<real>, counts: seq<real>, next: seq<nat>, ghost e: seq<nat>)
    requires total == Sum(c) && c != [] && forall m :: 0 <= m < |c| ==> c[m] >= 1
    ensures |ratios| == |c| && forall m :: 0 <= m < |c| ==> ratios[m] == Ratio(c[m], total)
    ensures InRound(c, total, first, 0, 0, e, counts, next, []) && total > 0
  {
    ratios := seq(|c|, m requires 0 <= m < |c| => Ratio(c[m], total));
    counts := ratios;
    next := seq(|c|, _ => first);
    e := seq(|c|, _ => 0);
    SumZero(|c|);
    SumMember(c, 0);
    forall m | 0 <= m < |c| ensures c[m] <= total && DeviceOk(c[m], total, 0, 0, counts[m]) {
      SumMember(c, m);
      RatioScaled(c[m], total);
    }
  }
}
