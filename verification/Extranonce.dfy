/**
  Nonce-prefix assignment (bridge/src/client_handler.rs, `next_extranonce_prefix`): one
  rotating counter per prefix width, so that connected rigs search disjoint nonce ranges.
 */
module Extranonce {
  import opened Hex

  function Clamp(width: nat): (w: nat)
    ensures 1 <= w <= 3 && (1 <= width <= 3 ==> w == width) && (width < 1 ==> w == 1) && (width > 3 ==> w == 3)
  {
    if width < 1 then 1 else if width > 3 then 3 else width
  }

  function MaxPrefix(w: nat): nat {
    Pow256(w) - 1
  }

  /** The rotation of one counter. */
  function Rotate(value: nat, max: nat): nat {
    if value < max then value + 1 else 0
  }

  class PrefixCounters {
    /** Indexed by width; slot 0 is never used. */
    var next: array<nat>

    ghost predicate Valid()
      reads this, next
    {
      next.Length == 4 && forall w :: 1 <= w <= 3 ==> next[w] <= MaxPrefix(w)
    }

    constructor ()
      ensures Valid() && fresh(next) && forall w :: 0 <= w < 4 ==> next[w] == 0
    {
      next := new nat[4](_ => 0);
    }

    method NextPrefix(width: nat) returns (hex: string, value: nat, wrapped: bool)
      requires Valid()
      modifies next
      ensures Valid()
      ensures var w := Clamp(width);
              && value == old(next[w]) && next[w] == Rotate(value, MaxPrefix(w))
              && hex == Padded(value, 2 * w) && |hex| == 2 * w
              && (wrapped <==> next[w] == 0)
      ensures |hex| == if width == 0 then 2 else if width <= 3 then 2 * width else 6
      ensures forall v :: 0 <= v < 4 && v != Clamp(width) ==> next[v] == old(next[v])
    {
      var w := Clamp(width);
      value := next[w];
      next[w] := if value < MaxPrefix(w) then value + 1 else 0;
      wrapped := value >= MaxPrefix(w);
      hex := Padded(value, 2 * w);
      WidthFits(w);
      PaddedLength(value, 2 * w);
    }
  }

  lemma WidthFits(w: nat)
    requires 1 <= w <= 3
    ensures Pow256(w) == Pow16(2 * w)
  {
    assert Pow256(2) == 256 * 256 && Pow256(3) == 256 * 256 * 256;
    assert Pow16(2) == 256 && Pow16(4) == 256 * Pow16(2) && Pow16(6) == 256 * Pow16(4);
  }

  // ---------- runs over mixed widths ----------

  /** Width `w`'s counter before call `j` of a run of requested widths. */
  function CounterAt(widths: seq<nat>, w: nat, j: nat): nat
    requires j <= |widths|
  {
    if j == 0 then 0
    else if Clamp(widths[j - 1]) == w then Rotate(CounterAt(widths, w, j - 1), MaxPrefix(w))
    else CounterAt(widths, w, j - 1)
  }

  /** How many width-`w` prefixes calls `i .. j` hand out. */
  function Handed(widths: seq<nat>, w: nat, i: nat, j: nat): nat
    requires i <= j <= |widths|
    decreases j
  {
    if i == j then 0 else Handed(widths, w, i, j - 1) + (if Clamp(widths[j - 1]) == w then 1 else 0)
  }

  /** The prefix call `j` hands out. */
  function PrefixAt(widths: seq<nat>, j: nat): string
    requires j < |widths|
  {
    var w := Clamp(widths[j]);
    Padded(CounterAt(widths, w, j), 2 * w)
  }

  lemma {:induction false} CounterFits(widths: seq<nat>, w: nat, j: nat)
    requires j <= |widths|
    ensures CounterAt(widths, w, j) <= MaxPrefix(w)
  {
    if j > 0 {
      CounterFits(widths, w, j - 1);
    }
  }

  // ---------- counters as remainders ----------

  lemma Multiple(k: int, m: nat)
    requires k >= 1
    ensures k * m >= m
  {
    assert (k - 1) * m >= 0;
  }

  lemma Subtract(q: int, p: int, m: nat)
    ensures (q - p) * m == q * m - p * m
  {
  }

  lemma QuotientUnique(m: nat, q: int, p: int, qm: int, pm: int, r: nat, t: nat)
    requires qm == q * m && pm == p * m && r < m && t < m && qm + r == pm + t
    ensures r == t
  {
    Subtract(q, p, m);
    Subtract(p, q, m);
    if q > p {
      Multiple(q - p, m);
    } else if q < p {
      Multiple(p - q, m);
    }
  }

  lemma RemainderIs(n: nat, m: nat, q: nat, r: nat)
    requires r < m && n == q * m + r
    ensures n % m == r
  {
    assert n == (n / m) * m + n % m;
    QuotientUnique(m, q, n / m, q * m, (n / m) * m, r, n % m);
  }

  lemma RotateIsRemainder(n: nat, m: nat)
    requires m > 0
    ensures Rotate(n % m, m - 1) == (n + 1) % m
  {
    var q, r := n / m, n % m;
    if r < m - 1 {
      RemainderIs(n + 1, m, q, r + 1);
    } else {
      assert n + 1 == (q + 1) * m + 0;
      RemainderIs(n + 1, m, q + 1, 0);
    }
  }

  /** Adding `d` brings a remainder back to where it was exactly when `d` is a multiple of the modulus. */
  lemma BackAgain(c: nat, d: nat, m: nat)
    requires c < m
    ensures (c + d) % m == c <==> d % m == 0
  {
    var q, r := d / m, d % m;
    if c + r < m {
      RemainderIs(c + d, m, q, c + r);
    } else {
      assert c + d == (q + 1) * m + (c + r - m);
      RemainderIs(c + d, m, q + 1, c + r - m);
    }
  }

  /**
    Whatever other widths are interleaved, a counter is its earlier value plus what was handed
    out, modulo one turn.
   */
  lemma {:induction false} CounterAdvance(widths: seq<nat>, w: nat, i: nat, j: nat)
    requires i <= j <= |widths|
    ensures CounterAt(widths, w, j) == (CounterAt(widths, w, i) + Handed(widths, w, i, j)) % Pow256(w)
    decreases j
  {
    var c, m := CounterAt(widths, w, i), Pow256(w);
    if i == j {
      CounterFits(widths, w, i);
      RemainderIs(c, m, 0, c);
    } else {
      CounterAdvance(widths, w, i, j - 1);
      RotateIsRemainder(c + Handed(widths, w, i, j - 1), m);
    }
  }

  /**
    Two assignments of one width get the same prefix exactly when the number of prefixes of that
    width handed out from the first to the second is a whole number of turns.
   */
  lemma PrefixesEqualIff(widths: seq<nat>, i: nat, j: nat)
    requires i < j < |widths| && Clamp(widths[i]) == Clamp(widths[j])
    ensures var w := Clamp(widths[i]); |PrefixAt(widths, i)| == |PrefixAt(widths, j)| == 2 * w
    ensures var w := Clamp(widths[i]);
            PrefixAt(widths, i) == PrefixAt(widths, j) <==> Handed(widths, w, i, j) % Pow256(w) == 0
  {
    var w := Clamp(widths[i]);
    var a, b := CounterAt(widths, w, i), CounterAt(widths, w, j);
    CounterFits(widths, w, i);
    CounterFits(widths, w, j);
    CounterAdvance(widths, w, i, j);
    BackAgain(a, Handed(widths, w, i, j), Pow256(w));
    SamePrefix(a, b, w);
  }

  lemma SamePrefix(a: nat, b: nat, w: nat)
    requires 1 <= w <= 3 && a < Pow256(w) && b < Pow256(w)
    ensures |Padded(a, 2 * w)| == |Padded(b, 2 * w)| == 2 * w
    ensures Padded(a, 2 * w) == Padded(b, 2 * w) <==> a == b
  {
    WidthFits(w);
    PaddedLength(a, 2 * w);
    PaddedLength(b, 2 * w);
    if Padded(a, 2 * w) == Padded(b, 2 * w) {
      PaddedInjective(a, b, 2 * w);
    }
  }

  /**
    Whatever other widths are interleaved, any `256^w` consecutive assignments of width `w`
    get pairwise distinct prefixes of exactly `2w` hex digits, so no two of those rigs can
    form the same 16-digit nonce from the digits left to them.
   */
  lemma PrefixesDisjoint(widths: seq<nat>, i: nat, j: nat)
    requires i < j < |widths| && Clamp(widths[i]) == Clamp(widths[j])
    requires Handed(widths, Clamp(widths[i]), i, j) < Pow256(Clamp(widths[i]))
    ensures var w := Clamp(widths[i]);
            |PrefixAt(widths, i)| == |PrefixAt(widths, j)| == 2 * w
    ensures PrefixAt(widths, i) != PrefixAt(widths, j)
    ensures forall x: string, y: string :: |x| == |y| ==> PrefixAt(widths, i) + x != PrefixAt(widths, j) + y
  {
    var w := Clamp(widths[i]);
    var d := Handed(widths, w, i, j);
    HandedPositive(widths, i, j);
    RemainderIs(d, Pow256(w), 0, d);
    PrefixesEqualIff(widths, i, j);
    forall x: string, y: string | |x| == |y|
      ensures PrefixAt(widths, i) + x != PrefixAt(widths, j) + y
    {
      assert (PrefixAt(widths, i) + x)[..2 * w] == PrefixAt(widths, i);
      assert (PrefixAt(widths, j) + y)[..2 * w] == PrefixAt(widths, j);
    }
  }

  lemma {:induction false} HandedPositive(widths: seq<nat>, i: nat, j: nat)
    requires i < j < |widths|
    ensures Handed(widths, Clamp(widths[i]), i, j) > 0
    decreases j
  {
    if i + 1 < j {
      HandedPositive(widths, i, j - 1);
    } else {
      assert Handed(widths, Clamp(widths[i]), i, i) == 0;
    }
  }
}
