/**
  Pro-rating one coinbase reward over the wallets of a share window
  (accountant/src/allocation.rs, `pro_rate` and the residue assignment). Weights are exact
  reals; the source's floating-point rounding is covered by the conservation lemma, which
  holds for any per-wallet rounding.
 */
module RewardSplit {
  import opened Wrappers
  import opened FeeModel

  type WalletId = int

  datatype Window = Window(wallet: WalletId, weight: real)

  function Total(ws: seq<Window>): real {
    if ws == [] then 0.0 else Total(ws[..|ws| - 1]) + ws[|ws| - 1].weight
  }

  /** One wallet's rounded-down share, clamped to the reward. */
  function ProRate(reward: nat, weight: real, total: real): nat
    requires total > 0.0
  {
    if weight == 0.0 then 0
    else
      var floored := Portion(reward, weight, total).Floor;
      if floored <= 0 then 0 else if floored >= reward then reward else floored
  }

  function Floors(ws: seq<Window>, reward: nat, total: real): nat
    requires total > 0.0
  {
    if ws == [] then 0 else Floors(ws[..|ws| - 1], reward, total) + ProRate(reward, ws[|ws| - 1].weight, total)
  }

  function Sum(gs: seq<int>): int {
    if gs == [] then 0 else Sum(gs[..|gs| - 1]) + gs[|gs| - 1]
  }

  /** The smallest wallet id of a nonempty window list. */
  function MinWallet(ws: seq<Window>): WalletId
    requires ws != []
  {
    if |ws| == 1 then ws[0].wallet
    else
      var m, w := MinWallet(ws[..|ws| - 1]), ws[|ws| - 1].wallet;
      if w < m then w else m
  }

  ghost predicate WellFormed(ws: seq<Window>) {
    && (forall i :: 0 <= i < |ws| ==> ws[i].weight >= 0.0)
    && (forall i, j :: 0 <= i < j < |ws| ==> ws[i].wallet != ws[j].wallet)
  }

  /** What a wallet ends up with: its rounded share, and the smallest id also gets the residue. */
  function Gross(ws: seq<Window>, reward: nat, w: Window): int
    requires ws != [] && Total(ws) > 0.0
  {
    ProRate(reward, w.weight, Total(ws)) +
    if w.wallet == MinWallet(ws) then reward - Floors(ws, reward, Total(ws)) else 0
  }

  // ---------- the residue ----------

  /** A wallet's unrounded share. */
  function Portion(reward: nat, weight: real, total: real): real
    requires total > 0.0
  {
    reward as real * (weight / total)
  }

  function Portions(ws: seq<Window>, reward: nat, total: real): real
    requires total > 0.0
  {
    if ws == [] then 0.0
    else Portions(ws[..|ws| - 1], reward, total) + Portion(reward, ws[|ws| - 1].weight, total)
  }

  lemma PortionOfSum(r: real, a: real, b: real, t: real)
    requires t > 0.0
    ensures r * ((a + b) / t) == r * (a / t) + r * (b / t)
  {
    assert (a + b) / t == a / t + b / t;
  }

  lemma {:induction false} PortionsOfTotal(ws: seq<Window>, reward: nat, total: real)
    requires total > 0.0
    ensures Portions(ws, reward, total) == reward as real * (Total(ws) / total)
  {
    if ws != [] {
      PortionsOfTotal(ws[..|ws| - 1], reward, total);
      PortionOfSum(reward as real, Total(ws[..|ws| - 1]), ws[|ws| - 1].weight, total);
    }
  }

  lemma RatioBounds(r: real, weight: real, total: real)
    requires r >= 0.0 && 0.0 <= weight <= total && total > 0.0
    ensures 0.0 <= r * (weight / total) <= r
  {
    var q := weight / total;
    assert 0.0 <= q <= 1.0;
    assert r * q <= r * 1.0;
  }

  /** With exact weights the clamps never bite: the share is the plain floor. */
  lemma ProRateIsFloor(reward: nat, weight: real, total: real)
    requires 0.0 <= weight <= total && total > 0.0
    ensures ProRate(reward, weight, total) == (reward as real * (weight / total)).Floor
  {
    RatioBounds(reward as real, weight, total);
    if weight == 0.0 {
      assert weight / total == 0.0;
    }
  }

  lemma {:induction false} TotalBounds(ws: seq<Window>, i: nat)
    requires i < |ws| && forall k :: 0 <= k < |ws| ==> ws[k].weight >= 0.0
    ensures ws[i].weight <= Total(ws)
  {
    TotalNonnegative(ws[..|ws| - 1]);
    if i < |ws| - 1 {
      TotalBounds(ws[..|ws| - 1], i);
    }
  }

  lemma {:induction false} TotalNonnegative(ws: seq<Window>)
    requires forall k :: 0 <= k < |ws| ==> ws[k].weight >= 0.0
    ensures Total(ws) >= 0.0
  {
    if ws != [] {
      TotalNonnegative(ws[..|ws| - 1]);
    }
  }

  /** A floor is less than one below its portion. */
  lemma ProRateNear(reward: nat, weight: real, total: real)
    requires 0.0 <= weight <= total && total > 0.0
    ensures var p := Portion(reward, weight, total);
            ProRate(reward, weight, total) as real <= p < ProRate(reward, weight, total) as real + 1.0
  {
    ProRateIsFloor(reward, weight, total);
  }

  function SumReals(ps: seq<real>): real {
    if ps == [] then 0.0 else SumReals(ps[..|ps| - 1]) + ps[|ps| - 1]
  }

  lemma {:induction false} SumsNear(gs: seq<int>, ps: seq<real>)
    requires |gs| == |ps| && forall k :: 0 <= k < |gs| ==> gs[k] as real <= ps[k] < gs[k] as real + 1.0
    ensures Sum(gs) as real <= SumReals(ps) <= Sum(gs) as real + |gs| as real
    ensures gs != [] ==> SumReals(ps) < Sum(gs) as real + |gs| as real
  {
    if gs != [] {
      SumsNear(gs[..|gs| - 1], ps[..|ps| - 1]);
    }
  }

  lemma {:induction false} PortionList(ws: seq<Window>, reward: nat, total: real) returns (ps: seq<real>)
    requires total > 0.0
    ensures |ps| == |ws| && SumReals(ps) == Portions(ws, reward, total)
    ensures forall k :: 0 <= k < |ws| ==> ps[k] == Portion(reward, ws[k].weight, total)
  {
    ps := [];
    if ws != [] {
      var front := PortionList(ws[..|ws| - 1], reward, total);
      ps := front + [Portion(reward, ws[|ws| - 1].weight, total)];
      assert ps[..|ps| - 1] == front;
    }
  }

  lemma {:induction false} ShareList(ws: seq<Window>, reward: nat, total: real) returns (gs: seq<int>)
    requires total > 0.0
    ensures |gs| == |ws| && Sum(gs) == Floors(ws, reward, total)
    ensures forall k :: 0 <= k < |ws| ==> gs[k] == ProRate(reward, ws[k].weight, total)
  {
    gs := [];
    if ws != [] {
      var front := ShareList(ws[..|ws| - 1], reward, total);
      gs := front + [ProRate(reward, ws[|ws| - 1].weight, total)];
      assert gs[..|gs| - 1] == front;
    }
  }

  lemma NearAt(ws: seq<Window>, reward: nat, total: real, gs: seq<int>, ps: seq<real>, k: nat)
    requires k < |ws| == |gs| == |ps| && total > 0.0 && 0.0 <= ws[k].weight <= total
    requires gs[k] == ProRate(reward, ws[k].weight, total) && ps[k] == Portion(reward, ws[k].weight, total)
    ensures gs[k] as real <= ps[k] < gs[k] as real + 1.0
  {
    ProRateNear(reward, ws[k].weight, total);
  }

  lemma FloorsNearPortions(ws: seq<Window>, reward: nat, total: real)
    requires total > 0.0 && forall k :: 0 <= k < |ws| ==> 0.0 <= ws[k].weight <= total
    ensures Floors(ws, reward, total) as real <= Portions(ws, reward, total)
    ensures ws != [] ==> Portions(ws, reward, total) < Floors(ws, reward, total) as real + |ws| as real
  {
    var ps := PortionList(ws, reward, total);
    var gs := ShareList(ws, reward, total);
    forall k | 0 <= k < |ws|
      ensures gs[k] as real <= ps[k] < gs[k] as real + 1.0
    {
      NearAt(ws, reward, total, gs, ps, k);
    }
    SumsNear(gs, ps);
  }

  lemma WholeRatio(t: real)
    requires t > 0.0
    ensures t / t == 1.0
  {
  }

  /** The truncation residue of exact weights is between zero and one less than the number of wallets. */
  lemma ResidueBound(ws: seq<Window>, reward: nat)
    requires ws != [] && WellFormed(ws) && Total(ws) > 0.0
    ensures 0 <= reward - Floors(ws, reward, Total(ws)) <= |ws| - 1
  {
    var total := Total(ws);
    forall k | 0 <= k < |ws|
      ensures 0.0 <= ws[k].weight <= total
    {
      TotalBounds(ws, k);
    }
    PortionsOfTotal(ws, reward, total);
    WholeRatio(total);
    FloorsNearPortions(ws, reward, total);
  }

  // ---------- conservation ----------

  lemma {:induction false} SumUpdate(gs: seq<int>, k: nat, d: int)
    requires k < |gs|
    ensures Sum(gs[k := gs[k] + d]) == Sum(gs) + d
  {
    var n := |gs| - 1;
    if k < n {
      SumUpdate(gs[..n], k, d);
      assert gs[k := gs[k] + d][..n] == gs[..n][k := gs[..n][k] + d];
    } else {
      assert gs[k := gs[k] + d][..n] == gs[..n];
    }
  }

  /** Whatever the per-wallet rounding, giving the signed residue to one wallet makes the grosses total the reward. */
  lemma AnyRoundingConserves(gs: seq<int>, reward: int, k: nat)
    requires k < |gs|
    ensures Sum(gs[k := gs[k] + (reward - Sum(gs))]) == reward
  {
    SumUpdate(gs, k, reward - Sum(gs));
  }

  /** Every wallet's gross, in row order. */
  function Grosses(ws: seq<Window>, reward: nat): (gs: seq<int>)
    requires ws != [] && Total(ws) > 0.0
    ensures |gs| == |ws| && forall i :: 0 <= i < |ws| ==> gs[i] == Gross(ws, reward, ws[i])
  {
    seq(|ws|, i requires 0 <= i < |ws| => Gross(ws, reward, ws[i]))
  }

  /** The grosses total exactly the reward. */
  lemma GrossesTotal(ws: seq<Window>, reward: nat)
    requires ws != [] && WellFormed(ws) && Total(ws) > 0.0
    ensures Sum(Grosses(ws, reward)) == reward
  {
    var floors := ShareList(ws, reward, Total(ws));
    var first := MinWalletMeaning(ws);
    AnyRoundingConserves(floors, reward, first);
    assert Grosses(ws, reward) == floors[first := floors[first] + (reward - Sum(floors))];
  }

  // ---------- the in-place computation ----------

  function Saturate(x: int): int {
    if x > I64_MAX then I64_MAX else if x < -I64_MAX - 1 then -I64_MAX - 1 else x
  }

  datatype Split = Split(grosses: seq<int>, residue: int) | InvalidWindowWeight

  method TotalWeight(ws: seq<Window>) returns (total: real)
    ensures total == Total(ws)
  {
    total := 0.0;
    for i := 0 to |ws|
      invariant total == Total(ws[..i])
    {
      total := total + ws[i].weight;
      assert ws[..i + 1][..i] == ws[..i];
    }
    assert ws[..|ws|] == ws;
  }

  /** The rounded shares, their sum, and the position of the smallest wallet id. */
  method RoundedShares(ws: seq<Window>, reward: nat, total: real) returns (gs: seq<int>, summed: int, first: nat)
    requires ws != [] && total > 0.0
    ensures |gs| == |ws| && summed == Sum(gs) == Floors(ws, reward, total)
    ensures forall k :: 0 <= k < |ws| ==> gs[k] == ProRate(reward, ws[k].weight, total)
    ensures first < |ws| && ws[first].wallet == MinWallet(ws)
  {
    gs, summed, first := [], 0, 0;
    for i := 0 to |ws|
      invariant |gs| == i && summed == Sum(gs) == Floors(ws[..i], reward, total)
      invariant forall k :: 0 <= k < i ==> gs[k] == ProRate(reward, ws[k].weight, total)
      invariant i > 0 ==> first < i && ws[first].wallet == MinWallet(ws[..i])
    {
      var g := ProRate(reward, ws[i].weight, total);
      assert ws[..i + 1][..i] == ws[..i] && (gs + [g])[..i] == gs;
      gs := gs + [g];
      summed := summed + g;
      if i == 0 || ws[i].wallet < ws[first].wallet {
        first := i;
      }
    }
    assert ws[..|ws|] == ws;
  }

  /** Total, pro-rate, and patch the slot of the smallest wallet id. */
  method SplitReward(ws: seq<Window>, reward: nat) returns (r: Split)
    requires ws != [] && WellFormed(ws) && reward <= I64_MAX
    ensures r.InvalidWindowWeight? <==> Total(ws) <= 0.0
    ensures r.Split? ==> |r.grosses| == |ws| && Sum(r.grosses) == reward && 0 <= r.residue < |ws|
    ensures r.Split? ==> forall i :: 0 <= i < |ws| ==> r.grosses[i] == Gross(ws, reward, ws[i]) && r.grosses[i] >= 0
  {
    var total := TotalWeight(ws);
    if total <= 0.0 {
      return InvalidWindowWeight;
    }
    var gs, summed, first := RoundedShares(ws, reward, total);
    ResidueBound(ws, reward);
    AnyRoundingConserves(gs, reward, first);
    FloorAtMostSum(ws, reward, total, first);
    var residue := Saturate(reward - summed);
    var patched := Saturate(gs[first] + residue);
    assert residue == reward - summed && patched == gs[first] + residue;
    r := Split(gs[first := patched], residue);
  }

  lemma {:induction false} FloorAtMostSum(ws: seq<Window>, reward: nat, total: real, i: nat)
    requires total > 0.0 && i < |ws|
    ensures ProRate(reward, ws[i].weight, total) <= Floors(ws, reward, total)
  {
    if i < |ws| - 1 {
      FloorAtMostSum(ws[..|ws| - 1], reward, total, i);
    }
  }

  // ---------- row order does not matter ----------

  function Without(ws: seq<Window>, k: nat): seq<Window>
    requires k < |ws|
  {
    ws[..k] + ws[k + 1..]
  }

  lemma {:induction false} PullOut(ws: seq<Window>, k: nat, reward: nat, total: real)
    requires k < |ws| && total > 0.0
    ensures Total(ws) == Total(Without(ws, k)) + ws[k].weight
    ensures Floors(ws, reward, total) == Floors(Without(ws, k), reward, total) + ProRate(reward, ws[k].weight, total)
  {
    var n := |ws| - 1;
    if k == n {
      assert Without(ws, k) == ws[..n];
    } else {
      PullOut(ws[..n], k, reward, total);
      var rest := Without(ws, k);
      assert rest[..|rest| - 1] == Without(ws[..n], k) && rest[|rest| - 1] == ws[n];
    }
  }

  lemma WithoutMultiset(ws: seq<Window>, k: nat)
    requires k < |ws|
    ensures multiset(Without(ws, k)) == multiset(ws) - multiset{ws[k]}
  {
    assert ws == ws[..k] + [ws[k]] + ws[k + 1..];
  }

  lemma {:induction false} SameSums(ws: seq<Window>, vs: seq<Window>, reward: nat, total: real)
    requires multiset(ws) == multiset(vs) && total > 0.0
    ensures Total(ws) == Total(vs) && Floors(ws, reward, total) == Floors(vs, reward, total)
    decreases |ws|
  {
    if ws == [] {
      assert |multiset(vs)| == 0;
    } else {
      var n := |ws| - 1;
      assert ws[n] in multiset(vs);
      var k :| 0 <= k < |vs| && vs[k] == ws[n];
      WithoutMultiset(ws, n);
      WithoutMultiset(vs, k);
      SameSums(Without(ws, n), Without(vs, k), reward, total);
      PullOut(ws, n, reward, total);
      PullOut(vs, k, reward, total);
    }
  }

  lemma {:induction false} MinWalletMeaning(ws: seq<Window>) returns (i: nat)
    requires ws != []
    ensures i < |ws| && ws[i].wallet == MinWallet(ws)
    ensures forall k :: 0 <= k < |ws| ==> MinWallet(ws) <= ws[k].wallet
  {
    i := |ws| - 1;
    if |ws| > 1 {
      var j := MinWalletMeaning(ws[..|ws| - 1]);
      if ws[j].wallet <= ws[i].wallet {
        i := j;
      }
    }
  }

  lemma MinAtMost(ws: seq<Window>, vs: seq<Window>)
    requires ws != [] && vs != [] && multiset(ws) == multiset(vs)
    ensures MinWallet(ws) <= MinWallet(vs)
  {
    var i := MinWalletMeaning(vs);
    assert vs[i] in multiset(ws);
    var j :| 0 <= j < |ws| && ws[j] == vs[i];
    var m := MinWalletMeaning(ws);
  }

  /** A wallet's gross depends on the window rows only as a multiset. */
  lemma OrderIndependent(ws: seq<Window>, vs: seq<Window>, reward: nat, w: Window)
    requires ws != [] && vs != [] && multiset(ws) == multiset(vs) && Total(ws) > 0.0
    ensures Total(vs) == Total(ws) && Gross(ws, reward, w) == Gross(vs, reward, w)
  {
    SameSums(ws, vs, reward, Total(ws));
    MinAtMost(ws, vs);
    MinAtMost(vs, ws);
  }
}
