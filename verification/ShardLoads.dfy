/** How evenly the greedy assignment spreads a list of weights: Graham's bounds. */
module ShardLoads {
  import opened ShardAllocator

  function Total(vals: seq<nat>): nat {
    if vals == [] then 0 else Total(vals[..|vals| - 1]) + vals[|vals| - 1]
  }

  lemma {:induction false} TotalOfUpdate(vals: seq<nat>, i: nat, v: nat)
    requires i < |vals|
    ensures Total(vals[i := vals[i] + v]) == Total(vals) + v
  {
    var n := |vals| - 1;
    if i < n {
      TotalOfUpdate(vals[..n], i, v);
      assert vals[i := vals[i] + v][..n] == vals[..n][i := vals[i] + v];
    } else {
      assert vals[i := vals[i] + v][..n] == vals[..n];
    }
  }

  lemma {:induction false} TotalBounds(vals: seq<nat>, lo: nat, hi: nat)
    requires forall i :: 0 <= i < |vals| ==> lo <= vals[i] <= hi
    ensures lo * |vals| <= Total(vals) <= hi * |vals|
  {
    if vals == [] {
    } else {
      var n := |vals| - 1;
      TotalBounds(vals[..n], lo, hi);
      assert lo * (n + 1) == lo * n + lo && hi * (n + 1) == hi * n + hi;
    }
  }

  /** Whatever the assignment, the loads of the m shards add up to the total value. */
  lemma {:induction false} LoadsAddUp(vals: seq<nat>, shard: seq<nat>, m: nat)
    requires |vals| == |shard| && forall i :: 0 <= i < |shard| ==> shard[i] < m
    ensures Total(Loads(vals, shard, m)) == Total(vals)
  {
    if vals == [] {
      TotalBounds(Loads(vals, shard, m), 0, 0);
    } else {
      var n := |vals| - 1;
      LoadsAddUp(vals[..n], shard[..n], m);
      var before := Loads(vals[..n], shard[..n], m);
      TotalOfUpdate(before, shard[n], vals[n]);
      assert Loads(vals, shard, m) == before[shard[n] := before[shard[n]] + vals[n]];
    }
  }

  // ----- no shard runs ahead by more than its last item -----

  /** The value of the last item on shard k, 0 when the shard is empty. */
  function LastOn(vals: seq<nat>, shard: seq<nat>, k: nat): nat
    requires |vals| == |shard|
  {
    if vals == [] then 0 else
      var n := |vals| - 1;
      if shard[n] == k then vals[n] else LastOn(vals[..n], shard[..n], k)
  }

  /** Without its last item, a shard is no heavier than any other shard. */
  lemma {:induction false} LastItemLevels(ws: seq<nat>, m: nat, k: nat, other: nat)
    requires k < m && other < m
    ensures var plan := Greedy(ws, m);
            Load(ws, plan, k) - LastOn(ws, plan, k) <= Load(ws, plan, other)
  {
    if ws == [] {
    } else {
      var n := |ws| - 1;
      var earlier := Greedy(ws[..n], m);
      assert Greedy(ws, m)[..n] == earlier;
      var loads := Loads(ws[..n], earlier, m);
      assert loads[LeastLoaded(loads)] <= loads[other];
      LastItemLevels(ws[..n], m, k, other);
    }
  }

  /** m times a shard's load is at most the total plus (m - 1) times the last item on that shard. */
  lemma ListSchedulingBound(ws: seq<nat>, m: nat, k: nat)
    requires k < m
    ensures var plan := Greedy(ws, m);
            m * (Load(ws, plan, k) - LastOn(ws, plan, k)) + LastOn(ws, plan, k) <= Total(ws)
  {
    var plan := Greedy(ws, m);
    var loads, last := Loads(ws, plan, m), LastOn(ws, plan, k);
    LastOnIsPart(ws, plan, k);
    forall b | 0 <= b < m ensures loads[k] - last <= loads[b] {
      LastItemLevels(ws, m, k, b);
    }
    LoadsAddUp(ws, plan, m);
    LevelledTotal(loads, k, last);
  }

  lemma LevelledTotal(loads: seq<nat>, k: nat, last: nat)
    requires k < |loads| && last <= loads[k]
    requires forall b :: 0 <= b < |loads| ==> loads[k] - last <= loads[b]
    ensures |loads| * (loads[k] - last) + last <= Total(loads)
  {
    var floor := loads[k] - last;
    var reduced := loads[k := floor];
    TotalOfUpdate(reduced, k, last);
    assert reduced[k := reduced[k] + last] == loads;
    PartsBelowTotal(reduced);
    TotalBounds(reduced, floor, Total(reduced));
    assert |loads| * floor == floor * |reduced|;
  }

  lemma {:induction false} LastOnIsPart(vals: seq<nat>, shard: seq<nat>, k: nat)
    requires |vals| == |shard|
    ensures LastOn(vals, shard, k) <= Load(vals, shard, k)
  {
    if vals == [] {
    } else {
      LastOnIsPart(vals[..|vals| - 1], shard[..|vals| - 1], k);
    }
  }

  lemma {:induction false} PartsBelowTotal(vals: seq<nat>)
    ensures forall i :: 0 <= i < |vals| ==> vals[i] <= Total(vals)
  {
    if vals == [] {
    } else {
      var n := |vals| - 1;
      PartsBelowTotal(vals[..n]);
      assert forall i :: 0 <= i < n ==> vals[..n][i] == vals[i];
    }
  }

  // ----- Graham's bound: the heaviest shard is within 4/3 - 1/(3m) of any rival plan -----

  ghost predicate Descending(ws: seq<nat>) {
    forall i, j :: 0 <= i <= j < |ws| ==> ws[i] >= ws[j] >= 1
  }

  /** The assignment uses shards below m only and loads none of them with more than o. */
  ghost predicate FitsWithin(ws: seq<nat>, shard: seq<nat>, m: nat, o: nat) {
    && |shard| == |ws|
    && (forall i :: 0 <= i < |shard| ==> shard[i] < m)
    && (forall k :: 0 <= k < m ==> Load(ws, shard, k) <= o)
  }

  /** The load is at most 4/3 - 1/(3m) times o. */
  predicate WithinGraham(load: nat, m: nat, o: nat) {
    3 * m * load <= (4 * m - 1) * o
  }

  /** An item that is too heavy to share a shard counts twice. */
  function Slots(ws: seq<nat>, limit: nat): (slots: seq<nat>)
    ensures |slots| == |ws|
  {
    seq(|ws|, i requires 0 <= i < |ws| => if ws[i] > limit then 2 else 1)
  }

  lemma SlotsPrefix(ws: seq<nat>, limit: nat)
    requires ws != []
    ensures Slots(ws, limit)[..|ws| - 1] == Slots(ws[..|ws| - 1], limit)
  {
  }

  /** A rival's shard has room for two slots: one heavy item, or two lighter ones. */
  lemma {:induction false} RivalSlots(ws: seq<nat>, shard: seq<nat>, k: nat, least: nat, o: nat)
    requires |ws| == |shard| && least <= o < 3 * least
    requires forall i :: 0 <= i < |ws| ==> ws[i] >= least
    ensures var load, slots := Load(ws, shard, k), Load(Slots(ws, o - least), shard, k);
            || load > o
            || slots == 0
            || (slots == 1 && load >= least)
            || (slots == 2 && (load > o - least || load >= 2 * least))
  {
    if ws == [] {
    } else {
      var n := |ws| - 1;
      RivalSlots(ws[..n], shard[..n], k, least, o);
      SlotsPrefix(ws, o - least);
    }
  }

  /** A shard loaded beyond the limit holds at least two slots. */
  lemma {:induction false} LoadedSlots(ws: seq<nat>, shard: seq<nat>, k: nat, limit: nat)
    requires |ws| == |shard|
    ensures var load, slots := Load(ws, shard, k), Load(Slots(ws, limit), shard, k);
            (slots == 0 ==> load == 0) && (slots == 1 ==> load <= limit)
  {
    if ws == [] {
    } else {
      LoadedSlots(ws[..|ws| - 1], shard[..|ws| - 1], k, limit);
      SlotsPrefix(ws, limit);
    }
  }

  /** When the last item exceeds a third of o, it still fits below o on the least loaded shard. */
  lemma HeavyLastItemFits(ws: seq<nat>, m: nat, rival: seq<nat>, o: nat)
    requires m >= 1 && ws != [] && Descending(ws)
    requires FitsWithin(ws, rival, m, o)
    requires 3 * ws[|ws| - 1] > o
    ensures var n := |ws| - 1;
            var loads := Loads(ws[..n], Greedy(ws[..n], m), m);
            loads[LeastLoaded(loads)] + ws[n] <= o
  {
    var n := |ws| - 1;
    var w := ws[n];
    var plan := Greedy(ws[..n], m);
    var loads := Loads(ws[..n], plan, m);
    var least := loads[LeastLoaded(loads)];
    assert Load(ws, rival, rival[n]) >= w;
    if least + w > o {
      var slots := Slots(ws, o - w);
      forall k | 0 <= k < m ensures Load(slots, rival, k) <= 2 {
        RivalSlots(ws, rival, k, w, o);
      }
      TotalBounds(Loads(slots, rival, m), 0, 2);
      LoadsAddUp(slots, rival, m);
      assert Total(slots) <= 2 * m;

      var earlier := Slots(ws[..n], o - w);
      forall k | 0 <= k < m ensures 2 <= Load(earlier, plan, k) <= Total(Loads(earlier, plan, m)) {
        LoadedSlots(ws[..n], plan, k, o - w);
        assert loads[k] >= least;
        PartsBelowTotal(Loads(earlier, plan, m));
        assert Loads(earlier, plan, m)[k] == Load(earlier, plan, k);
      }
      TotalBounds(Loads(earlier, plan, m), 2, Total(Loads(earlier, plan, m)));
      LoadsAddUp(earlier, plan, m);
      assert Total(earlier) >= 2 * m;
      SlotsPrefix(ws, o - w);
      assert false;
    }
  }

  /** When the last item is at most a third of o, averaging over the shards is enough. */
  lemma LightLastItemFits(ws: seq<nat>, m: nat, rival: seq<nat>, o: nat)
    requires m >= 1 && ws != []
    requires FitsWithin(ws, rival, m, o)
    requires 3 * ws[|ws| - 1] <= o
    ensures var n := |ws| - 1;
            var loads := Loads(ws[..n], Greedy(ws[..n], m), m);
            WithinGraham(loads[LeastLoaded(loads)] + ws[n], m, o)
  {
    var n := |ws| - 1;
    var w := ws[n];
    var plan := Greedy(ws[..n], m);
    var loads := Loads(ws[..n], plan, m);
    var least := loads[LeastLoaded(loads)];
    LoadsAddUp(ws, rival, m);
    TotalBounds(Loads(ws, rival, m), 0, o);
    LoadsAddUp(ws[..n], plan, m);
    PartsBelowTotal(loads);
    TotalBounds(loads, least, Total(loads));
    assert least * m + w <= o * m;
    LightArithmetic(least, w, m, o);
  }

  lemma LightArithmetic(least: nat, w: nat, m: nat, o: nat)
    requires m >= 1 && least * m + w <= o * m && 3 * w <= o
    ensures WithinGraham(least + w, m, o)
  {
    var n := m - 1;
    var lm, wn, on := least * n, w * n, o * n;
    assert least * m == lm + least && o * m == on + o && w * m == wn + w;
    assert 3 * wn <= on by { assert (3 * w) * n <= o * n; }
    calc {
      3 * m * (least + w);
      3 * (least * m) + 3 * (w * m);
      3 * (least * m + w) + 3 * wn;
    <=
      3 * (o * m) + on;
      (4 * m - 1) * o;
    }
  }

  lemma LastItemFits(ws: seq<nat>, m: nat, rival: seq<nat>, o: nat)
    requires m >= 1 && ws != [] && Descending(ws)
    requires FitsWithin(ws, rival, m, o)
    ensures var n := |ws| - 1;
            var loads := Loads(ws[..n], Greedy(ws[..n], m), m);
            WithinGraham(loads[LeastLoaded(loads)] + ws[n], m, o)
  {
    var n := |ws| - 1;
    var loads := Loads(ws[..n], Greedy(ws[..n], m), m);
    if 3 * ws[n] > o {
      HeavyLastItemFits(ws, m, rival, o);
      HeavyArithmetic(loads[LeastLoaded(loads)] + ws[n], m, o);
    } else {
      LightLastItemFits(ws, m, rival, o);
    }
  }

  lemma LoadOfGreedy(ws: seq<nat>, m: nat, k: nat)
    requires k < m && ws != []
    ensures var n := |ws| - 1;
            var loads := Loads(ws[..n], Greedy(ws[..n], m), m);
            Load(ws, Greedy(ws, m), k) == loads[k] + if k == LeastLoaded(loads) then ws[n] else 0
  {
    assert Greedy(ws, m)[..|ws| - 1] == Greedy(ws[..|ws| - 1], m);
  }

  lemma RivalPrefix(ws: seq<nat>, rival: seq<nat>, m: nat, o: nat)
    requires ws != [] && FitsWithin(ws, rival, m, o)
    ensures FitsWithin(ws[..|ws| - 1], rival[..|ws| - 1], m, o)
  {
    var ws', rival' := ws[..|ws| - 1], rival[..|ws| - 1];
    forall k | 0 <= k < m ensures Load(ws', rival', k) <= o {
      assert Load(ws', rival', k) <= Load(ws, rival, k);
    }
  }

  /** Graham's bound for weights in descending order, against any rival assignment with makespan o. */
  lemma {:induction false} GrahamBoundSorted(ws: seq<nat>, m: nat, rival: seq<nat>, o: nat, k: nat)
    requires k < m && Descending(ws)
    requires FitsWithin(ws, rival, m, o)
    ensures WithinGraham(Load(ws, Greedy(ws, m), k), m, o)
  {
    if ws == [] {
      HeavyArithmetic(0, m, o);
    } else {
      var n := |ws| - 1;
      LoadOfGreedy(ws, m, k);
      if k == LeastLoaded(Loads(ws[..n], Greedy(ws[..n], m), m)) {
        LastItemFits(ws, m, rival, o);
      } else {
        assert Load(ws, Greedy(ws, m), k) == Load(ws[..n], Greedy(ws[..n], m), k);
        RivalPrefix(ws, rival, m, o);
        GrahamBoundSorted(ws[..n], m, rival[..n], o, k);
      }
    }
  }

  lemma HeavyArithmetic(load: nat, m: nat, o: nat)
    requires m >= 1 && load <= o
    ensures WithinGraham(load, m, o)
  {
    assert 3 * m * load <= 3 * m * o;
    assert (4 * m - 1) * o == 3 * m * o + (m - 1) * o;
  }
}
