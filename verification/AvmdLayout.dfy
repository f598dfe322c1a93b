/** The triangular layout of the beep detectors and the share of samples each
    detector evaluates (net-voip/freeswitch/files/mod_avmd.new.c). */
module AvmdLayout {
  import opened Common

  /** enum avmd_detection_mode: what is looked for, and what was found. */
  datatype Mode = Amp | Freq | Both | Nothing

  /** The (resolution, offset) pair that selects the samples of one detector. */
  datatype Slot = Slot(resolution: nat, offset: nat)

  /** How many detectors have a resolution below `r`. */
  function Below(r: nat): nat
  {
    if r == 0 then 0 else r * (r - 1) / 2
  }

  lemma BelowStep(r: nat)
    ensures Below(r + 1) == Below(r) + r
  {
    assert (r + 1) * r == r * (r - 1) + 2 * r;
  }

  lemma BelowMonotone(r: nat, q: nat)
    requires r <= q
    ensures Below(r) <= Below(q)
    decreases q - r
  {
    if r < q {
      BelowStep(r);
      BelowMonotone(r + 1, q);
    }
  }

  /** Slot `slot` sits at index `idx` of the triangle. */
  predicate At(slot: Slot, idx: nat)
  {
    slot.offset < slot.resolution && idx == Below(slot.resolution) + slot.offset
  }

  /** Every index holds the slot of the triangle. */
  predicate Triangular(slots: seq<Slot>)
  {
    forall i :: 0 <= i < |slots| ==> At(slots[i], i)
  }

  /** An index determines its slot. */
  lemma SlotUnique(a: Slot, b: Slot, idx: nat)
    requires At(a, idx) && At(b, idx)
    ensures a == b
  {
    if a.resolution < b.resolution {
      BelowStep(a.resolution);
      BelowMonotone(a.resolution + 1, b.resolution);
    } else if b.resolution < a.resolution {
      BelowStep(b.resolution);
      BelowMonotone(b.resolution + 1, a.resolution);
    }
  }

  /** A resolution is fully allocated when all its offsets have a detector. */
  predicate FullyAllocated(r: nat, n: nat)
  {
    1 <= r && Below(r + 1) <= n
  }

  // ------------------------------------------------------------------------
  // Shares

  /** The sample loop evaluates sample `k` for this slot. */
  predicate Mine(slot: Slot, k: nat)
    requires slot.resolution > 0
  {
    (k + slot.offset) % slot.resolution == 0
  }

  /** The samples among 1..m that the slot evaluates. */
  function Share(slot: Slot, m: nat): set<nat>
    requires slot.resolution > 0
  {
    set k: nat | 1 <= k <= m && Mine(slot, k)
  }

  lemma ShareStep(slot: Slot, m: nat)
    requires slot.resolution > 0
    ensures Share(slot, m + 1) == Share(slot, m) + (if Mine(slot, m + 1) then {m + 1} else {})
  {
  }

  lemma DivStep(x: nat, r: nat)
    requires r > 0
    ensures (x + 1) / r == x / r + (if (x + 1) % r == 0 then 1 else 0)
  {
    var q, m := x / r, x % r;
    assert x == q * r + m;
    if m == r - 1 {
      assert x + 1 == (q + 1) * r;
      DivModUnique(x + 1, r, q + 1, 0);
    } else {
      DivModUnique(x + 1, r, q, m + 1);
    }
  }

  /** Detector (r, o) evaluates exactly floor((S + o) / r) of S samples. */
  lemma {:induction false} ShareSize(slot: Slot, m: nat)
    requires slot.offset < slot.resolution
    ensures |Share(slot, m)| == (m + slot.offset) / slot.resolution
  {
    if m == 0 {
      assert Share(slot, 0) == {};
      DivModUnique(slot.offset, slot.resolution, 0, slot.offset);
    } else {
      ShareSize(slot, m - 1);
      ShareStep(slot, m - 1);
      DivStep(m - 1 + slot.offset, slot.resolution);
    }
  }

  /** The only offset at which resolution `r` evaluates sample `k`. */
  function OffsetOf(r: nat, k: nat): (o: nat)
    requires r > 0
    ensures o < r
  {
    if k % r == 0 then 0 else r - k % r
  }

  /** Among the offsets of a resolution exactly one evaluates a given sample. */
  lemma OffsetUnique(r: nat, k: nat, o: nat)
    requires o < r
    ensures Mine(Slot(r, o), k) <==> o == OffsetOf(r, k)
  {
    var q, m := k / r, k % r;
    assert k == q * r + m;
    if m + o < r {
      DivModUnique(k + o, r, q, m + o);
    } else {
      assert k + o == (q + 1) * r + (m + o - r);
      DivModUnique(k + o, r, q + 1, m + o - r);
    }
  }

  /** Each sample is evaluated by exactly one detector of every fully
      allocated resolution. */
  lemma SampleCoveredOnce(slots: seq<Slot>, r: nat, k: nat)
    requires Triangular(slots) && FullyAllocated(r, |slots|)
    ensures var i := Below(r) + OffsetOf(r, k);
      && i < |slots| && slots[i] == Slot(r, OffsetOf(r, k)) && Mine(slots[i], k)
      && forall j :: 0 <= j < |slots| && slots[j].resolution == r && Mine(slots[j], k) ==> j == i
  {
    var o := OffsetOf(r, k);
    BelowStep(r);
    var i := Below(r) + o;
    assert At(slots[i], i);
    SlotUnique(slots[i], Slot(r, o), i);
    OffsetUnique(r, k, o);
    forall j | 0 <= j < |slots| && slots[j].resolution == r && Mine(slots[j], k)
      ensures j == i
    {
      assert At(slots[j], j);
      OffsetUnique(r, k, slots[j].offset);
    }
  }

  /** Sum of the share sizes of the first `c` offsets of resolution `r`. */
  function SharesSum(r: nat, c: nat, m: nat): nat
    requires c <= r
  {
    if c == 0 then 0 else SharesSum(r, c - 1, m) + |Share(Slot(r, c - 1), m)|
  }

  lemma ShareGrows(r: nat, o: nat, m: nat)
    requires o < r
    ensures |Share(Slot(r, o), m + 1)| == |Share(Slot(r, o), m)| + (if o == OffsetOf(r, m + 1) then 1 else 0)
  {
    ShareStep(Slot(r, o), m);
    OffsetUnique(r, m + 1, o);
  }

  lemma {:induction false} SharesSumStep(r: nat, c: nat, m: nat)
    requires 0 < r && c <= r
    ensures SharesSum(r, c, m + 1) == SharesSum(r, c, m) + (if OffsetOf(r, m + 1) < c then 1 else 0)
  {
    if c > 0 {
      SharesSumStep(r, c - 1, m);
      ShareGrows(r, c - 1, m);
    }
  }

  /** The shares of one resolution add up to all the samples: Hermite's identity
      sum(o < r) floor((S + o) / r) == S, by ShareSize. */
  lemma {:induction false} Hermite(r: nat, m: nat)
    requires r > 0
    ensures SharesSum(r, r, m) == m
  {
    if m == 0 {
      SharesOfNothing(r, r);
    } else {
      Hermite(r, m - 1);
      SharesSumStep(r, r, m - 1);
    }
  }

  lemma {:induction false} SharesOfNothing(r: nat, c: nat)
    requires 0 < r && c <= r
    ensures SharesSum(r, c, 0) == 0
  {
    if c > 0 {
      SharesOfNothing(r, c - 1);
      assert Share(Slot(r, c - 1), 0) == {};
    }
  }

  /** Evaluations one round of `slots` performs on `m` samples without a detection. */
  function Work(slots: seq<Slot>, m: nat): nat
    requires forall i :: 0 <= i < |slots| ==> slots[i].resolution > 0
  {
    if slots == [] then 0
    else Work(slots[..|slots| - 1], m) + |Share(slots[|slots| - 1], m)|
  }

  /** Inside a resolution the work grows by the shares of the offsets handed out. */
  lemma {:induction false} WorkInRow(slots: seq<Slot>, r: nat, c: nat, m: nat)
    requires Triangular(slots) && 0 < r && c <= r && |slots| == Below(r) + c
    ensures Work(slots, m) == Work(slots[..Below(r)], m) + SharesSum(r, c, m)
  {
    if c == 0 {
      assert slots[..Below(r)] == slots;
    } else {
      var last := |slots| - 1;
      assert At(slots[last], last);
      SlotUnique(slots[last], Slot(r, c - 1), last);
      WorkInRow(slots[..last], r, c - 1, m);
      assert slots[..last][..Below(r)] == slots[..Below(r)];
    }
  }

  /** k(k+1)/2 detectors do exactly k evaluations for each of S samples. */
  lemma {:induction false} TriangleWork(slots: seq<Slot>, k: nat, m: nat)
    requires Triangular(slots) && |slots| == Below(k + 1)
    ensures Work(slots, m) == k * m
  {
    if k > 0 {
      BelowStep(k);
      WorkInRow(slots, k, k, m);
      Hermite(k, m);
      TriangleWork(slots[..Below(k)], k - 1, m);
      assert (k - 1) * m + m == k * m;
    }
  }
}
