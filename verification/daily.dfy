/**
 * The date-seeded choice of the three daily challenges.  The generator is
 * a 32-bit string hash followed by mulberry32; both are written on `bv32`,
 * whose arithmetic wraps exactly as JavaScript's `|0`, `Math.imul` and
 * `>>>` do.
 */
module DailyModules {
  import opened Wrappers
  import opened Modules
  import opened Seqs

  /** Number of daily challenges. */
  const DAILY_COUNT := 3

  // ---------------------------------------------------------------------------
  // Hash

  predicate IsCodeUnit(u: int) {
    0 <= u < 0x10000
  }

  /** The UTF-16 code units `charCodeAt` walks: one for a BMP character, a surrogate pair otherwise. */
  function CodeUnits(s: string): (u: seq<int>)
    ensures |u| >= |s|
    ensures forall i :: 0 <= i < |u| ==> IsCodeUnit(u[i])
    ensures (forall i :: 0 <= i < |s| ==> IsCodeUnit(s[i] as int)) ==>
              |u| == |s| && forall i :: 0 <= i < |s| ==> u[i] == s[i] as int
  {
    if |s| == 0 then []
    else
      var c := s[0] as int;
      var head :=
        if c < 0x10000 then [c]
        else [0xD800 + (c - 0x10000) / 0x400, 0xDC00 + (c - 0x10000) % 0x400];
      head + CodeUnits(s[1..])
  }

  /** One step of the loop: `((hash << 5) - hash) + code`, truncated to 32 bits by `|= 0`. */
  function HashStep(h: bv32, code: int): bv32
    requires IsCodeUnit(code)
  {
    ((h << 5) - h) + code as bv32
  }

  /** The hash after the given code units, starting from 0. */
  function HashUnits(units: seq<int>): bv32
    requires forall i :: 0 <= i < |units| ==> IsCodeUnit(units[i])
    decreases |units|
  {
    if |units| == 0 then 0 else HashStep(HashUnits(units[..|units| - 1]), units[|units| - 1])
  }

  function DateHash(seed: string): bv32 {
    HashUnits(CodeUnits(seed))
  }

  /** The shift-and-subtract step is multiplication by 31 modulo 2^32. */
  lemma ShiftSubtractIsTimes31(h: bv32)
    ensures (h << 5) - h == h * 31
  {
  }

  /** Appending a BMP character extends the hash by one step; the empty seed hashes to 0. */
  lemma DateHashAppend(seed: string, c: char)
    requires IsCodeUnit(c as int)
    ensures DateHash("") == 0
    ensures DateHash(seed + [c]) == HashStep(DateHash(seed), c as int)
  {
    CodeUnitsAppend(seed, c);
    var u := CodeUnits(seed + [c]);
    assert u[..|u| - 1] == CodeUnits(seed);
  }

  lemma {:induction false} CodeUnitsAppend(s: string, c: char)
    requires IsCodeUnit(c as int)
    ensures CodeUnits(s + [c]) == CodeUnits(s) + [c as int]
    decreases |s|
  {
    if |s| == 0 {
      assert s + [c] == [c];
    } else {
      assert (s + [c])[1..] == s[1..] + [c];
      CodeUnitsAppend(s[1..], c);
    }
  }

  // ---------------------------------------------------------------------------
  // mulberry32

  /** The increment of the generator state on every call. */
  const GOLDEN: bv32 := 0x6D2B79F5

  /** The generator state after `n` calls: `hash += 0x6D2B79F5` each time. */
  function StateAfter(seed: bv32, n: nat): bv32 {
    if n == 0 then seed else StateAfter(seed, n - 1) + GOLDEN
  }

  /** The output word mulberry32 mixes from the advanced state; `u / 2^32` is the double `random()` returns. */
  function Mix(t0: bv32): bv32 {
    var t1 := (t0 ^ (t0 >> 15)) * (t0 | 1);
    var t2 := t1 ^ (t1 + (t1 ^ (t1 >> 7)) * (t1 | 61));
    t2 ^ (t2 >> 14)
  }

  /**
   * `Math.floor(random() * 16)` for the output word `u`: `u / 2^32` and the
   * product with 16 are exact in a double, so this is the number formed by
   * the top four bits of `u`.
   */
  function PickIndex(u: bv32): (i: nat)
    ensures i < |MODULES|
    ensures i == (u >> 28) as int
    ensures i * 0x1000_0000 <= u as int < (i + 1) * 0x1000_0000
  {
    var top := u >> 28;
    (if top & 8 != 0 then 8 else 0) + (if top & 4 != 0 then 4 else 0) +
    (if top & 2 != 0 then 2 else 0) + (if top & 1 != 0 then 1 else 0)
  }

  /** The index the generator seeded with `seed` yields on its `n`-th call (counting from 1). */
  function DrawOf(seed: bv32, n: nat): nat {
    PickIndex(Mix(StateAfter(seed, n)))
  }

  /** The index stream of the generator seeded with `seed`. */
  function DailyDraw(seed: bv32): nat -> nat {
    n => DrawOf(seed, n)
  }

  /** The first `n` values of the index stream `draw` (calls 1 to `n`). */
  function Picks(draw: nat -> nat, n: nat): (ps: seq<nat>)
    ensures |ps| == n
    ensures forall i :: 0 <= i < n ==> ps[i] == draw(i + 1)
  {
    if n == 0 then [] else Picks(draw, n - 1) + [draw(n)]
  }

  // ---------------------------------------------------------------------------
  // The index set

  /** The `indices` set after the first `k` draws of `draw`, kept in insertion order. */
  function IndexSet(draw: nat -> nat, k: nat): (s: seq<nat>)
    ensures NoDuplicates(s) && |s| <= k
  {
    if k == 0 then [] else SetAdd(IndexSet(draw, k - 1), draw(k))
  }

  /** The set is the first occurrences of the drawn values, in order. */
  lemma {:induction false} IndexSetIsFirsts(draw: nat -> nat, k: nat)
    ensures IndexSet(draw, k) == Firsts<nat>(Picks(draw, k))
  {
    if k > 0 {
      IndexSetIsFirsts(draw, k - 1);
      assert Picks(draw, k) == Picks(draw, k - 1) + [draw(k)];
      FirstsStep<nat>(Picks(draw, k - 1), draw(k));
    }
  }

  /** Every drawn index is below 16. */
  lemma IndexSetInRange(draw: nat -> nat, n: nat)
    requires forall m :: draw(m) < |MODULES|
    ensures InRange(IndexSet(draw, n))
  {
    var ps := Picks(draw, n);
    IndexSetIsFirsts(draw, n);
    forall i | 0 <= i < |Firsts<nat>(ps)| ensures Firsts<nat>(ps)[i] < |MODULES| {
      assert Firsts<nat>(ps)[i] in ps;
    }
  }

  predicate InRange(xs: seq<nat>) {
    forall i :: 0 <= i < |xs| ==> xs[i] < |MODULES|
  }

  /**
   * The `while (indices.size < 3)` loop over the stream `draw` of values
   * `Math.floor(random() * MODULES.length)`, with a bound on the number of
   * draws: `Some((k, indices))` when the set reaches three members on the
   * `k`-th draw, `None` if it has not within `fuel` draws.
   */
  method CollectIndices(draw: nat -> nat, fuel: nat) returns (r: Option<(nat, seq<nat>)>)
    ensures Collected(draw, fuel, r)
  {
    var indices: seq<nat> := [];
    var k := 0;
    while |indices| < DAILY_COUNT && k < fuel
      invariant 0 <= k <= fuel
      invariant indices == IndexSet(draw, k)
      invariant k > 0 ==> |IndexSet(draw, k - 1)| < DAILY_COUNT
    {
      indices := AddDraw(draw, k, indices);
      k := k + 1;
    }
    LoopExit(draw, fuel, k);
    if |indices| < DAILY_COUNT {
      r := None;
    } else {
      r := Some((k, indices));
    }
  }

  /** Where the loop stops, its outcome is the one `Collected` describes. */
  lemma LoopExit(draw: nat -> nat, fuel: nat, k: nat)
    requires k <= fuel
    requires |IndexSet(draw, k)| >= DAILY_COUNT || k == fuel
    requires k > 0 ==> |IndexSet(draw, k - 1)| < DAILY_COUNT
    ensures Collected(draw, fuel, if |IndexSet(draw, k)| < DAILY_COUNT then None else Some((k, IndexSet(draw, k))))
  {
    if |IndexSet(draw, k)| < DAILY_COUNT {
      SmallBefore(draw, k);
    } else {
      FirstFull(draw, k);
    }
  }

  /** One pass of the loop body: `indices.add(draw)` for the next draw. */
  method AddDraw(draw: nat -> nat, k: nat, indices: seq<nat>) returns (next: seq<nat>)
    requires indices == IndexSet(draw, k)
    ensures next == IndexSet(draw, k + 1)
    ensures |next| <= |indices| + 1
  {
    next := SetAdd(indices, draw(k + 1));
  }

  /**
   * What the loop leaves: the first count of draws that fills the set,
   * with the set itself, or `None` when no count up to `fuel` fills it.
   */
  predicate Collected(draw: nat -> nat, fuel: nat, r: Option<(nat, seq<nat>)>) {
    match r
    case None => ShortThrough(draw, fuel)
    case Some((k, xs)) => 0 < k <= fuel && xs == IndexSet(draw, k) && FirstFullAt(draw, k)
  }

  /** After `k` draws the set is full for the first time. */
  predicate FirstFullAt(draw: nat -> nat, k: nat) {
    && |IndexSet(draw, k)| == DAILY_COUNT
    && forall j :: 0 <= j < k ==> |IndexSet(draw, j)| < DAILY_COUNT
  }

  /** The set stays short through the first `n` draws. */
  predicate ShortThrough(draw: nat -> nat, n: nat) {
    forall j :: 0 <= j <= n ==> |IndexSet(draw, j)| < DAILY_COUNT
  }

  /** The first count whose set is full holds exactly `DAILY_COUNT` indices, and every earlier one is short. */
  lemma FirstFull(draw: nat -> nat, k: nat)
    requires k > 0 ==> |IndexSet(draw, k - 1)| < DAILY_COUNT
    requires |IndexSet(draw, k)| >= DAILY_COUNT
    ensures k > 0 && FirstFullAt(draw, k)
  {
    IndexSetStep(draw, k - 1);
    SmallBefore(draw, k - 1);
  }

  /** One more draw adds at most one index. */
  lemma IndexSetStep(draw: nat -> nat, k: nat)
    ensures |IndexSet(draw, k + 1)| <= |IndexSet(draw, k)| + 1
  {
    assert IndexSet(draw, k + 1) == SetAdd(IndexSet(draw, k), draw(k + 1));
  }

  /** If the set is still short after `k` draws, it was short after every earlier count too. */
  lemma SmallBefore(draw: nat -> nat, k: nat)
    requires |IndexSet(draw, k)| < DAILY_COUNT
    ensures ShortThrough(draw, k)
  {
    forall j | 0 <= j <= k ensures |IndexSet(draw, j)| < DAILY_COUNT {
      SetGrows(draw, j, k);
    }
  }

  /** More draws never shrink the set. */
  lemma {:induction false} SetGrows(draw: nat -> nat, j: nat, k: nat)
    requires j <= k
    ensures |IndexSet(draw, j)| <= |IndexSet(draw, k)|
    decreases k - j
  {
    if j < k {
      SetGrows(draw, j + 1, k);
    }
  }

  /** The modules at the given indices. */
  function ModulesAt(xs: seq<nat>): (ms: seq<ModuleData>)
    requires InRange(xs)
    ensures |ms| == |xs| && forall i :: 0 <= i < |xs| ==> ms[i] == MODULES[xs[i]]
  {
    if |xs| == 0 then [] else [MODULES[xs[0]]] + ModulesAt(xs[1..])
  }

  /**
   * `getDailyModules(dateSeed)`: three different modules, in the order
   * their indices were first drawn, or `None` if the draws run past `fuel`.
   */
  method GetDailyModules(dateSeed: string, fuel: nat) returns (r: Option<seq<ModuleData>>)
    ensures r.Some? ==> |r.value| == DAILY_COUNT && DistinctIds(r.value)
    ensures r.Some? ==> forall m :: m in r.value ==> m in MODULES
    ensures r.Some? ==> exists k :: (0 < k <= fuel && FirstFullAt(DailyDraw(DateHash(dateSeed)), k) &&
      InRange(IndexSet(DailyDraw(DateHash(dateSeed)), k)) && r.value == ModulesAt(IndexSet(DailyDraw(DateHash(dateSeed)), k)))
    ensures r.None? ==> ShortThrough(DailyDraw(DateHash(dateSeed)), fuel)
  {
    var c := CollectIndices(DailyDraw(DateHash(dateSeed)), fuel);
    if c.None? {
      return None;
    }
    var (k, xs) := c.value;
    ModulesWellFormed();
    IndexSetInRange(DailyDraw(DateHash(dateSeed)), k);
    var ms := ModulesAt(xs);
    forall i, j | 0 <= i < j < |ms| ensures ms[i].id != ms[j].id {
      var a, b := xs[i], xs[j];
      assert a != b && a < |MODULES| && b < |MODULES|;
      assert ms[i] == MODULES[a] && ms[j] == MODULES[b];
      DistinctAt(MODULES, a, b);
    }
    return Some(ms);
  }

  lemma DistinctAt(mods: seq<ModuleData>, a: nat, b: nat)
    requires DistinctIds(mods) && a < |mods| && b < |mods| && a != b
    ensures mods[a].id != mods[b].id
  {
    if a > b {
      assert mods[b].id != mods[a].id;
    }
  }

  /** The number of draws the loop takes is fixed by the seed: the first `k` at which three indices are in. */
  lemma DrawCountIsDetermined(draw: nat -> nat, k1: nat, k2: nat)
    requires FirstFullAt(draw, k1) && FirstFullAt(draw, k2)
    ensures k1 == k2
  {
  }
}
