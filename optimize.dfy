/**
 * Optimize: evolves a pool of chromosomes for a fixed number of generations
 * and returns the fittest one.
 *
 * The random generator is a stream of bytes `rng` read from a position that
 * advances with every draw, in the order the source makes them: one byte per
 * key for each random chromosome, one mask per key for each crossover.
 */
module Optimize {
  import opened Chromosomes

  /** Size of the initial pool. */
  const PoolSize: nat := 16
  /** A pool longer than this is cut back to its first MaxPoolSize entries. */
  const MaxPoolSize: nat := 80
  /** Number of generations Optimize runs. */
  const Generations: nat := 24

  /** A pool together with the position reached in the random stream. */
  type PoolState = (seq<Chromosome>, nat)

  /** The n bytes of the stream starting at pos. */
  function Draw(rng: nat -> bv8, pos: nat, n: nat): (r: seq<bv8>)
    ensures |r| == n
    ensures forall i :: 0 <= i < n ==> r[i] == rng(pos + i)
  {
    seq(n, i requires 0 <= i < n => rng(pos + i))
  }

  /** Every member of the pool is a chromosome over exactly the given keys. */
  ghost predicate OverKeys(pool: seq<Chromosome>, keys: seq<string>) {
    forall c :: c in pool ==> c.traitKeys == keys && c.traits.Keys == KeySet(keys)
  }

  /** The best fitness found in a non-empty pool. */
  function Best(fitness: Chromosome -> int, pool: seq<Chromosome>): int
    requires |pool| > 0
  {
    fitness(Fittest(fitness, pool))
  }

  // ---------------------------------------------------------------------------
  // The initial pool

  /**
   * The first count chromosomes built one after the other from the start of
   * the stream, and the stream position after them.
   */
  function BuildPool(keys: seq<string>, rng: nat -> bv8, count: nat): (r: PoolState)
    ensures |r.0| == count
  {
    if count == 0 then ([], 0)
    else
      var prev := BuildPool(keys, rng, count - 1);
      (prev.0 + [Build(keys, Draw(rng, prev.1, |keys|))], prev.1 + |keys|)
  }

  /** The starting pool: PoolSize chromosomes built from the start of the stream. */
  function InitialPool(keys: seq<string>, rng: nat -> bv8): (pool: seq<Chromosome>)
    ensures |pool| == PoolSize
  {
    BuildPool(keys, rng, PoolSize).0
  }

  /** Building count chromosomes reads count * |keys| bytes. */
  lemma {:induction false} BuildPoolEnd(keys: seq<string>, rng: nat -> bv8, count: nat)
    ensures BuildPool(keys, rng, count).1 == count * |keys|
  {
    if count > 0 {
      BuildPoolEnd(keys, rng, count - 1);
      assert (count - 1) * |keys| + |keys| == count * |keys|;
    }
  }

  /** Entry i of a built pool is the chromosome built from the i-th run of |keys| bytes. */
  lemma {:induction false} BuildPoolAt(keys: seq<string>, rng: nat -> bv8, count: nat, i: nat)
    requires i < count
    ensures BuildPool(keys, rng, count).0[i] == Build(keys, Draw(rng, i * |keys|, |keys|))
  {
    var prev := BuildPool(keys, rng, count - 1);
    if i < count - 1 {
      BuildPoolAt(keys, rng, count - 1, i);
      assert BuildPool(keys, rng, count).0[i] == prev.0[i];
    } else {
      BuildPoolEnd(keys, rng, count - 1);
    }
  }

  /** Built chromosomes all carry the builder's keys. */
  lemma {:induction false} BuildPoolOverKeys(keys: seq<string>, rng: nat -> bv8, count: nat)
    ensures OverKeys(BuildPool(keys, rng, count).0, keys)
  {
    if count > 0 {
      BuildPoolOverKeys(keys, rng, count - 1);
      var prev := BuildPool(keys, rng, count - 1);
      BuildKeys(keys, Draw(rng, prev.1, |keys|));
    }
  }

  // ---------------------------------------------------------------------------
  // One generation

  /** The pool cut back to its first MaxPoolSize entries when it is longer. */
  function Cut(pool: seq<Chromosome>): (kept: seq<Chromosome>)
    ensures |kept| == if |pool| > MaxPoolSize then MaxPoolSize else |pool|
    ensures kept == pool[..|kept|]
  {
    if |pool| > MaxPoolSize then pool[..MaxPoolSize] else pool
  }

  /** Appends the crossover of the elite with entry j, drawing one mask per elite key. */
  function AppendCross(elite: Chromosome, s: PoolState, j: nat, rng: nat -> bv8): (r: PoolState)
    requires j < |s.0|
    ensures |r.0| == |s.0| + 1
  {
    (s.0 + [Recombine(elite, s.0[j], Draw(rng, s.1, |elite.traitKeys|))], s.1 + |elite.traitKeys|)
  }

  /** Appends a random chromosome over keys. */
  function AppendFresh(keys: seq<string>, s: PoolState, rng: nat -> bv8): (r: PoolState)
    ensures |r.0| == |s.0| + 1
  {
    (s.0 + [Build(keys, Draw(rng, s.1, |keys|))], s.1 + |keys|)
  }

  /** The crossover of the elite with a random chromosome over keys, both drawn from pos on. */
  function CrossFresh(elite: Chromosome, keys: seq<string>, rng: nat -> bv8, pos: nat): Chromosome
  {
    Recombine(elite, Build(keys, Draw(rng, pos, |keys|)), Draw(rng, pos + |keys|, |elite.traitKeys|))
  }

  /** Replaces entry j by the crossover of the elite with a random chromosome over keys. */
  function ReplaceCross(elite: Chromosome, keys: seq<string>, s: PoolState, j: nat, rng: nat -> bv8): (r: PoolState)
    requires j < |s.0|
    ensures |r.0| == |s.0|
  {
    (s.0[j := CrossFresh(elite, keys, rng, s.1)], s.1 + |keys| + |elite.traitKeys|)
  }

  /**
   * The growing half of a generation: three crossovers of the elite with the
   * entries at len-1, len-3 and len-5 of the cut pool, then one random
   * chromosome, are appended in that order.
   */
  function Grow(elite: Chromosome, keys: seq<string>, kept: seq<Chromosome>, rng: nat -> bv8, pos: nat): (r: PoolState)
    requires |kept| >= 5
    ensures |r.0| == |kept| + 4
  {
    var len := |kept|;
    var s1 := AppendCross(elite, (kept, pos), len - 1, rng);
    var s2 := AppendCross(elite, s1, len - 3, rng);
    var s3 := AppendCross(elite, s2, len - 5, rng);
    AppendFresh(keys, s3, rng)
  }

  /**
   * The overwriting half of a generation: slots 4 and 1 get crossovers of the
   * elite with fresh random chromosomes, slot 0 the elite itself.
   */
  function Finish(elite: Chromosome, keys: seq<string>, s: PoolState, rng: nat -> bv8): (r: PoolState)
    requires |s.0| >= 5
    ensures |r.0| == |s.0|
  {
    var s5 := ReplaceCross(elite, keys, s, 4, rng);
    var s6 := ReplaceCross(elite, keys, s5, 1, rng);
    (s6.0[0 := elite], s6.1)
  }

  /** What a generation does once the elite is chosen and the pool is cut. */
  function Breed(elite: Chromosome, keys: seq<string>, kept: seq<Chromosome>, rng: nat -> bv8, pos: nat): (r: PoolState)
    requires |kept| >= 5
    ensures |r.0| == |kept| + 4
  {
    Finish(elite, keys, Grow(elite, keys, kept, rng, pos), rng)
  }

  /**
   * One generation: the elite is taken from the whole pool, then the pool is
   * cut to MaxPoolSize and bred.
   */
  function NextPool(fitness: Chromosome -> int, keys: seq<string>, s: PoolState, rng: nat -> bv8): (r: PoolState)
    requires |s.0| >= 5
    ensures |r.0| == (if |s.0| > MaxPoolSize then MaxPoolSize else |s.0|) + 4
  {
    Breed(Fittest(fitness, s.0), keys, Cut(s.0), rng, s.1)
  }

  /** Growing draws m masks per crossover (m the elite's key count) and n bytes for the random chromosome. */
  lemma GrowEnd(elite: Chromosome, keys: seq<string>, kept: seq<Chromosome>, rng: nat -> bv8, pos: nat)
    requires |kept| >= 5
    ensures Grow(elite, keys, kept, rng, pos).1 == pos + |elite.traitKeys| * 3 + |keys|
  {
  }

  /**
   * Growing keeps the cut pool as a prefix and appends, in this order, the
   * crossovers with the entries at len-1, len-3 and len-5 and a random
   * chromosome, each drawn where the previous one stopped.
   */
  lemma GrowLayout(elite: Chromosome, keys: seq<string>, kept: seq<Chromosome>, rng: nat -> bv8, pos: nat)
    requires |kept| >= 5
    ensures var r, len, m, n := Grow(elite, keys, kept, rng, pos), |kept|, |elite.traitKeys|, |keys|;
      && r.0[..len] == kept
      && r.0[len] == Recombine(elite, kept[len - 1], Draw(rng, pos, m))
      && r.0[len + 1] == Recombine(elite, kept[len - 3], Draw(rng, pos + m, m))
      && r.0[len + 2] == Recombine(elite, kept[len - 5], Draw(rng, pos + m + m, m))
      && r.0[len + 3] == Build(keys, Draw(rng, pos + m + m + m, n))
  {
    var len, m := |kept|, |elite.traitKeys|;
    var s1 := AppendCross(elite, (kept, pos), len - 1, rng);
    var s2 := AppendCross(elite, s1, len - 3, rng);
    var s3 := AppendCross(elite, s2, len - 5, rng);
    assert s3.0 == kept + [s1.0[len], s2.0[len + 1], s3.0[len + 2]];
  }

  /** Finishing draws two random chromosomes of n bytes and two crossovers of m masks. */
  lemma FinishEnd(elite: Chromosome, keys: seq<string>, s: PoolState, rng: nat -> bv8)
    requires |s.0| >= 5
    ensures Finish(elite, keys, s, rng).1 == s.1 + (|keys| + |elite.traitKeys|) * 2
  {
  }

  /**
   * Finishing overwrites slot 0 with the elite and slots 4 and 1 with
   * crossovers of the elite with fresh random chromosomes, drawn from the
   * stream position of s in that order, and leaves every other entry alone.
   */
  lemma FinishLayout(elite: Chromosome, keys: seq<string>, s: PoolState, rng: nat -> bv8)
    requires |s.0| >= 5
    ensures var r, m, n, p := Finish(elite, keys, s, rng), |elite.traitKeys|, |keys|, s.1;
      && r.0[0] == elite
      && r.0[4] == CrossFresh(elite, keys, rng, p)
      && r.0[1] == CrossFresh(elite, keys, rng, p + n + m)
      && forall j :: 1 < j < |s.0| && j != 4 ==> r.0[j] == s.0[j]
  {
    var s5 := ReplaceCross(elite, keys, s, 4, rng);
    var s6 := ReplaceCross(elite, keys, s5, 1, rng);
    assert s6.0[4] == s5.0[4];
  }

  /**
   * Breeding overwrites slot 0 with the elite and slots 4 and 1 with
   * crossovers of the elite with fresh random chromosomes, drawn after the
   * appended entries.
   */
  lemma BreedOverwrites(elite: Chromosome, keys: seq<string>, kept: seq<Chromosome>, rng: nat -> bv8, pos: nat)
    requires |kept| >= 5
    ensures var r, m, n := Breed(elite, keys, kept, rng, pos), |elite.traitKeys|, |keys|;
      var p4 := pos + m + m + m + n;
      && r.1 == p4 + n + m + n + m
      && r.0[0] == elite
      && r.0[4] == CrossFresh(elite, keys, rng, p4)
      && r.0[1] == CrossFresh(elite, keys, rng, p4 + n + m)
  {
    GrowEnd(elite, keys, kept, rng, pos);
    FinishEnd(elite, keys, Grow(elite, keys, kept, rng, pos), rng);
    FinishLayout(elite, keys, Grow(elite, keys, kept, rng, pos), rng);
  }

  /** Every other entry that survived the cut is left as it was. */
  lemma BreedKeeps(elite: Chromosome, keys: seq<string>, kept: seq<Chromosome>, rng: nat -> bv8, pos: nat, j: nat)
    requires |kept| >= 5 && 1 < j < |kept| && j != 4
    ensures Breed(elite, keys, kept, rng, pos).0[j] == kept[j]
  {
    var g := Grow(elite, keys, kept, rng, pos);
    GrowLayout(elite, keys, kept, rng, pos);
    FinishLayout(elite, keys, g, rng);
    assert g.0[j] == g.0[..|kept|][j];
  }

  /**
   * Behind the surviving entries come the crossovers of the elite with the
   * entries at len-1, len-3 and len-5, then a random chromosome, drawn from
   * the stream in that order.
   */
  lemma BreedAppends(elite: Chromosome, keys: seq<string>, kept: seq<Chromosome>, rng: nat -> bv8, pos: nat)
    requires |kept| >= 5
    ensures var r, len, m, n := Breed(elite, keys, kept, rng, pos), |kept|, |elite.traitKeys|, |keys|;
      && r.0[len] == Recombine(elite, kept[len - 1], Draw(rng, pos, m))
      && r.0[len + 1] == Recombine(elite, kept[len - 3], Draw(rng, pos + m, m))
      && r.0[len + 2] == Recombine(elite, kept[len - 5], Draw(rng, pos + m + m, m))
      && r.0[len + 3] == Build(keys, Draw(rng, pos + m + m + m, n))
  {
    GrowLayout(elite, keys, kept, rng, pos);
    FinishLayout(elite, keys, Grow(elite, keys, kept, rng, pos), rng);
  }

  /** Slot 0 of the next pool holds the elite of the pool as it was, even when the cut dropped it. */
  lemma NextPoolElite(fitness: Chromosome -> int, keys: seq<string>, s: PoolState, rng: nat -> bv8)
    requires |s.0| >= 5
    ensures NextPool(fitness, keys, s, rng).0[0] == Fittest(fitness, s.0)
  {
    BreedOverwrites(Fittest(fitness, s.0), keys, Cut(s.0), rng, s.1);
  }

  /**
   * Apart from slots 0, 1 and 4, every entry that survives the cut keeps its
   * place and its value.
   */
  lemma NextPoolKeeps(fitness: Chromosome -> int, keys: seq<string>, s: PoolState, rng: nat -> bv8, j: nat)
    requires |s.0| >= 5 && 1 < j < |s.0| && j < MaxPoolSize && j != 4
    ensures NextPool(fitness, keys, s, rng).0[j] == s.0[j]
  {
    BreedKeeps(Fittest(fitness, s.0), keys, Cut(s.0), rng, s.1, j);
  }

  /** The best fitness of the pool never goes down from one generation to the next. */
  lemma NextPoolNeverWorse(fitness: Chromosome -> int, keys: seq<string>, s: PoolState, rng: nat -> bv8)
    requires |s.0| >= 5
    ensures Best(fitness, NextPool(fitness, keys, s, rng).0) >= Best(fitness, s.0)
  {
    var next := NextPool(fitness, keys, s, rng).0;
    NextPoolElite(fitness, keys, s, rng);
    assert fitness(next[0]) <= Best(fitness, next);
  }

  /** Appending a crossover of an elite over keys keeps a pool over keys. */
  lemma AppendCrossOverKeys(elite: Chromosome, keys: seq<string>, s: PoolState, j: nat, rng: nat -> bv8)
    requires j < |s.0| && OverKeys(s.0, keys) && elite.traitKeys == keys
    ensures OverKeys(AppendCross(elite, s, j, rng).0, keys)
  {
    RecombineKeys(elite, s.0[j], Draw(rng, s.1, |elite.traitKeys|));
  }

  /** Appending a random chromosome over keys keeps a pool over keys. */
  lemma AppendFreshOverKeys(keys: seq<string>, s: PoolState, rng: nat -> bv8)
    requires OverKeys(s.0, keys)
    ensures OverKeys(AppendFresh(keys, s, rng).0, keys)
  {
    BuildKeys(keys, Draw(rng, s.1, |keys|));
  }

  /** Overwriting an entry of a pool over keys with a chromosome over keys keeps it over keys. */
  lemma UpdateOverKeys(pool: seq<Chromosome>, keys: seq<string>, j: nat, c: Chromosome)
    requires j < |pool| && OverKeys(pool, keys)
    requires c.traitKeys == keys && c.traits.Keys == KeySet(keys)
    ensures OverKeys(pool[j := c], keys)
  {
    forall d | d in pool[j := c]
      ensures d.traitKeys == keys && d.traits.Keys == KeySet(keys)
    {
      var i :| 0 <= i < |pool| && pool[j := c][i] == d;
      if i != j {
        assert d == pool[i];
      }
    }
  }

  /** Overwriting an entry with a crossover of an elite over keys keeps a pool over keys. */
  lemma ReplaceCrossOverKeys(elite: Chromosome, keys: seq<string>, s: PoolState, j: nat, rng: nat -> bv8)
    requires j < |s.0| && OverKeys(s.0, keys) && elite.traitKeys == keys
    ensures OverKeys(ReplaceCross(elite, keys, s, j, rng).0, keys)
  {
    var n := |keys|;
    var parent := Build(keys, Draw(rng, s.1, n));
    var child := Recombine(elite, parent, Draw(rng, s.1 + n, n));
    RecombineKeys(elite, parent, Draw(rng, s.1 + n, n));
    UpdateOverKeys(s.0, keys, j, child);
  }

  /** Breeding from an elite over keys keeps a pool over keys. */
  lemma BreedOverKeys(elite: Chromosome, keys: seq<string>, kept: seq<Chromosome>, rng: nat -> bv8, pos: nat)
    requires |kept| >= 5 && OverKeys(kept, keys)
    requires elite.traitKeys == keys && elite.traits.Keys == KeySet(keys)
    ensures OverKeys(Breed(elite, keys, kept, rng, pos).0, keys)
  {
    var len := |kept|;
    var s1 := AppendCross(elite, (kept, pos), len - 1, rng);
    AppendCrossOverKeys(elite, keys, (kept, pos), len - 1, rng);
    var s2 := AppendCross(elite, s1, len - 3, rng);
    AppendCrossOverKeys(elite, keys, s1, len - 3, rng);
    var s3 := AppendCross(elite, s2, len - 5, rng);
    AppendCrossOverKeys(elite, keys, s2, len - 5, rng);
    var s4 := AppendFresh(keys, s3, rng);
    AppendFreshOverKeys(keys, s3, rng);
    var s5 := ReplaceCross(elite, keys, s4, 4, rng);
    ReplaceCrossOverKeys(elite, keys, s4, 4, rng);
    var s6 := ReplaceCross(elite, keys, s5, 1, rng);
    ReplaceCrossOverKeys(elite, keys, s5, 1, rng);
    UpdateOverKeys(s6.0, keys, 0, elite);
  }

  /** A pool over the builder's keys stays over them: crossovers keep the elite's keys. */
  lemma NextPoolOverKeys(fitness: Chromosome -> int, keys: seq<string>, s: PoolState, rng: nat -> bv8)
    requires |s.0| >= 5 && OverKeys(s.0, keys)
    ensures OverKeys(NextPool(fitness, keys, s, rng).0, keys)
  {
    var kept := Cut(s.0);
    forall c | c in kept
      ensures c in s.0
    {
      var i :| 0 <= i < |kept| && kept[i] == c;
      assert s.0[i] == c;
    }
    BreedOverKeys(Fittest(fitness, s.0), keys, kept, rng, s.1);
  }

  // ---------------------------------------------------------------------------
  // A whole run

  /**
   * One generation as a step from a pool and stream position to the next.
   * A run never holds fewer than PoolSize entries (Run), so the pools too
   * short for a generation, which the step leaves alone, never occur in one.
   */
  function Step(fitness: Chromosome -> int, keys: seq<string>, rng: nat -> bv8): PoolState -> PoolState
  {
    (s: PoolState) => if |s.0| >= 5 then NextPool(fitness, keys, s, rng) else s
  }

  /** step agrees with NextPool on every pool long enough for a generation. */
  ghost predicate Advances(step: PoolState -> PoolState, fitness: Chromosome -> int, keys: seq<string>, rng: nat -> bv8)
  {
    forall t: PoolState {:trigger NextPool(fitness, keys, t, rng)} :: |t.0| >= 5 ==> step(t) == NextPool(fitness, keys, t, rng)
  }

  /** Step is such a step. */
  lemma StepAdvances(fitness: Chromosome -> int, keys: seq<string>, rng: nat -> bv8)
    ensures Advances(Step(fitness, keys, rng), fitness, keys, rng)
  {
  }

  /** step applied k times, starting from s. */
  function Iterate(step: PoolState -> PoolState, s: PoolState, k: nat): PoolState
    decreases k
  {
    if k == 0 then s else step(Iterate(step, s, k - 1))
  }

  /** A property every step carries over holds after any number of steps. */
  lemma {:induction false} IterateKeeps(step: PoolState -> PoolState, inv: PoolState -> bool, s: PoolState, k: nat)
    requires inv(s)
    requires forall t :: inv(t) ==> inv(step(t))
    ensures inv(Iterate(step, s, k))
    decreases k
  {
    if k > 0 {
      IterateKeeps(step, inv, s, k - 1);
    }
  }

  /**
   * A pool of 16 to 84 entries keeps that size: it grows by four entries a
   * generation until it exceeds 80 and is cut back to 80 + 4.
   */
  lemma StepKeepsSize(fitness: Chromosome -> int, keys: seq<string>, rng: nat -> bv8, s: PoolState, k: nat)
    requires PoolSize <= |s.0| <= MaxPoolSize + 4
    ensures PoolSize <= |Iterate(Step(fitness, keys, rng), s, k).0| <= MaxPoolSize + 4
  {
    var sized := (t: PoolState) => PoolSize <= |t.0| <= MaxPoolSize + 4;
    IterateKeeps(Step(fitness, keys, rng), sized, s, k);
  }

  /** The pool and stream position after k generations from the initial pool. */
  function Run(fitness: Chromosome -> int, keys: seq<string>, rng: nat -> bv8, k: nat): (r: PoolState)
    ensures PoolSize <= |r.0| <= MaxPoolSize + 4
  {
    StepKeepsSize(fitness, keys, rng, BuildPool(keys, rng, PoolSize), k);
    Iterate(Step(fitness, keys, rng), BuildPool(keys, rng, PoolSize), k)
  }

  /**
   * Every pool of a run holds only chromosomes over the builder's keys, and
   * its best is at least the initial pool's best.
   */
  lemma RunInvariants(fitness: Chromosome -> int, keys: seq<string>, rng: nat -> bv8, k: nat)
    ensures OverKeys(Run(fitness, keys, rng, k).0, keys)
    ensures Best(fitness, Run(fitness, keys, rng, k).0) >= Best(fitness, InitialPool(keys, rng))
  {
    var step := Step(fitness, keys, rng);
    var init := BuildPool(keys, rng, PoolSize);
    var b := Best(fitness, init.0);

    var over := (t: PoolState) => |t.0| >= 5 && OverKeys(t.0, keys);
    forall t | over(t)
      ensures over(step(t))
    {
      NextPoolOverKeys(fitness, keys, t, rng);
    }
    BuildPoolOverKeys(keys, rng, PoolSize);
    IterateKeeps(step, over, init, k);

    var atLeast := (t: PoolState) => |t.0| >= 5 && Best(fitness, t.0) >= b;
    forall t | atLeast(t)
      ensures atLeast(step(t))
    {
      NextPoolNeverWorse(fitness, keys, t, rng);
    }
    IterateKeeps(step, atLeast, init, k);
  }

  // ---------------------------------------------------------------------------
  // The methods

  /**
   * mostFit, the package's own copy of Chromosomes.MostFit: the first
   * candidate reaching the greatest fitness; no candidates is an error.
   */
  method MostFit(fitness: Chromosome -> int, candidates: seq<Chromosome>) returns (r: Result<Chromosome>)
    ensures |candidates| == 0 ==> r == Err(NoCandidates)
    ensures |candidates| > 0 ==> r == Ok(Fittest(fitness, candidates))
  {
    if |candidates| == 0 {
      return Err(NoCandidates);
    }
    var topcandidate := candidates[0];
    var topfitness := fitness(topcandidate);
    ghost var top: nat := 0;
    for i := 0 to |candidates|
      invariant top < |candidates| && topcandidate == candidates[top]
      invariant topfitness == fitness(topcandidate)
      invariant forall j :: 0 <= j < i ==> fitness(candidates[j]) <= topfitness
      invariant forall j :: 0 <= j < top ==> fitness(candidates[j]) < topfitness
    {
      var f := fitness(candidates[i]);
      if f > topfitness {
        topfitness := f;
        topcandidate := candidates[i];
        top := i;
      }
    }
    FirstMaxIndexUnique(fitness, candidates, top);
    r := Ok(topcandidate);
  }

  /** Appends the crossover of the elite with entry j of the pool. */
  method AppendCrossover(elite: Chromosome, s: PoolState, j: nat, rng: nat -> bv8) returns (r: PoolState)
    requires j < |s.0|
    ensures r == AppendCross(elite, s, j, rng)
  {
    var m := |elite.traitKeys|;
    var child := Crossover(elite, s.0[j], Draw(rng, s.1, m));
    r := (s.0 + [child], s.1 + m);
  }

  /** Appends a random chromosome from the builder. */
  method AppendRandom(cb: ChromosomeBuilder, s: PoolState, rng: nat -> bv8) returns (r: PoolState)
    ensures r == AppendFresh(cb.traitKeys, s, rng)
  {
    var n := |cb.traitKeys|;
    var c := cb.BuildRandom(Draw(rng, s.1, n));
    r := (s.0 + [c], s.1 + n);
  }

  /** Overwrites entry j with the crossover of the elite with a random chromosome from the builder. */
  method ReplaceCrossover(elite: Chromosome, cb: ChromosomeBuilder, s: PoolState, j: nat, rng: nat -> bv8)
    returns (r: PoolState)
    requires j < |s.0|
    ensures r == ReplaceCross(elite, cb.traitKeys, s, j, rng)
  {
    var m, n := |elite.traitKeys|, |cb.traitKeys|;
    var parent := cb.BuildRandom(Draw(rng, s.1, n));
    var child := Crossover(elite, parent, Draw(rng, s.1 + n, m));
    r := (s.0[j := child], s.1 + n + m);
  }

  /** The appending half of the generation loop's body, on the cut pool. */
  method GrowPool(elite: Chromosome, cb: ChromosomeBuilder, pool: seq<Chromosome>, pos: nat, rng: nat -> bv8)
    returns (r: PoolState)
    requires |pool| >= 5
    ensures r == Grow(elite, cb.traitKeys, pool, rng, pos)
  {
    var poolLength := |pool|;
    r := (pool, pos);
    r := AppendCrossover(elite, r, poolLength - 1, rng);
    r := AppendCrossover(elite, r, poolLength - 3, rng);
    r := AppendCrossover(elite, r, poolLength - 5, rng);
    r := AppendRandom(cb, r, rng);
  }

  /** The overwriting half of the generation loop's body. */
  method FinishPool(elite: Chromosome, cb: ChromosomeBuilder, s: PoolState, rng: nat -> bv8)
    returns (r: PoolState)
    requires |s.0| >= 5
    ensures r == Finish(elite, cb.traitKeys, s, rng)
  {
    r := ReplaceCrossover(elite, cb, s, 4, rng);
    r := ReplaceCrossover(elite, cb, r, 1, rng);
    r := (r.0[0 := elite], r.1);
  }

  /**
   * The body of stepOptimize's generation loop, drawing from the stream at
   * s.1: one step of any `step` that agrees with NextPool.
   */
  method Generation(fitness: Chromosome -> int, cb: ChromosomeBuilder, s: PoolState, rng: nat -> bv8,
                    ghost step: PoolState -> PoolState)
    returns (r: PoolState)
    requires |s.0| >= 5 && Advances(step, fitness, cb.traitKeys, rng)
    ensures r == step(s)
  {
    var found := MostFit(fitness, s.0);
    var elite := found.value;
    var pool := s.0;
    if |pool| > MaxPoolSize {
      pool := pool[..MaxPoolSize];
    }
    r := GrowPool(elite, cb, pool, s.1, rng);
    r := FinishPool(elite, cb, r, rng);
    assert r == NextPool(fitness, cb.traitKeys, s, rng);
  }

  /** The initial-pool loop of stepOptimize: PoolSize chromosomes built from the start of the stream. */
  method InitPool(cb: ChromosomeBuilder, rng: nat -> bv8) returns (r: PoolState)
    ensures r == BuildPool(cb.traitKeys, rng, PoolSize)
  {
    var n := |cb.traitKeys|;
    r := ([], 0);
    for i := 0 to PoolSize
      invariant r == BuildPool(cb.traitKeys, rng, i)
    {
      var c := cb.BuildRandom(Draw(rng, r.1, n));
      r := (r.0 + [c], r.1 + n);
    }
  }

  /**
   * The generation loop of stepOptimize: `steps` generations, none when steps
   * is not positive, each one a step of any `step` that agrees with NextPool.
   */
  method Evolve(fitness: Chromosome -> int, cb: ChromosomeBuilder, s: PoolState, steps: int, rng: nat -> bv8,
                ghost step: PoolState -> PoolState)
    returns (r: PoolState)
    requires |s.0| >= 5 && Advances(step, fitness, cb.traitKeys, rng)
    requires forall t: PoolState :: |t.0| >= 5 ==> |step(t).0| >= 5
    ensures r == Iterate(step, s, if steps > 0 then steps else 0)
    ensures |r.0| >= 5
  {
    ghost var total: nat := if steps > 0 then steps else 0;
    r := s;
    var i := 0;
    while i < steps
      invariant 0 <= i <= total && |r.0| >= 5
      invariant r == Iterate(step, s, i)
    {
      r := Generation(fitness, cb, r, rng, step);
      i := i + 1;
    }
  }

  /**
   * stepOptimize: builds the initial pool, runs `steps` generations (none when
   * steps is not positive) and returns the fittest chromosome of the final pool.
   */
  method StepOptimize(fitness: Chromosome -> int, cb: ChromosomeBuilder, steps: int, rng: nat -> bv8)
    returns (best: Chromosome, ghost finalPool: seq<Chromosome>)
    ensures finalPool == Run(fitness, cb.traitKeys, rng, if steps > 0 then steps else 0).0
    ensures best == Fittest(fitness, finalPool)
    ensures forall c :: c in InitialPool(cb.traitKeys, rng) ==> fitness(c) <= fitness(best)
  {
    var state := InitPool(cb, rng);
    StepAdvances(fitness, cb.traitKeys, rng);
    state := Evolve(fitness, cb, state, steps, rng, Step(fitness, cb.traitKeys, rng));
    var found := MostFit(fitness, state.0);
    best, finalPool := found.value, state.0;
    RunInvariants(fitness, cb.traitKeys, rng, if steps > 0 then steps else 0);
  }

  /** Optimize: exactly Generations generations of stepOptimize. */
  method Optimize(fitness: Chromosome -> int, cb: ChromosomeBuilder, rng: nat -> bv8)
    returns (best: Chromosome)
    ensures best == Fittest(fitness, Run(fitness, cb.traitKeys, rng, Generations).0)
    ensures forall c :: c in InitialPool(cb.traitKeys, rng) ==> fitness(c) <= fitness(best)
  {
    ghost var finalPool;
    best, finalPool := StepOptimize(fitness, cb, Generations, rng);
  }
}
