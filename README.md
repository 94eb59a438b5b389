# chromosomes — a verified model of the genetic-algorithm core

This project models the core of the Go library `chromosomes`, a small
genetic-algorithm package, in Dafny, and proves properties of the model.

- **Chromosomes** (`chromosomes.dfy`):
  - A chromosome is an ordered list of trait names plus a map from each name to an 8-bit value.
  - The `ChromosomeBuilder` class registers unique trait names and builds random chromosomes over them.
  - `Crossover` is bit-level uniform crossover. For each trait it draws a mask `m` and computes `(a & m) | (b & (255 - m))`.
  - `MostFit` returns the first candidate that reaches the greatest fitness.
- **Optimize** (`optimize.dfy`): the pool-evolution loop of `stepOptimize`.
  - It builds 16 random chromosomes.
  - Then it runs the given number of generations (24 for `Optimize`). Each generation:
    - picks the elite (the fittest chromosome of the whole pool);
    - cuts the pool to its first 80 entries when it is longer;
    - appends three crossovers of the elite with the entries at len-1, len-3 and len-5, then one random chromosome;
    - overwrites slot 4 and then slot 1 with crossovers of the elite with fresh random chromosomes;
    - puts the elite in slot 0.
  - It returns the fittest chromosome of the final pool.

Randomness is an input:

- `BuildRandom` receives the byte it draws for each trait.
- `Crossover` receives the mask it draws for each trait.
- The optimizer reads a byte stream `rng: nat -> bv8` from a position that
  every draw advances. The draws come in the order Go evaluates them: the
  random parent is built before the crossover draws its masks.

Structure:

- Fitness is an abstract function `Chromosome -> int`.
- Panics are modelled as error values.
- The methods mirror the source's loops and are proved against specification functions:
  - `Build` for `BuildRandom`;
  - `Recombine` for `Crossover`;
  - `Fittest` and `FirstMaxIndex` for `MostFit`;
  - `NextPool` for one generation;
  - `Run` for a whole run.
- The properties are proved about those functions.

## Model

| member | source | states |
|---|---|---|
| Chromosomes.Get | chromosomes.go:17-21 | the value is the stored one and the flag is true exactly when the trait is present; an absent trait gives (0, false) |
| Chromosomes.ChromosomeBuilder.constructor | chromosomes.go:48-52 | a new builder has no keys and an empty trait map, and satisfies the builder invariant |
| Chromosomes.ChromosomeBuilder.AddTrait | chromosomes.go:54-65 | a registered name is refused with DuplicateTrait and nothing changes; a new name is appended to the end of the key list and recorded with value 1; keys stay duplicate-free and the map records exactly the keys |
| Chromosomes.ChromosomeBuilder.BuildRandom | chromosomes.go:67-84 | the result equals Build(keys, bytes): its key list is a copy of the builder's keys, and its map is filled key by key with the drawn bytes |
| Chromosomes.AssignLast | chromosomes.go:78-81 | filling a map key by key leaves exactly the keys seen so far, each holding the value stored at its last occurrence |
| Chromosomes.AssignAt | chromosomes.go:78-81 | with distinct keys, each key holds exactly the value stored for it |
| Chromosomes.BuildKeys | chromosomes.go:70-84 | a built chromosome has the builder's keys in the same order and a value for every key, and no other |
| Chromosomes.BuildShape | chromosomes.go:70-84 | with distinct keys, a built chromosome is well formed, Get of the i-th key returns (bytes[i], true), and Get of any other name returns (0, false) |
| Chromosomes.Crossover | chromosomes.go:23-40 | the loop builds exactly Recombine(c, other, masks): a fresh map over the receiver's keys, each value mixed under its own mask; neither parent changes |
| Chromosomes.ComplementMask | chromosomes.go:31-34 | 255 - m is the bitwise complement of m |
| Chromosomes.MixSelectsBits | chromosomes.go:31-36 | where the mask has a 1 bit, the child takes that bit from the receiver; where it has a 0 bit, from the other parent |
| Chromosomes.MixKeepsAgreement | chromosomes.go:36 | bits on which both parents agree survive under every mask, and equal parents give that value back |
| Chromosomes.MixExtremes | chromosomes.go:31-36 | mask 255 gives the receiver, mask 0 gives the other parent, and swapping the parents complements the mask |
| Chromosomes.RecombineKeys | chromosomes.go:26-40 | the child has the receiver's key list and exactly one value per receiver key |
| Chromosomes.RecombineAt | chromosomes.go:26-40 | with distinct receiver keys, the child is well formed and its i-th key holds the mix of both parents' values under the i-th mask |
| Chromosomes.RecombineIgnoresOthersExtraTraits | chromosomes.go:29-36 | traits the other parent has beyond the receiver's keys do not affect the child |
| Chromosomes.RecombineMissingReadsZero | chromosomes.go:33-36 | a receiver key missing from the other parent reads as 0, so the child keeps only the receiver's bits under the mask |
| Chromosomes.RecombineWithEqualParent | chromosomes.go:36 | crossing with a parent that holds the same value on every receiver key reproduces the receiver, for every choice of masks |
| Chromosomes.SelfCrossover | chromosomes.go:26-40 | crossing a chromosome with itself gives it back, for every choice of masks |
| Chromosomes.RecombineKeepsAgreedBits | chromosomes.go:36 | on every key, the bits on which the parents agree survive in the child |
| Chromosomes.FirstMaxIndex | chromosomes.go:86-101 | the index is in range, no candidate has greater fitness, and every earlier candidate has strictly smaller fitness |
| Chromosomes.Fittest | chromosomes.go:86-101 | the fittest candidate is a member of the list |
| Chromosomes.FirstMaxIndexUnique | chromosomes.go:93-98 | an index that is both a maximum and strictly above all earlier candidates is the FirstMaxIndex |
| Chromosomes.MostFit | chromosomes.go:86-101 | no candidates gives NoCandidates; otherwise the result is the first candidate with the greatest fitness |
| Optimize.BuildPool | optimize/optimize.go:53-57 | building count chromosomes gives a pool of exactly count entries |
| Optimize.InitialPool | optimize/optimize.go:51-57 | the initial pool has exactly 16 entries |
| Optimize.BuildPoolEnd | optimize/optimize.go:55-57 | building count chromosomes reads count × (number of keys) bytes from the stream |
| Optimize.BuildPoolAt | optimize/optimize.go:55-57 | entry i of the initial pool is the chromosome built from the i-th run of bytes, one byte per key |
| Optimize.BuildPoolOverKeys | optimize/optimize.go:55-57 | every chromosome of the initial pool is over exactly the builder's keys |
| Optimize.Cut | optimize/optimize.go:61-63 | the pool is cut to its first 80 entries only when it is longer than 80, and what is kept is a prefix |
| Optimize.AppendCross | optimize/optimize.go:66-68 | appending a crossover adds exactly one entry |
| Optimize.AppendFresh | optimize/optimize.go:69 | appending a random chromosome adds exactly one entry |
| Optimize.ReplaceCross | optimize/optimize.go:70-71 | overwriting an entry keeps the pool's length |
| Optimize.Grow | optimize/optimize.go:65-69 | the appending half of a generation adds exactly four entries |
| Optimize.Finish | optimize/optimize.go:70-72 | the overwriting half of a generation keeps the pool's length |
| Optimize.Breed | optimize/optimize.go:65-72 | a generation after the cut leaves the pool four entries longer |
| Optimize.NextPool | optimize/optimize.go:60-72 | after a generation the length is min(L, 80) + 4 |
| Optimize.GrowEnd | optimize/optimize.go:65-69 | the appends read three masks per elite key, then one byte per builder key |
| Optimize.GrowLayout | optimize/optimize.go:65-69 | the cut pool stays as a prefix; behind it come the crossovers with the entries at len-1, len-3 and len-5, then a random chromosome, each drawn where the previous one stopped |
| Optimize.FinishEnd | optimize/optimize.go:70-71 | the overwrites read two random chromosomes and two sets of masks |
| Optimize.FinishLayout | optimize/optimize.go:70-72 | slot 0 holds the elite, slot 4 holds the first crossover with a random chromosome, slot 1 the second, and every other entry is unchanged |
| Optimize.BreedOverwrites | optimize/optimize.go:65-72 | slot 0 holds the elite, and slots 4 and 1 hold the crossovers drawn after the appended entries; the stream ends at its exact new position |
| Optimize.BreedKeeps | optimize/optimize.go:61-72 | every surviving entry other than slots 0, 1 and 4 is unchanged |
| Optimize.BreedAppends | optimize/optimize.go:65-69 | the four appended entries are, in order, the crossovers with the entries at len-1, len-3 and len-5 and a random chromosome |
| Optimize.NextPoolElite | optimize/optimize.go:60-72 | slot 0 of the next pool is the fittest chromosome of the pool before the cut, even when the cut dropped it |
| Optimize.NextPoolKeeps | optimize/optimize.go:61-72 | entries 2, 3 and 5 up to the cut length keep their values |
| Optimize.NextPoolNeverWorse | optimize/optimize.go:59-73 | the best fitness of the pool never decreases from one generation to the next |
| Optimize.AppendCrossOverKeys | optimize/optimize.go:66-68 | appending a crossover of an elite over the keys keeps every entry over the keys |
| Optimize.AppendFreshOverKeys | optimize/optimize.go:69 | appending a built chromosome keeps every entry over the keys |
| Optimize.UpdateOverKeys | optimize/optimize.go:70-72 | overwriting a slot with a chromosome over the keys keeps every entry over the keys |
| Optimize.ReplaceCrossOverKeys | optimize/optimize.go:70-71 | overwriting a slot with a crossover of the elite keeps every entry over the keys |
| Optimize.BreedOverKeys | optimize/optimize.go:65-72 | breeding from an elite over the keys keeps every entry over the keys |
| Optimize.NextPoolOverKeys | optimize/optimize.go:59-73 | a generation keeps every entry over the builder's keys |
| Optimize.StepAdvances | optimize/optimize.go:59-73 | the run's step agrees with NextPool on every pool long enough for a generation |
| Optimize.IterateKeeps | optimize/optimize.go:59-73 | a property that each generation carries over holds after any number of generations |
| Optimize.StepKeepsSize | optimize/optimize.go:59-73 | a pool of 16 to 84 entries keeps that size through any number of generations |
| Optimize.Run | optimize/optimize.go:50-73 | the pool of a run always has between 16 and 84 entries |
| Optimize.RunInvariants | optimize/optimize.go:59-75 | after any number of generations, every entry is over the builder's keys, and the best fitness is at least the initial pool's best |
| Optimize.MostFit | optimize/optimize.go:78-93 | no candidates gives NoCandidates; otherwise the result is the first candidate with the greatest fitness |
| Optimize.AppendCrossover | optimize/optimize.go:66-68 | the append computes AppendCross, drawing one mask per elite key from the current stream position |
| Optimize.AppendRandom | optimize/optimize.go:69 | the append computes AppendFresh, drawing one byte per builder key |
| Optimize.ReplaceCrossover | optimize/optimize.go:70-71 | the overwrite builds the random parent first, then draws the masks, as ReplaceCross states |
| Optimize.GrowPool | optimize/optimize.go:65-69 | the four appends give exactly Grow |
| Optimize.FinishPool | optimize/optimize.go:70-72 | the three overwrites give exactly Finish |
| Optimize.Generation | optimize/optimize.go:60-72 | one pass of the loop body is one step of any step function that agrees with NextPool |
| Optimize.InitPool | optimize/optimize.go:51-57 | the initialisation loop gives exactly BuildPool of 16 |
| Optimize.Evolve | optimize/optimize.go:59-73 | the generation loop runs steps generations, none when steps is not positive, and ends with a pool of at least 5 entries |
| Optimize.StepOptimize | optimize/optimize.go:50-76 | the final pool is Run(steps), the result is its fittest member, and every chromosome of the initial pool is at most as fit as the result |
| Optimize.Optimize | optimize/optimize.go:45-48 | exactly 24 generations; the result is no less fit than any chromosome of the initial pool |

## Left out

- The floating-point adapters are not modelled: `rescale`, `boundedFitnessFunc1d/2d/3d`, `BoundedMaximize` and `BoundedMaximize2D` (optimize/optimize.go:20-43, 95-125). They are affine float maps and closures over caller-supplied real functions.
- Chromosomes.MostFit: fitness is an `int`, not a `float64`. The `-math.MaxFloat64` starting value is replaced by the first candidate's fitness. For integers this picks the same candidate; the cases it leaves out (infinities, NaN) exist only for floats.
- Optimize.MostFit: the same applies as for Chromosomes.MostFit. The source carries two identical copies of this loop, and the model keeps both.
- Go's `math/rand` generator and its time-based seeding in `init` are not modelled. Random bytes and masks are inputs, so the byte values the tests expect under a fixed seed are out of reach.
- The probabilistic test that optimizing beats a random sample is not modelled. Only the elitism and monotonicity facts behind it are proved (NextPoolNeverWorse, RunInvariants).
- Optimize.Step: for pools shorter than 5 the step leaves the pool alone, because the source would index out of range there. Such pools never occur in a run, since Run keeps every pool between 16 and 84 entries.
- Slice aliasing and pointers are not modelled. Chromosomes and pools are values:
  - a crossover child shares its receiver's key slice in Go;
  - after the cut, `append` reuses the old backing array.

  Neither is observable through the operations modelled here.
- Panics are modelled as error values: `DuplicateTrait` from AddTrait, `NoCandidates` from MostFit.
- `optimize/optimize.go` uses `Get` as single-valued, which matches another revision of `chromosomes.go`. The model follows the two-valued `Get` of the `chromosomes.go` shown here. Mutation, `MutationChance`, Hamming distance and `Len` appear only in the tests and in other revisions, and are not part of this model.
- The library's design documentation describes a different generation step than the code: a pool of 8, a cap of 233, mutation, an above-average elite subset and a Hamming-distance gate. The model follows the code: 16, 80, 24 and the fixed append and overwrite pattern.
