/**
 * Chromosomes: named 8-bit traits, the builder that registers them and
 * produces random chromosomes, bit-level uniform crossover and selection of
 * the fittest candidate.
 *
 * Randomness is an input: BuildRandom receives the byte it would draw for
 * each trait, Crossover the mask it would draw for each trait.
 */
module Chromosomes {

  /** What makes the source panic. */
  datatype Error = DuplicateTrait(name: string) | NoCandidates

  datatype Outcome = Pass | Fail(error: Error)

  datatype Result<T> = Ok(value: T) | Err(error: Error)

  /** A chromosome: the ordered trait names and the value of each trait. */
  datatype Chromosome = Chromosome(traitKeys: seq<string>, traits: map<string, bv8>)

  ghost predicate Distinct(keys: seq<string>) {
    forall i, j :: 0 <= i < j < |keys| ==> keys[i] != keys[j]
  }

  function KeySet(keys: seq<string>): set<string> {
    set k | k in keys
  }

  /** Every chromosome the builder or Crossover produces has this shape. */
  ghost predicate WellFormed(c: Chromosome) {
    Distinct(c.traitKeys) && c.traits.Keys == KeySet(c.traitKeys)
  }

  // ---------------------------------------------------------------------------
  // Lookup

  /** The value of a trait, and whether the chromosome has it (a missing trait reads as 0). */
  function Get(c: Chromosome, name: string): (r: (bv8, bool))
    ensures r.1 <==> name in c.traits
    ensures r.1 ==> r.0 == c.traits[name]
    ensures !r.1 ==> r.0 == 0
  {
    if name in c.traits then (c.traits[name], true) else (0, false)
  }

  // ---------------------------------------------------------------------------
  // Filling a trait map key by key

  /** The position of the last occurrence of k in keys. */
  function LastIndexOf(keys: seq<string>, k: string): (r: nat)
    requires k in keys
    ensures r < |keys| && keys[r] == k
    ensures forall j :: r < j < |keys| ==> keys[j] != k
  {
    if keys[|keys| - 1] == k then |keys| - 1 else LastIndexOf(keys[..|keys| - 1], k)
  }

  /**
   * The map a loop produces after n turns, turn i storing vals[i] under
   * keys[i], starting from an empty map.
   */
  function Assign(keys: seq<string>, vals: seq<bv8>, n: nat): map<string, bv8>
    requires |vals| == |keys| && n <= |keys|
  {
    if n == 0 then map[] else Assign(keys, vals, n - 1)[keys[n - 1] := vals[n - 1]]
  }

  /**
   * After n turns the map has exactly the keys stored so far, and each holds
   * the value stored at its last occurrence among them.
   */
  lemma {:induction false} AssignLast(keys: seq<string>, vals: seq<bv8>, n: nat)
    requires |vals| == |keys| && n <= |keys|
    ensures Assign(keys, vals, n).Keys == KeySet(keys[..n])
    ensures forall i :: 0 <= i < n && (forall j :: i < j < n ==> keys[j] != keys[i]) ==>
      Assign(keys, vals, n)[keys[i]] == vals[i]
  {
    if n > 0 {
      AssignLast(keys, vals, n - 1);
      assert keys[..n] == keys[..n - 1] + [keys[n - 1]];
    }
  }

  /** With distinct keys every key holds exactly the value stored for it. */
  lemma AssignAt(keys: seq<string>, vals: seq<bv8>, i: nat)
    requires |vals| == |keys| && Distinct(keys) && i < |keys|
    ensures keys[i] in Assign(keys, vals, |keys|) && Assign(keys, vals, |keys|)[keys[i]] == vals[i]
  {
    AssignLast(keys, vals, |keys|);
    assert keys[..|keys|] == keys;
  }

  // ---------------------------------------------------------------------------
  // Building

  /** The chromosome BuildRandom makes from the builder's keys and the drawn bytes. */
  function Build(keys: seq<string>, bytes: seq<bv8>): (c: Chromosome)
    requires |bytes| == |keys|
  {
    Chromosome(keys, Assign(keys, bytes, |keys|))
  }

  /** A built chromosome has the builder's keys, in order, and a value for each of them. */
  lemma BuildKeys(keys: seq<string>, bytes: seq<bv8>)
    requires |bytes| == |keys|
    ensures Build(keys, bytes).traitKeys == keys
    ensures Build(keys, bytes).traits.Keys == KeySet(keys)
  {
    AssignLast(keys, bytes, |keys|);
    assert keys[..|keys|] == keys;
  }

  /** With distinct keys (as the builder keeps them) the i-th key holds the i-th drawn byte. */
  lemma BuildShape(keys: seq<string>, bytes: seq<bv8>)
    requires |bytes| == |keys| && Distinct(keys)
    ensures WellFormed(Build(keys, bytes))
    ensures forall i :: 0 <= i < |keys| ==> Get(Build(keys, bytes), keys[i]) == (bytes[i], true)
    ensures forall k :: k !in keys ==> Get(Build(keys, bytes), k) == (0, false)
  {
    BuildKeys(keys, bytes);
    forall i | 0 <= i < |keys|
      ensures Get(Build(keys, bytes), keys[i]) == (bytes[i], true)
    {
      AssignAt(keys, bytes, i);
    }
  }

  /** The builder: the registered trait names in insertion order, and the set of them. */
  class ChromosomeBuilder {
    var traitKeys: seq<string>
    var traits: map<string, bv8>

    /** Names are registered once each; the map records exactly the registered names. */
    ghost predicate Valid()
      reads this
    {
      Distinct(traitKeys) && traits.Keys == KeySet(traitKeys) &&
      forall k :: k in traits ==> traits[k] == 1
    }

    /** NewBuilder: an empty builder. */
    constructor ()
      ensures Valid()
      ensures traitKeys == [] && traits == map[]
    {
      traitKeys := [];
      traits := map[];
    }

    /** Registers a trait; a name already registered is refused and nothing changes. */
    method AddTrait(name: string) returns (outcome: Outcome)
      requires Valid()
      modifies this
      ensures Valid()
      ensures name in old(traits) ==>
        outcome == Fail(DuplicateTrait(name)) && traitKeys == old(traitKeys) && traits == old(traits)
      ensures name !in old(traits) ==>
        outcome == Pass && traitKeys == old(traitKeys) + [name] && traits == old(traits)[name := 1]
    {
      if name in traits {
        return Fail(DuplicateTrait(name));
      }
      traitKeys := traitKeys + [name];
      traits := traits[name := 1];
      outcome := Pass;
    }

    /** A chromosome with a copy of the builder's keys; the i-th key gets bytes[i]. */
    method BuildRandom(bytes: seq<bv8>) returns (c: Chromosome)
      requires |bytes| == |traitKeys|
      ensures c == Build(traitKeys, bytes)
    {
      var builderTraitKeys := traitKeys;
      var ckeys: seq<string> := [];
      for i := 0 to |builderTraitKeys|
        invariant ckeys == builderTraitKeys[..i]
      {
        ckeys := ckeys + [builderTraitKeys[i]];
      }
      assert ckeys == builderTraitKeys;

      var traitmap: map<string, bv8> := map[];
      for i := 0 to |ckeys|
        invariant traitmap == Assign(ckeys, bytes, i)
      {
        traitmap := traitmap[ckeys[i] := bytes[i]];
      }
      c := Chromosome(ckeys, traitmap);
    }
  }

  // ---------------------------------------------------------------------------
  // Crossover

  /** One trait of the child: the bits of a where the mask is 1, the bits of b where it is 0. */
  function Mix(a: bv8, b: bv8, m: bv8): bv8 {
    (a & m) | (b & (255 - m))
  }

  /** 255 - m is the bitwise complement of m. */
  lemma ComplementMask(m: bv8)
    ensures 255 - m == !m
  {
  }

  /**
   * Where the mask has a 1 bit the child has a's bit, where it has a 0 bit
   * the child has b's bit.
   */
  lemma MixSelectsBits(a: bv8, b: bv8, m: bv8)
    ensures Mix(a, b, m) & m == a & m
    ensures Mix(a, b, m) & !m == b & !m
  {
  }

  /** Bits on which the parents agree are kept, whatever the mask. */
  lemma MixKeepsAgreement(a: bv8, b: bv8, m: bv8)
    ensures Mix(a, b, m) & !(a ^ b) == a & !(a ^ b)
    ensures a == b ==> Mix(a, b, m) == a
  {
  }

  /** The all-ones mask gives a, the all-zeros mask gives b, and swapping parents complements the mask. */
  lemma MixExtremes(a: bv8, b: bv8, m: bv8)
    ensures Mix(a, b, 255) == a && Mix(a, b, 0) == b
    ensures Mix(a, b, m) == Mix(b, a, 255 - m)
  {
  }

  /** The value Crossover computes for the i-th key of the receiver. */
  function Mixed(c: Chromosome, other: Chromosome, masks: seq<bv8>): (r: seq<bv8>)
    requires |masks| == |c.traitKeys|
    ensures |r| == |c.traitKeys|
  {
    seq(|c.traitKeys|, i requires 0 <= i < |c.traitKeys| =>
      Mix(Get(c, c.traitKeys[i]).0, Get(other, c.traitKeys[i]).0, masks[i]))
  }

  /** The child Crossover makes from the receiver c, the other parent and one mask per key of c. */
  function Recombine(c: Chromosome, other: Chromosome, masks: seq<bv8>): (child: Chromosome)
    requires |masks| == |c.traitKeys|
  {
    Chromosome(c.traitKeys, Assign(c.traitKeys, Mixed(c, other, masks), |c.traitKeys|))
  }

  /** Crossover: walks the receiver's keys, combining each trait under its mask. */
  method Crossover(c: Chromosome, other: Chromosome, masks: seq<bv8>) returns (child: Chromosome)
    requires |masks| == |c.traitKeys|
    ensures child == Recombine(c, other, masks)
  {
    ghost var vals := Mixed(c, other, masks);
    var tmap: map<string, bv8> := map[];
    for i := 0 to |c.traitKeys|
      invariant tmap == Assign(c.traitKeys, vals, i)
    {
      var k := c.traitKeys[i];
      var theseBits := if k in c.traits then c.traits[k] else 0;
      var thisMask := masks[i];
      var thoseBits := if k in other.traits then other.traits[k] else 0;
      var v := Mix(theseBits, thoseBits, thisMask);
      assert v == vals[i];
      tmap := tmap[k := v];
    }
    child := Chromosome(c.traitKeys, tmap);
  }

  /** The child has the receiver's key list and a value for each receiver key, and no other. */
  lemma RecombineKeys(c: Chromosome, other: Chromosome, masks: seq<bv8>)
    requires |masks| == |c.traitKeys|
    ensures Recombine(c, other, masks).traitKeys == c.traitKeys
    ensures Recombine(c, other, masks).traits.Keys == KeySet(c.traitKeys)
  {
    AssignLast(c.traitKeys, Mixed(c, other, masks), |c.traitKeys|);
    assert c.traitKeys[..|c.traitKeys|] == c.traitKeys;
  }

  /**
   * The child has the receiver's key list and one value per receiver key;
   * the i-th key holds the mix of the parents' values under the i-th mask,
   * a key missing from the other parent reading as 0.
   */
  lemma RecombineAt(c: Chromosome, other: Chromosome, masks: seq<bv8>)
    requires |masks| == |c.traitKeys| && Distinct(c.traitKeys)
    ensures WellFormed(Recombine(c, other, masks))
    ensures forall i :: 0 <= i < |c.traitKeys| ==>
      Get(Recombine(c, other, masks), c.traitKeys[i]) ==
        (Mix(Get(c, c.traitKeys[i]).0, Get(other, c.traitKeys[i]).0, masks[i]), true)
  {
    RecombineKeys(c, other, masks);
    forall i | 0 <= i < |c.traitKeys|
      ensures Get(Recombine(c, other, masks), c.traitKeys[i]) ==
        (Mix(Get(c, c.traitKeys[i]).0, Get(other, c.traitKeys[i]).0, masks[i]), true)
    {
      AssignAt(c.traitKeys, Mixed(c, other, masks), i);
    }
  }

  /** Traits the other parent has beyond the receiver's keys play no part. */
  lemma RecombineIgnoresOthersExtraTraits(c: Chromosome, o1: Chromosome, o2: Chromosome, masks: seq<bv8>)
    requires |masks| == |c.traitKeys|
    requires forall k :: k in c.traitKeys ==> Get(o1, k).0 == Get(o2, k).0
    ensures Recombine(c, o1, masks) == Recombine(c, o2, masks)
  {
    assert Mixed(c, o1, masks) == Mixed(c, o2, masks);
  }

  /** A receiver key the other parent lacks keeps only the receiver's bits under the mask. */
  lemma RecombineMissingReadsZero(c: Chromosome, other: Chromosome, masks: seq<bv8>, i: nat)
    requires |masks| == |c.traitKeys| && Distinct(c.traitKeys) && i < |c.traitKeys|
    requires c.traitKeys[i] !in other.traits
    ensures Get(Recombine(c, other, masks), c.traitKeys[i]).0 == Get(c, c.traitKeys[i]).0 & masks[i]
  {
    RecombineAt(c, other, masks);
  }

  /** Crossing with a parent holding the same values on every key reproduces the receiver. */
  lemma RecombineWithEqualParent(c: Chromosome, other: Chromosome, masks: seq<bv8>)
    requires |masks| == |c.traitKeys| && c.traits.Keys == KeySet(c.traitKeys)
    requires forall k :: k in c.traitKeys ==> Get(other, k).0 == Get(c, k).0
    ensures Recombine(c, other, masks) == c
  {
    var child := Recombine(c, other, masks);
    var vals := Mixed(c, other, masks);
    AssignLast(c.traitKeys, vals, |c.traitKeys|);
    assert c.traitKeys[..|c.traitKeys|] == c.traitKeys;
    forall k | k in c.traitKeys
      ensures child.traits[k] == c.traits[k]
    {
      var i := LastIndexOf(c.traitKeys, k);
      MixKeepsAgreement(Get(c, k).0, Get(other, k).0, masks[i]);
    }
  }

  /** Crossing a chromosome with itself gives it back, for every choice of masks. */
  lemma SelfCrossover(c: Chromosome, masks: seq<bv8>)
    requires |masks| == |c.traitKeys| && c.traits.Keys == KeySet(c.traitKeys)
    ensures Recombine(c, c, masks) == c
  {
    RecombineWithEqualParent(c, c, masks);
  }

  /** On every key, the bits where both parents agree survive into the child. */
  lemma RecombineKeepsAgreedBits(c: Chromosome, other: Chromosome, masks: seq<bv8>, i: nat)
    requires |masks| == |c.traitKeys| && Distinct(c.traitKeys) && i < |c.traitKeys|
    ensures var a, b := Get(c, c.traitKeys[i]).0, Get(other, c.traitKeys[i]).0;
      Get(Recombine(c, other, masks), c.traitKeys[i]).0 & !(a ^ b) == a & !(a ^ b)
  {
    RecombineAt(c, other, masks);
    MixKeepsAgreement(Get(c, c.traitKeys[i]).0, Get(other, c.traitKeys[i]).0, masks[i]);
  }

  // ---------------------------------------------------------------------------
  // Selection

  /** The first position whose fitness is not exceeded by any candidate. */
  function FirstMaxIndex(fitness: Chromosome -> int, s: seq<Chromosome>): (r: nat)
    requires |s| > 0
    ensures r < |s|
    ensures forall j :: 0 <= j < |s| ==> fitness(s[j]) <= fitness(s[r])
    ensures forall j :: 0 <= j < r ==> fitness(s[j]) < fitness(s[r])
  {
    if |s| == 1 then 0
    else
      var k := FirstMaxIndex(fitness, s[..|s| - 1]);
      if fitness(s[|s| - 1]) > fitness(s[k]) then |s| - 1 else k
  }

  /** The candidate with the greatest fitness, the earliest one among ties. */
  function Fittest(fitness: Chromosome -> int, s: seq<Chromosome>): (r: Chromosome)
    requires |s| > 0
    ensures r in s
  {
    s[FirstMaxIndex(fitness, s)]
  }

  /** Two indices that both satisfy the first-maximum contract are the same index. */
  lemma FirstMaxIndexUnique(fitness: Chromosome -> int, s: seq<Chromosome>, k: nat)
    requires k < |s|
    requires forall j :: 0 <= j < |s| ==> fitness(s[j]) <= fitness(s[k])
    requires forall j :: 0 <= j < k ==> fitness(s[j]) < fitness(s[k])
    ensures k == FirstMaxIndex(fitness, s)
  {
  }

  /**
   * MostFit: the first candidate reaching the greatest fitness; no candidates
   * at all is an error.
   */
  method MostFit(fitness: Chromosome -> int, candidates: seq<Chromosome>) returns (r: Result<Chromosome>)
    ensures |candidates| == 0 ==> r == Err(NoCandidates)
    ensures |candidates| > 0 ==> r == Ok(Fittest(fitness, candidates))
  {
    if |candidates| == 0 {
      return Err(NoCandidates);
    }
    var topcandidate := candidates[0];
    var topfitness := fitness(topcandidate);
    ghost var top: nat := 0;
    for i := 0 to |candidates|
      invariant top < |candidates| && topcandidate == candidates[top]
      invariant topfitness == fitness(topcandidate)
      invariant forall j :: 0 <= j < i ==> fitness(candidates[j]) <= topfitness
      invariant forall j :: 0 <= j < top ==> fitness(candidates[j]) < topfitness
    {
      var f := fitness(candidates[i]);
      if f > topfitness {
        topfitness := f;
        topcandidate := candidates[i];
        top := i;
      }
    }
    FirstMaxIndexUnique(fitness, candidates, top);
    r := Ok(topcandidate);
  }
}
