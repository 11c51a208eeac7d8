/**
 * The four builders that bind the passes of a provable query node: the count
 * pass declares resource usage, the result pass collects the plaintext answer,
 * the prove pass collects witness vectors and identities, and the verify pass
 * consumes claimed evaluations in the order the prover produced them.
 */
module ProofBuilders {
  import opened Wrappers
  import opened Scalars

  // ---------------------------------------------------------------- count pass

  /** The totals a count pass accumulates. */
  datatype Counts = Counts(
    resultColumns: nat,
    anchoredMles: nat,
    intermediateMles: nat,
    subpolynomials: nat,
    degree: nat,
    postResultChallenges: nat)

  function Max(a: nat, b: nat): nat
  {
    if a < b then b else a
  }

  /** Counting `a` and then `b`: every total adds up, the degree is the larger one. */
  function Combine(a: Counts, b: Counts): Counts
  {
    Counts(
      a.resultColumns + b.resultColumns,
      a.anchoredMles + b.anchoredMles,
      a.intermediateMles + b.intermediateMles,
      a.subpolynomials + b.subpolynomials,
      Max(a.degree, b.degree),
      a.postResultChallenges + b.postResultChallenges)
  }

  const NoCounts := Counts(0, 0, 0, 0, 0, 0)

  lemma CombineAssociative(a: Counts, b: Counts, c: Counts)
    ensures Combine(Combine(a, b), c) == Combine(a, Combine(b, c))
  {
  }

  lemma CombineIdentity(a: Counts)
    ensures Combine(a, NoCounts) == a && Combine(NoCounts, a) == a
  {
  }

  /** The combined counts of a list of sub-expressions. */
  function Total(cs: seq<Counts>): Counts
  {
    if |cs| == 0 then NoCounts else Combine(Total(cs[..|cs| - 1]), cs[|cs| - 1])
  }

  /** `CountBuilder`: pure arithmetic accumulation. */
  class CountBuilder {
    var numResultColumns: nat
    var numAnchoredMles: nat
    var numIntermediateMles: nat
    var numSubpolynomials: nat
    var maxDegree: nat
    var numPostResultChallenges: nat

    function Totals(): Counts
      reads this
    {
      Counts(numResultColumns, numAnchoredMles, numIntermediateMles, numSubpolynomials, maxDegree, numPostResultChallenges)
    }

    constructor ()
      ensures Totals() == NoCounts
    {
      numResultColumns, numAnchoredMles, numIntermediateMles := 0, 0, 0;
      numSubpolynomials, maxDegree, numPostResultChallenges := 0, 0, 0;
    }

    /** What a sub-expression's own count pass adds to this builder. */
    method Include(c: Counts)
      modifies this
      ensures Totals() == Combine(old(Totals()), c)
    {
      numResultColumns := numResultColumns + c.resultColumns;
      numAnchoredMles := numAnchoredMles + c.anchoredMles;
      numIntermediateMles := numIntermediateMles + c.intermediateMles;
      numSubpolynomials := numSubpolynomials + c.subpolynomials;
      maxDegree := Max(maxDegree, c.degree);
      numPostResultChallenges := numPostResultChallenges + c.postResultChallenges;
    }

    method CountResultColumns(k: nat)
      modifies this
      ensures Totals() == old(Totals()).(resultColumns := old(numResultColumns) + k)
    {
      numResultColumns := numResultColumns + k;
    }

    method CountIntermediateMles(k: nat)
      modifies this
      ensures Totals() == old(Totals()).(intermediateMles := old(numIntermediateMles) + k)
    {
      numIntermediateMles := numIntermediateMles + k;
    }

    method CountSubpolynomials(k: nat)
      modifies this
      ensures Totals() == old(Totals()).(subpolynomials := old(numSubpolynomials) + k)
    {
      numSubpolynomials := numSubpolynomials + k;
    }

    /** The degree is a maximum over all identities, not a sum. */
    method CountDegree(d: nat)
      modifies this
      ensures Totals() == old(Totals()).(degree := Max(old(maxDegree), d))
    {
      maxDegree := Max(maxDegree, d);
    }

    method CountPostResultChallenges(k: nat)
      modifies this
      ensures Totals() == old(Totals()).(postResultChallenges := old(numPostResultChallenges) + k)
    {
      numPostResultChallenges := numPostResultChallenges + k;
    }
  }

  // --------------------------------------------------------------- result pass

  /** The rows that survive selection: a dense range `start..end` or an explicit list. */
  datatype Indexes = Sparse(rows: seq<nat>) | Dense(start: nat, end: nat)
  {
    function Len(): nat
    {
      match this
      case Sparse(rows) => |rows|
      case Dense(s, e) => if s <= e then e - s else 0
    }
  }

  /** A produced result column: scalars, or `i64` values for a count. */
  datatype Column = ScalarColumn(scalars: seq<Scalar>) | BigIntColumn(ints: seq<int>)
  {
    function Len(): nat
    {
      match this
      case ScalarColumn(s) => |s|
      case BigIntColumn(s) => |s|
    }
  }

  /** `ResultBuilder`. */
  class ResultBuilder {
    const tableLength: nat
    var resultIndexes: Option<Indexes>
    var resultColumns: seq<Column>
    var numPostResultChallenges: nat

    constructor (tableLength: nat)
      ensures this.tableLength == tableLength
      ensures resultIndexes == None && resultColumns == [] && numPostResultChallenges == 0
    {
      this.tableLength := tableLength;
      resultIndexes := None;
      resultColumns := [];
      numPostResultChallenges := 0;
    }

    /** The index set is fixed exactly once per evaluation. */
    method SetResultIndexes(indexes: Indexes)
      requires resultIndexes.None?
      modifies this
      ensures resultIndexes == Some(indexes)
      ensures resultColumns == old(resultColumns) && numPostResultChallenges == old(numPostResultChallenges)
    {
      resultIndexes := Some(indexes);
    }

    method ProduceResultColumn(col: Column)
      modifies this
      ensures resultColumns == old(resultColumns) + [col]
      ensures resultIndexes == old(resultIndexes) && numPostResultChallenges == old(numPostResultChallenges)
    {
      resultColumns := resultColumns + [col];
    }

    method RequestPostResultChallenges(k: nat)
      modifies this
      ensures numPostResultChallenges == old(numPostResultChallenges) + k
      ensures resultIndexes == old(resultIndexes) && resultColumns == old(resultColumns)
    {
      numPostResultChallenges := numPostResultChallenges + k;
    }
  }

  // ---------------------------------------------------------------- prove pass

  datatype SubpolynomialType = ZeroSum | Identity

  /** `coefficient * product of multiplicands`; every multiplicand is read zero padded. */
  datatype Term = Term(coefficient: Scalar, multiplicands: seq<seq<Scalar>>)

  /** A registered identity: its kind and the weighted products it sums. */
  datatype Subpolynomial = Subpolynomial(kind: SubpolynomialType, terms: seq<Term>)

  /** The product of the multiplicands at row `i` (one for an empty product). */
  function ProductAt(multiplicands: seq<seq<Scalar>>, i: nat): Scalar
  {
    if |multiplicands| == 0 then 1.0
    else ProductAt(multiplicands[..|multiplicands| - 1], i) * Pad(multiplicands[|multiplicands| - 1], i)
  }

  function TermsAt(terms: seq<Term>, i: nat): Scalar
  {
    if |terms| == 0 then 0.0
    else TermsAt(terms[..|terms| - 1], i)
         + terms[|terms| - 1].coefficient * ProductAt(terms[|terms| - 1].multiplicands, i)
  }

  /** The value of a subpolynomial at row `i`. */
  function RowValue(p: Subpolynomial, i: nat): Scalar
  {
    TermsAt(p.terms, i)
  }

  /** The sum of a subpolynomial's values over rows `0..n`. */
  function RowSum(p: Subpolynomial, n: nat): Scalar
  {
    if n == 0 then 0.0 else RowSum(p, n - 1) + RowValue(p, n - 1)
  }

  /** The largest number of multiplicands in any term. */
  function TermsDegree(terms: seq<Term>): nat
  {
    if |terms| == 0 then 0 else Max(TermsDegree(terms[..|terms| - 1]), |terms[|terms| - 1].multiplicands|)
  }

  function Degree(p: Subpolynomial): nat
  {
    TermsDegree(p.terms)
  }

  /** `ProofBuilder`: witness vectors and identities of one prove-pass call. */
  class ProofBuilder {
    const tableLength: nat
    var intermediateMles: seq<seq<Scalar>>
    var subpolynomials: seq<Subpolynomial>
    /** The post-result challenges not yet consumed, in the order they are drawn. */
    var postResultChallenges: seq<Scalar>

    constructor (tableLength: nat, challenges: seq<Scalar>)
      ensures this.tableLength == tableLength
      ensures intermediateMles == [] && subpolynomials == [] && postResultChallenges == challenges
    {
      this.tableLength := tableLength;
      intermediateMles := [];
      subpolynomials := [];
      postResultChallenges := challenges;
    }

    method ProduceIntermediateMle(v: seq<Scalar>)
      modifies this
      ensures intermediateMles == old(intermediateMles) + [v]
      ensures subpolynomials == old(subpolynomials) && postResultChallenges == old(postResultChallenges)
    {
      intermediateMles := intermediateMles + [v];
    }

    method ProduceSumcheckSubpolynomial(kind: SubpolynomialType, terms: seq<Term>)
      modifies this
      ensures subpolynomials == old(subpolynomials) + [Subpolynomial(kind, terms)]
      ensures intermediateMles == old(intermediateMles) && postResultChallenges == old(postResultChallenges)
    {
      subpolynomials := subpolynomials + [Subpolynomial(kind, terms)];
    }

    /** Draws the next challenge; drawing more than were requested is a contract violation. */
    method ConsumePostResultChallenge() returns (c: Scalar)
      requires |postResultChallenges| > 0
      modifies this
      ensures c == old(postResultChallenges)[0]
      ensures postResultChallenges == old(postResultChallenges)[1..]
      ensures intermediateMles == old(intermediateMles) && subpolynomials == old(subpolynomials)
    {
      c := postResultChallenges[0];
      postResultChallenges := postResultChallenges[1..];
    }
  }

  // --------------------------------------------------------------- verify pass

  /** `VerificationBuilder`: the prover's claims as scalars, consumed in production order. */
  class VerificationBuilder {
    /** Evaluation of the all-ones vector at the random point. */
    const oneEvaluation: Scalar
    /** Evaluation of the random per-row selector of Identity constraints. */
    const randomEvaluation: Scalar
    /** Evaluation tied to the result index set, when the proof supplied one. */
    const resultIndexesEvaluation: Option<Scalar>
    var resultMleEvaluations: seq<Scalar>
    var intermediateMleEvaluations: seq<Scalar>
    var postResultChallenges: seq<Scalar>
    var subpolynomialEvaluations: seq<Scalar>

    constructor (one: Scalar, random: Scalar, indexes: Option<Scalar>,
                 resultEvals: seq<Scalar>, intermediateEvals: seq<Scalar>, challenges: seq<Scalar>)
      ensures oneEvaluation == one && randomEvaluation == random && resultIndexesEvaluation == indexes
      ensures resultMleEvaluations == resultEvals && intermediateMleEvaluations == intermediateEvals
      ensures postResultChallenges == challenges && subpolynomialEvaluations == []
    {
      oneEvaluation, randomEvaluation, resultIndexesEvaluation := one, random, indexes;
      resultMleEvaluations, intermediateMleEvaluations := resultEvals, intermediateEvals;
      postResultChallenges, subpolynomialEvaluations := challenges, [];
    }

    method ConsumeResultMle() returns (e: Scalar)
      requires |resultMleEvaluations| > 0
      modifies this
      ensures e == old(resultMleEvaluations)[0] && resultMleEvaluations == old(resultMleEvaluations)[1..]
      ensures intermediateMleEvaluations == old(intermediateMleEvaluations)
      ensures postResultChallenges == old(postResultChallenges)
      ensures subpolynomialEvaluations == old(subpolynomialEvaluations)
    {
      e := resultMleEvaluations[0];
      resultMleEvaluations := resultMleEvaluations[1..];
    }

    method ConsumeIntermediateMle() returns (e: Scalar)
      requires |intermediateMleEvaluations| > 0
      modifies this
      ensures e == old(intermediateMleEvaluations)[0]
      ensures intermediateMleEvaluations == old(intermediateMleEvaluations)[1..]
      ensures resultMleEvaluations == old(resultMleEvaluations)
      ensures postResultChallenges == old(postResultChallenges)
      ensures subpolynomialEvaluations == old(subpolynomialEvaluations)
    {
      e := intermediateMleEvaluations[0];
      intermediateMleEvaluations := intermediateMleEvaluations[1..];
    }

    method ConsumePostResultChallenge() returns (c: Scalar)
      requires |postResultChallenges| > 0
      modifies this
      ensures c == old(postResultChallenges)[0] && postResultChallenges == old(postResultChallenges)[1..]
      ensures resultMleEvaluations == old(resultMleEvaluations)
      ensures intermediateMleEvaluations == old(intermediateMleEvaluations)
      ensures subpolynomialEvaluations == old(subpolynomialEvaluations)
    {
      c := postResultChallenges[0];
      postResultChallenges := postResultChallenges[1..];
    }

    method ProduceSumcheckSubpolynomialEvaluation(e: Scalar)
      modifies this
      ensures subpolynomialEvaluations == old(subpolynomialEvaluations) + [e]
      ensures resultMleEvaluations == old(resultMleEvaluations)
      ensures intermediateMleEvaluations == old(intermediateMleEvaluations)
      ensures postResultChallenges == old(postResultChallenges)
    {
      subpolynomialEvaluations := subpolynomialEvaluations + [e];
    }
  }
}
