/** The distance-preserving root-height move: a new height for the root of the
    tree, with the rates of its two child branches rescaled so that each
    branch keeps its distance (rate times duration). */
module SimpleDistanceMove {
  import opened Operators

  // ---------------------------------------------------------------------
  // Rate slots

  /** The rate slot of a child node: the child's own number, except that the
      number branchCount (the last node number) stands for the slot of the
      root's number. */
  function RateIndex(nr: nat, branchCount: int, rootNr: nat): (slot: nat)
    ensures nr != branchCount ==> slot == nr
    ensures nr == branchCount ==> slot == rootNr
  {
    if nr == branchCount then rootNr else nr
  }

  /** Numbering nodes 0 .. nodeCount-1, every node other than the root gets a
      rate slot below branchCount = nodeCount - 1, and no two of them share one:
      the remap turns nodeCount - 1 node numbers into nodeCount - 1 slots. */
  lemma RateIndexOfNonRoot(nr: nat, other: nat, nodeCount: nat, rootNr: nat)
    requires nr < nodeCount && other < nodeCount && rootNr < nodeCount
    requires nr != rootNr && other != rootNr && nr != other
    ensures RateIndex(nr, nodeCount - 1, rootNr) < nodeCount - 1
    ensures RateIndex(nr, nodeCount - 1, rootNr) != RateIndex(other, nodeCount - 1, rootNr)
  {
  }

  // ---------------------------------------------------------------------
  // The move on values

  /** The root's height tx, its children's heights tj (son) and tk
      (daughter), and the rates ri and rx of the son's and daughter's branches. */
  datatype RootBranches = RootBranches(tx: real, tj: real, tk: real, ri: real, rx: real)
  {
    /** The root is strictly above both children. */
    predicate Ordered() {
      tx > tj && tx > tk
    }

    /** Distance along the son's branch. */
    function DistanceI(): real {
      ri * (tx - tj)
    }

    /** Distance along the daughter's branch. */
    function DistanceX(): real {
      rx * (tx - tk)
    }
  }

  /** Math.max */
  function Max(a: real, b: real): real {
    if a >= b then a else b
  }

  /** Outcome of the move for draw `a`: refused, or the new state with the
      Hastings ratio before its logarithm. */
  datatype Move = Refused | Moved(next: RootBranches, ratio: real)
  {
    /** What the operator returns to the driver. */
    function Hastings(): HastingsRatio {
      if Refused? then Rejected else Ratio(ratio)
    }
  }

  /** The rate that keeps the distance r * (told - tc) of a branch from a
      child at height tc when the parent moves from told to tnew. */
  function Rescaled(r: real, told: real, tnew: real, tc: real): real
    requires tnew != tc
  {
    r * (told - tc) / (tnew - tc)
  }

  lemma DurationsPositive(t: real, tj: real, tk: real)
    requires t > tj && t > tk
    ensures (t - tj) * (t - tk) > 0.0
  {
  }

  /** The closed-form Hastings ratio (tx - tj)(tx - tk) / ((t - tj)(t - tk))
      of moving the parent from tx to t. */
  function ClosedFormRatio(tx: real, tj: real, tk: real, t: real): real
    requires t > tj && t > tk
  {
    DurationsPositive(t, tj, tk);
    (tx - tj) * (tx - tk) / ((t - tj) * (t - tk))
  }

  /** The move with perturbation `a` of the root height: refused unless the
      new height is above both children, else the new height with both rates
      rescaled and the closed-form ratio. */
  function Propose(s: RootBranches, a: real): (m: Move)
    ensures m.Refused? <==> s.tx + a <= s.tj || s.tx + a <= s.tk
    ensures m.Moved? ==>
              m.next.tx == s.tx + a && m.next.tj == s.tj && m.next.tk == s.tk && m.next.Ordered()
  {
    var t := s.tx + a;
    if t <= Max(s.tj, s.tk) then Refused
    else
      Moved(RootBranches(t, s.tj, s.tk, Rescaled(s.ri, s.tx, t, s.tj), Rescaled(s.rx, s.tx, t, s.tk)),
            ClosedFormRatio(s.tx, s.tj, s.tk, t))
  }

  // Facts about Rescaled and ClosedFormRatio on plain reals.

  lemma RescaledKeepsDistance(r: real, told: real, tnew: real, tc: real)
    requires tnew != tc
    ensures Rescaled(r, told, tnew, tc) * (tnew - tc) == r * (told - tc)
  {
  }

  lemma RescaledPositive(r: real, told: real, tnew: real, tc: real)
    requires r > 0.0 && told > tc && tnew > tc
    ensures Rescaled(r, told, tnew, tc) > 0.0
  {
  }

  lemma RescaledBack(r: real, told: real, tnew: real, tc: real)
    requires told != tc && tnew != tc
    ensures Rescaled(Rescaled(r, told, tnew, tc), tnew, told, tc) == r
  {
  }

  lemma RescaledLinear(r: real, h: real, told: real, tnew: real, tc: real)
    requires tnew != tc
    ensures Rescaled(r + h, told, tnew, tc) == Rescaled(r, told, tnew, tc) + h * ((told - tc) / (tnew - tc))
  {
  }

  lemma RatioTimesDenominator(tx: real, tj: real, tk: real, t: real)
    requires t > tj && t > tk
    ensures ClosedFormRatio(tx, tj, tk, t) * ((t - tj) * (t - tk)) == (tx - tj) * (tx - tk)
  {
    DurationsPositive(t, tj, tk);
    QuotientTimes((tx - tj) * (tx - tk), (t - tj) * (t - tk));
  }

  lemma QuotientTimes(x: real, y: real)
    requires y != 0.0
    ensures (x / y) * y == x
  {
  }

  lemma QuotientPositive(x: real, y: real)
    requires x > 0.0 && y > 0.0
    ensures x / y > 0.0
  {
  }

  lemma QuotientsReciprocal(x: real, y: real)
    requires x != 0.0 && y != 0.0
    ensures (y / x) * (x / y) == 1.0
  {
  }

  lemma RatioPositive(tx: real, tj: real, tk: real, t: real)
    requires tx > tj && tx > tk && t > tj && t > tk
    ensures ClosedFormRatio(tx, tj, tk, t) > 0.0
  {
    DurationsPositive(tx, tj, tk);
    DurationsPositive(t, tj, tk);
    QuotientPositive((tx - tj) * (tx - tk), (t - tj) * (t - tk));
  }

  lemma RatioReciprocal(tx: real, tj: real, tk: real, t: real)
    requires tx > tj && tx > tk && t > tj && t > tk
    ensures ClosedFormRatio(t, tj, tk, tx) * ClosedFormRatio(tx, tj, tk, t) == 1.0
  {
    DurationsPositive(tx, tj, tk);
    DurationsPositive(t, tj, tk);
    QuotientsReciprocal((tx - tj) * (tx - tk), (t - tj) * (t - tk));
  }

  lemma RatioIsDiagonalProduct(tx: real, tj: real, tk: real, t: real)
    requires t > tj && t > tk
    ensures ClosedFormRatio(tx, tj, tk, t) == ((tx - tj) / (t - tj)) * ((tx - tk) / (t - tk))
  {
  }

  // Properties of the move.

  /** Distance invariance: each child branch keeps rate times duration. */
  lemma {:induction false} MovePreservesDistances(s: RootBranches, a: real)
    requires Propose(s, a).Moved?
    ensures Propose(s, a).next.DistanceI() == s.DistanceI()
    ensures Propose(s, a).next.DistanceX() == s.DistanceX()
  {
    RescaledKeepsDistance(s.ri, s.tx, s.tx + a, s.tj);
    RescaledKeepsDistance(s.rx, s.tx, s.tx + a, s.tk);
  }

  /** The ratio times (tx' - tj)(tx' - tk) is (tx - tj)(tx - tk), and the
      ratio is positive when the root was above both children. */
  lemma {:induction false} MoveRatio(s: RootBranches, a: real)
    requires Propose(s, a).Moved?
    ensures Propose(s, a).ratio * ((s.tx + a - s.tj) * (s.tx + a - s.tk)) == (s.tx - s.tj) * (s.tx - s.tk)
    ensures s.Ordered() ==> Propose(s, a).ratio > 0.0
  {
    RatioTimesDenominator(s.tx, s.tj, s.tk, s.tx + a);
    if s.Ordered() {
      RatioPositive(s.tx, s.tj, s.tk, s.tx + a);
    }
  }

  /** The rates stay positive: a move from an ordered state with positive rates
      writes positive rates. */
  lemma {:induction false} MoveKeepsRatesPositive(s: RootBranches, a: real)
    requires s.Ordered() && s.ri > 0.0 && s.rx > 0.0
    requires Propose(s, a).Moved?
    ensures Propose(s, a).next.ri > 0.0 && Propose(s, a).next.rx > 0.0
  {
    RescaledPositive(s.ri, s.tx, s.tx + a, s.tj);
    RescaledPositive(s.rx, s.tx, s.tx + a, s.tk);
  }

  /** The move is reversible, as Metropolis-Hastings needs: from the new state
      the perturbation -a is accepted exactly when the old state was ordered,
      it then restores the old state, and its ratio is the reciprocal. */
  lemma {:induction false} ReverseMoveRestores(s: RootBranches, a: real)
    requires Propose(s, a).Moved?
    ensures Propose(Propose(s, a).next, -a).Moved? <==> s.Ordered()
    ensures s.Ordered() ==>
              Propose(Propose(s, a).next, -a).next == s &&
              Propose(Propose(s, a).next, -a).ratio * Propose(s, a).ratio == 1.0
  {
    var t := s.tx + a;
    var n := Propose(s, a).next;
    assert n.tx + -a == s.tx;
    if s.Ordered() {
      RescaledBack(s.ri, s.tx, t, s.tj);
      RescaledBack(s.rx, s.tx, t, s.tk);
      RatioReciprocal(s.tx, s.tj, s.tk, t);
      assert Propose(n, -a).next == RootBranches(s.tx, s.tj, s.tk, s.ri, s.rx);
    }
  }

  // ---------------------------------------------------------------------
  // The Jacobian of the change of variables

  /** A 3 x 3 real matrix, by rows. */
  datatype Matrix3 = Matrix3(m00: real, m01: real, m02: real,
                             m10: real, m11: real, m12: real,
                             m20: real, m21: real, m22: real)

  /** Determinant by cofactor expansion along the first row. */
  function Det3(m: Matrix3): real {
    m.m00 * (m.m11 * m.m22 - m.m12 * m.m21)
    - m.m01 * (m.m10 * m.m22 - m.m12 * m.m20)
    + m.m02 * (m.m10 * m.m21 - m.m11 * m.m20)
  }

  /** The Jacobian of (tx, ri, rx) -> (tx', ri', rx') with the entries the
      source lists (all others zero): rows are tx', ri', rx', columns tx, ri, rx. */
  function Jacobian(s: RootBranches, a: real): Matrix3
    requires s.tx + a != s.tj && s.tx + a != s.tk
  {
    var t := s.tx + a;
    Matrix3(1.0, 0.0, 0.0,
            s.ri / (t - s.tj), (s.tx - s.tj) / (t - s.tj), 0.0,
            s.rx / (t - s.tk), 0.0, (s.tx - s.tk) / (t - s.tk))
  }

  /** The closed-form ratio returned by the move is the Jacobian's determinant. */
  lemma {:induction false} RatioIsJacobianDeterminant(s: RootBranches, a: real)
    requires Propose(s, a).Moved?
    ensures Propose(s, a).ratio == Det3(Jacobian(s, a))
  {
    RatioIsDiagonalProduct(s.tx, s.tj, s.tk, s.tx + a);
  }

  /** The rate columns of the Jacobian are exact: a new rate depends linearly
      on its own old rate, with slope the diagonal entry, and not at all on the
      other rate or the height. So the matrix is lower triangular and its
      determinant is the product of its diagonal. */
  lemma {:induction false} JacobianRateColumns(s: RootBranches, a: real, h: real)
    requires Propose(s, a).Moved?
    ensures var n := Propose(s, a).next; var j := Jacobian(s, a);
            Propose(s.(ri := s.ri + h), a).next == n.(ri := n.ri + h * j.m11) &&
            Propose(s.(rx := s.rx + h), a).next == n.(rx := n.rx + h * j.m22)
  {
    RescaledLinear(s.ri, h, s.tx, s.tx + a, s.tj);
    RescaledLinear(s.rx, h, s.tx, s.tx + a, s.tk);
  }

  /** Node height 10, children at 4 and 6, rates 2 and 1.5, draw 0.5: new
      rates 12/6.5 and 6/4.5, ratio 24/29.25. */
  lemma ScenarioMoved()
    ensures Propose(RootBranches(10.0, 4.0, 6.0, 2.0, 1.5), 0.5)
         == Moved(RootBranches(10.5, 4.0, 6.0, 24.0 / 13.0, 4.0 / 3.0), 32.0 / 39.0)
  {
  }

  /** The same state with draw -6.5 proposes 3.5, below the taller child. */
  lemma ScenarioRefused()
    ensures Propose(RootBranches(10.0, 4.0, 6.0, 2.0, 1.5), -6.5) == Refused
  {
  }

  // ---------------------------------------------------------------------
  // The tree and the operator

  /** A node of the tree: a fixed number and a height that operators change. */
  class Node {
    const nr: nat
    var height: real

    constructor (nr: nat, height: real)
      ensures this.nr == nr && this.height == height
    {
      this.nr := nr;
      this.height := height;
    }
  }

  /** The part of the tree the move sees: the node count, the root and its
      two children getChild(0) (son) and getChild(1) (daughter). */
  class Tree {
    const nodeCount: nat
    const root: Node
    const son: Node
    const daughter: Node

    constructor (nodeCount: nat, root: Node, son: Node, daughter: Node)
      ensures this.nodeCount == nodeCount && this.root == root
      ensures this.son == son && this.daughter == daughter
    {
      this.nodeCount := nodeCount;
      this.root := root;
      this.son := son;
      this.daughter := daughter;
    }

    /** Three distinct nodes with distinct numbers below nodeCount. */
    ghost predicate Valid() {
      root != son && root != daughter && son != daughter &&
      root.nr != son.nr && root.nr != daughter.nr && son.nr != daughter.nr &&
      root.nr < nodeCount && son.nr < nodeCount && daughter.nr < nodeCount
    }

    function BranchCount(): int {
      nodeCount - 1
    }

    function SonSlot(): nat {
      RateIndex(son.nr, BranchCount(), root.nr)
    }

    function DaughterSlot(): nat {
      RateIndex(daughter.nr, BranchCount(), root.nr)
    }
  }

  /** A draw of uniform(-w, w). */
  predicate InWindow(a: real, w: real) {
    (-w <= a <= w) || (w <= a <= -w)
  }

  /** The operator: a window size it tunes, and the rates vector it rewrites. */
  class SimpleDistance {
    var windowSize: real
    const rates: array<real>
    const tree: Tree

    constructor (windowSize: real, rates: array<real>, tree: Tree)
      ensures this.windowSize == windowSize && this.rates == rates && this.tree == tree
      ensures tree.Valid() && tree.BranchCount() <= rates.Length ==> Valid()
    {
      this.windowSize := windowSize;
      this.rates := rates;
      this.tree := tree;
    }

    /** The tree is well formed and the rates vector has a slot per branch. */
    ghost predicate Valid() {
      tree.Valid() && tree.BranchCount() <= rates.Length
    }

    /** The quantities the move reads. */
    function State(): RootBranches
      requires Valid()
      reads tree.root, tree.son, tree.daughter, rates
    {
      RateIndexOfNonRoot(tree.son.nr, tree.daughter.nr, tree.nodeCount, tree.root.nr);
      RateIndexOfNonRoot(tree.daughter.nr, tree.son.nr, tree.nodeCount, tree.root.nr);
      RootBranches(tree.root.height, tree.son.height, tree.daughter.height,
                   rates[tree.SonSlot()], rates[tree.DaughterSlot()])
    }

    /** One proposal with the draw `a` of uniform(-windowSize, windowSize). A
        refused move changes nothing; a move sets the root height and the two
        child-branch rates as Propose says and leaves every other slot alone. */
    method Proposal(a: real) returns (r: HastingsRatio)
      requires Valid()
      requires InWindow(a, windowSize)
      modifies tree.root, rates
      ensures Valid()
      ensures r == Propose(old(State()), a).Hastings()
      ensures r.Rejected? ==> tree.root.height == old(tree.root.height) && rates[..] == old(rates[..])
      ensures r.Ratio? ==> State() == Propose(old(State()), a).next
      ensures r.Ratio? ==>
                rates[..] == old(rates[..])[tree.SonSlot() := State().ri][tree.DaughterSlot() := State().rx]
      ensures tree.SonSlot() != tree.DaughterSlot()
      ensures forall j :: 0 <= j < rates.Length && j != tree.SonSlot() && j != tree.DaughterSlot() ==>
                rates[j] == old(rates[j])
    {
      var branchCount := tree.nodeCount - 1;
      var node := tree.root;
      var tx := node.height;

      var son := tree.son;
      var tj := son.height;
      var nodeN02 := RateIndex(son.nr, branchCount, node.nr);
      RateIndexOfNonRoot(son.nr, tree.daughter.nr, tree.nodeCount, node.nr);
      var ri := rates[nodeN02];
      var di := ri * (tx - tj);

      var daughter := tree.daughter;
      var tk := daughter.height;
      var nodeN03 := RateIndex(daughter.nr, branchCount, node.nr);
      RateIndexOfNonRoot(daughter.nr, son.nr, tree.nodeCount, node.nr);
      var rx := rates[nodeN03];
      var dx := rx * (tx - tk);

      var txNew := tx + a;
      var lower := Max(tj, tk);
      if txNew <= lower {
        return Rejected;
      }
      node.height := txNew;

      var riNew := di / (txNew - tj);
      var rxNew := dx / (txNew - tk);
      assert riNew == Rescaled(ri, tx, txNew, tj);
      assert rxNew == Rescaled(rx, tx, txNew, tk);
      rates[nodeN02] := riNew;
      rates[nodeN03] := rxNew;

      var nu := (tx - tj) * (tx - tk);
      var de := (txNew - tj) * (txNew - tk);
      DurationsPositive(txNew, tj, tk);
      var hastingsRatio := nu / de;
      assert hastingsRatio == ClosedFormRatio(tx, tj, tk, txNew);
      r := Ratio(hastingsRatio);
    }

    /** The tuning parameter: the window size. */
    function GetCoercableParameterValue(): (w: real)
      reads this
      ensures w == windowSize
    {
      windowSize
    }

    method SetCoercableParameterValue(value: real)
      modifies this`windowSize
      ensures GetCoercableParameterValue() == value
    {
      windowSize := value;
    }
  }

  // ---------------------------------------------------------------------
  // Tuning advice

  /** accepted / (accepted + rejected) as a double: not a number (None) when
      no proposal has been made. */
  function AcceptanceProbability(accepted: nat, rejected: nat): (p: Option<real>)
    ensures p.None? <==> accepted + rejected == 0
    ensures p.Some? ==> 0.0 <= p.value <= 1.0
    ensures p.Some? ==> p.value * (accepted + rejected) as real == accepted as real
  {
    if accepted + rejected == 0 then None
    else Some(accepted as real / (accepted + rejected) as real)
  }

  /** The ratio limited to [0.5, 2.0]. */
  function ClampRatio(ratio: real): (c: real)
    ensures 0.5 <= c <= 2.0
    ensures 0.5 <= ratio <= 2.0 ==> c == ratio
    ensures ratio > 2.0 ==> c == 2.0
    ensures ratio < 0.5 ==> c == 0.5
  {
    var c := if ratio > 2.0 then 2.0 else ratio;
    if c < 0.5 then 0.5 else c
  }

  /** The suggested window size, if the acceptance probability is outside
      [0.10, 0.40]: the window scaled by the clamped ratio of the observed to
      the target acceptance probability. A NaN probability (no proposals yet)
      fails both comparisons and gives no suggestion. */
  function PerformanceSuggestion(windowSize: real, accepted: nat, rejected: nat, targetProb: real)
    : (s: Option<real>)
    requires targetProb > 0.0
    ensures s.None? <==>
              AcceptanceProbability(accepted, rejected).None? ||
              0.10 <= AcceptanceProbability(accepted, rejected).value <= 0.40
    ensures s.Some? ==>
              s.value == windowSize * ClampRatio(AcceptanceProbability(accepted, rejected).value / targetProb)
  {
    match AcceptanceProbability(accepted, rejected)
    case None => None
    case Some(prob) =>
      var newWindowSize := windowSize * ClampRatio(prob / targetProb);
      if prob < 0.10 then Some(newWindowSize)
      else if prob > 0.40 then Some(newWindowSize)
      else None
  }

  /** A suggestion lies within a factor two of the window and points toward
      the target: smaller when acceptance is below target, larger above. */
  lemma {:induction false} SuggestionTowardTarget(windowSize: real, accepted: nat, rejected: nat, targetProb: real)
    requires windowSize > 0.0 && targetProb > 0.0
    requires PerformanceSuggestion(windowSize, accepted, rejected, targetProb).Some?
    ensures var s := PerformanceSuggestion(windowSize, accepted, rejected, targetProb).value;
            var p := AcceptanceProbability(accepted, rejected).value;
            windowSize / 2.0 <= s <= 2.0 * windowSize &&
            (p < targetProb ==> s < windowSize) &&
            (p > targetProb ==> s > windowSize)
  {
    var p := AcceptanceProbability(accepted, rejected).value;
    var c := ClampRatio(p / targetProb);
    ScaledWithin(windowSize, c);
    if p < targetProb {
      CompareQuotient(p, targetProb);
      ScaledBelow(windowSize, c);
    }
    if p > targetProb {
      CompareQuotient(p, targetProb);
      ScaledAbove(windowSize, c);
    }
  }

  lemma CompareQuotient(p: real, q: real)
    requires q > 0.0
    ensures p < q ==> p / q < 1.0
    ensures p > q ==> p / q > 1.0
  {
  }

  lemma ScaledWithin(w: real, c: real)
    requires w > 0.0 && 0.5 <= c <= 2.0
    ensures w / 2.0 <= w * c <= 2.0 * w
  {
  }

  lemma ScaledBelow(w: real, c: real)
    requires w > 0.0 && c < 1.0
    ensures w * c < w
  {
  }

  lemma ScaledAbove(w: real, c: real)
    requires w > 0.0 && c > 1.0
    ensures w * c > w
  {
  }
}
