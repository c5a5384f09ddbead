/**
 Activations and the two orders in which an agenda fires them.
 */
module AgendaOrder {

  type ModuleName = string

  const MAIN: ModuleName := "MAIN"

  /** A position in the agenda's activation storage. */
  type Handle = nat

  /** A rule revision. */
  type RuleId = nat

  /** A token of the network; zero is none. */
  type TokenId = nat

  datatype Strategy = Depth | Breadth

  datatype Status = Waiting | Consumed | Deactivated

  datatype Identity = Identity(scopeHash: nat, hash: nat)

  datatype FactRef = FactRef(id: nat, version: nat)

  datatype FactKey = FactKey(generation: nat, sequence: nat)

  /** What one condition contributed to an activation. */
  datatype BirthEntry = BirthEntry(
    conditionOrder: int,
    bindingSlot: int,
    binding: string,
    conditionID: string,
    fact: FactKey,
    version: nat,
    hasValue: bool,
    valueKey: string)

  datatype Activation = Activation(
    ordinal: nat,
    rule: RuleId,
    identity: Identity,
    facts: seq<FactRef>,
    tuple: seq<BirthEntry>,
    token: TokenId,
    birthEpoch: nat,
    birthRank: nat,
    moduleName: ModuleName,
    salience: int,
    declarationOrder: int,
    maxRecency: nat,
    totalRecency: nat,
    supportCount: nat,
    status: Status,
    proof: nat)

  /** The order in force: the strategy, and whether a ruleset is known. */
  datatype Order = Order(strategy: Strategy, ranked: bool)

  predicate DepthLess(ranked: bool, l: Activation, r: Activation) {
    if l.salience != r.salience then l.salience > r.salience
    else if l.maxRecency != r.maxRecency then l.maxRecency > r.maxRecency
    else if l.totalRecency != r.totalRecency then l.totalRecency > r.totalRecency
    else if ranked && l.rule != r.rule && l.declarationOrder != r.declarationOrder then l.declarationOrder < r.declarationOrder
    else if l.identity.scopeHash != r.identity.scopeHash then l.identity.scopeHash < r.identity.scopeHash
    else if l.identity.hash != r.identity.hash then l.identity.hash < r.identity.hash
    else l.ordinal < r.ordinal
  }

  predicate BreadthLess(l: Activation, r: Activation) {
    if l.salience != r.salience then l.salience > r.salience
    else if l.birthEpoch != r.birthEpoch then l.birthEpoch < r.birthEpoch
    else if l.birthRank != r.birthRank then l.birthRank < r.birthRank
    else l.ordinal < r.ordinal
  }

  predicate Less(o: Order, l: Activation, r: Activation) {
    match o.strategy
    case Depth => DepthLess(o.ranked, l, r)
    case Breadth => BreadthLess(l, r)
  }

  /** A rule revision has one place in declaration order. */
  predicate SameDeclaration(l: Activation, r: Activation) {
    l.rule == r.rule ==> l.declarationOrder == r.declarationOrder
  }

  lemma LessAsymmetric(o: Order, l: Activation, r: Activation)
    ensures !(Less(o, l, r) && Less(o, r, l))
  {
  }

  lemma LessTransitive(o: Order, a: Activation, b: Activation, c: Activation)
    requires SameDeclaration(a, b) && SameDeclaration(b, c) && SameDeclaration(a, c)
    ensures Less(o, a, b) && Less(o, b, c) ==> Less(o, a, c)
    ensures !Less(o, b, a) && !Less(o, c, b) ==> !Less(o, c, a)
  {
  }

  /** Activations with different ordinals are never tied. */
  lemma LessTotal(o: Order, l: Activation, r: Activation)
    requires l.ordinal != r.ordinal
    ensures Less(o, l, r) || Less(o, r, l)
  {
  }

  /** The depth order has cycles if a rule revision could sit at two places. */
  lemma DeclarationsMustAgree(a: Activation)
    ensures var b := a.(rule := a.rule + 1, declarationOrder := a.declarationOrder + 1, identity := Identity(a.identity.scopeHash, a.identity.hash + 1));
            var c := a.(declarationOrder := a.declarationOrder + 2);
            var d := a.(identity := Identity(a.identity.scopeHash, a.identity.hash + 2));
            var o := Order(Depth, true);
            Less(o, d, b) && Less(o, b, c) && Less(o, c, d) && !SameDeclaration(c, d)
  {
  }

  // ----- Storage and lists ----------------------------------------------------------------

  /** Handles compare as the activations they lead to. */
  predicate Before(o: Order, acts: seq<Activation>, a: Handle, b: Handle) {
    a < |acts| && b < |acts| && Less(o, acts[a], acts[b])
  }

  /** Ordinals identify activations, and rules keep their place in declaration order. */
  ghost predicate Distinguished(acts: seq<Activation>) {
    && (forall a, b :: 0 <= a < b < |acts| ==> acts[a].ordinal != acts[b].ordinal)
    && (forall a, b :: 0 <= a < |acts| && 0 <= b < |acts| ==> SameDeclaration(acts[a], acts[b]))
  }

  lemma BeforeOrder(o: Order, acts: seq<Activation>, a: Handle, b: Handle, c: Handle)
    requires Distinguished(acts) && a < |acts| && b < |acts| && c < |acts|
    ensures !Before(o, acts, b, a) && !Before(o, acts, c, b) ==> !Before(o, acts, c, a)
    ensures !(Before(o, acts, a, b) && Before(o, acts, b, a))
    ensures a != b ==> Before(o, acts, a, b) || Before(o, acts, b, a)
  {
    LessTransitive(o, acts[a], acts[b], acts[c]);
    LessAsymmetric(o, acts[a], acts[b]);
    if a != b { LessTotal(o, acts[a], acts[b]); }
  }
}
