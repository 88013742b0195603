/** Gathering the k-variables of a constraint: a walk over the tree with a
    stack of the sorts bound by the enclosing `ForAll`s, recording for each
    k-variable the sorts of its arguments at its first occurrence. */
module FixpointGather {
  import opened Wrappers
  import opened Fixpoint

  type Signatures = map<KVid, seq<Sort>>

  /** Each argument index looked up in the scope, in order; `None` where
      the source panics because an index is out of range. */
  function Resolve(scope: seq<Sort>, args: seq<nat>): (r: Option<seq<Sort>>)
    ensures r.Some? <==> forall i :: 0 <= i < |args| ==> args[i] < |scope|
    ensures r.Some? ==> |r.value| == |args|
    ensures r.Some? ==> forall i :: 0 <= i < |args| ==> r.value[i] == scope[args[i]]
  {
    if args == [] then Some([])
    else if args[0] >= |scope| then None
    else match Resolve(scope, args[1..])
      case None => None
      case Some(rest) => Some([scope[args[0]]] + rest)
  }

  /** The `Pred::KVar` arm: a k-variable already recorded is left alone. */
  function Record(id: KVid, args: seq<nat>, scope: seq<Sort>, m: Signatures): Option<Signatures>
  {
    if id in m then Some(m)
    else match Resolve(scope, args)
      case None => None
      case Some(sorts) => Some(m[id := sorts])
  }

  /** `m'` keeps every signature of `m`. */
  predicate Extends(m: Signatures, m': Signatures) {
    forall k :: k in m ==> k in m' && m'[k] == m[k]
  }

  // ---------------------------------------------------------------------
  // The map after a visit, as functions of the scope and the map before
  // ---------------------------------------------------------------------

  function AfterPred(p: Pred, scope: seq<Sort>, m: Signatures): (r: Option<Signatures>)
    ensures r.Some? ==> Extends(m, r.value)
  {
    match p
    case And(ps) => AfterPreds(ps, scope, m)
    case KVar(k, args) => Record(k, args, scope, m)
    case Expr(_) => Some(m)
  }

  function AfterPreds(ps: seq<Pred>, scope: seq<Sort>, m: Signatures): (r: Option<Signatures>)
    ensures r.Some? ==> Extends(m, r.value)
  {
    if ps == [] then Some(m)
    else match AfterPred(ps[0], scope, m)
      case None => None
      case Some(m1) => AfterPreds(ps[1..], scope, m1)
  }

  /** A `ForAll` visits premise and conclusion with its sort pushed; a
      `Guard` visits both in the current scope. */
  function AfterConstraint(c: Constraint, scope: seq<Sort>, m: Signatures): (r: Option<Signatures>)
    ensures r.Some? ==> Extends(m, r.value)
  {
    match c
    case Pred(p) => AfterPred(p, scope, m)
    case Conj(cs) => AfterConstraints(cs, scope, m)
    case Guard(p, k) =>
      (match AfterPred(p, scope, m)
       case None => None
       case Some(m1) => AfterConstraint(k, scope, m1))
    case ForAll(s, p, k) =>
      (match AfterPred(p, scope + [s], m)
       case None => None
       case Some(m1) => AfterConstraint(k, scope + [s], m1))
  }

  function AfterConstraints(cs: seq<Constraint>, scope: seq<Sort>, m: Signatures): (r: Option<Signatures>)
    ensures r.Some? ==> Extends(m, r.value)
  {
    if cs == [] then Some(m)
    else match AfterConstraint(cs[0], scope, m)
      case None => None
      case Some(m1) => AfterConstraints(cs[1..], scope, m1)
  }

  // ---------------------------------------------------------------------
  // Occurrences: the k-variable applications of a tree, in visiting order
  // ---------------------------------------------------------------------

  /** A k-variable application together with the scope it is gathered in,
      the `(depth, sort)` of each enclosing `ForAll` as it is emitted, and
      the emission depth at the application. The depth is a counter of this
      walk that advances exactly where `Fixpoint.EmitConstraint` advances its
      own: by one into both children of a `ForAll`, not at all at a `Guard`
      or a `Conj` (compare `Fixpoint.DepthOnlyAtForAll`). */
  datatype Occurrence = Occurrence(id: KVid, args: seq<nat>, scope: seq<Sort>, binders: seq<(nat, Sort)>, depth: nat)

  function PredOccurrences(p: Pred, scope: seq<Sort>, binders: seq<(nat, Sort)>, depth: nat): seq<Occurrence>
  {
    match p
    case And(ps) => PredsOccurrences(ps, scope, binders, depth)
    case KVar(k, args) => [Occurrence(k, args, scope, binders, depth)]
    case Expr(_) => []
  }

  function PredsOccurrences(ps: seq<Pred>, scope: seq<Sort>, binders: seq<(nat, Sort)>, depth: nat): seq<Occurrence>
  {
    if ps == [] then []
    else PredOccurrences(ps[0], scope, binders, depth) + PredsOccurrences(ps[1..], scope, binders, depth)
  }

  function Occurrences(c: Constraint, scope: seq<Sort>, binders: seq<(nat, Sort)>, depth: nat): seq<Occurrence>
  {
    match c
    case Pred(p) => PredOccurrences(p, scope, binders, depth)
    case Conj(cs) => ConjOccurrences(cs, scope, binders, depth)
    case Guard(p, k) => PredOccurrences(p, scope, binders, depth) + Occurrences(k, scope, binders, depth)
    case ForAll(s, p, k) =>
      PredOccurrences(p, scope + [s], binders + [(depth, s)], depth + 1)
      + Occurrences(k, scope + [s], binders + [(depth, s)], depth + 1)
  }

  function ConjOccurrences(cs: seq<Constraint>, scope: seq<Sort>, binders: seq<(nat, Sort)>, depth: nat): seq<Occurrence>
  {
    if cs == [] then []
    else Occurrences(cs[0], scope, binders, depth) + ConjOccurrences(cs[1..], scope, binders, depth)
  }

  /** The occurrences of a whole constraint, visited from the empty scope
      and emitted from depth 0. */
  function RootOccurrences(c: Constraint): seq<Occurrence>
  {
    Occurrences(c, [], [], 0)
  }

  function Ids(occs: seq<Occurrence>): set<KVid>
  {
    set o | o in occs :: o.id
  }

  /** Recording the occurrences one after the other. */
  function Fold(occs: seq<Occurrence>, m: Signatures): Option<Signatures>
  {
    if occs == [] then Some(m)
    else match Record(occs[0].id, occs[0].args, occs[0].scope, m)
      case None => None
      case Some(m1) => Fold(occs[1..], m1)
  }

  function Then(r: Option<Signatures>, occs: seq<Occurrence>): Option<Signatures>
  {
    match r
    case None => None
    case Some(m) => Fold(occs, m)
  }

  lemma {:induction false} FoldAppend(a: seq<Occurrence>, b: seq<Occurrence>, m: Signatures)
    ensures Fold(a + b, m) == Then(Fold(a, m), b)
  {
    if a == [] {
      assert a + b == b;
    } else {
      assert (a + b)[0] == a[0] && (a + b)[1..] == a[1..] + b;
      match Record(a[0].id, a[0].args, a[0].scope, m)
      case None =>
      case Some(m1) => FoldAppend(a[1..], b, m1);
    }
  }

  // ---------------------------------------------------------------------
  // The walk records its occurrences in order
  // ---------------------------------------------------------------------

  lemma {:induction false} PredIsFold(p: Pred, scope: seq<Sort>, binders: seq<(nat, Sort)>, depth: nat, m: Signatures)
    ensures AfterPred(p, scope, m) == Fold(PredOccurrences(p, scope, binders, depth), m)
    decreases p
  {
    match p
    case And(ps) => PredsIsFold(ps, scope, binders, depth, m);
    case KVar(k, args) =>
      var o := Occurrence(k, args, scope, binders, depth);
      assert [o][1..] == [];
    case Expr(_) =>
  }

  lemma {:induction false} PredsIsFold(ps: seq<Pred>, scope: seq<Sort>, binders: seq<(nat, Sort)>, depth: nat, m: Signatures)
    ensures AfterPreds(ps, scope, m) == Fold(PredsOccurrences(ps, scope, binders, depth), m)
    decreases ps
  {
    if ps != [] {
      var head := PredOccurrences(ps[0], scope, binders, depth);
      var tail := PredsOccurrences(ps[1..], scope, binders, depth);
      FoldAppend(head, tail, m);
      PredIsFold(ps[0], scope, binders, depth, m);
      match AfterPred(ps[0], scope, m)
      case None =>
      case Some(m1) => PredsIsFold(ps[1..], scope, binders, depth, m1);
    }
  }

  lemma {:induction false} ConstraintIsFold(c: Constraint, scope: seq<Sort>, binders: seq<(nat, Sort)>, depth: nat, m: Signatures)
    ensures AfterConstraint(c, scope, m) == Fold(Occurrences(c, scope, binders, depth), m)
    decreases c
  {
    match c
    case Pred(p) => PredIsFold(p, scope, binders, depth, m);
    case Conj(cs) => ConjIsFold(cs, scope, binders, depth, m);
    case Guard(p, k) =>
      FoldAppend(PredOccurrences(p, scope, binders, depth), Occurrences(k, scope, binders, depth), m);
      PredIsFold(p, scope, binders, depth, m);
      match AfterPred(p, scope, m) {
        case None =>
        case Some(m1) => ConstraintIsFold(k, scope, binders, depth, m1);
      }
    case ForAll(s, p, k) =>
      var scope', binders' := scope + [s], binders + [(depth, s)];
      FoldAppend(PredOccurrences(p, scope', binders', depth + 1), Occurrences(k, scope', binders', depth + 1), m);
      PredIsFold(p, scope', binders', depth + 1, m);
      match AfterPred(p, scope', m)
      case None =>
      case Some(m1) => ConstraintIsFold(k, scope', binders', depth + 1, m1);
  }

  lemma {:induction false} ConjIsFold(cs: seq<Constraint>, scope: seq<Sort>, binders: seq<(nat, Sort)>, depth: nat, m: Signatures)
    ensures AfterConstraints(cs, scope, m) == Fold(ConjOccurrences(cs, scope, binders, depth), m)
    decreases cs
  {
    if cs != [] {
      FoldAppend(Occurrences(cs[0], scope, binders, depth), ConjOccurrences(cs[1..], scope, binders, depth), m);
      ConstraintIsFold(cs[0], scope, binders, depth, m);
      match AfterConstraint(cs[0], scope, m)
      case None =>
      case Some(m1) => ConjIsFold(cs[1..], scope, binders, depth, m1);
    }
  }

  // ---------------------------------------------------------------------
  // First occurrence wins
  // ---------------------------------------------------------------------

  /** Occurrence `j` is the first of its k-variable, which `m` does not
      already hold. */
  predicate FirstNew(occs: seq<Occurrence>, j: int, m: Signatures)
    requires 0 <= j < |occs|
  {
    occs[j].id !in m && forall i :: 0 <= i < j ==> occs[i].id != occs[j].id
  }

  /** Every first occurrence names arguments that are in scope. */
  predicate Resolvable(occs: seq<Occurrence>, m: Signatures)
  {
    forall j :: 0 <= j < |occs| && FirstNew(occs, j, m) ==> Resolve(occs[j].scope, occs[j].args).Some?
  }

  lemma FirstNewShift(occs: seq<Occurrence>, m: Signatures, m1: Signatures, j: int)
    requires 1 <= j < |occs|
    requires m1.Keys == m.Keys + {occs[0].id}
    ensures FirstNew(occs, j, m) <==> FirstNew(occs[1..], j - 1, m1)
  {
    if FirstNew(occs[1..], j - 1, m1) {
      forall i | 0 <= i < j ensures occs[i].id != occs[j].id {
        if i > 0 {
          assert occs[i] == occs[1..][i - 1];
        }
      }
    }
    if FirstNew(occs, j, m) {
      forall i | 0 <= i < j - 1 ensures occs[1..][i].id != occs[1..][j - 1].id {
        assert occs[1..][i] == occs[i + 1];
      }
    }
  }

  lemma {:induction false} FoldSome(occs: seq<Occurrence>, m: Signatures)
    ensures Fold(occs, m).Some? <==> Resolvable(occs, m)
  {
    if occs != [] {
      var o := occs[0];
      match Record(o.id, o.args, o.scope, m)
      case None =>
        assert FirstNew(occs, 0, m);
      case Some(m1) =>
        FoldSome(occs[1..], m1);
        forall j | 1 <= j < |occs| ensures FirstNew(occs, j, m) <==> FirstNew(occs[1..], j - 1, m1) {
          FirstNewShift(occs, m, m1, j);
        }
        if Resolvable(occs[1..], m1) {
          forall j | 0 <= j < |occs| && FirstNew(occs, j, m)
            ensures Resolve(occs[j].scope, occs[j].args).Some?
          {
            if j > 0 {
              assert occs[j] == occs[1..][j - 1];
            }
          }
        } else {
          var j :| 0 <= j < |occs[1..]| && FirstNew(occs[1..], j, m1)
                   && Resolve(occs[1..][j].scope, occs[1..][j].args).None?;
          assert FirstNew(occs, j + 1, m);
        }
    }
  }

  lemma {:induction false} FoldKeys(occs: seq<Occurrence>, m: Signatures)
    requires Fold(occs, m).Some?
    ensures Fold(occs, m).value.Keys == m.Keys + Ids(occs)
  {
    if occs != [] {
      var o := occs[0];
      var m1 := Record(o.id, o.args, o.scope, m).value;
      assert m1.Keys == m.Keys + {o.id};
      FoldKeys(occs[1..], m1);
      assert Ids(occs) == {o.id} + Ids(occs[1..]) by {
        assert forall x :: x in occs <==> x == o || x in occs[1..];
      }
    }
  }

  lemma {:induction false} FoldFirst(occs: seq<Occurrence>, m: Signatures)
    requires Fold(occs, m).Some?
    ensures Extends(m, Fold(occs, m).value)
    ensures forall j :: 0 <= j < |occs| && FirstNew(occs, j, m) ==>
              var r := Resolve(occs[j].scope, occs[j].args);
              r.Some? && occs[j].id in Fold(occs, m).value && Fold(occs, m).value[occs[j].id] == r.value
  {
    if occs != [] {
      var o := occs[0];
      var m1 := Record(o.id, o.args, o.scope, m).value;
      assert m1.Keys == m.Keys + {o.id};
      assert Extends(m, m1);
      FoldFirst(occs[1..], m1);
      var m' := Fold(occs, m).value;
      forall j | 0 <= j < |occs| && FirstNew(occs, j, m)
        ensures var r := Resolve(occs[j].scope, occs[j].args); r.Some? && occs[j].id in m' && m'[occs[j].id] == r.value
      {
        if j > 0 {
          FirstNewShift(occs, m, m1, j);
          assert occs[j] == occs[1..][j - 1];
        }
      }
    }
  }

  /** What the walk records, stated without the walk: the run succeeds
      exactly when the first application of every k-variable has its
      arguments in scope; it then holds one entry per k-variable occurring
      in the tree, fixed by its first application (element i of the
      signature is the sort of the scope at argument i). */
  lemma GatheredSignatures(c: Constraint)
    ensures AfterConstraint(c, [], map[]).Some? <==> Resolvable(RootOccurrences(c), map[])
    ensures AfterConstraint(c, [], map[]).Some? ==>
              var occs, m := RootOccurrences(c), AfterConstraint(c, [], map[]).value;
              m.Keys == Ids(occs)
              && forall j :: 0 <= j < |occs| && FirstNew(occs, j, map[]) ==>
                   |m[occs[j].id]| == |occs[j].args|
                   && forall i :: 0 <= i < |occs[j].args| ==> m[occs[j].id][i] == occs[j].scope[occs[j].args[i]]
  {
    ConstraintIsFold(c, [], [], 0, map[]);
    FoldSome(RootOccurrences(c), map[]);
    if AfterConstraint(c, [], map[]).Some? {
      FoldKeys(RootOccurrences(c), map[]);
      FoldFirst(RootOccurrences(c), map[]);
    }
  }

  // ---------------------------------------------------------------------
  // Scope and emission depth
  // ---------------------------------------------------------------------

  /** At an occurrence the scope has one sort per enclosing `ForAll`, the
      `ForAll` that contributed scope entry i was emitted at depth i (and
      so bound `v{i}`), and the emission depth is the scope length. */
  predicate DepthAgrees(scope: seq<Sort>, binders: seq<(nat, Sort)>, depth: nat)
  {
    |scope| == depth && |binders| == depth
    && forall i :: 0 <= i < |binders| ==> binders[i] == (i, scope[i])
  }

  lemma {:induction false} PredOccurrencesHere(p: Pred, scope: seq<Sort>, binders: seq<(nat, Sort)>, depth: nat)
    ensures forall o :: o in PredOccurrences(p, scope, binders, depth) ==>
              o.scope == scope && o.binders == binders && o.depth == depth
    decreases p
  {
    match p
    case And(ps) => PredsOccurrencesHere(ps, scope, binders, depth);
    case KVar(_, _) =>
    case Expr(_) =>
  }

  lemma {:induction false} PredsOccurrencesHere(ps: seq<Pred>, scope: seq<Sort>, binders: seq<(nat, Sort)>, depth: nat)
    ensures forall o :: o in PredsOccurrences(ps, scope, binders, depth) ==>
              o.scope == scope && o.binders == binders && o.depth == depth
    decreases ps
  {
    if ps != [] {
      PredOccurrencesHere(ps[0], scope, binders, depth);
      PredsOccurrencesHere(ps[1..], scope, binders, depth);
    }
  }

  lemma {:induction false} OccurrenceDepths(c: Constraint, scope: seq<Sort>, binders: seq<(nat, Sort)>, depth: nat)
    requires DepthAgrees(scope, binders, depth)
    ensures forall o :: o in Occurrences(c, scope, binders, depth) ==> DepthAgrees(o.scope, o.binders, o.depth)
    decreases c
  {
    match c
    case Pred(p) => PredOccurrencesHere(p, scope, binders, depth);
    case Conj(cs) => ConjOccurrenceDepths(cs, scope, binders, depth);
    case Guard(p, k) =>
      PredOccurrencesHere(p, scope, binders, depth);
      OccurrenceDepths(k, scope, binders, depth);
    case ForAll(s, p, k) =>
      var scope', binders' := scope + [s], binders + [(depth, s)];
      assert DepthAgrees(scope', binders', depth + 1) by {
        forall i | 0 <= i < |binders'| ensures binders'[i] == (i, scope'[i]) {
          if i < depth {
            assert binders'[i] == binders[i] && scope'[i] == scope[i];
          }
        }
      }
      PredOccurrencesHere(p, scope', binders', depth + 1);
      OccurrenceDepths(k, scope', binders', depth + 1);
  }

  lemma {:induction false} ConjOccurrenceDepths(cs: seq<Constraint>, scope: seq<Sort>, binders: seq<(nat, Sort)>, depth: nat)
    requires DepthAgrees(scope, binders, depth)
    ensures forall o :: o in ConjOccurrences(cs, scope, binders, depth) ==> DepthAgrees(o.scope, o.binders, o.depth)
    decreases cs
  {
    if cs != [] {
      OccurrenceDepths(cs[0], scope, binders, depth);
      ConjOccurrenceDepths(cs[1..], scope, binders, depth);
    }
  }

  /** Gathering from the root: at every k-variable application the scope
      stack holds exactly the sorts of the enclosing `ForAll`s, outermost
      first, and argument index i denotes `v{i}`, the variable the `ForAll`
      emitted at depth i binds. */
  lemma RootDepthsAgree(c: Constraint)
    ensures forall o :: o in RootOccurrences(c) ==> DepthAgrees(o.scope, o.binders, o.depth)
  {
    OccurrenceDepths(c, [], [], 0);
  }

  // ---------------------------------------------------------------------
  // The imperative walk
  // ---------------------------------------------------------------------

  /** `KVarGatherCtx`: the stack of in-scope sorts and the signatures
      recorded so far. */
  class KVarGatherCtx {
    var scope: seq<Sort>
    var kvars: Signatures

    constructor ()
      ensures scope == [] && kvars == map[]
    {
      scope := [];
      kvars := map[];
    }

    /** `Constraint::gather_kvars`; the scope stack is left as it was found. */
    method GatherConstraint(c: Constraint)
      requires AfterConstraint(c, scope, kvars).Some?
      modifies this
      ensures scope == old(scope)
      ensures kvars == AfterConstraint(c, old(scope), old(kvars)).value
      decreases c
    {
      match c
      case Pred(p) =>
        GatherPred(p);
      case Conj(cs) =>
        var i := 0;
        while i < |cs|
          invariant 0 <= i <= |cs|
          invariant scope == old(scope)
          invariant AfterConstraints(cs[i..], scope, kvars) == AfterConstraints(cs, old(scope), old(kvars))
        {
          assert cs[i..][0] == cs[i] && cs[i..][1..] == cs[i + 1..];
          GatherConstraint(cs[i]);
          i := i + 1;
        }
      case Guard(p, k) =>
        GatherPred(p);
        GatherConstraint(k);
      case ForAll(s, p, k) =>
        scope := scope + [s];
        GatherPred(p);
        GatherConstraint(k);
        scope := scope[..|scope| - 1];
    }

    /** `Pred::gather_kvars`. */
    method GatherPred(p: Pred)
      requires AfterPred(p, scope, kvars).Some?
      modifies this
      ensures scope == old(scope)
      ensures kvars == AfterPred(p, old(scope), old(kvars)).value
      decreases p
    {
      match p
      case And(ps) =>
        var i := 0;
        while i < |ps|
          invariant 0 <= i <= |ps|
          invariant scope == old(scope)
          invariant AfterPreds(ps[i..], scope, kvars) == AfterPreds(ps, old(scope), old(kvars))
        {
          assert ps[i..][0] == ps[i] && ps[i..][1..] == ps[i + 1..];
          GatherPred(ps[i]);
          i := i + 1;
        }
      case KVar(k, args) =>
        if k in kvars {
          return;
        }
        var sc := scope;
        assert Resolve(sc, args).Some?;
        var sorts := seq(|args|, i requires 0 <= i < |args| && args[i] < |sc| => sc[args[i]]);
        assert sorts == Resolve(sc, args).value;
        kvars := kvars[k := sorts];
      case Expr(_) =>
    }
  }

  /** `KVarGatherCtx::gather_kvars`: one declaration per k-variable of the
      tree, with the sorts fixed by its first application. The source
      panics when an argument index is out of scope; that is excluded by
      the precondition. */
  method GatherKVars(c: Constraint) returns (kvs: set<KVar>)
    requires AfterConstraint(c, [], map[]).Some?
    ensures forall kv :: kv in kvs <==>
              kv.id in AfterConstraint(c, [], map[]).value
              && kv.sorts == AfterConstraint(c, [], map[]).value[kv.id]
    ensures (set kv | kv in kvs :: kv.id) == Ids(RootOccurrences(c))
    ensures forall a, b :: a in kvs && b in kvs && a.id == b.id ==> a == b
  {
    var cx := new KVarGatherCtx();
    cx.GatherConstraint(c);
    kvs := set id | id in cx.kvars :: KVar.KVar(id, cx.kvars[id]);
    GatheredSignatures(c);
    assert (set kv | kv in kvs :: kv.id) == cx.kvars.Keys by {
      forall id | id in cx.kvars ensures id in (set kv | kv in kvs :: kv.id) {
        assert KVar.KVar(id, cx.kvars[id]) in kvs;
      }
    }
  }
}
