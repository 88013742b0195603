/** The refinement-type data model of the checker: refined base types,
    dependent tuples, references and uninitialised memory, the predicates
    that refine them, and their human-readable renderings. Interned
    (hash-consed) handles are plain structural values here. */
module RefinementTy {
  import Text
  import opened Parens
  import opened Wrappers

  // ---------------------------------------------------------------------
  // Index families: plain numbers, each rendered with its own prefix
  // ---------------------------------------------------------------------

  newtype KVid = n: int | 0 <= n
  newtype RegionVid = n: int | 0 <= n
  newtype Field = n: int | 0 <= n
  newtype UniversalRegion = n: int | 0 <= n
  newtype GhostVar = n: int | 0 <= n

  function KVidStr(k: KVid): string { "$k" + Text.NatStr(k as nat) }
  function RegionVidStr(r: RegionVid): string { "$r" + Text.NatStr(r as nat) }
  function FieldStr(f: Field): string { "@" + Text.NatStr(f as nat) }
  function UniversalRegionStr(u: UniversalRegion): string { "'" + Text.NatStr(u as nat) }
  function GhostVarStr(g: GhostVar): string { "g" + Text.NatStr(g as nat) }

  /** An index of any of the five families. */
  datatype Index =
    | KVidIndex(k: KVid)
    | RegionVidIndex(r: RegionVid)
    | FieldIndex(f: Field)
    | UniversalRegionIndex(u: UniversalRegion)
    | GhostVarIndex(g: GhostVar)

  function IndexStr(x: Index): string
  {
    match x
    case KVidIndex(k) => KVidStr(k)
    case RegionVidIndex(r) => RegionVidStr(r)
    case FieldIndex(f) => FieldStr(f)
    case UniversalRegionIndex(u) => UniversalRegionStr(u)
    case GhostVarIndex(g) => GhostVarStr(g)
  }

  function Number(s: string): Option<nat>
  {
    if |s| >= 1 && Text.AllDigits(s) then Some(Text.DigitsValue(s)) else None
  }

  /** Reads a rendered index back: the prefix names the family, the digits
      after it the number. */
  function ReadIndex(s: string): Option<Index>
  {
    if |s| >= 2 && s[..2] == "$k" then
      (match Number(s[2..]) case None => None case Some(n) => Some(KVidIndex(n as KVid)))
    else if |s| >= 2 && s[..2] == "$r" then
      (match Number(s[2..]) case None => None case Some(n) => Some(RegionVidIndex(n as RegionVid)))
    else if |s| >= 1 && s[0] == '@' then
      (match Number(s[1..]) case None => None case Some(n) => Some(FieldIndex(n as Field)))
    else if |s| >= 1 && s[0] == '\'' then
      (match Number(s[1..]) case None => None case Some(n) => Some(UniversalRegionIndex(n as UniversalRegion)))
    else if |s| >= 1 && s[0] == 'g' then
      (match Number(s[1..]) case None => None case Some(n) => Some(GhostVarIndex(n as GhostVar)))
    else None
  }

  /** Every index renders its family and its number exactly. */
  lemma IndexRoundTrip(x: Index)
    ensures ReadIndex(IndexStr(x)) == Some(x)
  {
    match x
    case KVidIndex(k) => ReadTwoLetter("$k", k as nat);
    case RegionVidIndex(r) => ReadTwoLetter("$r", r as nat);
    case FieldIndex(f) => ReadOneLetter('@', f as nat);
    case UniversalRegionIndex(u) => ReadOneLetter('\'', u as nat);
    case GhostVarIndex(g) => ReadOneLetter('g', g as nat);
  }

  /** The two-character prefixes `$k` and `$r` and the number after them. */
  lemma ReadTwoLetter(prefix: string, n: nat)
    requires prefix == "$k" || prefix == "$r"
    ensures var s := prefix + Text.NatStr(n);
            |s| >= 2 && s[..2] == prefix && Number(s[2..]) == Some(n)
  {
    var s := prefix + Text.NatStr(n);
    assert s[..2] == prefix && s[2..] == Text.NatStr(n);
    Text.NatStrRoundTrip(n);
  }

  /** The one-character prefixes `@`, `'` and `g` and the number after them. */
  lemma ReadOneLetter(c: char, n: nat)
    requires c != '$'
    ensures var s := [c] + Text.NatStr(n);
            s[0] == c && !(|s| >= 2 && (s[..2] == "$k" || s[..2] == "$r"))
    ensures Number(([c] + Text.NatStr(n))[1..]) == Some(n)
  {
    var s := [c] + Text.NatStr(n);
    assert s[1..] == Text.NatStr(n);
    Text.NatStrRoundTrip(n);
  }

  /** Indices of different families, or with different numbers, never
      render alike. */
  lemma IndexStrInjective(x: Index, y: Index)
    ensures IndexStr(x) == IndexStr(y) ==> x == y
  {
    IndexRoundTrip(x);
    IndexRoundTrip(y);
  }

  // ---------------------------------------------------------------------
  // Variables and paths
  // ---------------------------------------------------------------------

  /** `Nu` is the value a refinement constrains, the `v` of `{v | v > 0}`. */
  datatype Var = Nu | Ghost(gv: GhostVar) | Field(fld: Field)

  function VarStr(v: Var): string
  {
    match v
    case Nu => "v"
    case Ghost(g) => GhostVarStr(g)
    case Field(f) => FieldStr(f)
  }

  /** The three kinds of variable render distinctly, and so do any two
      variables. */
  lemma VarStrInjective(a: Var, b: Var)
    ensures VarStr(a) == VarStr(b) ==> a == b
  {
    VarRead(a);
    VarRead(b);
  }

  lemma VarRead(v: Var)
    ensures ReadIndex(VarStr(v)) == (match v
                                    case Nu => None
                                    case Ghost(g) => Some(GhostVarIndex(g))
                                    case Field(f) => Some(FieldIndex(f)))
  {
    match v
    case Nu =>
    case Ghost(g) => IndexRoundTrip(GhostVarIndex(g));
    case Field(f) => IndexRoundTrip(FieldIndex(f));
  }

  /** A base variable followed by field projections; no dereferences. */
  datatype Path = New(base: Var, projs: seq<nat>)

  /** `Path::from`: the variable itself, with no projection. */
  function FromVar(base: Var): (p: Path)
    ensures p.base == base && p.projs == []
    ensures PathStr(p) == VarStr(base)
  {
    New(base, [])
  }

  /** `Path::extend`: one more projection at the end. */
  function Extend(p: Path, n: nat): (r: Path)
    ensures r.base == p.base
    ensures |r.projs| == |p.projs| + 1 && r.projs[..|p.projs|] == p.projs && r.projs[|p.projs|] == n
  {
    New(p.base, p.projs + [n])
  }

  function ProjsStr(projs: seq<nat>): string
  {
    if projs == [] then "" else "." + Text.NatStr(projs[0]) + ProjsStr(projs[1..])
  }

  /** The base followed by `.k` for each projection, in order. */
  function PathStr(p: Path): string
  {
    VarStr(p.base) + ProjsStr(p.projs)
  }

  lemma {:induction false} ProjsStrAppend(projs: seq<nat>, n: nat)
    ensures ProjsStr(projs + [n]) == ProjsStr(projs) + "." + Text.NatStr(n)
  {
    if projs == [] {
      assert projs + [n] == [n];
      assert [n][1..] == [];
    } else {
      assert (projs + [n])[0] == projs[0] && (projs + [n])[1..] == projs[1..] + [n];
      ProjsStrAppend(projs[1..], n);
    }
  }

  /** Extending a path appends `.n` to its rendering. */
  lemma PathStrExtend(p: Path, n: nat)
    ensures PathStr(Extend(p, n)) == PathStr(p) + "." + Text.NatStr(n)
  {
    ProjsStrAppend(p.projs, n);
  }

  // ---------------------------------------------------------------------
  // Operators and base types
  // ---------------------------------------------------------------------

  datatype BaseTy = Int | Bool

  function BaseTyStr(b: BaseTy): string
  {
    match b
    case Int => "int"
    case Bool => "bool"
  }

  /** Equality and disequality carry the base type they compare. */
  datatype BinOp =
    | Add | Sub | Mul | Div | Rem
    | Eq(eqTy: BaseTy) | Neq(neqTy: BaseTy)
    | Lt | Gt | Lte | Gte | And | Or

  datatype UnOp = Not | Neg

  function BinOpStr(op: BinOp): string
  {
    match op
    case Add => "+"
    case Sub => "-"
    case Mul => "*"
    case Div => "/"
    case Rem => "%"
    case And => "&&"
    case Or => "||"
    case Eq(_) => "=="
    case Neq(_) => "!="
    case Lt => "<"
    case Gt => ">"
    case Lte => "<="
    case Gte => ">="
  }

  function UnOpStr(op: UnOp): string
  {
    match op
    case Not => "!"
    case Neg => "-"
  }

  /** The operator with the base type of `==`/`!=` forgotten. */
  function Untyped(op: BinOp): BinOp
  {
    match op
    case Eq(_) => Eq(Int)
    case Neq(_) => Neq(Int)
    case _ => op
  }

  function ReadBinOp(s: string): Option<BinOp>
  {
    if s == "+" then Some(Add)
    else if s == "-" then Some(Sub)
    else if s == "*" then Some(Mul)
    else if s == "/" then Some(Div)
    else if s == "%" then Some(Rem)
    else if s == "&&" then Some(And)
    else if s == "||" then Some(Or)
    else if s == "==" then Some(Eq(Int))
    else if s == "!=" then Some(Neq(Int))
    else if s == "<" then Some(Lt)
    else if s == ">" then Some(Gt)
    else if s == "<=" then Some(Lte)
    else if s == ">=" then Some(Gte)
    else None
  }

  lemma BinOpRead(op: BinOp)
    ensures ReadBinOp(BinOpStr(op)) == Some(Untyped(op))
  {
  }

  /** Two operators render alike exactly when they agree up to the base
      type of `==`/`!=`: the rendering drops that base type and nothing
      else. */
  lemma BinOpStrAlike(a: BinOp, b: BinOp)
    ensures BinOpStr(a) == BinOpStr(b) <==> Untyped(a) == Untyped(b)
  {
    BinOpRead(a);
    BinOpRead(b);
    if Untyped(a) == Untyped(b) {
      assert BinOpStr(Untyped(a)) == BinOpStr(a) && BinOpStr(Untyped(b)) == BinOpStr(b);
    }
  }

  // ---------------------------------------------------------------------
  // Predicates
  // ---------------------------------------------------------------------

  /** A MIR constant: how it prints, and whether it is the boolean `true`. */
  datatype Constant = Constant(text: string, isTrue: bool)

  datatype Pred =
    | Path(path: Path)
    | BinaryOp(op: BinOp, lhs: Pred, rhs: Pred)
    | UnaryOp(uop: UnOp, arg: Pred)
    | Const(c: Constant)

  /** Binary predicates are fully parenthesised; unary ones are prefixed. */
  function PredStr(p: Pred): string
  {
    match p
    case Path(path) => PathStr(path)
    case BinaryOp(op, a, b) => "(" + PredStr(a) + " " + BinOpStr(op) + " " + PredStr(b) + ")"
    case UnaryOp(u, a) => UnOpStr(u) + PredStr(a)
    case Const(c) => c.text
  }

  /** Every constant of `p` prints without parentheses. */
  predicate PlainConstants(p: Pred)
  {
    match p
    case Path(_) => true
    case BinaryOp(_, a, b) => PlainConstants(a) && PlainConstants(b)
    case UnaryOp(_, a) => PlainConstants(a)
    case Const(c) => NoParens(c.text)
  }

  lemma DigitsNoParens(s: string)
    requires Text.AllDigits(s)
    ensures NoParens(s)
  {
  }

  lemma {:induction false} PathNoParens(p: Path)
    ensures NoParens(PathStr(p))
  {
    var n := match p.base case Nu => 0 case Ghost(g) => g as nat case Field(f) => f as nat;
    DigitsNoParens(Text.NatStr(n));
    ProjsNoParens(p.projs);
  }

  lemma {:induction false} ProjsNoParens(projs: seq<nat>)
    ensures NoParens(ProjsStr(projs))
  {
    if projs != [] {
      DigitsNoParens(Text.NatStr(projs[0]));
      ProjsNoParens(projs[1..]);
    }
  }

  /** The rendering of a predicate is balanced, given constants that print
      without parentheses. */
  lemma {:induction false} PredBalanced(p: Pred)
    requires PlainConstants(p)
    ensures Balanced(PredStr(p))
  {
    match p
    case Path(path) =>
      PathNoParens(path);
      NoParensBalanced(PathStr(path));
    case BinaryOp(op, a, b) =>
      PredBalanced(a);
      PredBalanced(b);
      BinaryShape(PredStr(a), BinOpStr(op), PredStr(b));
    case UnaryOp(u, a) =>
      PredBalanced(a);
      assert Scan(UnOpStr(u), 0) == 0;
      Parens.Extend(UnOpStr(u), PredStr(a), 0);
    case Const(c) =>
      NoParensBalanced(c.text);
  }

  /** `(a op b)`. */
  lemma BinaryShape(a: string, op: string, b: string)
    requires Balanced(a) && NoParens(op) && Balanced(b)
    ensures Balanced("(" + a + " " + op + " " + b + ")")
  {
    assert Scan("(", 0) == 1;
    Parens.Extend("(", a, 1);
    Parens.Extend("(" + a, " ", 1);
    Parens.Extend("(" + a + " ", op, 1);
    Parens.Extend("(" + a + " " + op, " ", 1);
    Parens.Extend("(" + a + " " + op + " ", b, 1);
    ExtendLiteral("(" + a + " " + op + " " + b, ")", 1, 0);
  }

  // ---------------------------------------------------------------------
  // Regions, k-variables and types
  // ---------------------------------------------------------------------

  /** A MIR place, by the way it prints. */
  datatype Place = Place(text: string)

  datatype Region =
    | Concrete(places: seq<Place>)
    | Abstract(uregion: UniversalRegion)
    | Infer(rvid: RegionVid)

  function PlaceTexts(places: seq<Place>): (texts: seq<string>)
    ensures |texts| == |places|
    ensures forall i :: 0 <= i < |places| ==> texts[i] == places[i].text
  {
    if places == [] then [] else [places[0].text] + PlaceTexts(places[1..])
  }

  /** A concrete region lists its places in braces. */
  function RegionStr(r: Region): string
  {
    match r
    case Concrete(places) => "{ " + Text.Join(", ", PlaceTexts(places)) + " }"
    case Abstract(u) => UniversalRegionStr(u)
    case Infer(rv) => RegionVidStr(rv)
  }

  /** `Region::from(place)`: the concrete region of that one place. */
  function FromPlace(place: Place): (r: Region)
    ensures r.Concrete? && r.places == [place]
    ensures RegionStr(r) == "{ " + place.text + " }"
  {
    Concrete([place])
  }

  /** A k-variable and the variables its predicate may depend on. */
  datatype Kvar = Kvar(id: KVid, vars: seq<Var>)

  function VarStrs(vars: seq<Var>): (strs: seq<string>)
    ensures |strs| == |vars|
    ensures forall i :: 0 <= i < |vars| ==> strs[i] == VarStr(vars[i])
  {
    if vars == [] then [] else [VarStr(vars[0])] + VarStrs(vars[1..])
  }

  function KvarStr(k: Kvar): string
  {
    KVidStr(k.id) + "[" + Text.Join(", ", VarStrs(k.vars)) + "]"
  }

  /** A k-variable renders as its identifier, then its variables in
      brackets: the text before `[` reads back as the identifier, and a
      k-variable over no variables is `$kN[]`. */
  lemma KvarStrId(k: Kvar)
    ensures ReadIndex(Before(KvarStr(k), '[')) == Some(KVidIndex(k.id))
    ensures KvarStr(k)[|KvarStr(k)| - 1] == ']'
    ensures k.vars == [] ==> KvarStr(k) == KVidStr(k.id) + "[]"
  {
    var rest := "[" + Text.Join(", ", VarStrs(k.vars)) + "]";
    assert KvarStr(k) == KVidStr(k.id) + rest;
    BeforeOf(KVidStr(k.id), rest, '[');
    IndexRoundTrip(KVidIndex(k.id));
  }

  datatype Refine = Infer(k: Kvar) | Pred(p: Pred)

  datatype BorrowKind = Shared | Mut

  datatype Ty =
    | Refined(bty: BaseTy, refine: Refine)
    | Tuple(tup: Tuple)
    | Ref(bk: BorrowKind, region: Region, gv: GhostVar)
    | Uninit(size: nat)

  /** A dependent tuple: fields, each with its type, in order. */
  datatype Tuple = Tuple(entries: seq<(Field, Ty)>)

  /** A function's signature over ghost variables. */
  datatype FnDecl = FnDecl(
    required: seq<(GhostVar, Ty)>,
    inputs: seq<GhostVar>,
    ensured: seq<(GhostVar, Ty)>,
    outputs: seq<(nat, GhostVar)>,
    output: GhostVar)

  // ---------------------------------------------------------------------
  // Tuple operations
  // ---------------------------------------------------------------------

  function Len(t: Tuple): nat
  {
    |t.entries|
  }

  function IsEmpty(t: Tuple): (b: bool)
    ensures b <==> Len(t) == 0
  {
    t.entries == []
  }

  function TyAt(t: Tuple, n: nat): Ty
    requires n < Len(t)
  {
    t.entries[n].1
  }

  /** `Tuple::types`: the entries' types, one per entry and in order, so
      that the i-th is `ty_at(i)`. */
  function Types(t: Tuple): (tys: seq<Ty>)
    ensures |tys| == Len(t)
    ensures forall i :: 0 <= i < Len(t) ==> tys[i] == TyAt(t, i)
    decreases Len(t)
  {
    if t.entries == [] then [] else [t.entries[0].1] + Types(Tuple.Tuple(t.entries[1..]))
  }

  /** `Tuple::fields`: the entries' fields, one per entry and in order. */
  function Fields(t: Tuple): (fields: seq<Field>)
    ensures |fields| == Len(t)
    ensures forall i :: 0 <= i < Len(t) ==> fields[i] == t.entries[i].0
    decreases Len(t)
  {
    if t.entries == [] then [] else [t.entries[0].0] + Fields(Tuple.Tuple(t.entries[1..]))
  }

  function Zip(fields: seq<Field>, tys: seq<Ty>): seq<(Field, Ty)>
    requires |fields| == |tys|
  {
    seq(|fields|, i requires 0 <= i < |fields| => (fields[i], tys[i]))
  }

  /** The fields and the types together describe the tuple completely. */
  lemma FieldsTypes(t: Tuple)
    ensures Tuple.Tuple(Zip(Fields(t), Types(t))) == t
  {
    assert Zip(Fields(t), Types(t)) == t.entries;
  }

  /** The `enumerate().map(..)` chain from counter `start` on: each entry
      is handed to `f` with the counter, which goes up by one per entry. */
  function MapFrom(entries: seq<(Field, Ty)>, start: nat, f: (nat, Field, Ty) -> (Field, Ty)): (r: seq<(Field, Ty)>)
    ensures |r| == |entries|
    ensures forall i :: 0 <= i < |entries| ==> r[i] == f(start + i, entries[i].0, entries[i].1)
  {
    if entries == [] then []
    else [f(start, entries[0].0, entries[0].1)] + MapFrom(entries[1..], start + 1, f)
  }

  /** `Tuple::map`: entry i becomes `f(i, field i, type i)`; the counter
      `enumerate` hands to `f` is the entry's position. */
  function Map(t: Tuple, f: (nat, Field, Ty) -> (Field, Ty)): (r: Tuple)
    ensures Len(r) == Len(t)
    ensures forall i :: 0 <= i < Len(t) ==> r.entries[i] == f(i, t.entries[i].0, t.entries[i].1)
  {
    Tuple.Tuple(MapFrom(t.entries, 0, f))
  }

  /** `Tuple::map_ty_at`: only the type at position n changes. */
  function MapTyAt(t: Tuple, n: nat, f: Ty -> Ty): (r: Tuple)
    requires n < Len(t)
    ensures Len(r) == Len(t)
    ensures Fields(r) == Fields(t)
    ensures TyAt(r, n) == f(TyAt(t, n))
    ensures forall i :: 0 <= i < Len(t) && i != n ==> r.entries[i] == t.entries[i]
  {
    Tuple.Tuple(t.entries[n := (t.entries[n].0, f(t.entries[n].1))])
  }

  /** Mapping with a function that returns each entry unchanged is the
      identity. */
  lemma MapIdentity(t: Tuple)
    ensures Map(t, (i, fld, ty) => (fld, ty)) == t
  {
    var r := Map(t, (i, fld, ty) => (fld, ty));
    assert r.entries == t.entries;
  }

  /** `map_ty_at` is the `map` that rewrites the type at one position. */
  lemma MapTyAtIsMap(t: Tuple, n: nat, f: Ty -> Ty)
    requires n < Len(t)
    ensures MapTyAt(t, n, f) == Map(t, (i, fld, ty) => if i == n then (fld, f(ty)) else (fld, ty))
  {
    var g := (i, fld, ty) => if i == n then (fld, f(ty)) else (fld, ty);
    var a, b := MapTyAt(t, n, f), Map(t, g);
    forall i | 0 <= i < Len(t) ensures a.entries[i] == b.entries[i] {
      if i == n {
        assert Fields(a)[n] == Fields(t)[n];
      }
    }
    assert a.entries == b.entries;
  }

  /** Rewrites at two different positions do not interfere. */
  lemma MapTyAtCommute(t: Tuple, m: nat, n: nat, f: Ty -> Ty, g: Ty -> Ty)
    requires m < Len(t) && n < Len(t) && m != n
    ensures MapTyAt(MapTyAt(t, m, f), n, g) == MapTyAt(MapTyAt(t, n, g), m, f)
  {
    var em := (t.entries[m].0, f(t.entries[m].1));
    var en := (t.entries[n].0, g(t.entries[n].1));
    assert MapTyAt(t, m, f).entries == t.entries[m := em];
    assert MapTyAt(t, n, g).entries == t.entries[n := en];
    assert t.entries[m := em][n := en] == t.entries[n := en][m := em];
  }

  /** Two rewrites at the same position compose. */
  lemma MapTyAtTwice(t: Tuple, n: nat, f: Ty -> Ty, g: Ty -> Ty)
    requires n < Len(t)
    ensures MapTyAt(MapTyAt(t, n, f), n, g) == MapTyAt(t, n, ty => g(f(ty)))
  {
    var e1 := (t.entries[n].0, f(t.entries[n].1));
    var e2 := (t.entries[n].0, g(f(t.entries[n].1)));
    assert MapTyAt(t, n, f).entries == t.entries[n := e1];
    assert t.entries[n := e1][n := e2] == t.entries[n := e2];
  }

  // ---------------------------------------------------------------------
  // Type rendering
  // ---------------------------------------------------------------------

  /** How a tuple entry is labelled. `AsWritten` is the source's
      `@{field}`, where the field already renders with its own `@`;
      `FieldLabel` labels the entry with the field's own rendering. */
  datatype LabelRule = AsWritten | FieldLabel

  function EntryLabelText(f: Field, rule: LabelRule): string
  {
    match rule
    case AsWritten => "@" + FieldStr(f)
    case FieldLabel => FieldStr(f)
  }

  /** `TyS`'s `Display`, with tuple entries labelled under `rule`. */
  function TyStr(t: Ty, rule: LabelRule): string
    decreases t, 0
  {
    match t
    case Ref(Shared, r, gv) => "&" + RegionStr(r) + " " + GhostVarStr(gv)
    case Ref(Mut, r, gv) => "&" + RegionStr(r) + " mut " + GhostVarStr(gv)
    case Tuple(tup) => "(" + Text.Join(", ", EntryStrs(tup.entries, rule)) + ")"
    case Uninit(size) => "uninit(" + Text.NatStr(size) + ")"
    case Refined(b, Infer(k)) => "{ " + BaseTyStr(b) + " | " + KvarStr(k) + " }"
    case Refined(b, Pred(p)) =>
      if p.Const? && p.c.isTrue then BaseTyStr(b)
      else "{ " + BaseTyStr(b) + " | " + PredStr(p) + " }"
  }

  function EntryStrs(entries: seq<(Field, Ty)>, rule: LabelRule): (strs: seq<string>)
    ensures |strs| == |entries|
    ensures forall i :: 0 <= i < |entries| ==> strs[i] == EntryStr(entries[i], rule)
    decreases entries, 0
  {
    if entries == [] then []
    else [EntryStr(entries[0], rule)] + EntryStrs(entries[1..], rule)
  }

  /** A tuple entry: its label, a colon, and its type. */
  function EntryStr(entry: (Field, Ty), rule: LabelRule): string
    decreases entry, 1
  {
    EntryLabelText(entry.0, rule) + ": " + TyStr(entry.1, rule)
  }

  /** A refined type prints as its bare base type exactly when its
      refinement is the constant `true`; otherwise it prints in braces,
      and a refinement still to be inferred always does. */
  lemma RefinedStr(b: BaseTy, r: Refine, rule: LabelRule)
    ensures TyStr(Refined(b, r), rule) == BaseTyStr(b) <==> r.Pred? && r.p.Const? && r.p.c.isTrue
    ensures !(r.Pred? && r.p.Const? && r.p.c.isTrue) ==>
              var s := TyStr(Refined(b, r), rule); s[..2] == "{ " && s[|s| - 2..] == " }"
  {
    var s := TyStr(Refined(b, r), rule);
    if !(r.Pred? && r.p.Const? && r.p.c.isTrue) {
      assert s[0] == '{';
      assert BaseTyStr(b)[0] != '{';
    }
  }

  /** The text before the first `stop`: `Before(s, ':')` is an entry's
      label, `Before(s, '[')` a k-variable's identifier. */
  function Before(s: string, stop: char): string
  {
    if s == [] || s[0] == stop then [] else [s[0]] + Before(s[1..], stop)
  }

  lemma {:induction false} BeforeOf(a: string, b: string, stop: char)
    requires forall i :: 0 <= i < |a| ==> a[i] != stop
    ensures Before(a + b, stop) == (if b != [] && b[0] == stop then a else a + Before(b, stop))
  {
    if a == [] {
      assert a + b == b;
    } else {
      assert (a + b)[0] == a[0] && (a + b)[1..] == a[1..] + b;
      BeforeOf(a[1..], b, stop);
    }
  }

  /** A corrected entry is labelled by exactly the text that names its
      field in a path. */
  lemma EntryLabel(f: Field, ty: Ty)
    ensures Before(EntryStr((f, ty), FieldLabel), ':') == VarStr(Var.Field(f))
    ensures ReadIndex(Before(EntryStr((f, ty), FieldLabel), ':')) == Some(FieldIndex(f))
  {
    assert EntryLabelText(f, FieldLabel) == FieldStr(f);
    assert EntryStr((f, ty), FieldLabel) == FieldStr(f) + (": " + TyStr(ty, FieldLabel));
    BeforeOf(FieldStr(f), ": " + TyStr(ty, FieldLabel), ':');
    IndexRoundTrip(FieldIndex(f));
  }

  /** As written, an entry's label `@@N` is not the rendering of any
      index, so it names no field a predicate can refer to. */
  lemma EntryLabelAsWritten(f: Field, ty: Ty)
    ensures Before(EntryStr((f, ty), AsWritten), ':') == "@" + FieldStr(f)
    ensures ReadIndex(Before(EntryStr((f, ty), AsWritten), ':')) == None
  {
    assert EntryLabelText(f, AsWritten) == "@" + FieldStr(f);
    assert EntryStr((f, ty), AsWritten) == ("@" + FieldStr(f)) + (": " + TyStr(ty, AsWritten));
    BeforeOf("@" + FieldStr(f), ": " + TyStr(ty, AsWritten), ':');
    var s := "@" + FieldStr(f);
    assert s[1..] == FieldStr(f) && !Text.IsDigit(s[1..][0]);
  }

  lemma UninitOne(rule: LabelRule)
    ensures TyStr(Uninit(1), rule) == "uninit(1)"
  {
    assert Text.NatStr(1) == "1";
  }

  lemma FieldZero()
    ensures FieldStr(0 as Field) == "@0"
  {
    assert Text.NatStr(0) == "0";
  }

  /** The one-field tuple whose field 0 has type `uninit(1)` prints as
      `(@@0: uninit(1))` as written and `(@0: uninit(1))` corrected. */
  lemma TupleStrAsWrittenExample()
    ensures TyStr(Ty.Tuple(Tuple.Tuple([(0 as Field, Uninit(1))])), AsWritten) == "(@@0: uninit(1))"
    ensures TyStr(Ty.Tuple(Tuple.Tuple([(0 as Field, Uninit(1))])), FieldLabel) == "(@0: uninit(1))"
  {
    var t := Tuple.Tuple([(0 as Field, Uninit(1))]);
    UninitOne(AsWritten);
    UninitOne(FieldLabel);
    FieldZero();
    assert EntryStr((0 as Field, Uninit(1)), AsWritten) == "@@0: uninit(1)";
    assert EntryStr((0 as Field, Uninit(1)), FieldLabel) == "@0: uninit(1)";
    assert EntryStrs(t.entries, AsWritten) == ["@@0: uninit(1)"];
    assert EntryStrs(t.entries, FieldLabel) == ["@0: uninit(1)"];
  }
}
