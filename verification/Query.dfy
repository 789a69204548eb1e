/** The mini planner and its executor: predicates both stores can claim are
    pushed into the scan, the rest are applied afterwards, and together they must
    mean what evaluating every predicate on every row would mean. */
module Query {
  import opened Messages
  import opened HotGraph
  import opened ColdStore
  import opened Traverse

  datatype CmpOp = Eq | Ne | Lt | Le | Gt | Ge

  datatype Predicate = Predicate(field: string, op: CmpOp, value: Value)

  datatype PlanError = TypeOrdering | UnknownType | NoRoot | BadDepth

  datatype Result<+T> = Ok(value: T) | Err(error: PlanError)

  const ATTR_KEYS: set<string> := {
    "state", "rack", "cpu_count", "cpu", "zone", "image_tag", "restarts", "connections", "engine",
    "healthy_targets", "scheme", "rule_count", "open_to_world", "desired", "min", "max"}

  function KindName(k: Kind): string
  {
    match k
    case Asg => "asg" case Container => "container" case Db => "db" case Host => "host"
    case Lb => "lb" case Sg => "sg" case Vm => "vm"
  }

  const KIND_NAMES: set<string> := {"asg", "container", "db", "host", "lb", "sg", "vm"}

  predicate IsAttr(field: string)
  {
    |field| >= 6 && field[..6] == "attrs."
  }

  predicate KnownField(field: string)
  {
    field == "type" || (IsAttr(field) && field[6..] in ATTR_KEYS)
  }

  predicate Orders(op: CmpOp)
  {
    !op.Eq? && !op.Ne?
  }

  /** The parser refuses an ordering against a text literal. */
  predicate Parsed(p: Predicate)
  {
    Orders(p.op) ==> !p.value.Str?
  }

  // -------------------------------------------------------- naive evaluation

  /** A result row; only rows of the world query carry their relationships. */
  datatype Fact = Fact(id: Id, attrs: Attrs, listsRels: bool)

  datatype Cell = Absent | Scalar(v: Value) | Structured

  function Digits(n: nat): string
  {
    if n < 10 then ["0123456789"[n]] else Digits(n / 10) + ["0123456789"[n % 10]]
  }

  function Padded(digits: string): string
    decreases 6 - |digits|
  {
    if |digits| >= 6 then digits else Padded("0" + digits)
  }

  function IdText(id: Id): string
  {
    KindName(id.kind) + "-" + Padded(Digits(id.num))
  }

  function CellOf(row: Fact, field: string): Cell
  {
    if IsAttr(field) then if field[6..] in row.attrs then Scalar(row.attrs[field[6..]]) else Absent
    else if field == "type" then Scalar(Str(KindName(row.id.kind)))
    else if field == "id" then Scalar(Str(IdText(row.id)))
    else if field == "attrs" || (field == "relationships" && row.listsRels) then Structured
    else Absent
  }

  /** A boolean is the number 1 or 0, as it is to the evaluating language. */
  function AsNum(v: Value): Option<real>
  {
    match v
    case Num(n) => Some(n)
    case Bool(b) => Some(if b then 1.0 else 0.0)
    case Str(_) => None
  }

  predicate Same(v: Value, w: Value)
  {
    if AsNum(v).Some? && AsNum(w).Some? then AsNum(v) == AsNum(w) else v == w
  }

  predicate NumCompare(op: CmpOp, a: real, b: real)
  {
    match op
    case Eq => a == b case Ne => a != b
    case Lt => a < b case Le => a <= b case Gt => a > b case Ge => a >= b
  }

  predicate Compare(op: CmpOp, v: Value, w: Value)
  {
    match op
    case Eq => Same(v, w)
    case Ne => !Same(v, w)
    case _ => AsNum(v).Some? && AsNum(w).Some? && NumCompare(op, AsNum(v).value, AsNum(w).value)
  }

  predicate Matches(row: Fact, p: Predicate)
  {
    match CellOf(row, p.field)
    case Absent => false
    case Structured => p.op.Ne?
    case Scalar(v) => Compare(p.op, v, p.value)
  }

  // ----------------------------------------------------------- the cold scan

  datatype Cast = AsBool | AsDouble | AsText

  function CastFor(v: Value): Cast
  {
    match v case Bool(_) => AsBool case Num(_) => AsDouble case Str(_) => AsText
  }

  /** The engine's cast of a stored value; None is NULL. */
  type Casts = (Cast, Value) -> Option<Value>

  /** A value of the asked kind is itself; any other may cast to anything of that
      kind, or to NULL. */
  ghost predicate Honest(casts: Casts)
  {
    forall k, v ::
      (CastFor(v) == k ==> casts(k, v) == Some(v)) && (casts(k, v).Some? ==> CastFor(casts(k, v).value) == k)
  }

  /** The engine's comparison of two values of one kind. */
  predicate SqlCompare(op: CmpOp, v: Value, w: Value)
    requires CastFor(v) == CastFor(w) && (w.Str? ==> !Orders(op))
  {
    match v
    case Str(s) => (s == w.s) == op.Eq?
    case Num(n) => NumCompare(op, n, w.n)
    case Bool(b) => NumCompare(op, if b then 1.0 else 0.0, if w.b then 1.0 else 0.0)
  }

  /** One compiled comparison; its literal is bound by position. */
  datatype Clause = TypeIs(op: CmpOp, param: nat) | AttrIs(key: string, cast: Cast, op: CmpOp, param: nat)

  datatype Column = TypeColumn | AttrsColumn | RelsColumn

  function ColumnOf(p: Predicate): Column
  {
    if p.field == "type" then TypeColumn else AttrsColumn
  }

  function WhereCols(ps: seq<Predicate>): set<Column>
  {
    set p | p in ps :: ColumnOf(p)
  }

  function CompositeProjection(hasResidual: bool): set<Column>
  {
    if hasResidual then {AttrsColumn, RelsColumn, TypeColumn} else {RelsColumn, TypeColumn}
  }

  /** A row as it crosses the scan: columns not asked for are not there. */
  datatype Scanned = Scanned(id: Id, kind: Option<Kind>, attrs: Option<Attrs>, rels: Option<seq<Rel>>)

  function Scan(r: Row, cols: set<Column>): Scanned
  {
    Scanned(r.id,
            if TypeColumn in cols then Some(r.id.kind) else None,
            if AttrsColumn in cols then Some(r.attrs) else None,
            if RelsColumn in cols then Some(r.rels) else None)
  }

  /** A predicate the planner claims: a good type test, or a known attribute. */
  predicate Claimed(p: Predicate)
  {
    && KnownField(p.field) && Parsed(p)
    && (p.field == "type" ==> !Orders(p.op) && p.value.Str? && p.value.s in KIND_NAMES)
  }

  function ClauseOf(p: Predicate, i: nat): Clause
    requires Claimed(p)
  {
    if p.field == "type" then TypeIs(p.op, i) else AttrIs(p.field[6..], CastFor(p.value), p.op, i)
  }

  /** The clause was compiled from a predicate whose literal is bound to it. */
  predicate Bound(c: Clause, params: map<nat, Value>)
  {
    && c.param in params && (params[c.param].Str? ==> !Orders(c.op))
    && (c.TypeIs? ==> params[c.param].Str?)
    && (c.AttrIs? ==> CastFor(params[c.param]) == c.cast)
  }

  predicate Covers(row: Scanned, c: Clause)
  {
    if c.TypeIs? then row.kind.Some? else row.attrs.Some?
  }

  /** Three-valued truth of one clause. */
  function Truth(row: Scanned, c: Clause, params: map<nat, Value>, casts: Casts): Option<bool>
    requires Bound(c, params) && Covers(row, c) && Honest(casts)
  {
    match c
    case TypeIs(op, i) => Some(SqlCompare(op, Str(KindName(row.kind.value)), params[i]))
    case AttrIs(key, cast, op, i) =>
      if key !in row.attrs.value then None
      else match casts(cast, row.attrs.value[key])
           case None => None
           case Some(v) => Some(SqlCompare(op, v, params[i]))
  }

  /** Three-valued conjunction: false wins over NULL, NULL over true. */
  function And(a: Option<bool>, b: Option<bool>): Option<bool>
  {
    if a == Some(false) || b == Some(false) then Some(false)
    else if a.None? || b.None? then None
    else Some(true)
  }

  function Conjunction(row: Scanned, cs: seq<Clause>, params: map<nat, Value>, casts: Casts): Option<bool>
    requires Honest(casts) && forall c :: c in cs ==> Bound(c, params) && Covers(row, c)
  {
    if cs == [] then Some(true)
    else And(Conjunction(row, cs[..|cs| - 1], params, casts), Truth(row, cs[|cs| - 1], params, casts))
  }

  /** Whether the engine keeps a row for one claimed predicate. */
  predicate Pushed(r: Row, p: Predicate, casts: Casts)
    requires Claimed(p) && Honest(casts)
  {
    if p.field == "type" then SqlCompare(p.op, Str(KindName(r.id.kind)), p.value)
    else
      && p.field[6..] in r.attrs
      && var v := casts(CastFor(p.value), r.attrs[p.field[6..]]); v.Some? && SqlCompare(p.op, v.value, p.value)
  }

  lemma {:induction false} ConjunctionHolds(row: Scanned, cs: seq<Clause>, params: map<nat, Value>, casts: Casts)
    requires Honest(casts) && forall c :: c in cs ==> Bound(c, params) && Covers(row, c)
    requires forall c :: c in cs ==> Truth(row, c, params, casts) == Some(true)
    ensures Conjunction(row, cs, params, casts) == Some(true)
  {
    if cs != [] {
      assert cs[|cs| - 1] in cs;
      ConjunctionHolds(row, cs[..|cs| - 1], params, casts);
    }
  }

  lemma {:induction false} ConjunctionNeeds(row: Scanned, cs: seq<Clause>, params: map<nat, Value>, casts: Casts,
                                            i: nat)
    requires Honest(casts) && (forall c :: c in cs ==> Bound(c, params) && Covers(row, c)) && i < |cs|
    requires Conjunction(row, cs, params, casts) == Some(true)
    ensures Truth(row, cs[i], params, casts) == Some(true)
  {
    var k := |cs| - 1;
    assert cs[k] in cs;
    if i < k {
      ConjunctionNeeds(row, cs[..k], params, casts, i);
    }
  }

  lemma ConjunctionKeeps(row: Scanned, cs: seq<Clause>, params: map<nat, Value>, casts: Casts)
    requires Honest(casts) && forall c :: c in cs ==> Bound(c, params) && Covers(row, c)
    ensures Conjunction(row, cs, params, casts) == Some(true)
            <==> forall c :: c in cs ==> Truth(row, c, params, casts) == Some(true)
  {
    if Conjunction(row, cs, params, casts) == Some(true) {
      forall c | c in cs
        ensures Truth(row, c, params, casts) == Some(true)
      {
        var i :| 0 <= i < |cs| && cs[i] == c;
        ConjunctionNeeds(row, cs, params, casts, i);
      }
    } else if forall c :: c in cs ==> Truth(row, c, params, casts) == Some(true) {
      ConjunctionHolds(row, cs, params, casts);
    }
  }

  // ------------------------------------------------------------ planning

  function Keep(ps: seq<Predicate>, known: bool): seq<Predicate>
  {
    if ps == [] then []
    else Keep(ps[..|ps| - 1], known) + if KnownField(ps[|ps| - 1].field) == known then [ps[|ps| - 1]] else []
  }

  lemma {:induction false} Kept(ps: seq<Predicate>, known: bool)
    ensures forall p :: p in Keep(ps, known) <==> p in ps && KnownField(p.field) == known
    ensures multiset(Keep(ps, known)) + multiset(Keep(ps, !known)) == multiset(ps)
  {
    if ps != [] {
      var k := |ps| - 1;
      assert ps == ps[..k] + [ps[k]];
      Kept(ps[..k], known);
    }
  }

  predicate BadType(p: Predicate)
  {
    p.field == "type" && (Orders(p.op) || !p.value.Str? || p.value.s !in KIND_NAMES)
  }

  /** Split the predicates; a type test no store could answer is refused. */
  method Place(ps: seq<Predicate>) returns (r: Result<(seq<Predicate>, seq<Predicate>)>)
    ensures r.Err? <==> exists p :: p in ps && BadType(p)
    ensures r.Err? ==> r.error.TypeOrdering? || r.error.UnknownType?
    ensures r.Ok? ==> r.value == (Keep(ps, true), Keep(ps, false))
  {
    var claimable, residual := Keep(ps, true), Keep(ps, false);
    Kept(ps, true);
    for i := 0 to |claimable|
      invariant forall p :: p in claimable[..i] ==> !BadType(p)
    {
      var p := claimable[i];
      assert p in ps && claimable[..i + 1] == claimable[..i] + [p];
      if p.field == "type" {
        if Orders(p.op) {
          return Err(TypeOrdering);
        }
        if !p.value.Str? || p.value.s !in KIND_NAMES {
          return Err(UnknownType);
        }
      }
    }
    assert claimable[..|claimable|] == claimable;
    r := Ok((claimable, residual));
  }

  /** The executor works the claimable part out again from the plan's residual. */
  lemma {:induction false} ClaimableAgain(ps: seq<Predicate>, all: seq<Predicate>)
    requires forall p :: p in ps ==> p in all
    ensures NotIn(ps, Keep(all, false)) == Keep(ps, true)
  {
    if ps != [] {
      ClaimableAgain(ps[..|ps| - 1], all);
      Kept(all, false);
    }
  }

  function NotIn(ps: seq<Predicate>, residual: seq<Predicate>): seq<Predicate>
  {
    if ps == [] then []
    else NotIn(ps[..|ps| - 1], residual) + if ps[|ps| - 1] in residual then [] else [ps[|ps| - 1]]
  }

  function BindParams(ps: seq<Predicate>): map<nat, Value>
  {
    map i: nat | i < |ps| :: ps[i].value
  }

  /** Compile the claimed predicates, clause by clause. */
  method DuckWhere(ps: seq<Predicate>) returns (cs: seq<Clause>)
    requires forall p :: p in ps ==> Claimed(p)
    ensures |cs| == |ps| && forall i :: 0 <= i < |ps| ==> cs[i] == ClauseOf(ps[i], i)
  {
    cs := [];
    for i := 0 to |ps|
      invariant |cs| == i && forall j :: 0 <= j < i ==> cs[j] == ClauseOf(ps[j], j)
    {
      var p := ps[i];
      assert p in ps;
      if p.field == "type" {
        cs := cs + [TypeIs(p.op, i)];
      } else if p.value.Bool? {
        cs := cs + [AttrIs(p.field[6..], AsBool, p.op, i)];
      } else if p.value.Num? {
        cs := cs + [AttrIs(p.field[6..], AsDouble, p.op, i)];
      } else {
        cs := cs + [AttrIs(p.field[6..], AsText, p.op, i)];
      }
    }
  }

  /** Compilation, binding and the scanned columns together keep the meaning: the
      compiled WHERE is true of a row exactly if every predicate keeps it. */
  lemma {:induction false} CompiledMeans(r: Row, cols: set<Column>, ps: seq<Predicate>, cs: seq<Clause>, casts: Casts)
    requires Honest(casts) && (forall p :: p in ps ==> Claimed(p)) && WhereCols(ps) <= cols
    requires |cs| == |ps| && forall i :: 0 <= i < |ps| ==> cs[i] == ClauseOf(ps[i], i)
    ensures forall c :: c in cs ==> Bound(c, BindParams(ps)) && Covers(Scan(r, cols), c)
    ensures Conjunction(Scan(r, cols), cs, BindParams(ps), casts) == Some(true) <==>
              forall p :: p in ps ==> Pushed(r, p, casts)
  {
    var row, params := Scan(r, cols), BindParams(ps);
    forall i | 0 <= i < |ps|
      ensures Bound(cs[i], params) && Covers(row, cs[i])
      ensures Truth(row, cs[i], params, casts) == Some(true) <==> Pushed(r, ps[i], casts)
    {
      assert ps[i] in ps;
      assert ColumnOf(ps[i]) in WhereCols(ps);
    }
    ConjunctionKeeps(row, cs, params, casts);
    if forall p :: p in ps ==> Pushed(r, p, casts) {
      forall c | c in cs
        ensures Truth(row, c, params, casts) == Some(true)
      {
        var i :| 0 <= i < |cs| && cs[i] == c;
        assert ps[i] in ps;
      }
    }
    if forall c :: c in cs ==> Truth(row, c, params, casts) == Some(true) {
      forall p | p in ps
        ensures Pushed(r, p, casts)
      {
        var i :| 0 <= i < |ps| && ps[i] == p;
        assert cs[i] in cs;
      }
    }
  }

  // ----------------------------------------------- pushed down or evaluated

  function FactOf(r: Row): Fact
  {
    Fact(r.id, r.attrs, false)
  }

  /** The stored value, if any, is of the literal's kind. */
  predicate Fits(attrs: Attrs, p: Predicate)
  {
    IsAttr(p.field) && p.field[6..] in attrs ==> CastFor(attrs[p.field[6..]]) == CastFor(p.value)
  }

  lemma PushedIsMatches(r: Row, p: Predicate, casts: Casts)
    requires Claimed(p) && Honest(casts) && Fits(r.attrs, p)
    ensures Pushed(r, p, casts) <==> Matches(FactOf(r), p)
  {
    if p.field == "type" {
      assert !IsAttr(p.field);
    } else if p.field[6..] in r.attrs {
      var v := r.attrs[p.field[6..]];
      assert casts(CastFor(p.value), v) == Some(v);
    }
  }

  /** When the engine's answer on a value of another kind is evaluation's. Where the
      cast gives NULL the engine drops the row, so evaluation must not match; text
      differs from any number and true is the number 1. Where it gives `u`: if one
      side is text, evaluation matches under != alone, so `u` must not equal the
      literal, nor stand to it as an ordering asks; between a number and a boolean `u`
      must stand to the literal as the stored value does. */
  predicate Agrees(op: CmpOp, v: Value, lit: Value, u: Option<Value>)
    requires (lit.Str? ==> !Orders(op)) && (u.Some? ==> CastFor(u.value) == CastFor(lit))
  {
    if v.Str? || lit.Str? then
      if u.None? then !op.Ne?
      else if Orders(op) then !NumCompare(op, AsNum(u.value).value, AsNum(lit).value)
      else u.value != lit
    else
      (u.Some? && NumCompare(op, AsNum(u.value).value, AsNum(lit).value)) ==
      NumCompare(op, AsNum(v).value, AsNum(lit).value)
  }

  /** On a stored value of another kind than the literal's, whatever the engine's cast
      makes of it, pushing the predicate down agrees with evaluating it if and only if
      the operator, the two values and the cast value say so. */
  lemma MisfitExactly(r: Row, p: Predicate, casts: Casts)
    requires Claimed(p) && Honest(casts) && !Fits(r.attrs, p)
    ensures var v := r.attrs[p.field[6..]];
            (Pushed(r, p, casts) <==> Matches(FactOf(r), p)) <==> Agrees(p.op, v, p.value, casts(CastFor(p.value), v))
  {
    var v, u := r.attrs[p.field[6..]], casts(CastFor(p.value), r.attrs[p.field[6..]]);
    assert p.field != "type";
    assert Matches(FactOf(r), p) <==> Compare(p.op, v, p.value);
    assert Pushed(r, p, casts) <==> u.Some? && SqlCompare(p.op, u.value, p.value);
    assert u.Some? ==> CastFor(u.value) == CastFor(p.value);
  }

  /** A number tested against a text attribute: the store drops what evaluation keeps. */
  lemma NullIsNotUnequal(id: Id, casts: Casts)
    requires Honest(casts) && casts(AsDouble, Str("z1")) == None
    ensures var r := Row(id, map["zone" := Str("z1")], [], 0);
            var p := Predicate("attrs.zone", Ne, Num(4.0));
            Claimed(p) && Matches(FactOf(r), p) && !Pushed(r, p, casts)
  {
    var f := "attrs.zone";
    assert f[..6] == "attrs." && f[6..] == "zone";
  }

  /** A count tested against true: the store keeps what evaluation drops. */
  lemma FourIsTrue(id: Id, casts: Casts)
    requires Honest(casts) && casts(AsBool, Num(4.0)) == Some(Bool(true))
    ensures var r := Row(id, map["cpu" := Num(4.0)], [], 0);
            var p := Predicate("attrs.cpu", Eq, Bool(true));
            Claimed(p) && !Matches(FactOf(r), p) && Pushed(r, p, casts)
  {
    var f := "attrs.cpu";
    assert f[..6] == "attrs." && f[6..] == "cpu";
  }

  /** And a text that reads as the number asked for. */
  lemma TextIsFour(id: Id, casts: Casts)
    requires Honest(casts) && casts(AsDouble, Str("4")) == Some(Num(4.0))
    ensures var r := Row(id, map["zone" := Str("4")], [], 0);
            var p := Predicate("attrs.zone", Eq, Num(4.0));
            Claimed(p) && !Matches(FactOf(r), p) && Pushed(r, p, casts)
  {
    var f := "attrs.zone";
    assert f[..6] == "attrs." && f[6..] == "zone";
  }

  // -------------------------------------------------------- the cold routes

  /** A state row with the columns asked for, and whether the WHERE was true of it. */
  datatype Marked = Marked(row: Scanned, matched: bool)

  predicate Keeps(r: Row, ps: seq<Predicate>, casts: Casts)
    requires Honest(casts) && forall p :: p in ps ==> Claimed(p)
  {
    forall p :: p in ps ==> Pushed(r, p, casts)
  }

  /** The state query: mark each row or drop the unmatched ones. Only the columns
      asked for come back, though the WHERE may read more. */
  method StateQuery(state: seq<Row>, ps: seq<Predicate>, casts: Casts, annotate: bool, out: set<Column>,
                    whereCols: set<Column>)
    returns (rows: seq<Marked>)
    requires Honest(casts) && (forall p :: p in ps ==> Claimed(p)) && WhereCols(ps) <= out + whereCols
    ensures annotate ==> |rows| == |state|
    ensures annotate ==>
              forall i :: 0 <= i < |state| ==> rows[i] == Marked(Scan(state[i], out), Keeps(state[i], ps, casts))
    ensures !annotate ==>
              forall m :: m in rows <==>
                exists r :: r in state && m == Marked(Scan(r, out), true) && Keeps(r, ps, casts)
  {
    var cs := DuckWhere(ps);
    var inner, params := out + whereCols, BindParams(ps);
    rows := [];
    for i := 0 to |state|
      invariant annotate ==> |rows| == i
      invariant annotate ==>
                  forall j :: 0 <= j < i ==> rows[j] == Marked(Scan(state[j], out), Keeps(state[j], ps, casts))
      invariant !annotate ==>
                  forall m :: m in rows <==>
                    exists r :: r in state[..i] && m == Marked(Scan(r, out), true) && Keeps(r, ps, casts)
    {
      var r := state[i];
      assert state[..i + 1] == state[..i] + [r];
      CompiledMeans(r, inner, ps, cs, casts);
      var matched := cs == [] || Conjunction(Scan(r, inner), cs, params, casts) == Some(true);
      assert matched <==> Keeps(r, ps, casts);
      if annotate || matched {
        rows := rows + [Marked(Scan(r, out), matched)];
      }
    }
    assert state[..|state|] == state;
  }

  /** What a route decides of one predicate on one row. */
  predicate Holds(r: Row, p: Predicate, casts: Casts, listsRels: bool)
    requires Parsed(p) && !BadType(p) && Honest(casts)
  {
    if KnownField(p.field) then Pushed(r, p, casts) else Matches(Fact(r.id, r.attrs, listsRels), p)
  }

  predicate Sane(ps: seq<Predicate>)
  {
    forall p :: p in ps ==> Parsed(p) && !BadType(p)
  }

  predicate AllHold(r: Row, ps: seq<Predicate>, casts: Casts, listsRels: bool)
    requires Sane(ps) && Honest(casts)
  {
    forall p :: p in ps ==> Holds(r, p, casts, listsRels)
  }

  function Stubs(state: seq<Row>): seq<Stub>
  {
    seq(|state|, i requires 0 <= i < |state| => Stub(state[i].id, state[i].rels))
  }

  /** Evaluate what the planner left over. */
  predicate Residual(row: Fact, residual: seq<Predicate>)
  {
    forall p :: p in residual ==> Matches(row, p)
  }

  lemma SplitHolds(r: Row, ps: seq<Predicate>, casts: Casts, listsRels: bool)
    requires Sane(ps) && Honest(casts)
    ensures forall p :: p in Keep(ps, true) ==> Claimed(p)
    ensures AllHold(r, ps, casts, listsRels)
            <==> Keeps(r, Keep(ps, true), casts) && Residual(Fact(r.id, r.attrs, listsRels), Keep(ps, false))
  {
    Kept(ps, true);
    Kept(ps, false);
    if Keeps(r, Keep(ps, true), casts) && Residual(Fact(r.id, r.attrs, listsRels), Keep(ps, false)) {
      forall p | p in ps
        ensures Holds(r, p, casts, listsRels)
      {
        assert p in Keep(ps, KnownField(p.field));
      }
    }
  }

  datatype Answer = Answer(id: Id, kind: Kind)

  /** The as-of-T blast radius: traverse the whole topology, keep the affected rows
      every predicate holds of. */
  method ExecuteComposite(state: seq<Row>, root: Option<Id>, depth: int, ps: seq<Predicate>, casts: Casts)
    returns (r: Result<seq<Answer>>)
    requires Honest(casts) && forall p :: p in ps ==> Parsed(p)
    ensures r.Err? <==> root.None? || exists p :: p in ps && BadType(p)
    ensures r.Ok? ==> Sane(ps) && forall a :: a in r.value <==>
                        (exists x :: x in state && a == Answer(x.id, x.id.kind) && x.id != root.value
                                     && Within(Arcs(Stubs(state)), root.value, depth, x.id)
                                     && AllHold(x, ps, casts, false))
  {
    var placed := Place(ps);
    if placed.Err? {
      return Err(placed.error);
    }
    if root.None? {
      return Err(NoRoot);
    }
    var residual := placed.value.1;
    var claimable := NotIn(ps, residual);
    ClaimableAgain(ps, ps);
    Kept(ps, true);
    var projection := CompositeProjection(residual != []);
    assert forall p :: p in claimable ==> Claimed(p);
    assert WhereCols(claimable) <= projection + WhereCols(claimable);
    var scanned := StateQuery(state, claimable, casts, true, projection, WhereCols(claimable));
    var stubs :=
      seq(|scanned|, i requires 0 <= i < |scanned| && scanned[i].row.rels.Some? =>
                       Stub(scanned[i].row.id, scanned[i].row.rels.value));
    assert stubs == Stubs(state);
    var affected := Blast(stubs, root.value, depth);
    var out := Select(state, scanned, affected, ps, residual, casts);
    r := Ok(out);
  }

  /** The affected rows the WHERE was true of, less what the residual drops. */
  method Select(state: seq<Row>, scanned: seq<Marked>, affected: set<Id>, ps: seq<Predicate>,
                residual: seq<Predicate>, ghost casts: Casts)
    returns (out: seq<Answer>)
    requires Honest(casts) && Sane(ps) && residual == Keep(ps, false) && |scanned| == |state|
    requires forall p :: p in Keep(ps, true) ==> Claimed(p)
    requires forall i :: 0 <= i < |state| ==>
               scanned[i] == Marked(Scan(state[i], CompositeProjection(residual != [])),
                                    Keeps(state[i], Keep(ps, true), casts))
    ensures forall a :: a in out <==>
              exists x :: x in state && a == Answer(x.id, x.id.kind) && x.id in affected && AllHold(x, ps, casts, false)
  {
    out := [];
    for i := 0 to |scanned|
      invariant forall a :: a in out <==>
                  exists x ::
                    x in state[..i] && a == Answer(x.id, x.id.kind) && x.id in affected && AllHold(x, ps, casts, false)
    {
      var row := scanned[i].row;
      SplitHolds(state[i], ps, casts, false);
      assert state[..i + 1] == state[..i] + [state[i]];
      var fact := Fact(row.id, if row.attrs.Some? then row.attrs.value else map[], false);
      if row.id in affected && scanned[i].matched && Residual(fact, residual) {
        out := out + [Answer(row.id, row.kind.value)];
      }
    }
    assert state[..|state|] == state;
  }

  const ALL_COLUMNS: set<Column> := {AttrsColumn, RelsColumn, TypeColumn}

  /** The reconstructed world, filtered: here the WHERE reduces the scan itself. */
  method ExecuteWorld(state: seq<Row>, ps: seq<Predicate>, casts: Casts) returns (r: Result<seq<Scanned>>)
    requires Honest(casts) && forall p :: p in ps ==> Parsed(p)
    ensures r.Err? <==> exists p :: p in ps && BadType(p)
    ensures r.Ok? ==> Sane(ps) && forall w :: w in r.value <==>
                        exists x :: x in state && w == Scan(x, ALL_COLUMNS) && AllHold(x, ps, casts, true)
  {
    var placed := Place(ps);
    if placed.Err? {
      return Err(placed.error);
    }
    var residual := placed.value.1;
    var claimable := NotIn(ps, residual);
    ClaimableAgain(ps, ps);
    Kept(ps, true);
    var scanned := StateQuery(state, claimable, casts, false, ALL_COLUMNS, {});
    var out := SelectRows(scanned, residual);
    forall w
      ensures w in out <==> exists x :: x in state && w == Scan(x, ALL_COLUMNS) && AllHold(x, ps, casts, true)
    {
      if w in out {
        var x :| x in state && Marked(w, true) == Marked(Scan(x, ALL_COLUMNS), true) && Keeps(x, claimable, casts);
        SplitHolds(x, ps, casts, true);
      }
      if x :| x in state && w == Scan(x, ALL_COLUMNS) && AllHold(x, ps, casts, true) {
        SplitHolds(x, ps, casts, true);
        assert Marked(w, true) in scanned;
      }
    }
    r := Ok(out);
  }

  method SelectRows(scanned: seq<Marked>, residual: seq<Predicate>) returns (out: seq<Scanned>)
    requires forall m :: m in scanned ==> m.row.attrs.Some? && m.matched
    ensures forall w :: w in out <==> Marked(w, true) in scanned && Residual(Fact(w.id, w.attrs.value, true), residual)
  {
    out := [];
    for i := 0 to |scanned|
      invariant forall w :: w in out <==>
                  Marked(w, true) in scanned[..i] && Residual(Fact(w.id, w.attrs.value, true), residual)
    {
      var row := scanned[i].row;
      assert scanned[i] == Marked(row, true) && scanned[i] in scanned;
      assert scanned[..i + 1] == scanned[..i] + [scanned[i]];
      if Residual(Fact(row.id, row.attrs.value, true), residual) {
        out := out + [row];
      }
    }
    assert scanned[..|scanned|] == scanned;
  }

  // ------------------------------------------------------------ the live route

  /** The hot store's comparison of two values of different kinds; None is NULL. */
  type Mixed = (CmpOp, Value, Value) -> Option<bool>

  /** Labels are two-valued; a missing property compares to NULL. */
  predicate HotKeeps(id: Id, attrs: Attrs, p: Predicate, mixed: Mixed)
    requires Claimed(p)
  {
    if p.field == "type" then (KindName(id.kind) == p.value.s) == p.op.Eq?
    else if p.field[6..] !in attrs then false
    else
      var v := attrs[p.field[6..]];
      if CastFor(v) == CastFor(p.value) then SqlCompare(p.op, v, p.value) else mixed(p.op, v, p.value) == Some(true)
  }

  predicate LiveHolds(g: Graph, id: Id, ps: seq<Predicate>, mixed: Mixed)
    requires Sane(ps) && id in g.nodes
  {
    forall p :: p in ps ==>
      if KnownField(p.field) then HotKeeps(id, g.nodes[id].attrs, p, mixed)
      else Matches(Fact(id, g.nodes[id].attrs, false), p)
  }

  const MAX_DEPTH := 6

  /** The live blast radius; the store query caps the depth. */
  method ExecuteLive(g: Graph, root: Option<Id>, depth: int, ps: seq<Predicate>, mixed: Mixed)
    returns (r: Result<set<Answer>>)
    requires forall p :: p in ps ==> Parsed(p)
    ensures r.Err? <==> root.None? || !(1 <= depth <= MAX_DEPTH) || exists p :: p in ps && BadType(p)
    ensures r.Ok? ==> Sane(ps) && forall a :: a in r.value <==>
                        (a.id in LiveBlast(g, root.value, depth) && a.kind == a.id.kind
                          && LiveHolds(g, a.id, ps, mixed))
  {
    var placed := Place(ps);
    if placed.Err? {
      return Err(placed.error);
    }
    if root.None? {
      return Err(NoRoot);
    }
    if !(1 <= depth <= MAX_DEPTH) {
      return Err(BadDepth);
    }
    var residual := placed.value.1;
    var claimable := NotIn(ps, residual);
    ClaimableAgain(ps, ps);
    var out: set<Answer> := {};
    var todo := LiveBlast(g, root.value, depth);
    while todo != {}
      invariant todo <= LiveBlast(g, root.value, depth)
      invariant forall a :: a in out <==>
                  (a.id in LiveBlast(g, root.value, depth) - todo && a.kind == a.id.kind
                    && LiveHolds(g, a.id, ps, mixed))
      decreases todo
    {
      var id :| id in todo;
      todo := todo - {id};
      SplitLive(g, id, ps, mixed);
      if (forall p :: p in claimable ==> HotKeeps(id, g.nodes[id].attrs, p, mixed))
        && Residual(Fact(id, g.nodes[id].attrs, false), residual) {
        out := out + {Answer(id, id.kind)};
      }
    }
    r := Ok(out);
  }

  lemma SplitLive(g: Graph, id: Id, ps: seq<Predicate>, mixed: Mixed)
    requires Sane(ps) && id in g.nodes
    ensures forall p :: p in Keep(ps, true) ==> Claimed(p)
    ensures LiveHolds(g, id, ps, mixed)
            <==> (forall p :: p in Keep(ps, true) ==> HotKeeps(id, g.nodes[id].attrs, p, mixed))
                 && Residual(Fact(id, g.nodes[id].attrs, false), Keep(ps, false))
  {
    Kept(ps, true);
    Kept(ps, false);
    var n := g.nodes[id];
    if (forall p :: p in Keep(ps, true) ==> HotKeeps(id, n.attrs, p, mixed))
      && Residual(Fact(id, n.attrs, false), Keep(ps, false)) {
      forall p | p in ps
        ensures if KnownField(p.field) then HotKeeps(id, n.attrs, p, mixed) else Matches(Fact(id, n.attrs, false), p)
      {
        assert p in Keep(ps, KnownField(p.field));
      }
    }
  }

  /** On a row whose values fit, every route decides as plain evaluation does. */
  lemma RoutesEvaluate(g: Graph, x: Row, ps: seq<Predicate>, casts: Casts, mixed: Mixed)
    requires Honest(casts) && Sane(ps) && x.id in g.nodes && g.nodes[x.id].attrs == x.attrs
    requires forall p :: p in ps && KnownField(p.field) ==> Fits(x.attrs, p)
    ensures AllHold(x, ps, casts, false) <==> Residual(FactOf(x), ps)
    ensures LiveHolds(g, x.id, ps, mixed) <==> Residual(FactOf(x), ps)
  {
    forall p | p in ps
      ensures Holds(x, p, casts, false) <==> Matches(FactOf(x), p)
      ensures KnownField(p.field) ==> (HotKeeps(x.id, x.attrs, p, mixed) <==> Matches(FactOf(x), p))
    {
      if KnownField(p.field) {
        PushedIsMatches(x, p, casts);
        assert p.field == "type" ==> !IsAttr(p.field);
      }
    }
  }

  lemma NodeOfRow(g: Graph, events: seq<Message>, t: int, x: Row)
    requires Reflects(g, MsgSet(events)) && MsgSet(events) == EventsAt(events, t) && x in Replay(events, t)
    ensures x.id in g.nodes && g.nodes[x.id].attrs == x.attrs
  {
    var m := RowLatest(events, t, x);
  }

  lemma NowIsAll(events: seq<Message>, t: int)
    requires LatestTime(events) == Some(t)
    ensures MsgSet(events) == EventsAt(events, t)
  {
  }

  lemma SameReach(g: Graph, events: seq<Message>, t: int, state: seq<Row>, root: Id, depth: nat, x: Row)
    requires Reflects(g, MsgSet(events)) && Consistent(MsgSet(events)) && LatestTime(events) == Some(t)
    requires (forall y :: y in state <==> y in Replay(events, t)) && x in state
    ensures x.id in g.nodes && g.nodes[x.id].attrs == x.attrs
    ensures x.id in LiveBlast(g, root, depth) <==> x.id != root && Within(Arcs(Stubs(state)), root, depth, x.id)
  {
    NowIsAll(events, t);
    LiveIsAsOf(g, events, t, root, depth);
    StubArcs(state, Replay(events, t));
    NodeOfRow(g, events, t, x);
  }

  /** The boundary theorem: asked about now, the live route and the as-of route
      answer alike, and as plain evaluation of every predicate would, whatever
      order, duplicates and batches the two stores saw, if every stored value is of
      the kind of the literal it meets. */
  lemma RoutesAgree(g: Graph, events: seq<Message>, t: int, state: seq<Row>, root: Id, depth: nat, ps: seq<Predicate>,
                    casts: Casts, mixed: Mixed, x: Row)
    requires Reflects(g, MsgSet(events)) && Consistent(MsgSet(events)) && LatestTime(events) == Some(t)
    requires (forall y :: y in state <==> y in Replay(events, t)) && x in state
    requires Honest(casts) && Sane(ps)
    requires forall p :: p in ps && KnownField(p.field) ==> Fits(x.attrs, p)
    ensures x.id in g.nodes
    ensures x.id in LiveBlast(g, root, depth) <==> x.id != root && Within(Arcs(Stubs(state)), root, depth, x.id)
    ensures LiveHolds(g, x.id, ps, mixed) <==> Residual(FactOf(x), ps)
    ensures Residual(FactOf(x), ps) <==> AllHold(x, ps, casts, false)
  {
    SameReach(g, events, t, state, root, depth, x);
    RoutesEvaluate(g, x, ps, casts, mixed);
  }

  /** Everything the live route finds is a row of the reconstructed state. */
  lemma FoundIsRow(g: Graph, events: seq<Message>, t: int, root: Id, depth: nat, id: Id) returns (row: Row)
    requires Reflects(g, MsgSet(events)) && MsgSet(events) == EventsAt(events, t)
    requires id in LiveBlast(g, root, depth)
    ensures row in Replay(events, t) && row.id == id
  {
    FoundAreAlive(g, root, depth, id);
    assert Known(g, id);
    var m :| m in MsgSet(events) && m.id == id;
    var top := LatestExists(MsgSet(events), m);
    ReplayIsLatest(events, t, top);
    row := RowOf(top);
  }

  lemma StubArcs(state: seq<Row>, rows: set<Row>)
    requires forall y :: y in state <==> y in rows
    ensures Arcs(Stubs(state)) == RowArcs(rows)
  {
    forall a
      ensures a in Arcs(Stubs(state)) <==> a in RowArcs(rows)
    {
      if a in Arcs(Stubs(state)) {
        var s, rel :| s in Stubs(state) && rel in s.rels && a == (s.id, rel.target);
        var i :| 0 <= i < |state| && Stubs(state)[i] == s;
        assert state[i] in rows && rel in state[i].rels;
      }
      if a in RowArcs(rows) {
        var r, rel :| r in rows && rel in r.rels && a == (r.id, rel.target);
        var i :| 0 <= i < |state| && state[i] == r;
        assert Stubs(state)[i] in Stubs(state);
      }
    }
  }
}
