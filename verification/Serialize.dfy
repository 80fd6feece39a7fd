/** Depth-bounded serialization of decompiled functions: statement and expression trees to JSON-like
    nodes, cut off below a maximal depth. */
module Serialize {
  import opened Options

  // ---------------------------------------------------------------- what is serialized

  /** Address and, if it can be printed, type of an expression. */
  datatype Head = Head(ea: nat, ty: Option<string>)

  datatype Expr =
    | Num(head: Head, value: int)
    | StrLit(head: Head, text: string)
    | ObjRef(head: Head, objEa: nat, name: Option<string>)
    | Var(head: Head, idx: nat)
    | Ref(head: Head, x: Expr)
    | Ptr(head: Head, x: Expr)
    | CallE(head: Head, x: Expr, args: seq<Expr>)
    | Cast(head: Head, x: Expr)
    | MemPtr(head: Head, x: Expr, m: int)
    | MemRef(head: Head, x: Expr, m: int)
    | Idx(head: Head, x: Expr, y: Expr)
    | Tern(head: Head, x: Expr, y: Expr, z: Expr)
    | OtherE(head: Head, op: string, ox: Option<Expr>, oy: Option<Expr>, oz: Option<Expr>)

  datatype Stmt =
    | Block(ea: nat, stmts: seq<Stmt>)
    | ExprS(ea: nat, e: Expr)
    | If(ea: nat, c: Expr, thn: Stmt, els: Option<Stmt>)
    | For(ea: nat, init: Expr, c: Expr, step: Expr, body: Stmt)
    | While(ea: nat, c: Expr, body: Stmt)
    | Do(ea: nat, c: Expr, body: Stmt)
    | Return(ea: nat, v: Option<Expr>)
    | Switch(ea: nat, e: Expr, cases: seq<Case>)
    | Goto(ea: nat, target: int)
    | OtherS(ea: nat, op: string)

  datatype Case = Case(values: seq<int>, body: Stmt)

  // ---------------------------------------------------------------- what comes out

  datatype Val = Text(s: string) | Int(n: int) | Hex(a: nat)

  /** A node is a dictionary with its keys in order, or the truncation marker. */
  datatype Node = Marker | Dict(fields: seq<Field>)

  datatype Field =
    | Attr(key: string, val: Val)
    | Kid(key: string, node: Node)
    | Kids(key: string, nodes: seq<Node>)
    | CaseList(key: string, outs: seq<CaseOut>)

  datatype CaseOut = CaseOut(values: seq<int>, node: Node)

  // ---------------------------------------------------------------- the serializer

  datatype Config = Config(max: nat, addresses: bool, types: bool)

  const BADADDR: nat := 0xFFFF_FFFF_FFFF_FFFF

  function EaField(ea: nat, cfg: Config): (fs: seq<Field>) {
    if cfg.addresses && ea != BADADDR && ea != 0 then [Attr("ea", Hex(ea))] else []
  }

  function TextField(key: string, t: Option<string>): (fs: seq<Field>) {
    if t.Some? then [Attr(key, Text(t.value))] else []
  }

  function OpE(e: Expr): (op: string) {
    match e
    case Num(_, _) => "num"
    case StrLit(_, _) => "str"
    case ObjRef(_, _, _) => "obj"
    case Var(_, _) => "var"
    case Ref(_, _) => "ref"
    case Ptr(_, _) => "ptr"
    case CallE(_, _, _) => "call"
    case Cast(_, _) => "cast"
    case MemPtr(_, _, _) => "memptr"
    case MemRef(_, _, _) => "memref"
    case Idx(_, _, _) => "idx"
    case Tern(_, _, _, _) => "tern"
    case OtherE(_, op, _, _, _) => op
  }

  function OpS(s: Stmt): (op: string) {
    match s
    case Block(_, _) => "block"
    case ExprS(_, _) => "expr"
    case If(_, _, _, _) => "if"
    case For(_, _, _, _, _) => "for"
    case While(_, _, _) => "while"
    case Do(_, _, _) => "do"
    case Return(_, _) => "return"
    case Switch(_, _, _) => "switch"
    case Goto(_, _) => "goto"
    case OtherS(_, op) => op
  }

  /** The fields every expression, and every statement, starts with. */
  function OwnE(e: Expr, cfg: Config): (fs: seq<Field>) {
    [Attr("op", Text(OpE(e)))] + EaField(e.head.ea, cfg) + if cfg.types then TextField("type", e.head.ty) else []
  }

  function OwnS(s: Stmt, cfg: Config): (fs: seq<Field>) {
    [Attr("op", Text(OpS(s)))] + EaField(s.ea, cfg)
  }

  function MapSeq<T, U>(xs: seq<T>, f: T -> U): (r: seq<U>)
    ensures |r| == |xs|
  {
    if |xs| == 0 then [] else [f(xs[0])] + MapSeq(xs[1..], f)
  }

  function OptKid(key: string, x: Option<Expr>, f: Expr -> Node): (fs: seq<Field>) {
    if x.Some? then [Kid(key, f(x.value))] else []
  }

  /** The fields that depend on the operator; `f` serializes the children. */
  function RestE(e: Expr, f: Expr -> Node): (fs: seq<Field>) {
    match e
    case Num(_, v) => [Attr("value", Int(v))]
    case StrLit(_, t) => [Attr("value", Text(t))]
    case ObjRef(_, a, name) => [Attr("obj_ea", Hex(a))] + TextField("name", name)
    case Var(_, i) => [Attr("var_idx", Int(i))]
    case Ref(_, x) => [Kid("x", f(x))]
    case Ptr(_, x) => [Kid("x", f(x))]
    case CallE(_, x, args) => [Kid("target", f(x))] + [Kids("args", MapSeq(args, f))]
    case Cast(h, x) => [Kid("x", f(x))] + TextField("cast_type", h.ty)
    case MemPtr(_, x, m) => [Kid("x", f(x))] + [Attr("offset", Int(m))]
    case MemRef(_, x, m) => [Kid("x", f(x))] + [Attr("offset", Int(m))]
    case Idx(_, x, y) => [Kid("x", f(x))] + [Kid("y", f(y))]
    case Tern(_, x, y, z) => [Kid("cond", f(x))] + [Kid("then", f(y))] + [Kid("else", f(z))]
    case OtherE(_, _, x, y, z) => if x.None? then [] else OptKid("x", x, f) + OptKid("y", y, f) + OptKid("z", z, f)
  }

  function RestS(s: Stmt, f: Expr -> Node, k: Stmt -> Node): (fs: seq<Field>) {
    match s
    case Block(_, ss) => [Kids("stmts", MapSeq(ss, k))]
    case ExprS(_, e) => [Kid("expr", f(e))]
    case If(_, c, t, e) => [Kid("cond", f(c))] + [Kid("then", k(t))] + if e.Some? then [Kid("else", k(e.value))] else []
    case For(_, i, c, st, b) => [Kid("init", f(i))] + [Kid("cond", f(c))] + [Kid("step", f(st))] + [Kid("body", k(b))]
    case While(_, c, b) => [Kid("cond", f(c))] + [Kid("body", k(b))]
    case Do(_, c, b) => [Kid("body", k(b))] + [Kid("cond", f(c))]
    case Return(_, v) => OptKid("value", v, f)
    case Switch(_, e, cs) =>
      [Kid("switch_expr", f(e))] + [CaseList("cases", MapSeq(cs, (c: Case) => CaseOut(c.values, k(c.body))))]
    case Goto(_, l) => [Attr("label", Int(l))]
    case OtherS(_, _) => []
  }

  function Left(d: nat, max: nat): (n: nat) {
    if d > max then 0 else max + 1 - d
  }

  /** `serialize_expr`. */
  function SerE(e: Expr, d: nat, cfg: Config): (n: Node)
    decreases Left(d, cfg.max)
  {
    if d > cfg.max then Marker else Dict(OwnE(e, cfg) + RestE(e, x => SerE(x, d + 1, cfg)))
  }

  /** `serialize_stmt`. */
  function SerS(s: Stmt, d: nat, cfg: Config): (n: Node)
    decreases Left(d, cfg.max)
  {
    if d > cfg.max then Marker
    else Dict(OwnS(s, cfg) + RestS(s, x => SerE(x, d + 1, cfg), y => SerS(y, d + 1, cfg)))
  }

  /** The cases of a switch, appended one by one. */
  method SerializeCases(cs: seq<Case>, d: nat, cfg: Config) returns (outs: seq<CaseOut>)
    ensures outs == MapSeq(cs, (c: Case) => CaseOut(c.values, SerS(c.body, d, cfg)))
  {
    var f := (c: Case) => CaseOut(c.values, SerS(c.body, d, cfg));
    outs := [];
    for i := 0 to |cs|
      invariant MapSeq(cs, f) == outs + MapSeq(cs[i..], f)
    {
      assert cs[i..][1..] == cs[i + 1..];
      assert outs + ([f(cs[i])] + MapSeq(cs[i + 1..], f)) == (outs + [f(cs[i])]) + MapSeq(cs[i + 1..], f);
      outs := outs + [CaseOut(cs[i].values, SerS(cs[i].body, d, cfg))];
    }
  }

  // ---------------------------------------------------------------- maps over child nodes

  function MapField(t: Field, g: Node -> Node): (r: Field) {
    match t
    case Attr(_, _) => t
    case Kid(key, n) => Kid(key, g(n))
    case Kids(key, ns) => Kids(key, MapSeq(ns, g))
    case CaseList(key, cs) => CaseList(key, MapSeq(cs, (c: CaseOut) => CaseOut(c.values, g(c.node))))
  }

  function MapKids(fs: seq<Field>, g: Node -> Node): (r: seq<Field>) {
    MapSeq(fs, t => MapField(t, g))
  }

  /** Everything below depth `m` of a node at depth `d` replaced by markers. */
  function Cut(n: Node, d: nat, m: nat): (r: Node)
    decreases Left(d, m)
  {
    if d > m || n.Marker? then Marker else Dict(MapKids(n.fields, k => Cut(k, d + 1, m)))
  }

  lemma {:induction false} MapConcat<T, U>(a: seq<T>, b: seq<T>, f: T -> U)
    ensures MapSeq(a + b, f) == MapSeq(a, f) + MapSeq(b, f)
    decreases |a|
  {
    if |a| == 0 {
      assert a + b == b;
    } else {
      assert (a + b)[0] == a[0] && (a + b)[1..] == a[1..] + b;
      MapConcat(a[1..], b, f);
    }
  }

  lemma {:induction false} MapTwice<T, U, V>(xs: seq<T>, f: T -> U, g: U -> V, h: T -> V)
    requires forall x :: x in xs ==> h(x) == g(f(x))
    ensures MapSeq(MapSeq(xs, f), g) == MapSeq(xs, h)
  {
    if |xs| > 0 {
      MapTwice(xs[1..], f, g, h);
      assert MapSeq(xs, f)[1..] == MapSeq(xs[1..], f);
    }
  }

  predicate Plain(fs: seq<Field>) {
    forall i :: 0 <= i < |fs| ==> fs[i].Attr?
  }

  lemma {:induction false} MapPlain(fs: seq<Field>, g: Node -> Node)
    requires Plain(fs)
    ensures MapKids(fs, g) == fs
  {
    if |fs| > 0 {
      MapPlain(fs[1..], g);
      assert fs == [fs[0]] + fs[1..];
    }
  }

  /** `b` is `a` with `g` applied to every child node. */
  ghost predicate Maps(a: seq<Field>, b: seq<Field>, g: Node -> Node) {
    MapKids(a, g) == b
  }

  lemma {:induction false} Join(a: seq<Field>, a': seq<Field>, b: seq<Field>, b': seq<Field>, g: Node -> Node)
    requires Maps(a, a', g) && Maps(b, b', g)
    ensures Maps(a + b, a' + b', g)
  {
    MapConcat(a, b, t => MapField(t, g));
  }

  lemma {:induction false} One(key: string, n: Node, g: Node -> Node)
    ensures Maps([Kid(key, n)], [Kid(key, g(n))], g)
  {
    assert [Kid(key, n)][1..] == [];
  }

  lemma {:induction false} Many(key: string, ns: seq<Node>, ns': seq<Node>, g: Node -> Node)
    requires MapSeq(ns, g) == ns'
    ensures Maps([Kids(key, ns)], [Kids(key, ns')], g)
  {
    assert [Kids(key, ns)][1..] == [];
  }

  lemma {:induction false} OptMap(key: string, x: Option<Expr>, f: Expr -> Node, g: Node -> Node, h: Expr -> Node)
    requires forall y :: h(y) == g(f(y))
    ensures Maps(OptKid(key, x, f), OptKid(key, x, h), g)
  {
    if x.Some? {
      One(key, f(x.value), g);
    }
  }

  lemma {:induction false} Two(k1: string, n1: Node, k2: string, n2: Node, g: Node -> Node)
    ensures Maps([Kid(k1, n1)] + [Kid(k2, n2)], [Kid(k1, g(n1))] + [Kid(k2, g(n2))], g)
  {
    One(k1, n1, g);
    One(k2, n2, g);
    Join([Kid(k1, n1)], [Kid(k1, g(n1))], [Kid(k2, n2)], [Kid(k2, g(n2))], g);
  }

  lemma {:induction false} KidPlain(key: string, n: Node, fs: seq<Field>, g: Node -> Node)
    requires Plain(fs)
    ensures Maps([Kid(key, n)] + fs, [Kid(key, g(n))] + fs, g)
  {
    One(key, n, g);
    MapPlain(fs, g);
    Join([Kid(key, n)], [Kid(key, g(n))], fs, fs, g);
  }

  lemma {:induction false} MapCall(x: Expr, args: seq<Expr>, f: Expr -> Node, g: Node -> Node, h: Expr -> Node)
    requires forall y :: h(y) == g(f(y))
    ensures Maps([Kid("target", f(x))] + [Kids("args", MapSeq(args, f))],
                 [Kid("target", h(x))] + [Kids("args", MapSeq(args, h))], g)
  {
    MapTwice(args, f, g, h);
    One("target", f(x), g);
    Many("args", MapSeq(args, f), MapSeq(args, h), g);
    Join([Kid("target", f(x))], [Kid("target", h(x))],
         [Kids("args", MapSeq(args, f))], [Kids("args", MapSeq(args, h))], g);
  }

  lemma {:induction false} MapOther(x: Option<Expr>, y: Option<Expr>, z: Option<Expr>, f: Expr -> Node,
      g: Node -> Node, h: Expr -> Node)
    requires forall v :: h(v) == g(f(v))
    ensures Maps(OptKid("x", x, f) + OptKid("y", y, f) + OptKid("z", z, f),
                 OptKid("x", x, h) + OptKid("y", y, h) + OptKid("z", z, h), g)
  {
    OptMap("x", x, f, g, h);
    OptMap("y", y, f, g, h);
    OptMap("z", z, f, g, h);
    Join(OptKid("x", x, f), OptKid("x", x, h), OptKid("y", y, f), OptKid("y", y, h), g);
    Join(OptKid("x", x, f) + OptKid("y", y, f), OptKid("x", x, h) + OptKid("y", y, h),
         OptKid("z", z, f), OptKid("z", z, h), g);
  }

  /** Mapping the child nodes is serializing the children otherwise. */
  lemma {:induction false} MapRestE(e: Expr, f: Expr -> Node, g: Node -> Node, h: Expr -> Node)
    requires forall x :: h(x) == g(f(x))
    ensures Maps(RestE(e, f), RestE(e, h), g)
  {
    match e
    case Num(_, _) => MapPlain(RestE(e, f), g);
    case StrLit(_, _) => MapPlain(RestE(e, f), g);
    case ObjRef(_, _, _) => MapPlain(RestE(e, f), g);
    case Var(_, _) => MapPlain(RestE(e, f), g);
    case Ref(_, x) => One("x", f(x), g);
    case Ptr(_, x) => One("x", f(x), g);
    case CallE(_, x, args) => MapCall(x, args, f, g, h);
    case Cast(k, x) => KidPlain("x", f(x), TextField("cast_type", k.ty), g);
    case MemPtr(_, x, m) => KidPlain("x", f(x), [Attr("offset", Int(m))], g);
    case MemRef(_, x, m) => KidPlain("x", f(x), [Attr("offset", Int(m))], g);
    case Idx(_, x, y) => Two("x", f(x), "y", f(y), g);
    case Tern(_, x, y, z) =>
      Two("cond", f(x), "then", f(y), g);
      One("else", f(z), g);
      Join([Kid("cond", f(x))] + [Kid("then", f(y))], [Kid("cond", h(x))] + [Kid("then", h(y))],
           [Kid("else", f(z))], [Kid("else", h(z))], g);
    case OtherE(_, _, x, y, z) =>
      if x.Some? {
        MapOther(x, y, z, f, g, h);
      }
  }

  lemma {:induction false} MapIf(s: Stmt, f: Expr -> Node, k: Stmt -> Node, g: Node -> Node, h: Expr -> Node,
      l: Stmt -> Node)
    requires s.If? && (forall x :: h(x) == g(f(x))) && forall y :: l(y) == g(k(y))
    ensures Maps(RestS(s, f, k), RestS(s, h, l), g)
  {
    Two("cond", f(s.c), "then", k(s.thn), g);
    if s.els.Some? {
      One("else", k(s.els.value), g);
      Join([Kid("cond", f(s.c))] + [Kid("then", k(s.thn))], [Kid("cond", h(s.c))] + [Kid("then", l(s.thn))],
           [Kid("else", k(s.els.value))], [Kid("else", l(s.els.value))], g);
    } else {
      assert RestS(s, f, k) == [Kid("cond", f(s.c))] + [Kid("then", k(s.thn))];
      assert RestS(s, h, l) == [Kid("cond", h(s.c))] + [Kid("then", l(s.thn))];
    }
  }

  lemma {:induction false} MapFor(s: Stmt, f: Expr -> Node, k: Stmt -> Node, g: Node -> Node, h: Expr -> Node,
      l: Stmt -> Node)
    requires s.For? && (forall x :: h(x) == g(f(x))) && forall y :: l(y) == g(k(y))
    ensures Maps(RestS(s, f, k), RestS(s, h, l), g)
  {
    Two("init", f(s.init), "cond", f(s.c), g);
    One("step", f(s.step), g);
    One("body", k(s.body), g);
    var a, a' := [Kid("init", f(s.init))] + [Kid("cond", f(s.c))], [Kid("init", h(s.init))] + [Kid("cond", h(s.c))];
    Join(a, a', [Kid("step", f(s.step))], [Kid("step", h(s.step))], g);
    Join(a + [Kid("step", f(s.step))], a' + [Kid("step", h(s.step))],
         [Kid("body", k(s.body))], [Kid("body", l(s.body))], g);
  }

  lemma {:induction false} MapSwitch(s: Stmt, f: Expr -> Node, k: Stmt -> Node, g: Node -> Node, h: Expr -> Node,
      l: Stmt -> Node)
    requires s.Switch? && (forall x :: h(x) == g(f(x))) && forall y :: l(y) == g(k(y))
    ensures Maps(RestS(s, f, k), RestS(s, h, l), g)
  {
    var a := (c: Case) => CaseOut(c.values, k(c.body));
    var b := (c: Case) => CaseOut(c.values, l(c.body));
    var w := (c: CaseOut) => CaseOut(c.values, g(c.node));
    forall c: Case
      ensures b(c) == w(a(c))
    {
      assert l(c.body) == g(k(c.body));
    }
    MapTwice(s.cases, a, w, b);
    One("switch_expr", f(s.e), g);
    var t, t' := CaseList("cases", MapSeq(s.cases, a)), CaseList("cases", MapSeq(s.cases, b));
    assert [t][1..] == [];
    assert Maps([t], [t'], g);
    Join([Kid("switch_expr", f(s.e))], [Kid("switch_expr", h(s.e))], [t], [t'], g);
  }

  lemma {:induction false} MapRestS(s: Stmt, f: Expr -> Node, k: Stmt -> Node, g: Node -> Node, h: Expr -> Node,
      l: Stmt -> Node)
    requires (forall x :: h(x) == g(f(x))) && forall y :: l(y) == g(k(y))
    ensures Maps(RestS(s, f, k), RestS(s, h, l), g)
  {
    match s
    case Block(_, ss) =>
      MapTwice(ss, k, g, l);
      Many("stmts", MapSeq(ss, k), MapSeq(ss, l), g);
    case ExprS(_, e) => One("expr", f(e), g);
    case If(_, _, _, _) => MapIf(s, f, k, g, h, l);
    case For(_, _, _, _, _) => MapFor(s, f, k, g, h, l);
    case While(_, c, b) => Two("cond", f(c), "body", k(b), g);
    case Do(_, c, b) => Two("body", k(b), "cond", f(c), g);
    case Return(_, v) => OptMap("value", v, f, g, h);
    case Switch(_, _, _) => MapSwitch(s, f, k, g, h, l);
    case Goto(_, t) => MapPlain([Attr("label", Int(t))], g);
    case OtherS(_, _) =>
  }

  // ---------------------------------------------------------------- pruning commutes

  /** The same configuration with another bound. */
  function Bound(cfg: Config, m: nat): (r: Config) {
    cfg.(max := m)
  }

  lemma {:induction false} CutDict(own: seq<Field>, rest: seq<Field>, rest': seq<Field>, d: nat, m: nat)
    requires Plain(own) && d <= m && Maps(rest, rest', n => Cut(n, d + 1, m))
    ensures Cut(Dict(own + rest), d, m) == Dict(own + rest')
  {
    var g := n => Cut(n, d + 1, m);
    MapPlain(own, g);
    Join(own, own, rest, rest', g);
  }

  lemma {:induction false} CutE(e: Expr, d: nat, cfg: Config, m: nat, h: Expr -> Node)
    requires d <= m <= cfg.max && forall x :: h(x) == Cut(SerE(x, d + 1, cfg), d + 1, m)
    ensures Cut(SerE(e, d, cfg), d, m) == Dict(OwnE(e, cfg) + RestE(e, h))
  {
    var f := x => SerE(x, d + 1, cfg);
    MapRestE(e, f, n => Cut(n, d + 1, m), h);
    CutDict(OwnE(e, cfg), RestE(e, f), RestE(e, h), d, m);
  }

  lemma {:induction false} CutS(s: Stmt, d: nat, cfg: Config, m: nat, h: Expr -> Node, l: Stmt -> Node)
    requires d <= m <= cfg.max && forall x :: h(x) == Cut(SerE(x, d + 1, cfg), d + 1, m)
    requires forall y :: l(y) == Cut(SerS(y, d + 1, cfg), d + 1, m)
    ensures Cut(SerS(s, d, cfg), d, m) == Dict(OwnS(s, cfg) + RestS(s, h, l))
  {
    var f, k := x => SerE(x, d + 1, cfg), y => SerS(y, d + 1, cfg);
    MapRestS(s, f, k, n => Cut(n, d + 1, m), h, l);
    CutDict(OwnS(s, cfg), RestS(s, f, k), RestS(s, h, l), d, m);
  }

  /** Pruning the output for a larger bound gives the output for the smaller one. */
  lemma {:induction false} PruneE(e: Expr, d: nat, cfg: Config, m: nat)
    requires m <= cfg.max
    ensures Cut(SerE(e, d, cfg), d, m) == SerE(e, d, Bound(cfg, m))
    decreases Left(d, cfg.max)
  {
    if d <= m {
      var low := Bound(cfg, m);
      var h := x => SerE(x, d + 1, low);
      forall x: Expr
        ensures h(x) == Cut(SerE(x, d + 1, cfg), d + 1, m)
      {
        PruneE(x, d + 1, cfg, m);
      }
      CutE(e, d, cfg, m, h);
      assert OwnE(e, low) == OwnE(e, cfg);
    }
  }

  lemma {:induction false} PruneS(s: Stmt, d: nat, cfg: Config, m: nat)
    requires m <= cfg.max
    ensures Cut(SerS(s, d, cfg), d, m) == SerS(s, d, Bound(cfg, m))
    decreases Left(d, cfg.max)
  {
    if d <= m {
      var low := Bound(cfg, m);
      var h, l := x => SerE(x, d + 1, low), y => SerS(y, d + 1, low);
      forall x: Expr
        ensures h(x) == Cut(SerE(x, d + 1, cfg), d + 1, m)
      {
        PruneE(x, d + 1, cfg, m);
      }
      forall y: Stmt
        ensures l(y) == Cut(SerS(y, d + 1, cfg), d + 1, m)
      {
        PruneS(y, d + 1, cfg, m);
      }
      CutS(s, d, cfg, m, h, l);
      assert OwnS(s, low) == OwnS(s, cfg);
    }
  }

  // ---------------------------------------------------------------- searching child nodes

  function Any<T>(xs: seq<T>, g: T -> bool): (b: bool) {
    |xs| > 0 && (g(xs[0]) || Any(xs[1..], g))
  }

  lemma {:induction false} AnyConcat<T>(a: seq<T>, b: seq<T>, g: T -> bool)
    ensures Any(a + b, g) == (Any(a, g) || Any(b, g))
    decreases |a|
  {
    if |a| == 0 {
      assert a + b == b;
    } else {
      assert (a + b)[0] == a[0] && (a + b)[1..] == a[1..] + b;
      AnyConcat(a[1..], b, g);
    }
  }

  lemma {:induction false} AnyMap<T, U>(xs: seq<T>, f: T -> U, g: U -> bool, h: T -> bool)
    requires forall x :: h(x) == g(f(x))
    ensures Any(MapSeq(xs, f), g) == Any(xs, h)
  {
    if |xs| > 0 {
      AnyMap(xs[1..], f, g, h);
      assert MapSeq(xs, f)[1..] == MapSeq(xs[1..], f);
    }
  }

  /** Some child node in a field, or in a list of fields, is as `g` says. */
  function InField(t: Field, g: Node -> bool): (b: bool) {
    match t
    case Attr(_, _) => false
    case Kid(_, n) => g(n)
    case Kids(_, ns) => Any(ns, g)
    case CaseList(_, cs) => Any(cs, (c: CaseOut) => g(c.node))
  }

  function AnyKid(fs: seq<Field>, g: Node -> bool): (b: bool) {
    Any(fs, t => InField(t, g))
  }

  /** The sub-expressions the serializer visits. */
  function Visited(e: Expr): (es: seq<Expr>) {
    match e
    case Num(_, _) => []
    case StrLit(_, _) => []
    case ObjRef(_, _, _) => []
    case Var(_, _) => []
    case CallE(_, x, args) => [x] + args
    case Idx(_, x, y) => [x] + [y]
    case Tern(_, x, y, z) => [x] + [y] + [z]
    case OtherE(_, _, x, y, z) => if x.None? then [] else Opt(x) + Opt(y) + Opt(z)
    case _ => [e.x]
  }

  function Opt<T>(x: Option<T>): (xs: seq<T>) {
    if x.Some? then [x.value] else []
  }

  function ExprsOf(s: Stmt): (es: seq<Expr>) {
    match s
    case Block(_, _) => []
    case ExprS(_, e) => [e]
    case If(_, c, _, _) => [c]
    case For(_, i, c, st, _) => [i] + [c] + [st]
    case While(_, c, _) => [c]
    case Do(_, c, _) => [c]
    case Return(_, v) => Opt(v)
    case Switch(_, e, _) => [e]
    case Goto(_, _) => []
    case OtherS(_, _) => []
  }

  function StmtsOf(s: Stmt): (ss: seq<Stmt>) {
    match s
    case Block(_, ss) => ss
    case If(_, _, t, e) => [t] + Opt(e)
    case For(_, _, _, _, b) => [b]
    case While(_, _, b) => [b]
    case Do(_, _, b) => [b]
    case Switch(_, _, cs) => MapSeq(cs, (c: Case) => c.body)
    case _ => []
  }

  /** `fs` has a child as `g` says exactly if `b` holds. */
  ghost predicate Has(fs: seq<Field>, g: Node -> bool, b: bool) {
    AnyKid(fs, g) == b
  }

  lemma {:induction false} JoinHas(a: seq<Field>, x: bool, b: seq<Field>, y: bool, g: Node -> bool)
    requires Has(a, g, x) && Has(b, g, y)
    ensures Has(a + b, g, x || y)
  {
    AnyConcat(a, b, t => InField(t, g));
  }

  lemma {:induction false} OneHas(t: Field, g: Node -> bool)
    ensures Has([t], g, InField(t, g))
  {
    OneAny(t, x => InField(x, g));
  }

  lemma {:induction false} PlainHas(fs: seq<Field>, g: Node -> bool)
    requires Plain(fs)
    ensures Has(fs, g, false)
  {
    if |fs| > 0 {
      PlainHas(fs[1..], g);
    }
  }

  lemma {:induction false} OneAny<T>(x: T, g: T -> bool)
    ensures Any([x], g) == g(x)
  {
    assert [x][1..] == [];
  }

  lemma {:induction false} OptHas(key: string, x: Option<Expr>, f: Expr -> Node, g: Node -> bool, h: Expr -> bool)
    requires forall y :: h(y) == g(f(y))
    ensures Has(OptKid(key, x, f), g, Any(Opt(x), h))
  {
    if x.Some? {
      OneHas(Kid(key, f(x.value)), g);
      OneAny(x.value, h);
    }
  }

  lemma {:induction false} TwoHas(k1: string, n1: Node, k2: string, n2: Node, g: Node -> bool)
    ensures Has([Kid(k1, n1)] + [Kid(k2, n2)], g, g(n1) || g(n2))
  {
    OneHas(Kid(k1, n1), g);
    OneHas(Kid(k2, n2), g);
    JoinHas([Kid(k1, n1)], g(n1), [Kid(k2, n2)], g(n2), g);
  }

  lemma {:induction false} TwoAny<T>(x: T, y: T, g: T -> bool)
    ensures Any([x] + [y], g) == (g(x) || g(y))
  {
    AnyConcat([x], [y], g);
    OneAny(x, g);
    OneAny(y, g);
  }

  lemma {:induction false} CallHas(x: Expr, args: seq<Expr>, f: Expr -> Node, g: Node -> bool, h: Expr -> bool)
    requires forall y :: h(y) == g(f(y))
    ensures Has([Kid("target", f(x))] + [Kids("args", MapSeq(args, f))], g, Any([x] + args, h))
  {
    OneHas(Kid("target", f(x)), g);
    OneHas(Kids("args", MapSeq(args, f)), g);
    AnyMap(args, f, g, h);
    JoinHas([Kid("target", f(x))], h(x), [Kids("args", MapSeq(args, f))], Any(args, h), g);
    AnyConcat([x], args, h);
    OneAny(x, h);
  }

  lemma {:induction false} TernHas(x: Expr, y: Expr, z: Expr, f: Expr -> Node, g: Node -> bool, h: Expr -> bool)
    requires forall v :: h(v) == g(f(v))
    ensures Has([Kid("cond", f(x))] + [Kid("then", f(y))] + [Kid("else", f(z))], g, Any([x] + [y] + [z], h))
  {
    TwoHas("cond", f(x), "then", f(y), g);
    OneHas(Kid("else", f(z)), g);
    JoinHas([Kid("cond", f(x))] + [Kid("then", f(y))], h(x) || h(y), [Kid("else", f(z))], h(z), g);
    TwoAny(x, y, h);
    OneAny(z, h);
    AnyConcat([x] + [y], [z], h);
  }

  lemma {:induction false} OtherHas(x: Option<Expr>, y: Option<Expr>, z: Option<Expr>, f: Expr -> Node,
      g: Node -> bool, h: Expr -> bool)
    requires forall v :: h(v) == g(f(v))
    ensures Has(OptKid("x", x, f) + OptKid("y", y, f) + OptKid("z", z, f), g, Any(Opt(x) + Opt(y) + Opt(z), h))
  {
    OptHas("x", x, f, g, h);
    OptHas("y", y, f, g, h);
    OptHas("z", z, f, g, h);
    JoinHas(OptKid("x", x, f), Any(Opt(x), h), OptKid("y", y, f), Any(Opt(y), h), g);
    JoinHas(OptKid("x", x, f) + OptKid("y", y, f), Any(Opt(x), h) || Any(Opt(y), h),
            OptKid("z", z, f), Any(Opt(z), h), g);
    AnyConcat(Opt(x), Opt(y), h);
    AnyConcat(Opt(x) + Opt(y), Opt(z), h);
  }

  lemma {:induction false} KidPlainHas(n: Node, fs: seq<Field>, g: Node -> bool)
    requires Plain(fs)
    ensures Has([Kid("x", n)] + fs, g, g(n))
  {
    OneHas(Kid("x", n), g);
    PlainHas(fs, g);
    JoinHas([Kid("x", n)], g(n), fs, false, g);
  }

  /** The child nodes of an expression are its visited sub-expressions, serialized. */
  lemma {:induction false} KidsOfE(e: Expr, f: Expr -> Node, g: Node -> bool, h: Expr -> bool)
    requires forall x :: h(x) == g(f(x))
    ensures Has(RestE(e, f), g, Any(Visited(e), h))
  {
    match e
    case Num(_, _) => PlainHas(RestE(e, f), g);
    case StrLit(_, _) => PlainHas(RestE(e, f), g);
    case ObjRef(_, _, _) => PlainHas(RestE(e, f), g);
    case Var(_, _) => PlainHas(RestE(e, f), g);
    case CallE(_, x, args) => CallHas(x, args, f, g, h);
    case Idx(_, x, y) =>
      TwoHas("x", f(x), "y", f(y), g);
      TwoAny(x, y, h);
    case Tern(_, x, y, z) => TernHas(x, y, z, f, g, h);
    case OtherE(_, _, x, y, z) =>
      if x.Some? {
        OtherHas(x, y, z, f, g, h);
      }
    case Cast(k, x) =>
      KidPlainHas(f(x), TextField("cast_type", k.ty), g);
      OneAny(x, h);
    case MemPtr(_, x, m) =>
      KidPlainHas(f(x), [Attr("offset", Int(m))], g);
      OneAny(x, h);
    case MemRef(_, x, m) =>
      KidPlainHas(f(x), [Attr("offset", Int(m))], g);
      OneAny(x, h);
    case Ref(_, x) =>
      OneHas(Kid("x", f(x)), g);
      OneAny(x, h);
    case Ptr(_, x) =>
      OneHas(Kid("x", f(x)), g);
      OneAny(x, h);
  }

  lemma {:induction false} IfHas(s: Stmt, f: Expr -> Node, k: Stmt -> Node, g: Node -> bool, h: Expr -> bool,
      l: Stmt -> bool)
    requires s.If? && (forall x :: h(x) == g(f(x))) && forall y :: l(y) == g(k(y))
    ensures Has(RestS(s, f, k), g, Any(ExprsOf(s), h) || Any(StmtsOf(s), l))
  {
    TwoHas("cond", f(s.c), "then", k(s.thn), g);
    OneAny(s.c, h);
    OneAny(s.thn, l);
    AnyConcat([s.thn], Opt(s.els), l);
    if s.els.Some? {
      OneHas(Kid("else", k(s.els.value)), g);
      OneAny(s.els.value, l);
      JoinHas([Kid("cond", f(s.c))] + [Kid("then", k(s.thn))], h(s.c) || l(s.thn),
              [Kid("else", k(s.els.value))], l(s.els.value), g);
    } else {
      assert RestS(s, f, k) == [Kid("cond", f(s.c))] + [Kid("then", k(s.thn))];
    }
  }

  lemma {:induction false} ForHas(s: Stmt, f: Expr -> Node, k: Stmt -> Node, g: Node -> bool, h: Expr -> bool,
      l: Stmt -> bool)
    requires s.For? && (forall x :: h(x) == g(f(x))) && forall y :: l(y) == g(k(y))
    ensures Has(RestS(s, f, k), g, Any(ExprsOf(s), h) || Any(StmtsOf(s), l))
  {
    TwoHas("init", f(s.init), "cond", f(s.c), g);
    TwoHas("step", f(s.step), "body", k(s.body), g);
    var a, b := [Kid("init", f(s.init))] + [Kid("cond", f(s.c))], [Kid("step", f(s.step))] + [Kid("body", k(s.body))];
    JoinHas(a, h(s.init) || h(s.c), b, h(s.step) || l(s.body), g);
    assert RestS(s, f, k) == a + b;
    TwoAny(s.init, s.c, h);
    OneAny(s.step, h);
    AnyConcat([s.init] + [s.c], [s.step], h);
    OneAny(s.body, l);
  }

  lemma {:induction false} SwitchHas(s: Stmt, f: Expr -> Node, k: Stmt -> Node, g: Node -> bool, h: Expr -> bool,
      l: Stmt -> bool)
    requires s.Switch? && (forall x :: h(x) == g(f(x))) && forall y :: l(y) == g(k(y))
    ensures Has(RestS(s, f, k), g, Any(ExprsOf(s), h) || Any(StmtsOf(s), l))
  {
    var a := (c: Case) => CaseOut(c.values, k(c.body));
    var w := (c: CaseOut) => g(c.node);
    var u := (c: Case) => l(c.body);
    forall c: Case
      ensures u(c) == w(a(c))
    {
      assert l(c.body) == g(k(c.body));
    }
    AnyMap(s.cases, a, w, u);
    AnyMap(s.cases, (c: Case) => c.body, l, u);
    OneHas(Kid("switch_expr", f(s.e)), g);
    OneHas(CaseList("cases", MapSeq(s.cases, a)), g);
    JoinHas([Kid("switch_expr", f(s.e))], h(s.e), [CaseList("cases", MapSeq(s.cases, a))], Any(s.cases, u), g);
    OneAny(s.e, h);
  }

  lemma {:induction false} KidsOfS(s: Stmt, f: Expr -> Node, k: Stmt -> Node, g: Node -> bool, h: Expr -> bool,
      l: Stmt -> bool)
    requires (forall x :: h(x) == g(f(x))) && forall y :: l(y) == g(k(y))
    ensures Has(RestS(s, f, k), g, Any(ExprsOf(s), h) || Any(StmtsOf(s), l))
  {
    match s
    case Block(_, ss) =>
      OneHas(Kids("stmts", MapSeq(ss, k)), g);
      AnyMap(ss, k, g, l);
    case ExprS(_, e) =>
      OneHas(Kid("expr", f(e)), g);
      OneAny(e, h);
    case If(_, _, _, _) => IfHas(s, f, k, g, h, l);
    case For(_, _, _, _, _) => ForHas(s, f, k, g, h, l);
    case While(_, c, b) =>
      TwoHas("cond", f(c), "body", k(b), g);
      OneAny(c, h);
      OneAny(b, l);
    case Do(_, c, b) =>
      TwoHas("body", k(b), "cond", f(c), g);
      OneAny(c, h);
      OneAny(b, l);
    case Return(_, v) => OptHas("value", v, f, g, h);
    case Switch(_, _, _) => SwitchHas(s, f, k, g, h, l);
    case Goto(_, t) => PlainHas([Attr("label", Int(t))], g);
    case OtherS(_, _) =>
  }

  // ---------------------------------------------------------------- depth and markers

  /** The visited tree reaches `k` levels below its root. */
  function ReachesE(e: Expr, k: nat): (b: bool)
    decreases k
  {
    k == 0 || Any(Visited(e), x => ReachesE(x, k - 1))
  }

  function ReachesS(s: Stmt, k: nat): (b: bool)
    decreases k
  {
    k == 0 || Any(ExprsOf(s), x => ReachesE(x, k - 1)) || Any(StmtsOf(s), y => ReachesS(y, k - 1))
  }

  /** A node at depth `d` breaks the bound `m`: a marker anywhere but just below it, or a dictionary below
      it. */
  function Breaks(n: Node, d: nat, m: nat): (b: bool)
    decreases Left(d, m)
  {
    if n.Marker? then d != m + 1 else d > m || AnyKid(n.fields, k => Breaks(k, d + 1, m))
  }

  /** A marker at depth `d` or at most `k` levels below. */
  function MarkerWithin(n: Node, k: nat): (b: bool)
    decreases k
  {
    n.Marker? || (k > 0 && AnyKid(n.fields, c => MarkerWithin(c, k - 1)))
  }

  lemma {:induction false} DictHas(own: seq<Field>, rest: seq<Field>, g: Node -> bool, b: bool)
    requires Plain(own) && Has(rest, g, b)
    ensures AnyKid(own + rest, g) == b
  {
    PlainHas(own, g);
    JoinHas(own, false, rest, b, g);
  }

  lemma {:induction false} AnyNone<T>(xs: seq<T>, g: T -> bool)
    requires forall x :: !g(x)
    ensures !Any(xs, g)
  {
    if |xs| > 0 {
      AnyNone(xs[1..], g);
    }
  }

  /** The child nodes of a serialized expression, and of a statement. */
  lemma {:induction false} HasE(e: Expr, d: nat, cfg: Config, g: Node -> bool, h: Expr -> bool)
    requires d <= cfg.max && forall x :: h(x) == g(SerE(x, d + 1, cfg))
    ensures SerE(e, d, cfg).Dict? && AnyKid(SerE(e, d, cfg).fields, g) == Any(Visited(e), h)
  {
    var f := x => SerE(x, d + 1, cfg);
    KidsOfE(e, f, g, h);
    DictHas(OwnE(e, cfg), RestE(e, f), g, Any(Visited(e), h));
  }

  lemma {:induction false} HasS(s: Stmt, d: nat, cfg: Config, g: Node -> bool, h: Expr -> bool, l: Stmt -> bool)
    requires d <= cfg.max && (forall x :: h(x) == g(SerE(x, d + 1, cfg))) && forall y :: l(y) == g(SerS(y, d + 1, cfg))
    ensures SerS(s, d, cfg).Dict? && AnyKid(SerS(s, d, cfg).fields, g) == (Any(ExprsOf(s), h) || Any(StmtsOf(s), l))
  {
    var f, k := x => SerE(x, d + 1, cfg), y => SerS(y, d + 1, cfg);
    KidsOfS(s, f, k, g, h, l);
    DictHas(OwnS(s, cfg), RestS(s, f, k), g, Any(ExprsOf(s), h) || Any(StmtsOf(s), l));
  }

  /** Nesting never goes past one marker level below the bound, and markers are nowhere else. */
  lemma {:induction false} DepthE(e: Expr, d: nat, cfg: Config)
    requires d <= cfg.max + 1
    ensures !Breaks(SerE(e, d, cfg), d, cfg.max)
    decreases Left(d, cfg.max)
  {
    if d <= cfg.max {
      var m := cfg.max;
      var g, h := n => Breaks(n, d + 1, m), (x: Expr) => false;
      forall x: Expr
        ensures h(x) == g(SerE(x, d + 1, cfg))
      {
        DepthE(x, d + 1, cfg);
      }
      HasE(e, d, cfg, g, h);
      AnyNone(Visited(e), h);
    }
  }

  lemma {:induction false} DepthS(s: Stmt, d: nat, cfg: Config)
    requires d <= cfg.max + 1
    ensures !Breaks(SerS(s, d, cfg), d, cfg.max)
    decreases Left(d, cfg.max)
  {
    if d <= cfg.max {
      var m := cfg.max;
      var g, h, l := n => Breaks(n, d + 1, m), (x: Expr) => false, (y: Stmt) => false;
      forall x: Expr
        ensures h(x) == g(SerE(x, d + 1, cfg))
      {
        DepthE(x, d + 1, cfg);
      }
      forall y: Stmt
        ensures l(y) == g(SerS(y, d + 1, cfg))
      {
        DepthS(y, d + 1, cfg);
      }
      HasS(s, d, cfg, g, h, l);
      AnyNone(ExprsOf(s), h);
      AnyNone(StmtsOf(s), l);
    }
  }

  /** A truncation marker appears exactly when the visited tree is deeper than the bound. */
  lemma {:induction false} MarkerE(e: Expr, d: nat, cfg: Config)
    requires d <= cfg.max + 1
    ensures MarkerWithin(SerE(e, d, cfg), cfg.max + 1 - d) <==> ReachesE(e, cfg.max + 1 - d)
    decreases Left(d, cfg.max)
  {
    if d <= cfg.max {
      var k: nat := cfg.max + 1 - d;
      var g, h := c => MarkerWithin(c, k - 1), x => ReachesE(x, k - 1);
      forall x: Expr
        ensures h(x) == g(SerE(x, d + 1, cfg))
      {
        MarkerE(x, d + 1, cfg);
      }
      HasE(e, d, cfg, g, h);
    }
  }

  lemma {:induction false} MarkerS(s: Stmt, d: nat, cfg: Config)
    requires d <= cfg.max + 1
    ensures MarkerWithin(SerS(s, d, cfg), cfg.max + 1 - d) <==> ReachesS(s, cfg.max + 1 - d)
    decreases Left(d, cfg.max)
  {
    if d <= cfg.max {
      var k: nat := cfg.max + 1 - d;
      var g, h, l := c => MarkerWithin(c, k - 1), x => ReachesE(x, k - 1), y => ReachesS(y, k - 1);
      forall x: Expr
        ensures h(x) == g(SerE(x, d + 1, cfg))
      {
        MarkerE(x, d + 1, cfg);
      }
      forall y: Stmt
        ensures l(y) == g(SerS(y, d + 1, cfg))
      {
        MarkerS(y, d + 1, cfg);
      }
      HasS(s, d, cfg, g, h, l);
    }
  }
}
