/** Reading a serialized tree back: a reader that looks fields up by key, and the round trip through it. */
module ReadBack {
  import opened Options
  import opened Serialize

  // ---------------------------------------------------------------- lookups by key

  /** The field of a dictionary under a key. */
  function FieldAt(fs: seq<Field>, key: string): (r: Option<Field>) {
    if |fs| == 0 then None else if fs[0].key == key then Some(fs[0]) else FieldAt(fs[1..], key)
  }

  function ValAt(fs: seq<Field>, key: string): (r: Option<Val>) {
    match FieldAt(fs, key)
    case Some(Attr(_, v)) => Some(v)
    case _ => None
  }

  function TextAt(fs: seq<Field>, key: string): (r: Option<string>) {
    match ValAt(fs, key)
    case Some(Text(t)) => Some(t)
    case _ => None
  }

  function IntAt(fs: seq<Field>, key: string): (r: Option<int>) {
    match ValAt(fs, key)
    case Some(Int(n)) => Some(n)
    case _ => None
  }

  function HexAt(fs: seq<Field>, key: string): (r: Option<nat>) {
    match ValAt(fs, key)
    case Some(Hex(a)) => Some(a)
    case _ => None
  }

  /** The address of a node, 0 if it has none. */
  function EaAt(fs: seq<Field>): (ea: nat) {
    match HexAt(fs, "ea")
    case Some(a) => a
    case None => 0
  }

  /** The child under a key, read with `r`. */
  function KidAt<T>(fs: seq<Field>, key: string, r: Node -> Option<T>): (x: Option<T>) {
    match FieldAt(fs, key)
    case Some(Kid(_, n)) => r(n)
    case _ => None
  }

  /** The child under a key that may be absent; `None` if it is there and cannot be read. */
  function MaybeAt<T>(fs: seq<Field>, key: string, r: Node -> Option<T>): (x: Option<Option<T>>) {
    if FieldAt(fs, key).None? then Some(None)
    else match KidAt(fs, key, r)
      case Some(x) => Some(Some(x))
      case None => None
  }

  function ReadAll<S, T>(ns: seq<S>, r: S -> Option<T>): (xs: Option<seq<T>>) {
    if |ns| == 0 then Some([])
    else match (r(ns[0]), ReadAll(ns[1..], r))
      case (Some(x), Some(rest)) => Some([x] + rest)
      case _ => None
  }

  function KidsAt<T>(fs: seq<Field>, key: string, r: Node -> Option<T>): (xs: Option<seq<T>>) {
    match FieldAt(fs, key)
    case Some(Kids(_, ns)) => ReadAll(ns, r)
    case _ => None
  }

  function ReadCase(c: CaseOut, q: Node -> Option<Stmt>): (r: Option<Case>) {
    match q(c.node)
    case Some(b) => Some(Case(c.values, b))
    case None => None
  }

  function CasesAt(fs: seq<Field>, key: string, q: Node -> Option<Stmt>): (xs: Option<seq<Case>>) {
    match FieldAt(fs, key)
    case Some(CaseList(_, cs)) => ReadAll(cs, c => ReadCase(c, q))
    case _ => None
  }

  // ---------------------------------------------------------------- the reader

  function ReadLeaf(fs: seq<Field>, op: string, h: Head): (e: Option<Expr>) {
    if op == "var" then
      match IntAt(fs, "var_idx")
      case Some(i) => if i >= 0 then Some(Var(h, i)) else None
      case None => None
    else if op == "obj" then
      match HexAt(fs, "obj_ea")
      case Some(a) => Some(ObjRef(h, a, TextAt(fs, "name")))
      case None => None
    else match ValAt(fs, "value")
      case Some(Int(v)) => if op == "num" then Some(Num(h, v)) else None
      case Some(Text(t)) => if op == "str" then Some(StrLit(h, t)) else None
      case _ => None
  }

  function ReadUnary(fs: seq<Field>, op: string, h: Head, r: Node -> Option<Expr>): (e: Option<Expr>) {
    match KidAt(fs, "x", r)
    case None => None
    case Some(x) =>
      if op == "ref" then Some(Ref(h, x))
      else if op == "ptr" then Some(Ptr(h, x))
      else Some(Cast(h.(ty := TextAt(fs, "cast_type")), x))
  }

  function ReadMember(fs: seq<Field>, op: string, h: Head, r: Node -> Option<Expr>): (e: Option<Expr>) {
    match (KidAt(fs, "x", r), IntAt(fs, "offset"))
    case (Some(x), Some(m)) => Some(if op == "memptr" then MemPtr(h, x, m) else MemRef(h, x, m))
    case _ => None
  }

  function ReadCall(fs: seq<Field>, h: Head, r: Node -> Option<Expr>): (e: Option<Expr>) {
    match (KidAt(fs, "target", r), KidsAt(fs, "args", r))
    case (Some(x), Some(args)) => Some(CallE(h, x, args))
    case _ => None
  }

  function ReadIdx(fs: seq<Field>, h: Head, r: Node -> Option<Expr>): (e: Option<Expr>) {
    match (KidAt(fs, "x", r), KidAt(fs, "y", r))
    case (Some(x), Some(y)) => Some(Idx(h, x, y))
    case _ => None
  }

  function ReadTern(fs: seq<Field>, h: Head, r: Node -> Option<Expr>): (e: Option<Expr>) {
    match (KidAt(fs, "cond", r), KidAt(fs, "then", r), KidAt(fs, "else", r))
    case (Some(x), Some(y), Some(z)) => Some(Tern(h, x, y, z))
    case _ => None
  }

  function ReadOther(fs: seq<Field>, op: string, h: Head, r: Node -> Option<Expr>): (e: Option<Expr>) {
    match (MaybeAt(fs, "x", r), MaybeAt(fs, "y", r), MaybeAt(fs, "z", r))
    case (Some(x), Some(y), Some(z)) => Some(OtherE(h, op, x, y, z))
    case _ => None
  }

  /** The expression of a dictionary; `r` reads its children. */
  function ExprOf(fs: seq<Field>, r: Node -> Option<Expr>): (e: Option<Expr>) {
    var h := Head(EaAt(fs), TextAt(fs, "type"));
    match TextAt(fs, "op")
    case None => None
    case Some(op) =>
      if op == "num" || op == "str" || op == "obj" || op == "var" then ReadLeaf(fs, op, h)
      else if op == "ref" || op == "ptr" || op == "cast" then ReadUnary(fs, op, h, r)
      else if op == "memptr" || op == "memref" then ReadMember(fs, op, h, r)
      else if op == "call" then ReadCall(fs, h, r)
      else if op == "idx" then ReadIdx(fs, h, r)
      else if op == "tern" then ReadTern(fs, h, r)
      else ReadOther(fs, op, h, r)
  }

  function ReadIf(fs: seq<Field>, ea: nat, r: Node -> Option<Expr>, q: Node -> Option<Stmt>): (s: Option<Stmt>) {
    match (KidAt(fs, "cond", r), KidAt(fs, "then", q), MaybeAt(fs, "else", q))
    case (Some(c), Some(t), Some(e)) => Some(If(ea, c, t, e))
    case _ => None
  }

  function ReadFor(fs: seq<Field>, ea: nat, r: Node -> Option<Expr>, q: Node -> Option<Stmt>): (s: Option<Stmt>) {
    match (KidAt(fs, "init", r), KidAt(fs, "cond", r), KidAt(fs, "step", r), KidAt(fs, "body", q))
    case (Some(i), Some(c), Some(st), Some(b)) => Some(For(ea, i, c, st, b))
    case _ => None
  }

  function ReadLoop(fs: seq<Field>, op: string, ea: nat, r: Node -> Option<Expr>, q: Node -> Option<Stmt>):
    (s: Option<Stmt>)
  {
    match (KidAt(fs, "cond", r), KidAt(fs, "body", q))
    case (Some(c), Some(b)) => Some(if op == "while" then While(ea, c, b) else Do(ea, c, b))
    case _ => None
  }

  function ReadSwitch(fs: seq<Field>, ea: nat, r: Node -> Option<Expr>, q: Node -> Option<Stmt>): (s: Option<Stmt>) {
    match (KidAt(fs, "switch_expr", r), CasesAt(fs, "cases", q))
    case (Some(e), Some(cs)) => Some(Switch(ea, e, cs))
    case _ => None
  }

  function ReadSimple(fs: seq<Field>, op: string, ea: nat, r: Node -> Option<Expr>, q: Node -> Option<Stmt>):
    (s: Option<Stmt>)
  {
    if op == "block" then
      match KidsAt(fs, "stmts", q)
      case Some(ss) => Some(Block(ea, ss))
      case None => None
    else if op == "expr" then
      match KidAt(fs, "expr", r)
      case Some(e) => Some(ExprS(ea, e))
      case None => None
    else if op == "return" then
      match MaybeAt(fs, "value", r)
      case Some(v) => Some(Return(ea, v))
      case None => None
    else
      match IntAt(fs, "label")
      case Some(l) => Some(Goto(ea, l))
      case None => None
  }

  /** The statement of a dictionary; `r` and `q` read its children. */
  function StmtOf(fs: seq<Field>, r: Node -> Option<Expr>, q: Node -> Option<Stmt>): (s: Option<Stmt>) {
    var ea := EaAt(fs);
    match TextAt(fs, "op")
    case None => None
    case Some(op) =>
      if op == "block" || op == "expr" || op == "return" || op == "goto" then ReadSimple(fs, op, ea, r, q)
      else if op == "if" then ReadIf(fs, ea, r, q)
      else if op == "for" then ReadFor(fs, ea, r, q)
      else if op == "while" || op == "do" then ReadLoop(fs, op, ea, r, q)
      else if op == "switch" then ReadSwitch(fs, ea, r, q)
      else Some(OtherS(ea, op))
  }

  /** Reading at most `m` levels; a marker is not readable. */
  function ReadE(n: Node, m: nat): (e: Option<Expr>)
    decreases m
  {
    if m == 0 || n.Marker? then None else ExprOf(n.fields, k => ReadE(k, m - 1))
  }

  function ReadS(n: Node, m: nat): (s: Option<Stmt>)
    decreases m
  {
    if m == 0 || n.Marker? then None else StmtOf(n.fields, k => ReadE(k, m - 1), k => ReadS(k, m - 1))
  }

  // ---------------------------------------------------------------- what the output keeps

  function KeptEa(ea: nat, cfg: Config): (r: nat) {
    if cfg.addresses && ea != 0xFFFF_FFFF_FFFF_FFFF then ea else 0
  }

  function KeptHead(h: Head, cfg: Config): (r: Head) {
    Head(KeptEa(h.ea, cfg), if cfg.types then h.ty else None)
  }

  /** The expression without what the output leaves out: addresses and types that are switched off, the
      address that means none, and the operands of other operators that have no first one. The type of a
      cast stays. */
  function KeptE(e: Expr, cfg: Config): (r: Expr)
    decreases e
  {
    var h := KeptHead(e.head, cfg);
    match e
    case Num(_, v) => Num(h, v)
    case StrLit(_, t) => StrLit(h, t)
    case ObjRef(_, a, name) => ObjRef(h, a, name)
    case Var(_, i) => Var(h, i)
    case Ref(_, x) => Ref(h, KeptE(x, cfg))
    case Ptr(_, x) => Ptr(h, KeptE(x, cfg))
    case CallE(_, x, args) => CallE(h, KeptE(x, cfg), KeptAll(args, cfg))
    case Cast(o, x) => Cast(h.(ty := o.ty), KeptE(x, cfg))
    case MemPtr(_, x, m) => MemPtr(h, KeptE(x, cfg), m)
    case MemRef(_, x, m) => MemRef(h, KeptE(x, cfg), m)
    case Idx(_, x, y) => Idx(h, KeptE(x, cfg), KeptE(y, cfg))
    case Tern(_, x, y, z) => Tern(h, KeptE(x, cfg), KeptE(y, cfg), KeptE(z, cfg))
    case OtherE(_, op, x, y, z) =>
      if x.None? then OtherE(h, op, None, None, None)
      else OtherE(h, op, Some(KeptE(x.value, cfg)), if y.Some? then Some(KeptE(y.value, cfg)) else None,
                  if z.Some? then Some(KeptE(z.value, cfg)) else None)
  }

  function KeptAll(xs: seq<Expr>, cfg: Config): (r: seq<Expr>)
    decreases xs
  {
    if |xs| == 0 then [] else [KeptE(xs[0], cfg)] + KeptAll(xs[1..], cfg)
  }

  function KeptS(s: Stmt, cfg: Config): (r: Stmt)
    decreases s
  {
    var ea := KeptEa(s.ea, cfg);
    match s
    case Block(_, ss) => Block(ea, KeptStmts(ss, cfg))
    case ExprS(_, e) => ExprS(ea, KeptE(e, cfg))
    case If(_, c, t, e) => If(ea, KeptE(c, cfg), KeptS(t, cfg), if e.Some? then Some(KeptS(e.value, cfg)) else None)
    case For(_, i, c, st, b) => For(ea, KeptE(i, cfg), KeptE(c, cfg), KeptE(st, cfg), KeptS(b, cfg))
    case While(_, c, b) => While(ea, KeptE(c, cfg), KeptS(b, cfg))
    case Do(_, c, b) => Do(ea, KeptE(c, cfg), KeptS(b, cfg))
    case Return(_, v) => Return(ea, if v.Some? then Some(KeptE(v.value, cfg)) else None)
    case Switch(_, e, cs) => Switch(ea, KeptE(e, cfg), KeptCases(cs, cfg))
    case Goto(_, l) => Goto(ea, l)
    case OtherS(_, op) => OtherS(ea, op)
  }

  function KeptStmts(ss: seq<Stmt>, cfg: Config): (r: seq<Stmt>)
    decreases ss
  {
    if |ss| == 0 then [] else [KeptS(ss[0], cfg)] + KeptStmts(ss[1..], cfg)
  }

  function KeptCases(cs: seq<Case>, cfg: Config): (r: seq<Case>)
    decreases cs
  {
    if |cs| == 0 then [] else [Case(cs[0].values, KeptS(cs[0].body, cfg))] + KeptCases(cs[1..], cfg)
  }

  // ---------------------------------------------------------------- which trees are read back

  /** Names of the operators and statements that have fields of their own. */
  predicate OwnOp(op: string) {
    op == "num" || op == "str" || op == "obj" || op == "var" || op == "ref" || op == "ptr" || op == "call" ||
    op == "cast" || op == "memptr" || op == "memref" || op == "idx" || op == "tern"
  }

  predicate OwnStmt(op: string) {
    op == "block" || op == "expr" || op == "if" || op == "for" || op == "while" || op == "do" || op == "return" ||
    op == "switch" || op == "goto"
  }

  /** The other operators have other names. */
  predicate NamedE(e: Expr)
    decreases e
  {
    match e
    case CallE(_, x, args) => NamedE(x) && forall a :: a in args ==> NamedE(a)
    case Idx(_, x, y) => NamedE(x) && NamedE(y)
    case Tern(_, x, y, z) => NamedE(x) && NamedE(y) && NamedE(z)
    case OtherE(_, op, x, y, z) =>
      !OwnOp(op) && (x.Some? ==> NamedE(x.value)) && (y.Some? ==> NamedE(y.value)) && (z.Some? ==> NamedE(z.value))
    case Num(_, _) => true
    case StrLit(_, _) => true
    case ObjRef(_, _, _) => true
    case Var(_, _) => true
    case _ => NamedE(e.x)
  }

  predicate NamedS(s: Stmt)
    decreases s
  {
    match s
    case Block(_, ss) => forall t :: t in ss ==> NamedS(t)
    case ExprS(_, e) => NamedE(e)
    case If(_, c, t, e) => NamedE(c) && NamedS(t) && (e.Some? ==> NamedS(e.value))
    case For(_, i, c, st, b) => NamedE(i) && NamedE(c) && NamedE(st) && NamedS(b)
    case While(_, c, b) => NamedE(c) && NamedS(b)
    case Do(_, c, b) => NamedE(c) && NamedS(b)
    case Return(_, v) => v.Some? ==> NamedE(v.value)
    case Switch(_, e, cs) => NamedE(e) && forall c :: c in cs ==> NamedS(c.body)
    case Goto(_, _) => true
    case OtherS(_, op) => !OwnStmt(op)
  }

  // ---------------------------------------------------------------- lookups in what was written

  lemma {:induction false} AtConcat(a: seq<Field>, b: seq<Field>, key: string)
    ensures FieldAt(a + b, key) == if FieldAt(a, key).Some? then FieldAt(a, key) else FieldAt(b, key)
    decreases |a|
  {
    if |a| == 0 {
      assert a + b == b;
    } else {
      assert (a + b)[0] == a[0] && (a + b)[1..] == a[1..] + b;
      AtConcat(a[1..], b, key);
    }
  }

  lemma {:induction false} AtOne(t: Field, key: string)
    ensures FieldAt([t], key) == if t.key == key then Some(t) else None
  {
    assert [t][1..] == [];
  }

  lemma {:induction false} AtTwo(s: Field, t: Field, key: string)
    ensures FieldAt([s] + [t], key) == if s.key == key then Some(s) else if t.key == key then Some(t) else None
  {
    AtConcat([s], [t], key);
    AtOne(s, key);
    AtOne(t, key);
  }

  lemma {:induction false} AtThree(s: Field, t: Field, u: Field, key: string)
    ensures FieldAt([s] + [t] + [u], key) ==
      if s.key == key then Some(s) else if t.key == key then Some(t) else if u.key == key then Some(u) else None
  {
    AtTwo(s, t, key);
    AtConcat([s] + [t], [u], key);
    AtOne(u, key);
  }

  /** Letters that tell the names of operators apart, and of statements, and the keys. */
  lemma {:induction false} OpLetters()
    ensures "num"[0] == 'n' && "str"[0] == 's' && "obj"[0] == 'o' && "var"[0] == 'v' && "ref"[0] == 'r'
    ensures "ptr"[0] == 'p' && "idx"[0] == 'i' && "call"[0] == 'c' && "cast"[0] == 'c' && "tern"[0] == 't'
    ensures "call"[2] == 'l' && "cast"[2] == 's' && "memptr"[3] == 'p' && "memref"[3] == 'r'
  {
  }

  lemma {:induction false} StmtLetters()
    ensures "block"[0] == 'b' && "while"[0] == 'w' && "expr"[0] == 'e' && "goto"[0] == 'g' && "if"[0] == 'i'
    ensures "do"[0] == 'd' && "return"[0] == 'r' && "switch"[0] == 's'
  {
  }

  lemma {:induction false} KeyLetters()
    ensures "x"[0] == 'x' && "y"[0] == 'y' && "z"[0] == 'z' && "op"[0] == 'o' && "ea"[0] == 'e'
    ensures "type"[0] == 't' && "name"[0] == 'n' && "args"[0] == 'a' && "cond"[0] == 'c' && "then"[0] == 't'
    ensures "else"[0] == 'e' && "expr"[0] == 'e' && "init"[0] == 'i' && "step"[0] == 's' && "body"[0] == 'b'
    ensures "type"[1] == 'y' && "then"[1] == 'h' && "else"[1] == 'l' && "expr"[1] == 'x'
    ensures "value"[0] == 'v' && "stmts"[0] == 's' && "cases"[0] == 'c' && "label"[0] == 'l'
    ensures "obj_ea"[0] == 'o' && "target"[0] == 't' && "offset"[0] == 'o' && "obj_ea"[1] == 'b' && "offset"[1] == 'f'
  {
  }

  lemma {:induction false} EaWritten(ea: nat, cfg: Config, key: string)
    ensures FieldAt(EaField(ea, cfg), key) ==
      if key == "ea" && cfg.addresses && ea != 0xFFFF_FFFF_FFFF_FFFF && ea != 0 then Some(Attr("ea", Hex(ea))) else None
  {
    AtOne(Attr("ea", Hex(ea)), key);
  }

  lemma {:induction false} TextWritten(k: string, t: Option<string>, key: string)
    ensures FieldAt(TextField(k, t), key) == if key == k && t.Some? then Some(Attr(k, Text(t.value))) else None
  {
    if t.Some? {
      AtOne(Attr(k, Text(t.value)), key);
    }
  }

  /** No key of the fields every node starts with. */
  ghost predicate Apart(fs: seq<Field>) {
    FieldAt(fs, "op").None? && FieldAt(fs, "ea").None? && FieldAt(fs, "type").None?
  }

  lemma {:induction false} OwnKeyE(e: Expr, cfg: Config, rest: seq<Field>, key: string)
    requires key != "op" && key != "ea" && key != "type"
    ensures FieldAt(OwnE(e, cfg) + rest, key) == FieldAt(rest, key)
  {
    var a, b := [Attr("op", Text(OpE(e)))], EaField(e.head.ea, cfg);
    var c := if cfg.types then TextField("type", e.head.ty) else [];
    AtConcat(a + b + c, rest, key);
    AtConcat(a + b, c, key);
    AtConcat(a, b, key);
    AtOne(a[0], key);
    EaWritten(e.head.ea, cfg, key);
    TextWritten("type", e.head.ty, key);
  }

  lemma {:induction false} OwnPartsE(e: Expr, cfg: Config, rest: seq<Field>, key: string)
    requires key == "op" || key == "ea" || key == "type"
    requires FieldAt(rest, key).None?
    ensures key == "op" ==> TextAt(OwnE(e, cfg) + rest, key) == Some(OpE(e))
    ensures key == "ea" ==> EaAt(OwnE(e, cfg) + rest) == KeptEa(e.head.ea, cfg)
    ensures key == "type" ==> TextAt(OwnE(e, cfg) + rest, key) == KeptHead(e.head, cfg).ty
  {
    KeyLetters();
    var a, b := [Attr("op", Text(OpE(e)))], EaField(e.head.ea, cfg);
    var c := if cfg.types then TextField("type", e.head.ty) else [];
    AtConcat(a + b + c, rest, key);
    AtConcat(a + b, c, key);
    AtConcat(a, b, key);
    AtOne(a[0], key);
    EaWritten(e.head.ea, cfg, key);
    TextWritten("type", e.head.ty, key);
  }

  lemma {:induction false} OwnReadE(e: Expr, cfg: Config, rest: seq<Field>)
    requires Apart(rest)
    ensures TextAt(OwnE(e, cfg) + rest, "op") == Some(OpE(e))
    ensures Head(EaAt(OwnE(e, cfg) + rest), TextAt(OwnE(e, cfg) + rest, "type")) == KeptHead(e.head, cfg)
  {
    OwnPartsE(e, cfg, rest, "op");
    OwnPartsE(e, cfg, rest, "ea");
    OwnPartsE(e, cfg, rest, "type");
  }

  // ---------------------------------------------------------------- expressions

  /** What `f` writes for `x`, `r` reads. */
  ghost predicate BackE(x: Expr, cfg: Config, f: Expr -> Node, r: Node -> Option<Expr>) {
    r(f(x)) == Some(KeptE(x, cfg))
  }

  /** The whole dictionary of an expression. */
  function FieldsE(e: Expr, cfg: Config, f: Expr -> Node): (fs: seq<Field>) {
    OwnE(e, cfg) + RestE(e, f)
  }

  lemma {:induction false} LeafBack(e: Expr, cfg: Config, f: Expr -> Node, r: Node -> Option<Expr>)
    requires e.Num? || e.StrLit? || e.Var?
    ensures ExprOf(FieldsE(e, cfg, f), r) == Some(KeptE(e, cfg))
  {
    OpLetters();
    KeyLetters();
    var t := RestE(e, f)[0];
    AtOne(t, "op");
    AtOne(t, "ea");
    AtOne(t, "type");
    AtOne(t, t.key);
    OwnReadE(e, cfg, [t]);
    OwnKeyE(e, cfg, [t], t.key);
  }

  lemma {:induction false} ObjBack(e: Expr, cfg: Config, f: Expr -> Node, r: Node -> Option<Expr>)
    requires e.ObjRef?
    ensures ExprOf(FieldsE(e, cfg, f), r) == Some(KeptE(e, cfg))
  {
    OpLetters();
    KeyLetters();
    var t := Attr("obj_ea", Hex(e.objEa));
    forall key: string
      ensures FieldAt(RestE(e, f), key) == if key == "obj_ea" then Some(t) else FieldAt(TextField("name", e.name), key)
    {
      AtConcat([t], TextField("name", e.name), key);
      AtOne(t, key);
    }
    forall key: string
      ensures FieldAt(TextField("name", e.name), key) ==
        if key == "name" && e.name.Some? then Some(Attr("name", Text(e.name.value))) else None
    {
      TextWritten("name", e.name, key);
    }
    OwnReadE(e, cfg, RestE(e, f));
    OwnKeyE(e, cfg, RestE(e, f), "obj_ea");
    OwnKeyE(e, cfg, RestE(e, f), "name");
  }

  lemma {:induction false} UnaryBack(e: Expr, cfg: Config, f: Expr -> Node, r: Node -> Option<Expr>)
    requires (e.Ref? || e.Ptr?) && BackE(e.x, cfg, f, r)
    ensures ExprOf(FieldsE(e, cfg, f), r) == Some(KeptE(e, cfg))
  {
    OpLetters();
    KeyLetters();
    var t := Kid("x", f(e.x));
    AtOne(t, "op");
    AtOne(t, "ea");
    AtOne(t, "type");
    AtOne(t, "x");
    OwnReadE(e, cfg, [t]);
    OwnKeyE(e, cfg, [t], "x");
  }

  lemma {:induction false} CastBack(e: Expr, cfg: Config, f: Expr -> Node, r: Node -> Option<Expr>)
    requires e.Cast? && BackE(e.x, cfg, f, r)
    ensures ExprOf(FieldsE(e, cfg, f), r) == Some(KeptE(e, cfg))
  {
    OpLetters();
    KeyLetters();
    var t, u := Kid("x", f(e.x)), TextField("cast_type", e.head.ty);
    forall key: string
      ensures FieldAt(RestE(e, f), key) ==
        if key == "x" then Some(t)
        else if key == "cast_type" && e.head.ty.Some? then Some(Attr("cast_type", Text(e.head.ty.value))) else None
    {
      AtConcat([t], u, key);
      AtOne(t, key);
      TextWritten("cast_type", e.head.ty, key);
    }
    OwnReadE(e, cfg, RestE(e, f));
    OwnKeyE(e, cfg, RestE(e, f), "x");
    OwnKeyE(e, cfg, RestE(e, f), "cast_type");
  }

  lemma {:induction false} PairApart(s: Field, t: Field)
    requires s.key != "op" && s.key != "ea" && s.key != "type" && t.key != "op" && t.key != "ea" && t.key != "type"
    ensures Apart([s] + [t])
  {
    AtTwo(s, t, "op");
    AtTwo(s, t, "ea");
    AtTwo(s, t, "type");
  }

  /** The two fields of an expression with two fields of its own. */
  lemma {:induction false} PairBack(e: Expr, cfg: Config, f: Expr -> Node, s: Field, t: Field)
    requires RestE(e, f) == [s] + [t] && s.key != t.key
    requires s.key != "op" && s.key != "ea" && s.key != "type" && t.key != "op" && t.key != "ea" && t.key != "type"
    ensures TextAt(FieldsE(e, cfg, f), "op") == Some(OpE(e))
    ensures Head(EaAt(FieldsE(e, cfg, f)), TextAt(FieldsE(e, cfg, f), "type")) == KeptHead(e.head, cfg)
    ensures FieldAt(FieldsE(e, cfg, f), s.key) == Some(s) && FieldAt(FieldsE(e, cfg, f), t.key) == Some(t)
  {
    PairApart(s, t);
    OwnReadE(e, cfg, [s] + [t]);
    OwnKeyE(e, cfg, [s] + [t], s.key);
    OwnKeyE(e, cfg, [s] + [t], t.key);
    AtTwo(s, t, s.key);
    AtTwo(s, t, t.key);
  }

  lemma {:induction false} MemberBack(e: Expr, cfg: Config, f: Expr -> Node, r: Node -> Option<Expr>)
    requires (e.MemPtr? || e.MemRef?) && BackE(e.x, cfg, f, r)
    ensures ExprOf(FieldsE(e, cfg, f), r) == Some(KeptE(e, cfg))
  {
    OpLetters();
    KeyLetters();
    PairBack(e, cfg, f, Kid("x", f(e.x)), Attr("offset", Int(e.m)));
  }

  lemma {:induction false} IdxBack(e: Expr, cfg: Config, f: Expr -> Node, r: Node -> Option<Expr>)
    requires e.Idx? && BackE(e.x, cfg, f, r) && BackE(e.y, cfg, f, r)
    ensures ExprOf(FieldsE(e, cfg, f), r) == Some(KeptE(e, cfg))
  {
    OpLetters();
    KeyLetters();
    PairBack(e, cfg, f, Kid("x", f(e.x)), Kid("y", f(e.y)));
  }

  lemma {:induction false} ArgsBack(xs: seq<Expr>, cfg: Config, f: Expr -> Node, r: Node -> Option<Expr>)
    requires forall x :: x in xs ==> BackE(x, cfg, f, r)
    ensures ReadAll(MapSeq(xs, f), r) == Some(KeptAll(xs, cfg))
  {
    if |xs| > 0 {
      assert BackE(xs[0], cfg, f, r);
      ArgsBack(xs[1..], cfg, f, r);
      assert MapSeq(xs, f)[1..] == MapSeq(xs[1..], f);
    }
  }

  lemma {:induction false} CallBack(e: Expr, cfg: Config, f: Expr -> Node, r: Node -> Option<Expr>)
    requires e.CallE? && BackE(e.x, cfg, f, r) && forall a :: a in e.args ==> BackE(a, cfg, f, r)
    ensures ExprOf(FieldsE(e, cfg, f), r) == Some(KeptE(e, cfg))
  {
    OpLetters();
    KeyLetters();
    ArgsBack(e.args, cfg, f, r);
    PairBack(e, cfg, f, Kid("target", f(e.x)), Kids("args", MapSeq(e.args, f)));
  }

  lemma {:induction false} TernBack(e: Expr, cfg: Config, f: Expr -> Node, r: Node -> Option<Expr>)
    requires e.Tern? && BackE(e.x, cfg, f, r) && BackE(e.y, cfg, f, r) && BackE(e.z, cfg, f, r)
    ensures ExprOf(FieldsE(e, cfg, f), r) == Some(KeptE(e, cfg))
  {
    OpLetters();
    KeyLetters();
    var s, t, u := Kid("cond", f(e.x)), Kid("then", f(e.y)), Kid("else", f(e.z));
    forall key: string
      ensures FieldAt(RestE(e, f), key) ==
        if key == "cond" then Some(s) else if key == "then" then Some(t) else if key == "else" then Some(u) else None
    {
      AtThree(s, t, u, key);
    }
    OwnReadE(e, cfg, RestE(e, f));
    OwnKeyE(e, cfg, RestE(e, f), "cond");
    OwnKeyE(e, cfg, RestE(e, f), "then");
    OwnKeyE(e, cfg, RestE(e, f), "else");
  }

  lemma {:induction false} OptWritten(k: string, x: Option<Expr>, f: Expr -> Node, key: string)
    ensures FieldAt(OptKid(k, x, f), key) == if key == k && x.Some? then Some(Kid(k, f(x.value))) else None
  {
    if x.Some? {
      AtOne(Kid(k, f(x.value)), key);
    }
  }

  lemma {:induction false} OptsWritten(x: Option<Expr>, y: Option<Expr>, z: Option<Expr>, f: Expr -> Node, key: string)
    ensures FieldAt(OptKid("x", x, f) + OptKid("y", y, f) + OptKid("z", z, f), key) ==
      if key == "x" && x.Some? then Some(Kid("x", f(x.value)))
      else if key == "y" && y.Some? then Some(Kid("y", f(y.value)))
      else if key == "z" && z.Some? then Some(Kid("z", f(z.value))) else None
  {
    KeyLetters();
    OptWritten("x", x, f, key);
    OptWritten("y", y, f, key);
    OptWritten("z", z, f, key);
    AtConcat(OptKid("x", x, f) + OptKid("y", y, f), OptKid("z", z, f), key);
    AtConcat(OptKid("x", x, f), OptKid("y", y, f), key);
  }

  lemma {:induction false} OtherBack(e: Expr, cfg: Config, f: Expr -> Node, r: Node -> Option<Expr>)
    requires e.OtherE? && !OwnOp(e.op)
    requires forall x :: x in Visited(e) ==> BackE(x, cfg, f, r)
    ensures ExprOf(FieldsE(e, cfg, f), r) == Some(KeptE(e, cfg))
  {
    KeyLetters();
    var rest := RestE(e, f);
    forall key: string
      ensures FieldAt(rest, key) ==
        if e.ox.None? then None
        else if key == "x" then Some(Kid("x", f(e.ox.value)))
        else if key == "y" && e.oy.Some? then Some(Kid("y", f(e.oy.value)))
        else if key == "z" && e.oz.Some? then Some(Kid("z", f(e.oz.value))) else None
    {
      if e.ox.Some? {
        OptsWritten(e.ox, e.oy, e.oz, f, key);
      }
    }
    OwnReadE(e, cfg, rest);
    OwnKeyE(e, cfg, rest, "x");
    OwnKeyE(e, cfg, rest, "y");
    OwnKeyE(e, cfg, rest, "z");
    OthersVisited(e, cfg, f, r);
  }

  lemma {:induction false} OthersVisited(e: Expr, cfg: Config, f: Expr -> Node, r: Node -> Option<Expr>)
    requires e.OtherE? && forall x :: x in Visited(e) ==> BackE(x, cfg, f, r)
    ensures e.ox.Some? ==> BackE(e.ox.value, cfg, f, r)
    ensures e.ox.Some? && e.oy.Some? ==> BackE(e.oy.value, cfg, f, r)
    ensures e.ox.Some? && e.oz.Some? ==> BackE(e.oz.value, cfg, f, r)
  {
    if e.ox.Some? {
      var xs := Opt(e.ox) + Opt(e.oy) + Opt(e.oz);
      assert e.ox.value in xs;
      assert e.oy.Some? ==> e.oy.value in xs;
      assert e.oz.Some? ==> e.oz.value in xs;
    }
  }

  lemma {:induction false} ExprBack(e: Expr, cfg: Config, f: Expr -> Node, r: Node -> Option<Expr>)
    requires NamedE(e) && forall x :: x in Visited(e) ==> BackE(x, cfg, f, r)
    ensures ExprOf(FieldsE(e, cfg, f), r) == Some(KeptE(e, cfg))
  {
    match e
    case Num(_, _) => LeafBack(e, cfg, f, r);
    case StrLit(_, _) => LeafBack(e, cfg, f, r);
    case Var(_, _) => LeafBack(e, cfg, f, r);
    case ObjRef(_, _, _) => ObjBack(e, cfg, f, r);
    case Ref(_, x) => UnaryBack(e, cfg, f, r);
    case Ptr(_, x) => UnaryBack(e, cfg, f, r);
    case Cast(_, x) => CastBack(e, cfg, f, r);
    case MemPtr(_, x, _) => MemberBack(e, cfg, f, r);
    case MemRef(_, x, _) => MemberBack(e, cfg, f, r);
    case CallE(_, x, args) =>
      assert forall a :: a in args ==> a in [x] + args;
      CallBack(e, cfg, f, r);
    case Idx(_, x, y) => IdxBack(e, cfg, f, r);
    case Tern(_, x, y, z) => TernBack(e, cfg, f, r);
    case OtherE(_, _, _, _, _) => OtherBack(e, cfg, f, r);
  }

  // ---------------------------------------------------------------- statements

  ghost predicate BackS(y: Stmt, cfg: Config, k: Stmt -> Node, q: Node -> Option<Stmt>) {
    q(k(y)) == Some(KeptS(y, cfg))
  }

  function FieldsS(s: Stmt, cfg: Config, f: Expr -> Node, k: Stmt -> Node): (fs: seq<Field>) {
    OwnS(s, cfg) + RestS(s, f, k)
  }

  lemma {:induction false} OwnKeyS(s: Stmt, cfg: Config, rest: seq<Field>, key: string)
    ensures key != "op" && key != "ea" ==> FieldAt(OwnS(s, cfg) + rest, key) == FieldAt(rest, key)
    ensures key == "op" ==> TextAt(OwnS(s, cfg) + rest, key) == Some(OpS(s))
    ensures key == "ea" && FieldAt(rest, key).None? ==> EaAt(OwnS(s, cfg) + rest) == KeptEa(s.ea, cfg)
  {
    KeyLetters();
    var a, b := [Attr("op", Text(OpS(s)))], EaField(s.ea, cfg);
    AtConcat(a + b, rest, key);
    AtConcat(a, b, key);
    AtOne(a[0], key);
    EaWritten(s.ea, cfg, key);
  }

  /** The name and the address of a statement whose own fields have other keys. */
  lemma {:induction false} OwnReadS(s: Stmt, cfg: Config, f: Expr -> Node, k: Stmt -> Node)
    requires FieldAt(RestS(s, f, k), "ea").None?
    ensures TextAt(FieldsS(s, cfg, f, k), "op") == Some(OpS(s)) && EaAt(FieldsS(s, cfg, f, k)) == KeptEa(s.ea, cfg)
  {
    OwnKeyS(s, cfg, RestS(s, f, k), "op");
    OwnKeyS(s, cfg, RestS(s, f, k), "ea");
  }

  lemma {:induction false} StmtsBack(ss: seq<Stmt>, cfg: Config, k: Stmt -> Node, q: Node -> Option<Stmt>)
    requires forall y :: y in ss ==> BackS(y, cfg, k, q)
    ensures ReadAll(MapSeq(ss, k), q) == Some(KeptStmts(ss, cfg))
  {
    if |ss| > 0 {
      assert BackS(ss[0], cfg, k, q);
      StmtsBack(ss[1..], cfg, k, q);
      assert MapSeq(ss, k)[1..] == MapSeq(ss[1..], k);
    }
  }

  lemma {:induction false} CasesBack(cs: seq<Case>, cfg: Config, k: Stmt -> Node, q: Node -> Option<Stmt>,
      w: Case -> CaseOut, v: CaseOut -> Option<Case>)
    requires forall c :: c in cs ==> BackS(c.body, cfg, k, q)
    requires (forall c :: w(c) == CaseOut(c.values, k(c.body))) && forall o :: v(o) == ReadCase(o, q)
    ensures ReadAll(MapSeq(cs, w), v) == Some(KeptCases(cs, cfg))
  {
    if |cs| > 0 {
      assert BackS(cs[0].body, cfg, k, q);
      CasesBack(cs[1..], cfg, k, q, w, v);
      assert MapSeq(cs, w)[1..] == MapSeq(cs[1..], w);
    }
  }

  lemma {:induction false} SimpleBack(s: Stmt, cfg: Config, f: Expr -> Node, k: Stmt -> Node, r: Node -> Option<Expr>,
      q: Node -> Option<Stmt>)
    requires s.Block? || s.ExprS? || s.Goto? || (s.Return? && s.v.Some?)
    requires (s.ExprS? ==> BackE(s.e, cfg, f, r)) && (s.Return? ==> BackE(s.v.value, cfg, f, r))
    requires s.Block? ==> forall y :: y in s.stmts ==> BackS(y, cfg, k, q)
    ensures StmtOf(FieldsS(s, cfg, f, k), r, q) == Some(KeptS(s, cfg))
  {
    StmtLetters();
    KeyLetters();
    if s.Block? {
      StmtsBack(s.stmts, cfg, k, q);
    }
    var t := RestS(s, f, k)[0];
    AtOne(t, "ea");
    AtOne(t, t.key);
    OwnReadS(s, cfg, f, k);
    OwnKeyS(s, cfg, [t], t.key);
  }

  lemma {:induction false} BareBack(s: Stmt, cfg: Config, f: Expr -> Node, k: Stmt -> Node, r: Node -> Option<Expr>,
      q: Node -> Option<Stmt>)
    requires (s.Return? && s.v.None?) || (s.OtherS? && !OwnStmt(s.op))
    ensures StmtOf(FieldsS(s, cfg, f, k), r, q) == Some(KeptS(s, cfg))
  {
    StmtLetters();
    KeyLetters();
    OwnReadS(s, cfg, f, k);
    OwnKeyS(s, cfg, [], "value");
  }

  lemma {:induction false} IfBack(s: Stmt, cfg: Config, f: Expr -> Node, k: Stmt -> Node, r: Node -> Option<Expr>,
      q: Node -> Option<Stmt>)
    requires s.If? && BackE(s.c, cfg, f, r) && BackS(s.thn, cfg, k, q)
    requires s.els.Some? ==> BackS(s.els.value, cfg, k, q)
    ensures StmtOf(FieldsS(s, cfg, f, k), r, q) == Some(KeptS(s, cfg))
  {
    StmtLetters();
    KeyLetters();
    var a, b, rest := Kid("cond", f(s.c)), Kid("then", k(s.thn)), RestS(s, f, k);
    forall key: string
      ensures FieldAt(rest, key) ==
        if key == "cond" then Some(a) else if key == "then" then Some(b)
        else if key == "else" && s.els.Some? then Some(Kid("else", k(s.els.value))) else None
    {
      if s.els.Some? {
        AtThree(a, b, Kid("else", k(s.els.value)), key);
      } else {
        AtTwo(a, b, key);
        assert rest == [a] + [b];
      }
    }
    OwnReadS(s, cfg, f, k);
    OwnKeyS(s, cfg, rest, "cond");
    OwnKeyS(s, cfg, rest, "then");
    OwnKeyS(s, cfg, rest, "else");
  }

  lemma {:induction false} ForBack(s: Stmt, cfg: Config, f: Expr -> Node, k: Stmt -> Node, r: Node -> Option<Expr>,
      q: Node -> Option<Stmt>)
    requires s.For? && BackE(s.init, cfg, f, r) && BackE(s.c, cfg, f, r) && BackE(s.step, cfg, f, r)
    requires BackS(s.body, cfg, k, q)
    ensures StmtOf(FieldsS(s, cfg, f, k), r, q) == Some(KeptS(s, cfg))
  {
    StmtLetters();
    KeyLetters();
    var a, b, c, d := Kid("init", f(s.init)), Kid("cond", f(s.c)), Kid("step", f(s.step)), Kid("body", k(s.body));
    var rest := RestS(s, f, k);
    forall key: string
      ensures FieldAt(rest, key) ==
        if key == "init" then Some(a) else if key == "cond" then Some(b) else if key == "step" then Some(c)
        else if key == "body" then Some(d) else None
    {
      AtThree(a, b, c, key);
      AtConcat([a] + [b] + [c], [d], key);
      AtOne(d, key);
    }
    OwnReadS(s, cfg, f, k);
    OwnKeyS(s, cfg, rest, "init");
    OwnKeyS(s, cfg, rest, "cond");
    OwnKeyS(s, cfg, rest, "step");
    OwnKeyS(s, cfg, rest, "body");
  }

  /** A statement with two fields of its own. */
  lemma {:induction false} TwoFieldsS(s: Stmt, cfg: Config, f: Expr -> Node, k: Stmt -> Node, a: Field, b: Field)
    requires RestS(s, f, k) == [a] + [b] && a.key != b.key
    requires a.key != "op" && a.key != "ea" && b.key != "op" && b.key != "ea"
    ensures TextAt(FieldsS(s, cfg, f, k), "op") == Some(OpS(s)) && EaAt(FieldsS(s, cfg, f, k)) == KeptEa(s.ea, cfg)
    ensures FieldAt(FieldsS(s, cfg, f, k), a.key) == Some(a) && FieldAt(FieldsS(s, cfg, f, k), b.key) == Some(b)
  {
    AtTwo(a, b, "ea");
    AtTwo(a, b, a.key);
    AtTwo(a, b, b.key);
    OwnReadS(s, cfg, f, k);
    OwnKeyS(s, cfg, [a] + [b], a.key);
    OwnKeyS(s, cfg, [a] + [b], b.key);
  }

  lemma {:induction false} LoopBack(s: Stmt, cfg: Config, f: Expr -> Node, k: Stmt -> Node, r: Node -> Option<Expr>,
      q: Node -> Option<Stmt>)
    requires (s.While? || s.Do?) && BackE(s.c, cfg, f, r) && BackS(s.body, cfg, k, q)
    ensures StmtOf(FieldsS(s, cfg, f, k), r, q) == Some(KeptS(s, cfg))
  {
    StmtLetters();
    KeyLetters();
    var a, b := Kid("cond", f(s.c)), Kid("body", k(s.body));
    if s.While? {
      TwoFieldsS(s, cfg, f, k, a, b);
    } else {
      TwoFieldsS(s, cfg, f, k, b, a);
    }
  }

  lemma {:induction false} SwitchBack(s: Stmt, cfg: Config, f: Expr -> Node, k: Stmt -> Node, r: Node -> Option<Expr>,
      q: Node -> Option<Stmt>)
    requires s.Switch? && BackE(s.e, cfg, f, r) && forall c :: c in s.cases ==> BackS(c.body, cfg, k, q)
    ensures StmtOf(FieldsS(s, cfg, f, k), r, q) == Some(KeptS(s, cfg))
  {
    StmtLetters();
    KeyLetters();
    var w := (c: Case) => CaseOut(c.values, k(c.body));
    CasesBack(s.cases, cfg, k, q, w, c => ReadCase(c, q));
    TwoFieldsS(s, cfg, f, k, Kid("switch_expr", f(s.e)), CaseList("cases", MapSeq(s.cases, w)));
  }

  lemma {:induction false} StmtBack(s: Stmt, cfg: Config, f: Expr -> Node, k: Stmt -> Node, r: Node -> Option<Expr>,
      q: Node -> Option<Stmt>)
    requires NamedS(s) && forall x :: x in ExprsOf(s) ==> BackE(x, cfg, f, r)
    requires forall y :: y in StmtsOf(s) ==> BackS(y, cfg, k, q)
    ensures StmtOf(FieldsS(s, cfg, f, k), r, q) == Some(KeptS(s, cfg))
  {
    match s
    case Block(_, _) => SimpleBack(s, cfg, f, k, r, q);
    case ExprS(_, _) => SimpleBack(s, cfg, f, k, r, q);
    case Goto(_, _) => SimpleBack(s, cfg, f, k, r, q);
    case Return(_, v) =>
      if v.Some? {
        SimpleBack(s, cfg, f, k, r, q);
      } else {
        BareBack(s, cfg, f, k, r, q);
      }
    case OtherS(_, _) => BareBack(s, cfg, f, k, r, q);
    case If(_, _, t, e) =>
      assert t in StmtsOf(s) && (e.Some? ==> e.value in StmtsOf(s));
      IfBack(s, cfg, f, k, r, q);
    case For(_, i, c, st, _) =>
      assert i in ExprsOf(s) && c in ExprsOf(s) && st in ExprsOf(s);
      ForBack(s, cfg, f, k, r, q);
    case While(_, _, _) => LoopBack(s, cfg, f, k, r, q);
    case Do(_, _, _) => LoopBack(s, cfg, f, k, r, q);
    case Switch(_, _, cs) =>
      BodiesIn(cs, (c: Case) => c.body);
      SwitchBack(s, cfg, f, k, r, q);
  }

  lemma {:induction false} BodiesIn(cs: seq<Case>, b: Case -> Stmt)
    ensures forall c :: c in cs ==> b(c) in MapSeq(cs, b)
    ensures forall y :: y in MapSeq(cs, b) ==> exists c :: c in cs && y == b(c)
  {
    if |cs| > 0 {
      BodiesIn(cs[1..], b);
      assert MapSeq(cs, b) == [b(cs[0])] + MapSeq(cs[1..], b);
    }
  }

  // ---------------------------------------------------------------- the round trip

  lemma {:induction false} AnyIn<T>(xs: seq<T>, g: T -> bool, x: T)
    requires x in xs && !Any(xs, g)
    ensures !g(x)
  {
    if x != xs[0] {
      AnyIn(xs[1..], g, x);
    }
  }

  lemma {:induction false} NamedVisited(e: Expr)
    requires NamedE(e)
    ensures forall x :: x in Visited(e) ==> NamedE(x)
  {
  }

  lemma {:induction false} NamedParts(s: Stmt)
    requires NamedS(s)
    ensures (forall x :: x in ExprsOf(s) ==> NamedE(x)) && forall y :: y in StmtsOf(s) ==> NamedS(y)
  {
    if s.Switch? {
      BodiesIn(s.cases, (c: Case) => c.body);
    }
  }

  lemma {:induction false} VisitedShallow(e: Expr, m: nat)
    requires m > 0 && !ReachesE(e, m)
    ensures forall x :: x in Visited(e) ==> !ReachesE(x, m - 1)
  {
    forall x | x in Visited(e)
      ensures !ReachesE(x, m - 1)
    {
      AnyIn(Visited(e), y => ReachesE(y, m - 1), x);
    }
  }

  /** An expression that the bound does not cut is read back, but for what the output never holds. */
  lemma {:induction false} RoundTripE(e: Expr, d: nat, cfg: Config)
    requires NamedE(e) && d <= cfg.max && !ReachesE(e, cfg.max + 1 - d)
    ensures ReadE(SerE(e, d, cfg), cfg.max + 1 - d) == Some(KeptE(e, cfg))
    decreases cfg.max - d
  {
    var m := cfg.max - d;
    var f, r := x => SerE(x, d + 1, cfg), n => ReadE(n, m);
    NamedVisited(e);
    VisitedShallow(e, m + 1);
    forall x | x in Visited(e)
      ensures BackE(x, cfg, f, r)
    {
      RoundTripE(x, d + 1, cfg);
    }
    ExprBack(e, cfg, f, r);
  }

  lemma {:induction false} PartsShallow(s: Stmt, m: nat)
    requires m > 0 && !ReachesS(s, m)
    ensures (forall x :: x in ExprsOf(s) ==> !ReachesE(x, m - 1)) && forall y :: y in StmtsOf(s) ==> !ReachesS(y, m - 1)
  {
    forall x | x in ExprsOf(s)
      ensures !ReachesE(x, m - 1)
    {
      AnyIn(ExprsOf(s), y => ReachesE(y, m - 1), x);
    }
    forall y | y in StmtsOf(s)
      ensures !ReachesS(y, m - 1)
    {
      AnyIn(StmtsOf(s), z => ReachesS(z, m - 1), y);
    }
  }

  /** The same of statements, the bodies of whole functions among them. */
  lemma {:induction false} RoundTripS(s: Stmt, d: nat, cfg: Config)
    requires NamedS(s) && d <= cfg.max && !ReachesS(s, cfg.max + 1 - d)
    ensures ReadS(SerS(s, d, cfg), cfg.max + 1 - d) == Some(KeptS(s, cfg))
    decreases cfg.max - d
  {
    var m := cfg.max - d;
    var f, r := x => SerE(x, d + 1, cfg), n => ReadE(n, m);
    var k, q := y => SerS(y, d + 1, cfg), n => ReadS(n, m);
    NamedParts(s);
    PartsShallow(s, m + 1);
    forall x | x in ExprsOf(s)
      ensures BackE(x, cfg, f, r)
    {
      RoundTripE(x, d + 1, cfg);
    }
    forall y | y in StmtsOf(s)
      ensures BackS(y, cfg, k, q)
    {
      RoundTripS(y, d + 1, cfg);
    }
    StmtBack(s, cfg, f, k, r, q);
  }
}
