/** Curried puzzles (oracle/app/wallet_auth.py, puzzles/build.py).

    The oracle never builds a program: it computes the tree hash of a curried program from the tree
    hashes of its parts. Here the program is built, its hash is shown to be the one the oracle
    computes, and running it is shown to run the module on the curried arguments. The evaluator
    knows quote, apply, cons and paths into the environment; every other operator is a parameter. */
module Clvm {
  import opened Ordering
  import opened Merkle

  datatype Sexp = Atom(bytes: Bytes) | Pair(left: Sexp, right: Sexp)

  const NIL := Atom([])
  const ONE := Atom([1])
  const QUOTE := Atom([1])
  const APPLY := Atom([2])
  const CONS := Atom([4])

  // Tree hashes.

  function AtomHash(H: Hash, atom: Bytes): (d: Digest)
    ensures |d| == 32
  {
    H(AtomPreimage(atom))
  }

  function PairHash(H: Hash, l: Digest, r: Digest): (d: Digest)
    ensures |d| == 32
  {
    H(PairPreimage(l, r))
  }

  function AtomPreimage(b: Bytes): Bytes { [1] + b }

  function PairPreimage(l: Digest, r: Digest): Bytes { [2] + l + r }

  function TreeHash(H: Hash, s: Sexp): Digest {
    match s
    case Atom(b) => AtomHash(H, b)
    case Pair(l, r) => PairHash(H, TreeHash(H, l), TreeHash(H, r))
  }

  function QuotedModHash(H: Hash, modHash: Digest): Digest { PairHash(H, AtomHash(H, [1]), modHash) }

  function CurriedValuesTreeHash(H: Hash, hashes: seq<Digest>): Digest {
    if hashes == [] then AtomHash(H, [1])
    else
      PairHash(H, AtomHash(H, [4]),
        PairHash(H, PairHash(H, AtomHash(H, [1]), hashes[0]),
          PairHash(H, CurriedValuesTreeHash(H, hashes[1..]), AtomHash(H, []))))
  }

  function CurryAndTreeHash(H: Hash, quotedModHash: Digest, hashes: seq<Digest>): Digest {
    PairHash(H, AtomHash(H, [2]),
      PairHash(H, quotedModHash, PairHash(H, CurriedValuesTreeHash(H, hashes), AtomHash(H, []))))
  }

  // The program the hashes describe.

  function Quoted(s: Sexp): Sexp { Pair(QUOTE, s) }

  function CurriedEnv(args: seq<Sexp>): Sexp {
    if args == [] then ONE
    else Pair(CONS, Pair(Quoted(args[0]), Pair(CurriedEnv(args[1..]), NIL)))
  }

  function Curried(mod: Sexp, args: seq<Sexp>): Sexp {
    Pair(APPLY, Pair(Quoted(mod), Pair(CurriedEnv(args), NIL)))
  }

  function TreeHashes(H: Hash, args: seq<Sexp>): (r: seq<Digest>)
    ensures |r| == |args|
  {
    seq(|args|, i requires 0 <= i < |args| => TreeHash(H, args[i]))
  }

  lemma PairTreeHash(H: Hash, l: Sexp, r: Sexp)
    ensures TreeHash(H, Pair(l, r)) == PairHash(H, TreeHash(H, l), TreeHash(H, r))
  {}

  lemma KeywordHashes(H: Hash)
    ensures TreeHash(H, QUOTE) == AtomHash(H, [1]) == TreeHash(H, ONE) && TreeHash(H, APPLY) == AtomHash(H, [2])
    ensures TreeHash(H, CONS) == AtomHash(H, [4]) && TreeHash(H, NIL) == AtomHash(H, [])
  {}

  lemma {:induction false} EnvHash(H: Hash, args: seq<Sexp>)
    ensures CurriedValuesTreeHash(H, TreeHashes(H, args)) == TreeHash(H, CurriedEnv(args))
  {
    hide PairHash, AtomHash, TreeHash;
    KeywordHashes(H);
    if args != [] {
      assert TreeHashes(H, args)[1..] == TreeHashes(H, args[1..]);
      EnvHash(H, args[1..]);
      var rest := CurriedEnv(args[1..]);
      PairTreeHash(H, QUOTE, args[0]);
      PairTreeHash(H, rest, NIL);
      PairTreeHash(H, Quoted(args[0]), Pair(rest, NIL));
      PairTreeHash(H, CONS, Pair(Quoted(args[0]), Pair(rest, NIL)));
    }
  }

  /** The hash computed from hashes is the hash of the curried program. */
  lemma CurryHashIsTreeHash(H: Hash, mod: Sexp, args: seq<Sexp>)
    ensures CurryAndTreeHash(H, QuotedModHash(H, TreeHash(H, mod)), TreeHashes(H, args))
            == TreeHash(H, Curried(mod, args))
  {
    hide PairHash, AtomHash, TreeHash, TreeHashes, CurriedEnv, CurriedValuesTreeHash;
    EnvHash(H, args);
    KeywordHashes(H);
    var env := CurriedEnv(args);
    PairTreeHash(H, QUOTE, mod);
    PairTreeHash(H, env, NIL);
    PairTreeHash(H, Quoted(mod), Pair(env, NIL));
    PairTreeHash(H, APPLY, Pair(Quoted(mod), Pair(env, NIL)));
  }

  // Equal hashes.

  /** Two different inputs with one hash, taken from two different trees with one hash. */
  function Clash(H: Hash, a: Sexp, b: Sexp): Option<(Bytes, Bytes)> {
    match (a, b)
    case (Atom(x), Atom(y)) => if x == y then None else Some((AtomPreimage(x), AtomPreimage(y)))
    case (Atom(x), Pair(l, r)) => Some((AtomPreimage(x), PairPreimage(TreeHash(H, l), TreeHash(H, r))))
    case (Pair(l, r), Atom(y)) => Some((PairPreimage(TreeHash(H, l), TreeHash(H, r)), AtomPreimage(y)))
    case (Pair(l, r), Pair(l', r')) =>
      if TreeHash(H, l) != TreeHash(H, l') || TreeHash(H, r) != TreeHash(H, r') then
        Some((PairPreimage(TreeHash(H, l), TreeHash(H, r)), PairPreimage(TreeHash(H, l'), TreeHash(H, r'))))
      else if Clash(H, l, l').Some? then Clash(H, l, l') else Clash(H, r, r')
  }

  lemma PreimagesDiffer(b: Bytes, b': Bytes, l: Digest, r: Digest, l': Digest, r': Digest)
    ensures AtomPreimage(b) == AtomPreimage(b') ==> b == b'
    ensures AtomPreimage(b) != PairPreimage(l, r)
    ensures |l| == |l'| && PairPreimage(l, r) == PairPreimage(l', r') ==> l == l' && r == r'
  {
    assert AtomPreimage(b)[1..] == b && AtomPreimage(b')[1..] == b';
    assert AtomPreimage(b)[0] == 1 && PairPreimage(l, r)[0] == 2;
    assert PairPreimage(l, r)[1..1 + |l|] == l && PairPreimage(l, r)[1 + |l|..] == r;
    assert PairPreimage(l', r')[1..1 + |l'|] == l' && PairPreimage(l', r')[1 + |l'|..] == r';
  }

  lemma TreeHashLength(H: Hash, s: Sexp)
    ensures |TreeHash(H, s)| == 32
  {}

  /** One tree hash, one program; otherwise a collision is in hand. */
  lemma {:induction false} TreeHashBinds(H: Hash, a: Sexp, b: Sexp)
    ensures TreeHash(H, a) == TreeHash(H, b) ==>
              match Clash(H, a, b)
              case None => a == b
              case Some(c) => IsCollision(H, c.0, c.1)
    decreases a
  {
    hide AtomPreimage, PairPreimage;
    if TreeHash(H, a) != TreeHash(H, b) { return; }
    HashOfPreimage(H, a);
    HashOfPreimage(H, b);
    match (a, b)
    case (Atom(x), Atom(y)) => PreimagesDiffer(x, y, [], [], [], []);
    case (Atom(x), Pair(l, r)) => PreimagesDiffer(x, x, TreeHash(H, l), TreeHash(H, r), [], []);
    case (Pair(l, r), Atom(y)) => PreimagesDiffer(y, y, TreeHash(H, l), TreeHash(H, r), [], []);
    case (Pair(l, r), Pair(l', r')) =>
      TreeHashLength(H, l);
      TreeHashLength(H, l');
      PreimagesDiffer([], [], TreeHash(H, l), TreeHash(H, r), TreeHash(H, l'), TreeHash(H, r'));
      TreeHashBinds(H, l, l');
      TreeHashBinds(H, r, r');
  }

  lemma HashOfPreimage(H: Hash, s: Sexp)
    ensures match s
            case Atom(b) => TreeHash(H, s) == H(AtomPreimage(b))
            case Pair(l, r) => TreeHash(H, s) == H(PairPreimage(TreeHash(H, l), TreeHash(H, r)))
  {}

  // Evaluation. None: the program fails, or `fuel` nested calls were not enough.

  /** Any other operator, given its evaluated arguments. */
  type Ops = (Bytes, seq<Sexp>) -> Option<Sexp>

  function PathNumber(b: Bytes): nat {
    if b == [] then 0 else 256 * PathNumber(b[..|b| - 1]) + b[|b| - 1] as nat
  }

  /** The part of the environment a path selects: 1 is all of it, and each bit below the top one,
      lowest first, goes left (0) or right (1). */
  function Follow(path: nat, env: Sexp): Option<Sexp>
    decreases path
  {
    if path == 0 then Some(NIL)
    else if path == 1 then Some(env)
    else if env.Atom? then None
    else if path % 2 == 0 then Follow(path / 2, env.left) else Follow(path / 2, env.right)
  }

  function Eval(fuel: nat, ops: Ops, prog: Sexp, env: Sexp): Option<Sexp>
    decreases fuel, prog, 1
  {
    if fuel == 0 then None
    else
      match prog
      case Atom(b) => Follow(PathNumber(b), env)
      case Pair(op, operands) =>
        if op == QUOTE then Some(operands)
        else if op.Pair? then None
        else
          match EvalList(fuel - 1, ops, operands, env)
          case None => None
          case Some(values) =>
            if op == APPLY then
              if |values| == 2 then Eval(fuel - 1, ops, values[0], values[1]) else None
            else if op == CONS then
              if |values| == 2 then Some(Pair(values[0], values[1])) else None
            else ops(op.bytes, values)
  }

  function EvalList(fuel: nat, ops: Ops, operands: Sexp, env: Sexp): Option<seq<Sexp>>
    decreases fuel, operands, 2
  {
    match operands
    case Atom(b) => if b == [] then Some([]) else None
    case Pair(first, rest) =>
      match Eval(fuel, ops, first, env)
      case None => None
      case Some(v) =>
        match EvalList(fuel, ops, rest, env)
        case None => None
        case Some(vs) => Some([v] + vs)
  }

  lemma {:induction false} MoreFuel(f: nat, g: nat, ops: Ops, prog: Sexp, env: Sexp)
    requires f <= g
    ensures Eval(f, ops, prog, env).Some? ==> Eval(g, ops, prog, env) == Eval(f, ops, prog, env)
    decreases f, prog, 1
  {
    if f > 0 && prog.Pair? && prog.left != QUOTE && prog.left.Atom? {
      MoreFuelList(f - 1, g - 1, ops, prog.right, env);
      var values := EvalList(f - 1, ops, prog.right, env);
      if values.Some? && prog.left == APPLY && |values.value| == 2 {
        MoreFuel(f - 1, g - 1, ops, values.value[0], values.value[1]);
      }
    }
  }

  lemma {:induction false} MoreFuelList(f: nat, g: nat, ops: Ops, operands: Sexp, env: Sexp)
    requires f <= g
    ensures EvalList(f, ops, operands, env).Some? ==> EvalList(g, ops, operands, env) == EvalList(f, ops, operands, env)
    decreases f, operands, 2
  {
    if operands.Pair? {
      MoreFuel(f, g, ops, operands.left, env);
      MoreFuelList(f, g, ops, operands.right, env);
    }
  }

  /** The program has the value v, with fuel enough. */
  ghost predicate Yields(ops: Ops, prog: Sexp, env: Sexp, v: Sexp) {
    exists fuel: nat :: Eval(fuel, ops, prog, env) == Some(v)
  }

  /** The arguments consed onto the runtime environment. */
  function Consed(args: seq<Sexp>, env: Sexp): Sexp {
    if args == [] then env else Pair(args[0], Consed(args[1..], env))
  }

  lemma TwoOperands(fuel: nat, ops: Ops, a: Sexp, b: Sexp, env: Sexp)
    ensures EvalList(fuel, ops, Pair(Quoted(a), Pair(b, NIL)), env) ==
            if fuel > 0 && Eval(fuel, ops, b, env).Some? then Some([a, Eval(fuel, ops, b, env).value]) else None
  {
    var last := Pair(b, NIL);
    assert EvalList(fuel, ops, NIL, env) == Some([]);
    assert fuel > 0 ==> Eval(fuel, ops, Quoted(a), env) == Some(a);
    if Eval(fuel, ops, b, env).Some? {
      var v := Eval(fuel, ops, b, env).value;
      assert EvalList(fuel, ops, last, env) == Some([v] + []);
      assert [a] + ([v] + []) == [a, v];
    }
  }

  lemma {:induction false} EnvYieldsConsed(fuel: nat, ops: Ops, args: seq<Sexp>, env: Sexp)
    requires fuel > |args|
    ensures Eval(fuel, ops, CurriedEnv(args), env) == Some(Consed(args, env))
    decreases |args|
  {
    if args == [] {
      assert PathNumber([1]) == 256 * PathNumber([]) + 1;
    } else {
      EnvYieldsConsed(fuel - 1, ops, args[1..], env);
      TwoOperands(fuel - 1, ops, args[0], CurriedEnv(args[1..]), env);
    }
  }

  lemma CurriedRuns(fuel: nat, ops: Ops, mod: Sexp, args: seq<Sexp>, env: Sexp)
    requires fuel > |args| + 1
    ensures Eval(fuel, ops, Curried(mod, args), env) == Eval(fuel - 1, ops, mod, Consed(args, env))
  {
    hide Consed;
    EnvYieldsConsed(fuel - 1, ops, args, env);
    TwoOperands(fuel - 1, ops, mod, CurriedEnv(args), env);
    hide CurriedEnv;
  }

  /** Running the curried program is running the module on the curried arguments. */
  lemma CurryMeansApplication(ops: Ops, mod: Sexp, args: seq<Sexp>, env: Sexp, v: Sexp)
    ensures Yields(ops, Curried(mod, args), env, v) <==> Yields(ops, mod, Consed(args, env), v)
  {
    hide Eval, Curried, Consed;
    if Yields(ops, Curried(mod, args), env, v) {
      var f: nat :| Eval(f, ops, Curried(mod, args), env) == Some(v);
      MoreFuel(f, f + |args| + 2, ops, Curried(mod, args), env);
      CurriedRuns(f + |args| + 2, ops, mod, args, env);
    }
    if Yields(ops, mod, Consed(args, env), v) {
      var f: nat :| Eval(f, ops, mod, Consed(args, env)) == Some(v);
      MoreFuel(f, f + |args| + 1, ops, mod, Consed(args, env));
      CurriedRuns(f + |args| + 2, ops, mod, args, env);
    }
  }
}
