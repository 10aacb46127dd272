/** The expression tree the activation planner compiles, and what it means to evaluate one directly. */
module Hir {
  import opened Values
  import opened Patterns

  /** Variant built around a value carried out of a `for` loop, when the loop has an option type. */
  datatype OptionAbi = OptionAbi(enumName: string, some: string, someValue: string, none: string)

  /** How an iterator step reports an item and the iterator that follows it. */
  datatype IterationAbi = IterationAbi(enumName: string, yielded: string, item: string, next: string)

  datatype ReturnTarget = FromCallable | FromBlock(block: nat)

  datatype Expr =
    | Const(constant: Value)
    | Local(name: string)
    | Binary(op: string, lhs: Expr, rhs: Expr)
    | Logical(both: bool, lhs: Expr, rhs: Expr)
    | Call(values: Exprs)
    | Block(stmts: Stmts)
    | LabeledBlock(target: nat, body: Expr)
    | If(cond: Expr, thn: Expr, els: Option<Expr>)
    | MatchOn(scrutinee: Expr, arms: Arms)
    | StateLoop(target: nat, bindings: BindList, body: Expr)
    | For(target: nat, iteratorName: string, itemName: string, successorName: string, source: Expr, step: Expr,
          pat: Pat, body: Expr, iteration: IterationAbi, option: Option<OptionAbi>)
    | Break(target: nat, value: Expr)
    | Continue(target: nat)
    | ContinueTransition(target: nat, replacements: BindList)

  datatype Exprs = NoExprs | Arg(head: Expr, tail: Exprs)

  /** Names with initial values (a loop header) or with replacement values (a state transition). */
  datatype BindList = NoBindings | Bind(name: string, value: Expr, rest: BindList)

  datatype Arms = NoArms | Arm(pat: Pat, guard: Option<Expr>, body: Expr, rest: Arms)

  /** The statements of a block; `closer` names the function a `let use` runs when the scope is left. */
  datatype Stmts =
    | Tail(tail: Option<Expr>)
    | Let(name: string, value: Expr, closer: Option<string>, rest: Stmts)
    | Do(value: Expr, rest: Stmts)
    | Return(result: Option<Expr>, target: ReturnTarget, rest: Stmts)

  const UNIT := Const(Undefined)

  function Size(es: Exprs): nat {
    if es.NoExprs? then 0 else 1 + Size(es.tail)
  }

  function BoundNames(bs: BindList): seq<string> {
    if bs.NoBindings? then [] else [bs.name] + BoundNames(bs.rest)
  }

  /** A block with any `let use` gets a cleanup scope of its own. */
  predicate Managed(ss: Stmts) {
    match ss
    case Tail(_) => false
    case Let(_, _, closer, rest) => closer.Some? || Managed(rest)
    case Do(_, rest) => Managed(rest)
    case Return(_, _, rest) => Managed(rest)
  }

  // ----- what may be stored by one expression of the target language -----

  /** Control forms are always compiled to states of their own. */
  predicate IsControl(e: Expr) {
    e.Block? || e.LabeledBlock? || e.If? || e.For? || e.Break? || e.Continue? || e.MatchOn?
  }

  /** Whether evaluating the expression can leave the current state: a call, a transfer, a loop, a cleanup. */
  predicate NeedsSplit(e: Expr) {
    match e
    case Const(_) => false
    case Local(_) => false
    case Binary(_, lhs, rhs) => NeedsSplit(lhs) || NeedsSplit(rhs)
    case Logical(_, lhs, rhs) => NeedsSplit(lhs) || NeedsSplit(rhs)
    case Call(_) => true
    case Block(stmts) => StmtsNeedSplit(stmts)
    case LabeledBlock(_, body) => NeedsSplit(body)
    case If(cond, thn, els) => NeedsSplit(cond) || NeedsSplit(thn) || (els.Some? && NeedsSplit(els.value))
    case MatchOn(scrutinee, arms) => NeedsSplit(scrutinee) || ArmsNeedSplit(arms)
    case StateLoop(_, _, _) => true
    case For(_, _, _, _, source, step, _, body, _, _) => NeedsSplit(source) || NeedsSplit(step) || NeedsSplit(body)
    case Break(_, _) => true
    case Continue(_) => true
    case ContinueTransition(_, _) => true
  }

  predicate StmtsNeedSplit(ss: Stmts) {
    match ss
    case Tail(tail) => tail.Some? && NeedsSplit(tail.value)
    case Let(_, value, closer, rest) => closer.Some? || NeedsSplit(value) || StmtsNeedSplit(rest)
    case Do(value, rest) => NeedsSplit(value) || StmtsNeedSplit(rest)
    case Return(_, _, _) => true
  }

  predicate ArmsNeedSplit(arms: Arms) {
    arms.Arm? && ((arms.guard.Some? && NeedsSplit(arms.guard.value)) || NeedsSplit(arms.body) || ArmsNeedSplit(arms.rest))
  }

  // ----- well-formed bodies -----

  /** What a loop shows to the transfers inside it: its target and the names a transition may replace. */
  datatype LoopSig = LoopSig(target: nat, names: seq<string>, carriesState: bool)

  /** The innermost enclosing construct with the given target. */
  function Innermost(targets: seq<nat>, target: nat): (r: Option<nat>)
    ensures r.Some? ==> r.value < |targets| && targets[r.value] == target
  {
    if |targets| == 0 then None
    else if targets[|targets| - 1] == target then Some(|targets| - 1)
    else Innermost(targets[..|targets| - 1], target)
  }

  function Targets(loops: seq<LoopSig>): (r: seq<nat>)
    ensures |r| == |loops| && forall i | 0 <= i < |r| :: r[i] == loops[i].target
  {
    seq(|loops|, i requires 0 <= i < |loops| => loops[i].target)
  }

  function FindLoop(loops: seq<LoopSig>, target: nat): (r: Option<nat>)
    ensures r.Some? ==> r.value < |loops| && loops[r.value].target == target
  {
    Innermost(Targets(loops), target)
  }

  /** Lexical scoping without shadowing: every name used is in scope, no binder rebinds a name in scope,
      every transfer has an active target. */
  ghost predicate WellFormed(e: Expr, names: set<string>, loops: seq<LoopSig>, blocks: seq<nat>) {
    match e
    case Const(_) => true
    case Local(name) => name in names
    case Binary(_, lhs, rhs) => WellFormed(lhs, names, loops, blocks) && WellFormed(rhs, names, loops, blocks)
    case Logical(_, lhs, rhs) => WellFormed(lhs, names, loops, blocks) && WellFormed(rhs, names, loops, blocks)
    case Call(values) => ExprsWellFormed(values, names, loops, blocks)
    case Block(stmts) => StmtsWellFormed(stmts, names, loops, blocks)
    case LabeledBlock(target, body) => WellFormed(body, names, loops, blocks + [target])
    case If(cond, thn, els) =>
      && WellFormed(cond, names, loops, blocks) && WellFormed(thn, names, loops, blocks)
      && (els.Some? ==> WellFormed(els.value, names, loops, blocks))
    case MatchOn(scrutinee, arms) => WellFormed(scrutinee, names, loops, blocks) && ArmsWellFormed(arms, names, loops, blocks)
    case StateLoop(target, bindings, body) =>
      && InitsWellFormed(bindings, names, loops, blocks)
      && WellFormed(body, names + NameSet(BoundNames(bindings)), loops + [LoopSig(target, BoundNames(bindings), true)], blocks)
    case For(target, iteratorName, itemName, successorName, source, step, pat, body, _, _) =>
      && Distinct([iteratorName, itemName, successorName] + Names(pat)) && Unions(pat)
      && NameSet([iteratorName, itemName, successorName] + Names(pat)) !! names
      && WellFormed(source, names, loops, blocks)
      && WellFormed(step, names + {iteratorName}, loops, blocks) && NeedsSplit(step) // advancing is a generated call
      && WellFormed(body, names + {iteratorName, itemName, successorName} + NameSet(Names(pat)),
                    loops + [LoopSig(target, [], false)], blocks)
    case Break(target, value) => FindLoop(loops, target).Some? && WellFormed(value, names, loops, blocks)
    case Continue(target) =>
      FindLoop(loops, target).Some? && !loops[FindLoop(loops, target).value].carriesState
    case ContinueTransition(target, replacements) =>
      && FindLoop(loops, target).Some?
      && loops[FindLoop(loops, target).value].carriesState
      && NameSet(BoundNames(replacements)) <= NameSet(loops[FindLoop(loops, target).value].names)
      && ReplacementsWellFormed(replacements, names, loops, blocks)
  }

  ghost predicate ExprsWellFormed(es: Exprs, names: set<string>, loops: seq<LoopSig>, blocks: seq<nat>) {
    es.Arg? ==> WellFormed(es.head, names, loops, blocks) && ExprsWellFormed(es.tail, names, loops, blocks)
  }

  /** Loop headers: each initial value may use the names bound before it. */
  ghost predicate InitsWellFormed(bs: BindList, names: set<string>, loops: seq<LoopSig>, blocks: seq<nat>) {
    bs.Bind? ==> WellFormed(bs.value, names, loops, blocks) && bs.name !in names
                 && InitsWellFormed(bs.rest, names + {bs.name}, loops, blocks)
  }

  ghost predicate ReplacementsWellFormed(bs: BindList, names: set<string>, loops: seq<LoopSig>, blocks: seq<nat>) {
    bs.Bind? ==> WellFormed(bs.value, names, loops, blocks) && ReplacementsWellFormed(bs.rest, names, loops, blocks)
  }

  ghost predicate StmtsWellFormed(ss: Stmts, names: set<string>, loops: seq<LoopSig>, blocks: seq<nat>) {
    match ss
    case Tail(tail) => tail.Some? ==> WellFormed(tail.value, names, loops, blocks)
    case Let(name, value, _, rest) =>
      WellFormed(value, names, loops, blocks) && name !in names && StmtsWellFormed(rest, names + {name}, loops, blocks)
    case Do(value, rest) => WellFormed(value, names, loops, blocks) && StmtsWellFormed(rest, names, loops, blocks)
    case Return(result, target, _) =>
      && (result.Some? ==> WellFormed(result.value, names, loops, blocks))
      && (target.FromBlock? ==> Innermost(blocks, target.block).Some?)
  }

  ghost predicate ArmsWellFormed(arms: Arms, names: set<string>, loops: seq<LoopSig>, blocks: seq<nat>) {
    arms.Arm? ==>
      && Distinct(Names(arms.pat)) && Unions(arms.pat) && NameSet(Names(arms.pat)) !! names
      && (arms.guard.Some? ==> WellFormed(arms.guard.value, names + NameSet(Names(arms.pat)), loops, blocks))
      && WellFormed(arms.body, names + NameSet(Names(arms.pat)), loops, blocks)
      && ArmsWellFormed(arms.rest, names, loops, blocks)
  }

  /** Every transfer has an active target of its kind and a transition replaces only bindings of its loop: all that
      the planner itself relies on. */
  ghost predicate Targeted(e: Expr, loops: seq<LoopSig>, blocks: seq<nat>) {
    match e
    case Const(_) => true
    case Local(_) => true
    case Binary(_, lhs, rhs) => Targeted(lhs, loops, blocks) && Targeted(rhs, loops, blocks)
    case Logical(_, lhs, rhs) => Targeted(lhs, loops, blocks) && Targeted(rhs, loops, blocks)
    case Call(values) => ExprsTargeted(values, loops, blocks)
    case Block(stmts) => StmtsTargeted(stmts, loops, blocks)
    case LabeledBlock(target, body) => Targeted(body, loops, blocks + [target])
    case If(cond, thn, els) =>
      Targeted(cond, loops, blocks) && Targeted(thn, loops, blocks) && (els.Some? ==> Targeted(els.value, loops, blocks))
    case MatchOn(scrutinee, arms) => Targeted(scrutinee, loops, blocks) && ArmsTargeted(arms, loops, blocks)
    case StateLoop(target, bindings, body) =>
      BindingsTargeted(bindings, loops, blocks) && Targeted(body, loops + [LoopSig(target, BoundNames(bindings), true)], blocks)
    case For(target, _, _, _, source, step, _, body, _, _) =>
      && Targeted(source, loops, blocks) && Targeted(step, loops, blocks)
      && Targeted(body, loops + [LoopSig(target, [], false)], blocks)
    case Break(target, value) => FindLoop(loops, target).Some? && Targeted(value, loops, blocks)
    case Continue(target) => FindLoop(loops, target).Some? && !loops[FindLoop(loops, target).value].carriesState
    case ContinueTransition(target, replacements) =>
      && FindLoop(loops, target).Some?
      && loops[FindLoop(loops, target).value].carriesState
      && NameSet(BoundNames(replacements)) <= NameSet(loops[FindLoop(loops, target).value].names)
      && BindingsTargeted(replacements, loops, blocks)
  }

  ghost predicate ExprsTargeted(es: Exprs, loops: seq<LoopSig>, blocks: seq<nat>) {
    es.Arg? ==> Targeted(es.head, loops, blocks) && ExprsTargeted(es.tail, loops, blocks)
  }

  ghost predicate BindingsTargeted(bs: BindList, loops: seq<LoopSig>, blocks: seq<nat>) {
    bs.Bind? ==> Targeted(bs.value, loops, blocks) && BindingsTargeted(bs.rest, loops, blocks)
  }

  ghost predicate StmtsTargeted(ss: Stmts, loops: seq<LoopSig>, blocks: seq<nat>) {
    match ss
    case Tail(tail) => tail.Some? ==> Targeted(tail.value, loops, blocks)
    case Let(_, value, _, rest) => Targeted(value, loops, blocks) && StmtsTargeted(rest, loops, blocks)
    case Do(value, rest) => Targeted(value, loops, blocks) && StmtsTargeted(rest, loops, blocks)
    case Return(result, target, _) =>
      && (result.Some? ==> Targeted(result.value, loops, blocks))
      && (target.FromBlock? ==> Innermost(blocks, target.block).Some?)
  }

  ghost predicate ArmsTargeted(arms: Arms, loops: seq<LoopSig>, blocks: seq<nat>) {
    arms.Arm? ==>
      && (arms.guard.Some? ==> Targeted(arms.guard.value, loops, blocks))
      && Targeted(arms.body, loops, blocks) && ArmsTargeted(arms.rest, loops, blocks)
  }

  lemma {:induction false} WellFormedIsTargeted(e: Expr, names: set<string>, loops: seq<LoopSig>, blocks: seq<nat>)
    requires WellFormed(e, names, loops, blocks)
    ensures Targeted(e, loops, blocks)
    decreases e
  {
    match e
    case Const(_) | Local(_) | Continue(_) =>
    case Binary(_, lhs, rhs) =>
      WellFormedIsTargeted(lhs, names, loops, blocks);
      WellFormedIsTargeted(rhs, names, loops, blocks);
    case Logical(_, lhs, rhs) =>
      WellFormedIsTargeted(lhs, names, loops, blocks);
      WellFormedIsTargeted(rhs, names, loops, blocks);
    case Call(values) => ExprsAreTargeted(values, names, loops, blocks);
    case Block(stmts) => StmtsAreTargeted(stmts, names, loops, blocks);
    case LabeledBlock(target, body) => WellFormedIsTargeted(body, names, loops, blocks + [target]);
    case If(cond, thn, els) =>
      WellFormedIsTargeted(cond, names, loops, blocks);
      WellFormedIsTargeted(thn, names, loops, blocks);
      if els.Some? { WellFormedIsTargeted(els.value, names, loops, blocks); }
    case MatchOn(scrutinee, arms) =>
      WellFormedIsTargeted(scrutinee, names, loops, blocks);
      ArmsAreTargeted(arms, names, loops, blocks);
    case StateLoop(target, bindings, body) =>
      InitsAreTargeted(bindings, names, loops, blocks);
      WellFormedIsTargeted(body, names + NameSet(BoundNames(bindings)), loops + [LoopSig(target, BoundNames(bindings), true)], blocks);
    case For(target, iteratorName, itemName, successorName, source, step, pat, body, _, _) =>
      WellFormedIsTargeted(source, names, loops, blocks);
      WellFormedIsTargeted(step, names + {iteratorName}, loops, blocks);
      WellFormedIsTargeted(body, names + {iteratorName, itemName, successorName} + NameSet(Names(pat)),
                           loops + [LoopSig(target, [], false)], blocks);
    case Break(_, value) => WellFormedIsTargeted(value, names, loops, blocks);
    case ContinueTransition(_, replacements) => ReplacementsAreTargeted(replacements, names, loops, blocks);
  }

  lemma {:induction false} ExprsAreTargeted(es: Exprs, names: set<string>, loops: seq<LoopSig>, blocks: seq<nat>)
    requires ExprsWellFormed(es, names, loops, blocks)
    ensures ExprsTargeted(es, loops, blocks)
    decreases es
  {
    if es.Arg? {
      WellFormedIsTargeted(es.head, names, loops, blocks);
      ExprsAreTargeted(es.tail, names, loops, blocks);
    }
  }

  lemma {:induction false} InitsAreTargeted(bs: BindList, names: set<string>, loops: seq<LoopSig>, blocks: seq<nat>)
    requires InitsWellFormed(bs, names, loops, blocks)
    ensures BindingsTargeted(bs, loops, blocks)
    decreases bs
  {
    if bs.Bind? {
      WellFormedIsTargeted(bs.value, names, loops, blocks);
      InitsAreTargeted(bs.rest, names + {bs.name}, loops, blocks);
    }
  }

  lemma {:induction false} ReplacementsAreTargeted(bs: BindList, names: set<string>, loops: seq<LoopSig>, blocks: seq<nat>)
    requires ReplacementsWellFormed(bs, names, loops, blocks)
    ensures BindingsTargeted(bs, loops, blocks)
    decreases bs
  {
    if bs.Bind? {
      WellFormedIsTargeted(bs.value, names, loops, blocks);
      ReplacementsAreTargeted(bs.rest, names, loops, blocks);
    }
  }

  lemma {:induction false} StmtsAreTargeted(ss: Stmts, names: set<string>, loops: seq<LoopSig>, blocks: seq<nat>)
    requires StmtsWellFormed(ss, names, loops, blocks)
    ensures StmtsTargeted(ss, loops, blocks)
    decreases ss
  {
    match ss
    case Tail(tail) => if tail.Some? { WellFormedIsTargeted(tail.value, names, loops, blocks); }
    case Let(name, value, _, rest) =>
      WellFormedIsTargeted(value, names, loops, blocks);
      StmtsAreTargeted(rest, names + {name}, loops, blocks);
    case Do(value, rest) =>
      WellFormedIsTargeted(value, names, loops, blocks);
      StmtsAreTargeted(rest, names, loops, blocks);
    case Return(result, _, _) => if result.Some? { WellFormedIsTargeted(result.value, names, loops, blocks); }
  }

  lemma {:induction false} ArmsAreTargeted(arms: Arms, names: set<string>, loops: seq<LoopSig>, blocks: seq<nat>)
    requires ArmsWellFormed(arms, names, loops, blocks)
    ensures ArmsTargeted(arms, loops, blocks)
    decreases arms
  {
    if arms.Arm? {
      var wider := names + NameSet(Names(arms.pat));
      if arms.guard.Some? { WellFormedIsTargeted(arms.guard.value, wider, loops, blocks); }
      WellFormedIsTargeted(arms.body, wider, loops, blocks);
      ArmsAreTargeted(arms.rest, names, loops, blocks);
    }
  }

  // ----- direct evaluation -----

  datatype Request = CallOf(values: seq<Value>) | CloseOf(closer: string, value: Value)
  datatype Answer = Answered(value: Value) | Raised(defect: Value)
  datatype Event = Event(request: Request, answer: Answer)
  type Trace = seq<Event>

  /** Everything outside the compiled body: what a call or a cleanup answers, given all that happened before,
      and what an eager binary operator computes. */
  datatype Host = Host(answer: (Trace, Request) -> Answer, binary: (string, Value, Value) -> Answer)

  type Env = map<string, Value>

  datatype Completion =
    | Normal(value: Value)
    | Broke(loop: nat, value: Value)
    | Continued(loop: nat, updates: Env)
    | LeftBlock(block: nat, value: Value)
    | Returned(value: Value)
    | Threw(defects: seq<Value>)

  datatype Result = Timeout | Done(completion: Completion, trace: Trace)

  /** Outcome of evaluating a list of operands left to right. */
  datatype Listed = Values(values: seq<Value>, trace: Trace) | Stopped(result: Result)

  /** Outcome of computing the replacements of a transition. */
  datatype Replaced = Replaced(updates: Env, trace: Trace) | Interrupted(result: Result)

  function BinaryResult(h: Host, op: string, l: Value, r: Value): Completion {
    match h.binary(op, l, r)
    case Answered(v) => Normal(v)
    case Raised(d) => Threw([d])
  }

  /** Running one registered cleanup: a failure is added to the pending defects, anything else is kept. */
  function Close(h: Host, closer: string, value: Value, r: Result): Result {
    if r.Timeout? then r else
    var answer := h.answer(r.trace, CloseOf(closer, value));
    Done(AfterClose(answer, r.completion), r.trace + [Event(CloseOf(closer, value), answer)])
  }

  function AfterClose(answer: Answer, c: Completion): Completion {
    match answer
    case Answered(_) => c
    case Raised(d) => Threw((if c.Threw? then c.defects else []) + [d])
  }

  function WrapSome(option: Option<OptionAbi>, v: Value): Value {
    if option.None? then v else Variant(option.value.enumName, option.value.some, map[option.value.someValue := v])
  }

  function NoneOf(option: Option<OptionAbi>): Value {
    if option.None? then Undefined else Variant(option.value.enumName, option.value.none, map[])
  }

  /** The pattern an iterator step is taken apart with. */
  function StepPattern(iteration: IterationAbi, itemName: string, successorName: string): Pat {
    VariantPat(iteration.enumName, iteration.yielded,
      Field(iteration.item, Binding(itemName, None), Field(iteration.next, Binding(successorName, None), NoFields)))
  }

  /** Direct evaluation. `fuel` bounds the number of loop iterations; running out is `Timeout`. */
  function Eval(h: Host, e: Expr, env: Env, tr: Trace, fuel: nat): Result
    decreases fuel, e
  {
    match e
    case Const(v) => Done(Normal(v), tr)
    case Local(name) => Done(Normal(if name in env then env[name] else Undefined), tr)
    case Binary(op, lhs, rhs) =>
      var l := Eval(h, lhs, env, tr, fuel);
      if !(l.Done? && l.completion.Normal?) then l else
      var r := Eval(h, rhs, env, l.trace, fuel);
      if !(r.Done? && r.completion.Normal?) then r else
      Done(BinaryResult(h, op, l.completion.value, r.completion.value), r.trace)
    case Logical(both, lhs, rhs) =>
      var l := Eval(h, lhs, env, tr, fuel);
      if !(l.Done? && l.completion.Normal?) then l else
      if Truthy(l.completion.value) == both then Eval(h, rhs, env, l.trace, fuel) else l
    case Call(values) =>
      (match EvalAll(h, values, env, tr, fuel)
       case Stopped(r) => r
       case Values(vs, tr1) =>
         var answer := h.answer(tr1, CallOf(vs));
         Done(if answer.Answered? then Normal(answer.value) else Threw([answer.defect]),
              tr1 + [Event(CallOf(vs), answer)]))
    case Block(stmts) => EvalStmts(h, stmts, env, tr, fuel)
    case LabeledBlock(target, body) =>
      var r := Eval(h, body, env, tr, fuel);
      if r.Done? && r.completion.LeftBlock? && r.completion.block == target
      then Done(Normal(r.completion.value), r.trace) else r
    case If(cond, thn, els) =>
      var c := Eval(h, cond, env, tr, fuel);
      if !(c.Done? && c.completion.Normal?) then c
      else if Truthy(c.completion.value) then Eval(h, thn, env, c.trace, fuel)
      else if els.Some? then Eval(h, els.value, env, c.trace, fuel)
      else Done(Normal(Undefined), c.trace)
    case MatchOn(scrutinee, arms) =>
      var s := Eval(h, scrutinee, env, tr, fuel);
      if !(s.Done? && s.completion.Normal?) then s else EvalArms(h, arms, s.completion.value, env, s.trace, fuel)
    case StateLoop(target, bindings, body) =>
      (match EvalInits(h, bindings, env, tr, fuel)
       case Stopped(r) => r
       case Values(vs, tr1) => EvalLoop(h, target, body, WithValues(env, BoundNames(bindings), vs), tr1, fuel))
    case For(target, iteratorName, itemName, successorName, source, step, pat, body, iteration, option) =>
      var it := Eval(h, source, env, tr, fuel);
      if !(it.Done? && it.completion.Normal?) then it else
      EvalFor(h, e, env, it.completion.value, it.trace, fuel)
    case Break(target, value) =>
      var v := Eval(h, value, env, tr, fuel);
      if !(v.Done? && v.completion.Normal?) then v else Done(Broke(target, v.completion.value), v.trace)
    case Continue(target) => Done(Continued(target, map[]), tr)
    case ContinueTransition(target, replacements) =>
      (match EvalReplacements(h, replacements, env, map[], tr, fuel)
       case Interrupted(r) => r
       case Replaced(updates, tr1) => Done(Continued(target, updates), tr1))
  }

  function EvalAll(h: Host, es: Exprs, env: Env, tr: Trace, fuel: nat): (r: Listed)
    ensures r.Values? ==> |r.values| == Size(es)
    decreases fuel, es
  {
    if es.NoExprs? then Values([], tr) else
    var v := Eval(h, es.head, env, tr, fuel);
    if !(v.Done? && v.completion.Normal?) then Stopped(v) else
    match EvalAll(h, es.tail, env, v.trace, fuel)
    case Stopped(r) => Stopped(r)
    case Values(vs, tr1) => Values([v.completion.value] + vs, tr1)
  }

  function EvalInits(h: Host, bs: BindList, env: Env, tr: Trace, fuel: nat): (r: Listed)
    ensures r.Values? ==> |r.values| == |BoundNames(bs)|
    decreases fuel, bs
  {
    if bs.NoBindings? then Values([], tr) else
    var v := Eval(h, bs.value, env, tr, fuel);
    if !(v.Done? && v.completion.Normal?) then Stopped(v) else
    match EvalInits(h, bs.rest, env[bs.name := v.completion.value], v.trace, fuel)
    case Stopped(r) => Stopped(r)
    case Values(vs, tr1) => Values([v.completion.value] + vs, tr1)
  }

  /** All replacements are computed from the old bindings; the transition happens when the loop takes it over. */
  function EvalReplacements(h: Host, bs: BindList, env: Env, updates: Env, tr: Trace, fuel: nat): Replaced
    decreases fuel, bs
  {
    if bs.NoBindings? then Replaced(updates, tr) else
    var v := Eval(h, bs.value, env, tr, fuel);
    if !(v.Done? && v.completion.Normal?) then Interrupted(v) else
    EvalReplacements(h, bs.rest, env, updates[bs.name := v.completion.value], v.trace, fuel)
  }

  function EvalStmts(h: Host, ss: Stmts, env: Env, tr: Trace, fuel: nat): Result
    decreases fuel, ss
  {
    match ss
    case Tail(tail) => if tail.None? then Done(Normal(Undefined), tr) else Eval(h, tail.value, env, tr, fuel)
    case Let(name, value, closer, rest) =>
      var v := Eval(h, value, env, tr, fuel);
      if !(v.Done? && v.completion.Normal?) then v else
      var r := EvalStmts(h, rest, env[name := v.completion.value], v.trace, fuel);
      if closer.None? then r else Close(h, closer.value, v.completion.value, r)
    case Do(value, rest) =>
      var v := Eval(h, value, env, tr, fuel);
      if !(v.Done? && v.completion.Normal?) then v else EvalStmts(h, rest, env, v.trace, fuel)
    case Return(result, target, _) =>
      var v := if result.None? then Done(Normal(Undefined), tr) else Eval(h, result.value, env, tr, fuel);
      if !(v.Done? && v.completion.Normal?) then v else
      Done(if target.FromCallable? then Returned(v.completion.value) else LeftBlock(target.block, v.completion.value),
           v.trace)
  }

  /** The first arm whose pattern matches and whose guard holds. */
  function EvalArms(h: Host, arms: Arms, v: Value, env: Env, tr: Trace, fuel: nat): Result
    decreases fuel, arms
  {
    if arms.NoArms? then Done(Normal(Undefined), tr) else
    match Matches(arms.pat, v)
    case None => EvalArms(h, arms.rest, v, env, tr, fuel)
    case Some(bound) =>
      if arms.guard.None? then Eval(h, arms.body, env + bound, tr, fuel) else
      var g := Eval(h, arms.guard.value, env + bound, tr, fuel);
      if !(g.Done? && g.completion.Normal?) then g
      else if Truthy(g.completion.value) then Eval(h, arms.body, env + bound, g.trace, fuel)
      else EvalArms(h, arms.rest, v, env, g.trace, fuel)
  }

  function WithValues(env: Env, names: seq<string>, vs: seq<Value>): Env
    requires |names| == |vs|
    decreases |names|
  {
    if |names| == 0 then env else WithValues(env[names[0] := vs[0]], names[1..], vs[1..])
  }

  function EvalLoop(h: Host, target: nat, body: Expr, env: Env, tr: Trace, fuel: nat): Result
    decreases fuel, body
  {
    if fuel == 0 then Timeout else
    var r := Eval(h, body, env, tr, fuel - 1);
    if r.Timeout? then r else
    match r.completion
    case Normal(_) => EvalLoop(h, target, body, env, r.trace, fuel - 1)
    case Continued(loop, updates) =>
      if loop == target then EvalLoop(h, target, body, env + updates, r.trace, fuel - 1) else r
    case Broke(loop, v) => if loop == target then Done(Normal(v), r.trace) else r
    case _ => r
  }

  /** One pass of a `for` loop: take a step, stop when nothing is yielded, otherwise run the body on the item;
      an item the pattern rejects is skipped. */
  function EvalFor(h: Host, e: Expr, env: Env, it: Value, tr: Trace, fuel: nat): Result
    requires e.For?
    decreases fuel, e, 0
  {
    if fuel == 0 then Timeout else
    var s := Eval(h, e.step, env[e.iteratorName := it], tr, fuel - 1);
    if !(s.Done? && s.completion.Normal?) then s else
    match Matches(StepPattern(e.iteration, e.itemName, e.successorName), s.completion.value)
    case None => Done(Normal(NoneOf(e.option)), s.trace)
    case Some(bound) =>
      var inner := ForEnv(e, env, bound);
      var r := EvalArms(h, Arm(e.pat, None, e.body, NoArms), BoundTo(bound, e.itemName), inner, s.trace, fuel - 1);
      if r.Timeout? then r else
      match r.completion
      case Normal(_) => EvalFor(h, e, env, BoundTo(bound, e.successorName), r.trace, fuel - 1)
      case Continued(loop, _) =>
        if loop == e.target then EvalFor(h, e, env, BoundTo(bound, e.successorName), r.trace, fuel - 1) else r
      case Broke(loop, v) => if loop == e.target then Done(Normal(WrapSome(e.option, v)), r.trace) else r
      case _ => r
  }

  function BoundTo(bound: Env, name: string): Value {
    if name in bound then bound[name] else Undefined
  }

  /** Inside the body the iterator name already denotes the iterator that follows. */
  function ForEnv(e: Expr, env: Env, bound: Env): Env
    requires e.For?
  {
    (env + bound)[e.iteratorName := BoundTo(bound, e.successorName)]
  }
}
