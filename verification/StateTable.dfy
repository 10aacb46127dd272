/** The flat table of numbered states a callable is planned into, and how the driver runs it. */
module StateTable {
  import opened Values
  import opened Patterns
  import opened Hir

  /** Right-hand sides of stores. `Direct` is an expression emitted as it stands, with its names resolved
      through the environment of the state; the other forms read temporaries. */
  datatype Operand =
    | Direct(e: Expr)
    | Slot(slot: nat)
    | BinarySlots(op: string, lhs: nat, rhs: nat)
    | SomeSlot(option: Option<OptionAbi>, slot: nat)

  datatype Action =
    | Store(target: nat, value: Operand)
      /** Test the pattern; on a match fill the slots of the names it binds. Either way store the outcome. */
    | StoreMatch(target: nat, scrutinee: nat, pat: Pat, first: nat)
    | RegisterCleanup(closer: string, slot: nat)
    | EnterCleanupScope
    | UnwindCleanupScopes(depth: nat)

  datatype Terminal =
    | Goto(next: nat)
    | Branch(condition: nat, thenState: nat, elseState: nat)
    | Transfer(first: nat, count: nat, resumeState: nat, resultSlot: nat)
    | ReturnSlot(slot: nat)

  type Scope = map<string, nat>

  datatype State = State(environment: Scope, actions: seq<Action>, terminal: Terminal)
  type Table = seq<State>

  // ----- one frame of the driver -----

  type Locals = map<nat, Value>

  /** A registered cleanup: a closure over the frame slot of its binding. */
  datatype Pending = Pending(closer: string, slot: nat)

  datatype Outcome = Finished(value: Value) | Defected(defects: seq<Value>)

  datatype Config =
    | Running(pc: nat, locals: Locals, scopes: seq<seq<Pending>>, trace: Trace)
    | Halted(outcome: Outcome, trace: Trace)

  /** A slot that was never written reads as `undefined`. */
  function Read(l: Locals, slot: nat): Value {
    if slot in l then l[slot] else Undefined
  }

  function EnvOf(environment: Scope, l: Locals): Env {
    map x | x in environment :: Read(l, environment[x])
  }

  function Operate(h: Host, environment: Scope, value: Operand, l: Locals, tr: Trace): Result {
    match value
    case Direct(e) => Eval(h, e, EnvOf(environment, l), tr, 0)
    case Slot(slot) => Done(Normal(Read(l, slot)), tr)
    case BinarySlots(op, lhs, rhs) => Done(BinaryResult(h, op, Read(l, lhs), Read(l, rhs)), tr)
    case SomeSlot(option, slot) => Done(Normal(WrapSome(option, Read(l, slot))), tr)
  }

  /** Run the cleanups of one scope, last registered first. */
  function CloseScope(h: Host, scope: seq<Pending>, l: Locals, r: Result): Result {
    if |scope| == 0 then r else
    var last := scope[|scope| - 1];
    CloseScope(h, scope[..|scope| - 1], l, Close(h, last.closer, Read(l, last.slot), r))
  }

  /** Pop and run scopes until `depth` of them are left; failures are collected, never stop the unwinding. */
  function Unwind(h: Host, scopes: seq<seq<Pending>>, depth: nat, l: Locals, r: Result): Result
    decreases |scopes|
  {
    if |scopes| <= depth then r else
    Unwind(h, scopes[..|scopes| - 1], depth, l, CloseScope(h, scopes[|scopes| - 1], l, r))
  }

  /** What is left of the frame while a state runs. */
  datatype Effect =
    | Proceed(locals: Locals, scopes: seq<seq<Pending>>, trace: Trace)
    | Stop(defects: seq<Value>, locals: Locals, scopes: seq<seq<Pending>>, trace: Trace)

  function Top(scopes: seq<seq<Pending>>, p: Pending): seq<seq<Pending>>
    requires |scopes| > 0
  {
    scopes[..|scopes| - 1] + [scopes[|scopes| - 1] + [p]]
  }

  function BindSlots(l: Locals, names: seq<string>, first: nat, bound: Env): Locals
    decreases |names|
  {
    if |names| == 0 then l
    else BindSlots(l[first := if names[0] in bound then bound[names[0]] else Undefined], names[1..], first + 1, bound)
  }

  function Act(h: Host, environment: Scope, action: Action, l: Locals, scopes: seq<seq<Pending>>, tr: Trace): Effect {
    match action
    case Store(target, value) =>
      (match Operate(h, environment, value, l, tr)
       case Done(Normal(v), tr1) => Proceed(l[target := v], scopes, tr1)
       case Done(Threw(ds), tr1) => Stop(ds, l, scopes, tr1)
       case _ => Stop([], l, scopes, tr))
    case StoreMatch(target, scrutinee, pat, first) =>
      (match Matches(pat, Read(l, scrutinee))
       case None => Proceed(l[target := FALSE], scopes, tr)
       case Some(bound) => Proceed(BindSlots(l, Names(pat), first, bound)[target := TRUE], scopes, tr))
    case RegisterCleanup(closer, slot) =>
      if |scopes| == 0 then Stop([], l, scopes, tr) else Proceed(l, Top(scopes, Pending(closer, slot)), tr)
    case EnterCleanupScope => Proceed(l, scopes + [[]], tr)
    case UnwindCleanupScopes(depth) =>
      var left := if |scopes| <= depth then scopes else scopes[..depth];
      (match Unwind(h, scopes, depth, l, Done(Normal(Undefined), tr))
       case Done(Threw(ds), tr1) => Stop(ds, l, left, tr1)
       case Done(_, tr1) => Proceed(l, left, tr1)
       case Timeout => Stop([], l, left, tr))
  }

  function Acts(h: Host, environment: Scope, actions: seq<Action>, l: Locals, scopes: seq<seq<Pending>>, tr: Trace): Effect {
    if |actions| == 0 then Proceed(l, scopes, tr) else
    var r := Act(h, environment, actions[0], l, scopes, tr);
    if r.Stop? then r else Acts(h, environment, actions[1..], r.locals, r.scopes, r.trace)
  }

  /** The frame is popped and every scope it still has is unwound. */
  function Halt(h: Host, scopes: seq<seq<Pending>>, l: Locals, r: Result): Config {
    match Unwind(h, scopes, 0, l, r)
    case Done(Threw(ds), tr) => Halted(Defected(ds), tr)
    case Done(Returned(v), tr) => Halted(Finished(v), tr)
    case Done(_, tr) => Halted(Defected([]), tr)
    case Timeout => Halted(Defected([]), [])
  }

  function SlotRange(l: Locals, first: nat, count: nat): seq<Value> {
    seq(count, i requires 0 <= i => Read(l, first + i))
  }

  function Finish(h: Host, terminal: Terminal, l: Locals, scopes: seq<seq<Pending>>, tr: Trace): Config {
    match terminal
    case Goto(next) => Running(next, l, scopes, tr)
    case Branch(condition, thenState, elseState) =>
      Running(if Truthy(Read(l, condition)) then thenState else elseState, l, scopes, tr)
    case Transfer(first, count, resumeState, resultSlot) =>
      var request := CallOf(SlotRange(l, first, count));
      var answer := h.answer(tr, request);
      var tr1 := tr + [Event(request, answer)];
      (match answer
       case Answered(v) => Running(resumeState, l[resultSlot := v], scopes, tr1)
       case Raised(d) => Halt(h, scopes, l, Done(Threw([d]), tr1)))
    case ReturnSlot(slot) => Halt(h, scopes, l, Done(Returned(Read(l, slot)), tr))
  }

  /** One pass through the state the frame is in. A number outside the table is the driver's defect. */
  function Step(h: Host, t: Table, c: Config): Config {
    match c
    case Halted(_, _) => c
    case Running(pc, l, scopes, tr) =>
      if pc >= |t| then Halt(h, scopes, l, Done(Threw([Undefined]), tr)) else
      match Acts(h, t[pc].environment, t[pc].actions, l, scopes, tr)
      case Stop(ds, l1, scopes1, tr1) => Halt(h, scopes1, l1, Done(Threw(ds), tr1))
      case Proceed(l1, scopes1, tr1) => Finish(h, t[pc].terminal, l1, scopes1, tr1)
  }

  function Run(h: Host, t: Table, c: Config, n: nat): Config
    decreases n
  {
    if n == 0 then c else Run(h, t, Step(h, t, c), n - 1)
  }

  lemma {:induction false} RunAdds(h: Host, t: Table, c: Config, a: nat, b: nat)
    ensures Run(h, t, c, a + b) == Run(h, t, Run(h, t, c, a), b)
    decreases a
  {
    if a > 0 { RunAdds(h, t, Step(h, t, c), a - 1, b); }
  }

  lemma {:induction false} HaltedStays(h: Host, t: Table, c: Config, n: nat)
    requires c.Halted?
    ensures Run(h, t, c, n) == c
    decreases n
  {
    if n > 0 { HaltedStays(h, t, c, n - 1); }
  }
}
