/** The pattern compiler: a pattern becomes a short-circuit test, bindings read back through paths into the scrutinee,
    and decision variables that remember which side of a union matched. */
module PatternCompiler {
  import opened Values
  import opened Patterns

  /** A decision variable; its number is the emitter's name counter. */
  type Decision = nat

  /** A path from the scrutinee, emitted again wherever it is needed. */
  datatype Subject =
    | Scrutinee
    | FieldOf(base: Subject, field: string)
    | Index(base: Subject, index: nat)
    | IndexFromEnd(base: Subject, offset: nat)
    | MapGet(base: Subject, key: Lit)
    | Slice(base: Subject, start: nat, endFromEnd: nat)
    | MapRest(base: Subject, keys: seq<Lit>)
    | Select(decision: Decision, left: Subject, right: Subject)

  datatype Test =
    | Always
    | TagIs(subject: Subject, enumName: string, variant: string)
    | PayloadIs(subject: Subject, lit: Lit)
    | LengthIs(subject: Subject, length: nat)
    | LengthAtLeast(subject: Subject, length: nat)
    | Has(subject: Subject, key: Lit)
    | NotBelow(subject: Subject, lit: Lit)
    | NotAbove(subject: Subject, lit: Lit)
    | StrictlyBelow(subject: Subject, lit: Lit)
    | Both(first: Test, second: Test)
    | Either(first: Test, second: Test)
    | Assign(decision: Decision, test: Test)

  datatype Bind = Bind(name: string, subject: Subject)

  /** `None` for the test means it always holds; `supply` is the next unused decision. */
  datatype Compiled = Compiled(test: Option<Test>, binds: seq<Bind>, decisions: seq<Decision>, supply: nat)

  function BindNames(binds: seq<Bind>): (r: seq<string>)
    ensures |r| == |binds| && forall i | 0 <= i < |r| :: r[i] == binds[i].name
  {
    seq(|binds|, i requires 0 <= i < |binds| => binds[i].name)
  }

  lemma BindNamesOf(a: seq<Bind>, b: seq<Bind>)
    ensures BindNames(a + b) == BindNames(a) + BindNames(b)
  {}

  // ----- compilation -----

  function AndTest(acc: Option<Test>, next: Option<Test>): Option<Test> {
    if acc.None? then next else if next.None? then acc else Some(Both(acc.value, next.value))
  }

  function AndThen(acc: Compiled, more: Compiled): Compiled {
    Compiled(AndTest(acc.test, more.test), acc.binds + more.binds, acc.decisions + more.decisions, more.supply)
  }

  /** The subject of a name, the last one when there are several. */
  function SubjectOf(binds: seq<Bind>, name: string): Subject
    requires name in BindNames(binds)
    decreases |binds|
  {
    var last := |binds| - 1;
    if binds[last].name == name then binds[last].subject else SubjectOf(binds[..last], name)
  }

  function SelectBinds(decision: Decision, left: seq<Bind>, right: seq<Bind>): (r: seq<Bind>)
    requires forall i | 0 <= i < |left| :: left[i].name in BindNames(right)
    ensures BindNames(r) == BindNames(left)
  {
    seq(|left|, i requires 0 <= i < |left| => Bind(left[i].name, Select(decision, left[i].subject, SubjectOf(right, left[i].name))))
  }

  function CompileRange(range: Range, subject: Subject): Test {
    match range
    case From(min) => NotBelow(subject, min)
    case To(max) => StrictlyBelow(subject, max)
    case ToInclusive(max) => NotAbove(subject, max)
    case Exclusive(min, max) => Both(NotBelow(subject, min), StrictlyBelow(subject, max))
    case Inclusive(min, max) => Both(NotBelow(subject, min), NotAbove(subject, max))
  }

  function RestBinds(rest: Rest, subject: Subject): (r: seq<Bind>)
    ensures BindNames(r) == RestNames(rest)
  {
    if rest.Spread? && rest.name.Some? then [Bind(rest.name.value, subject)] else []
  }

  function WithRest(c: Compiled, rest: Rest, subject: Subject): (r: Compiled)
    ensures BindNames(r.binds) == BindNames(c.binds) + RestNames(rest)
  {
    BindNamesOf(c.binds, RestBinds(rest, subject));
    c.(binds := c.binds + RestBinds(rest, subject))
  }

  function LengthTest(subject: Subject, rest: Rest, min: nat): Option<Test> {
    if rest.Spread? && min == 0 then None
    else Some(if rest.Exact? then LengthIs(subject, min) else LengthAtLeast(subject, min))
  }

  function CompileUnion(a: Compiled, b: Compiled): (r: Compiled)
    requires forall i | 0 <= i < |a.binds| :: a.binds[i].name in BindNames(b.binds)
    ensures BindNames(r.binds) == BindNames(a.binds)
  {
    var decisions := a.decisions + b.decisions;
    if a.binds == [] then
      var test := if a.test.None? then None
                  else if b.test.None? then Some(Either(a.test.value, Always))
                  else Some(Either(a.test.value, b.test.value));
      Compiled(test, [], decisions, b.supply)
    else if a.test.None? then Compiled(None, a.binds, decisions, b.supply)
    else
      var decision := b.supply;
      Compiled(Some(Either(Assign(decision, a.test.value), if b.test.Some? then b.test.value else Always)),
               SelectBinds(decision, a.binds, b.binds), decisions + [decision], b.supply + 1)
  }

  /** Both sides of a union bind the same names, so every name of the left is found on the right. */
  lemma SameNames(left: Pat, right: Pat, a: seq<Bind>, b: seq<Bind>)
    requires NameSet(Names(left)) == NameSet(Names(right)) && BindNames(a) == Names(left) && BindNames(b) == Names(right)
    ensures forall i | 0 <= i < |a| :: a[i].name in BindNames(b)
  {
    forall i | 0 <= i < |a| ensures a[i].name in BindNames(b) {
      assert BindNames(a)[i] in NameSet(Names(left));
    }
  }

  function CompilePat(pat: Pat, subject: Subject, supply: nat): (r: Compiled)
    requires Unions(pat)
    ensures BindNames(r.binds) == Names(pat)
    decreases pat, 1
  {
    match pat
    case Wildcard => Compiled(None, [], [], supply)
    case Binding(name, sub) =>
      if sub.None? then Compiled(None, [Bind(name, subject)], [], supply) else
      var inner := CompilePat(sub.value, subject, supply);
      BindNamesOf([Bind(name, subject)], inner.binds);
      inner.(binds := [Bind(name, subject)] + inner.binds)
    case Literal(lit) => Compiled(Some(PayloadIs(subject, lit)), [], [], supply)
    case VariantPat(enumName, variant, fields) =>
      CompileFields(fields, subject, Compiled(Some(TagIs(subject, enumName, variant)), [], [], supply))
    case StructPat(fields) => CompileFields(fields, subject, Compiled(None, [], [], supply))
    case TuplePat(elems) => CompilePrefix(elems, subject, 0, Compiled(None, [], [], supply))
    case ListPat(_, _, _) => CompileList(pat, subject, supply)
    case MapPat(entries, rest) =>
      var named := CompileEntries(entries, subject, Compiled(None, [], [], supply));
      WithRest(named, rest, MapRest(subject, Keys(entries)))
    case RangePat(range) => Compiled(Some(CompileRange(range, subject)), [], [], supply)
    case Or(_, _) => CompileOr(pat, subject, supply)
  }

  function CompileList(pat: Pat, subject: Subject, supply: nat): (r: Compiled)
    requires pat.ListPat? && Unions(pat)
    ensures BindNames(r.binds) == Names(pat)
    decreases pat, 0
  {
    var p, s := Count(pat.prefix), Count(pat.suffix);
    var start := Compiled(LengthTest(subject, pat.rest, p + s), [], [], supply);
    assert BindNames(start.binds) == [];
    var front := CompilePrefix(pat.prefix, subject, 0, start);
    assert BindNames(front.binds) == ElemNames(pat.prefix);
    var back := CompileSuffix(pat.suffix, subject, front);
    hide BindNames, ElemNames, LengthTest, Unions;
    WithRest(back, pat.rest, Slice(subject, p, s))
  }

  function CompileOr(pat: Pat, subject: Subject, supply: nat): (r: Compiled)
    requires pat.Or? && Unions(pat)
    ensures BindNames(r.binds) == Names(pat)
    decreases pat, 0
  {
    var a := CompilePat(pat.left, subject, supply);
    var b := CompilePat(pat.right, subject, a.supply);
    SameNames(pat.left, pat.right, a.binds, b.binds);
    CompileUnion(a, b)
  }

  function CompileFields(fields: Fields, subject: Subject, acc: Compiled): (r: Compiled)
    requires FieldUnions(fields)
    ensures BindNames(r.binds) == BindNames(acc.binds) + FieldNames(fields)
    decreases fields
  {
    if fields.NoFields? then acc else
    CompileFields(fields.rest, subject, AndThen(acc, CompilePat(fields.pat, FieldOf(subject, fields.name), acc.supply)))
  }

  function CompilePrefix(elems: Pats, subject: Subject, index: nat, acc: Compiled): (r: Compiled)
    requires ElemUnions(elems)
    ensures BindNames(r.binds) == BindNames(acc.binds) + ElemNames(elems)
    decreases elems
  {
    if elems.NoPats? then acc else
    CompilePrefix(elems.tail, subject, index + 1, AndThen(acc, CompilePat(elems.head, Index(subject, index), acc.supply)))
  }

  /** Suffix elements are counted from the end. */
  function CompileSuffix(elems: Pats, subject: Subject, acc: Compiled): (r: Compiled)
    requires ElemUnions(elems)
    ensures BindNames(r.binds) == BindNames(acc.binds) + ElemNames(elems)
    decreases elems
  {
    if elems.NoPats? then acc else
    CompileSuffix(elems.tail, subject, AndThen(acc, CompilePat(elems.head, IndexFromEnd(subject, Count(elems)), acc.supply)))
  }

  function CompileEntries(entries: Entries, subject: Subject, acc: Compiled): (r: Compiled)
    requires EntryUnions(entries)
    ensures BindNames(r.binds) == BindNames(acc.binds) + EntryNames(entries)
    decreases entries
  {
    if entries.NoEntries? then acc else
    var has := AndThen(acc, Compiled(Some(Has(subject, entries.key)), [], [], acc.supply));
    CompileEntries(entries.rest, subject, AndThen(has, CompilePat(entries.pat, MapGet(subject, entries.key), acc.supply)))
  }

  // ----- what the emitted code does -----

  /** The decisions assigned so far; reading any other is an invalid read. */
  type Decisions = map<Decision, bool>

  /** The value at a path, or `None` for a read of something that is not there. */
  function ReadAt(s: Subject, root: Value, ds: Decisions): Option<Value>
    decreases s
  {
    match s
    case Scrutinee => Some(root)
    case FieldOf(base, field) =>
      var b := ReadAt(base, root, ds);
      if b.Some? && b.value.Record? && field in b.value.fields then Some(b.value.fields[field])
      else if b.Some? && b.value.Variant? && field in b.value.fields then Some(b.value.fields[field])
      else None
    case Index(base, index) =>
      var b := ReadAt(base, root, ds);
      if b.Some? && b.value.Items? && index < |b.value.items| then Some(b.value.items[index]) else None
    case IndexFromEnd(base, offset) =>
      var b := ReadAt(base, root, ds);
      if b.Some? && b.value.Items? && 0 < offset <= |b.value.items| then Some(b.value.items[|b.value.items| - offset]) else None
    case MapGet(base, key) =>
      var b := ReadAt(base, root, ds);
      if b.Some? && b.value.Table? && key in b.value.entries then Some(b.value.entries[key]) else None
    case Slice(base, start, endFromEnd) =>
      var b := ReadAt(base, root, ds);
      if b.Some? && b.value.Items? && start + endFromEnd <= |b.value.items|
      then Some(Items(if endFromEnd == 0 then b.value.items[start..] else b.value.items[start..|b.value.items| - endFromEnd]))
      else None
    case MapRest(base, keys) =>
      var b := ReadAt(base, root, ds);
      if b.Some? && b.value.Table? then Some(Table(Without(b.value.entries, keys))) else None
    case Select(decision, left, right) =>
      if decision !in ds then None else ReadAt(if ds[decision] then left else right, root, ds)
  }

  /** One key is taken out after the other. */
  function Without(entries: map<Lit, Value>, keys: seq<Lit>): map<Lit, Value>
    decreases |keys|
  {
    if |keys| == 0 then entries else Without(entries - {keys[0]}, keys[1..])
  }

  /** The outcome of a test and the decisions after it, or `None` when it reads something that is not there or
      compares payloads of different kinds. */
  function RunTest(t: Test, root: Value, ds: Decisions): Option<(bool, Decisions)>
    decreases t, 1
  {
    match t
    case Always => Some((true, ds))
    case TagIs(s, enumName, variant) =>
      var v := ReadAt(s, root, ds);
      if v.None? then None else Some((v.value.Variant? && v.value.enumName == enumName && v.value.variant == variant, ds))
    case PayloadIs(s, lit) =>
      var v := ReadAt(s, root, ds);
      if v.Some? && v.value.Scalar? then Some((v.value.payload == lit, ds)) else None
    case LengthIs(s, length) =>
      var v := ReadAt(s, root, ds);
      if v.Some? && v.value.Items? then Some((|v.value.items| == length, ds)) else None
    case LengthAtLeast(s, length) =>
      var v := ReadAt(s, root, ds);
      if v.Some? && v.value.Items? then Some((|v.value.items| >= length, ds)) else None
    case Has(s, key) =>
      var v := ReadAt(s, root, ds);
      if v.Some? && v.value.Table? then Some((key in v.value.entries, ds)) else None
    case NotBelow(s, lit) =>
      var v := ReadAt(s, root, ds);
      if v.Some? && v.value.Scalar? && SameKind(lit, v.value.payload) then Some((AtMost(lit, v.value.payload), ds)) else None
    case NotAbove(s, lit) =>
      var v := ReadAt(s, root, ds);
      if v.Some? && v.value.Scalar? && SameKind(lit, v.value.payload) then Some((AtMost(v.value.payload, lit), ds)) else None
    case StrictlyBelow(s, lit) =>
      var v := ReadAt(s, root, ds);
      if v.Some? && v.value.Scalar? && SameKind(lit, v.value.payload) then Some((Below(v.value.payload, lit), ds)) else None
    case Both(first, second) =>
      var a := RunTest(first, root, ds);
      if a.None? || !a.value.0 then a else RunTest(second, root, a.value.1)
    case Either(first, second) => RunEither(first, second, root, ds)
    case Assign(decision, test) =>
      var a := RunTest(test, root, ds);
      if a.None? then None else Some((a.value.0, a.value.1[decision := a.value.0]))
  }

  function RunEither(first: Test, second: Test, root: Value, ds: Decisions): Option<(bool, Decisions)>
    decreases Either(first, second), 0
  {
    var a := RunTest(first, root, ds);
    if a.None? || a.value.0 then a else RunTest(second, root, a.value.1)
  }

  function RunOptional(t: Option<Test>, root: Value, ds: Decisions): Option<(bool, Decisions)> {
    if t.None? then Some((true, ds)) else RunTest(t.value, root, ds)
  }

  // ----- values a pattern may be held against -----

  /** The value has the shape the type of the pattern promises: what a test may read without asking first. */
  ghost predicate Typed(pat: Pat, v: Value)
    decreases pat
  {
    match pat
    case Wildcard => true
    case Binding(_, sub) => sub.Some? ==> Typed(sub.value, v)
    case Literal(_) => v.Scalar?
    case VariantPat(enumName, variant, fields) =>
      v.Variant? && v.enumName == enumName && v.variant == variant ==> FieldsTyped(fields, v.fields)
    case StructPat(fields) => v.Record? && FieldsTyped(fields, v.fields)
    case TuplePat(elems) => v.Items? && Count(elems) <= |v.items| && ElemsTyped(elems, v.items[..Count(elems)])
    case ListPat(prefix, rest, suffix) =>
      && v.Items?
      && (Count(prefix) + Count(suffix) <= |v.items| ==>
            ElemsTyped(prefix, v.items[..Count(prefix)]) && ElemsTyped(suffix, v.items[|v.items| - Count(suffix)..]))
    case MapPat(entries, _) => v.Table? && EntriesTyped(entries, v.entries)
    case RangePat(range) => v.Scalar? && RangeTyped(range, v.payload)
    case Or(left, right) => Typed(left, v) && Typed(right, v)
  }

  ghost predicate FieldsTyped(fields: Fields, values: map<string, Value>)
    decreases fields
  {
    fields.Field? ==> fields.name in values && Typed(fields.pat, values[fields.name]) && FieldsTyped(fields.rest, values)
  }

  ghost predicate ElemsTyped(elems: Pats, values: seq<Value>)
    requires |values| == Count(elems)
    decreases elems
  {
    elems.Elem? ==> Typed(elems.head, values[0]) && ElemsTyped(elems.tail, values[1..])
  }

  ghost predicate EntriesTyped(entries: Entries, table: map<Lit, Value>)
    decreases entries
  {
    entries.Entry? ==>
      (entries.key in table ==> Typed(entries.pat, table[entries.key])) && EntriesTyped(entries.rest, table)
  }

  // ----- correctness -----

  /** The path reads `v`, whatever has been decided. */
  ghost predicate Reads(s: Subject, root: Value, v: Value) {
    forall ds: Decisions :: ReadAt(s, root, ds) == Some(v)
  }

  /** Only the given decisions may differ. */
  ghost predicate Decides(a: Decisions, b: Decisions, own: seq<Decision>) {
    forall d: Decision | d !in own :: (d in b <==> d in a) && (d in a ==> b[d] == a[d])
  }

  /** `b` still has every one of the given decisions that `a` has. */
  ghost predicate Keeps(a: Decisions, b: Decisions, own: seq<Decision>) {
    forall d: Decision | d in own && d in a :: d in b && b[d] == a[d]
  }

  /** Every binding reads the value the matcher gives it, as long as the decisions taken are kept. */
  ghost predicate BindsAre(binds: seq<Bind>, root: Value, ds: Decisions, own: seq<Decision>, bound: Bindings) {
    && NameSet(BindNames(binds)) == bound.Keys
    && forall i | 0 <= i < |binds| :: BindIs(binds[i], root, ds, own, bound)
  }

  ghost predicate BindIs(bind: Bind, root: Value, ds: Decisions, own: seq<Decision>, bound: Bindings) {
    && bind.name in bound
    && forall later: Decisions | Keeps(ds, later, own) :: ReadAt(bind.subject, root, later) == Some(bound[bind.name])
  }

  /** The decisions are those handed out since `n`, each declared once. */
  ghost predicate Owns(c: Compiled, n: nat) {
    n <= c.supply && Distinct(c.decisions) && forall i | 0 <= i < |c.decisions| :: n <= c.decisions[i] < c.supply
  }

  /** Code compiled since decision `n` was free: run with the decisions `ds` it reads only what is there, answers
      whether the match succeeded, takes only the decisions it declares, and its bindings are those of the match. */
  ghost predicate Correct(c: Compiled, root: Value, ds: Decisions, n: nat, matched: Option<Bindings>) {
    && Owns(c, n)
    && var r := RunOptional(c.test, root, ds);
       && r.Some? && r.value.0 == matched.Some?
       && Decides(ds, r.value.1, c.decisions)
       && (matched.Some? ==> BindsAre(c.binds, root, r.value.1, c.decisions, matched.value))
  }

  /** Every part binds its names once, on both sides of every union. */
  ghost predicate Linear(pat: Pat) {
    Distinct(Names(pat)) &&
    match pat
    case Wildcard => true
    case Binding(_, sub) => sub.Some? ==> Linear(sub.value)
    case Literal(_) => true
    case VariantPat(_, _, fields) => FieldsLinear(fields)
    case StructPat(fields) => FieldsLinear(fields)
    case TuplePat(elems) => ElemsLinear(elems)
    case ListPat(prefix, _, suffix) => ElemsLinear(prefix) && ElemsLinear(suffix)
    case MapPat(entries, _) => EntriesLinear(entries)
    case RangePat(_) => true
    case Or(left, right) => Linear(left) && Linear(right)
  }

  ghost predicate FieldsLinear(fields: Fields) {
    fields.Field? ==> Linear(fields.pat) && FieldsLinear(fields.rest)
  }

  ghost predicate ElemsLinear(elems: Pats) {
    elems.Elem? ==> Linear(elems.head) && ElemsLinear(elems.tail)
  }

  ghost predicate EntriesLinear(entries: Entries) {
    entries.Entry? ==> Linear(entries.pat) && EntriesLinear(entries.rest)
  }

  // ----- joining tests -----

  lemma OwnsBoth(acc: Compiled, more: Compiled, n: nat)
    requires Owns(acc, n) && Owns(more, acc.supply)
    ensures Owns(AndThen(acc, more), n)
    ensures forall d | d in acc.decisions :: d !in more.decisions
  {
    var c := AndThen(acc, more);
    forall i, j | 0 <= i < j < |c.decisions| ensures c.decisions[i] != c.decisions[j] {
      if i < |acc.decisions| <= j {
        assert c.decisions[j] == more.decisions[j - |acc.decisions|];
      }
    }
  }

  lemma AndCorrect(acc: Compiled, more: Compiled, root: Value, ds: Decisions, ds1: Decisions, n: nat, ba: Bindings, mb: Option<Bindings>)
    requires Correct(acc, root, ds, n, Some(ba)) && RunOptional(acc.test, root, ds) == Some((true, ds1))
    requires Correct(more, root, ds1, acc.supply, mb)
    requires forall i, j | 0 <= i < |acc.binds| && 0 <= j < |more.binds| :: acc.binds[i].name != more.binds[j].name
    ensures Correct(AndThen(acc, more), root, ds, n, Join(Some(ba), mb))
  {
    hide ReadAt, RunTest, RunOptional, AndTest, Decides, Keeps, Owns, BindsAre;
    OwnsBoth(acc, more, n);
    var r := RunOptional(more.test, root, ds1);
    AndRuns(acc.test, more.test, root, ds, ds1);
    DecidesTrans(ds, ds1, r.value.1, acc.decisions, more.decisions);
    if mb.Some? {
      AndBinds(acc, more, root, ds1, r.value.1, ba, mb.value);
    }
  }

  lemma AndBinds(acc: Compiled, more: Compiled, root: Value, ds1: Decisions, ds2: Decisions, ba: Bindings, bm: Bindings)
    requires BindsAre(acc.binds, root, ds1, acc.decisions, ba) && BindsAre(more.binds, root, ds2, more.decisions, bm)
    requires Decides(ds1, ds2, more.decisions) && forall d | d in acc.decisions :: d !in more.decisions
    requires forall i, j | 0 <= i < |acc.binds| && 0 <= j < |more.binds| :: acc.binds[i].name != more.binds[j].name
    ensures BindsAre(acc.binds + more.binds, root, ds2, acc.decisions + more.decisions, ba + bm)
  {
    hide ReadAt, Decides, Keeps, BindIs;
    var binds, own, bound := acc.binds + more.binds, acc.decisions + more.decisions, ba + bm;
    BindNamesOf(acc.binds, more.binds);
    assert NameSet(BindNames(binds)) == bound.Keys;
    forall i | 0 <= i < |binds| ensures BindIs(binds[i], root, ds2, own, bound) {
      if i < |acc.binds| {
        assert binds[i] == acc.binds[i] && BindIs(acc.binds[i], root, ds1, acc.decisions, ba);
        assert acc.binds[i].name !in NameSet(BindNames(more.binds));
        NamedIn(acc.binds[i], root, ds1, acc.decisions, ba);
        BindStays(acc.binds[i], root, ds1, ds2, acc.decisions, more.decisions, ba, bound);
      } else {
        var j := i - |acc.binds|;
        assert binds[i] == more.binds[j] && BindIs(more.binds[j], root, ds2, more.decisions, bm);
        NamedIn(more.binds[j], root, ds2, more.decisions, bm);
        BindStays(more.binds[j], root, ds2, ds2, more.decisions, acc.decisions, bm, bound);
        SameOwner(more.binds[j], root, ds2, more.decisions + acc.decisions, own, bound);
      }
    }
  }

  lemma NamedIn(bind: Bind, root: Value, ds: Decisions, own: seq<Decision>, bound: Bindings)
    requires BindIs(bind, root, ds, own, bound)
    ensures bind.name in bound
  {}

  lemma SameOwner(bind: Bind, root: Value, ds: Decisions, own: seq<Decision>, same: seq<Decision>, bound: Bindings)
    requires BindIs(bind, root, ds, own, bound) && forall d :: d in own <==> d in same
    ensures BindIs(bind, root, ds, same, bound)
  {
    hide ReadAt;
    SameMembers(own, same, ds);
  }

  lemma AndRuns(a: Option<Test>, b: Option<Test>, root: Value, ds: Decisions, ds1: Decisions)
    requires RunOptional(a, root, ds) == Some((true, ds1))
    ensures RunOptional(AndTest(a, b), root, ds) == RunOptional(b, root, ds1)
  {}

  lemma DecidesTrans(a: Decisions, b: Decisions, c: Decisions, own: seq<Decision>, more: seq<Decision>)
    requires Decides(a, b, own) && Decides(b, c, more)
    ensures Decides(a, c, own + more)
  {}

  /** Further decisions of other code leave a binding what it is. */
  lemma BindStays(bind: Bind, root: Value, ds: Decisions, ds1: Decisions, own: seq<Decision>, more: seq<Decision>, a: Bindings, b: Bindings)
    requires BindIs(bind, root, ds, own, a) && bind.name in b && b[bind.name] == a[bind.name]
    requires (Decides(ds, ds1, more) && forall d | d in own :: d !in more) || ds == ds1
    ensures BindIs(bind, root, ds1, own + more, b)
  {
    hide ReadAt;
    forall later: Decisions | Keeps(ds1, later, own + more) ensures ReadAt(bind.subject, root, later) == Some(b[bind.name]) {
      assert Keeps(ds, later, own) by {
        forall d: Decision | d in own && d in ds ensures d in later && later[d] == ds[d] {
          assert d in own + more;
        }
      }
    }
  }

  lemma SameMembers(own: seq<Decision>, same: seq<Decision>, ds: Decisions)
    requires forall d :: d in own <==> d in same
    ensures forall later :: Keeps(ds, later, own) <==> Keeps(ds, later, same)
  {}

  /** Once the test has failed, what is joined to it is never looked at. */
  lemma FailedAnd(acc: Compiled, more: Compiled, root: Value, ds: Decisions, n: nat)
    requires Correct(acc, root, ds, n, None) && Owns(more, acc.supply)
    ensures Correct(AndThen(acc, more), root, ds, n, None)
  {
    hide ReadAt;
    OwnsBoth(acc, more, n);
  }

  // ----- decisions are handed out in order -----

  lemma StartOwns(test: Option<Test>, binds: seq<Bind>, supply: nat)
    ensures Owns(Compiled(test, binds, [], supply), supply)
  {}

  /** Only decisions and supply matter. */
  lemma OwnsLike(c: Compiled, d: Compiled, n: nat)
    requires Owns(c, n) && d.decisions == c.decisions && d.supply == c.supply
    ensures Owns(d, n)
  {}

  lemma UnionOwns(a: Compiled, b: Compiled, n: nat)
    requires Owns(a, n) && Owns(b, a.supply) && forall i | 0 <= i < |a.binds| :: a.binds[i].name in BindNames(b.binds)
    ensures Owns(CompileUnion(a, b), n)
    ensures b.supply !in a.decisions && b.supply !in b.decisions
  {
    hide SelectBinds;
    OwnsBoth(a, b, n);
    var both := AndThen(a, b);
    assert Owns(both, n);
    OwnsOneMore(both, n);
  }

  lemma OwnsOneMore(c: Compiled, n: nat)
    requires Owns(c, n)
    ensures Owns(c.(decisions := c.decisions + [c.supply], supply := c.supply + 1), n)
  {}

  lemma {:induction false} PatOwns(pat: Pat, subject: Subject, supply: nat)
    requires Unions(pat)
    ensures Owns(CompilePat(pat, subject, supply), supply)
    decreases pat, 1
  {
    hide Owns, CompileFields, CompilePrefix, CompileSuffix, CompileEntries, CompileUnion, CompileRange, RestBinds, LengthTest, BindNames;
    match pat
    case Wildcard => StartOwns(None, [], supply);
    case Literal(lit) => StartOwns(Some(PayloadIs(subject, lit)), [], supply);
    case RangePat(range) => StartOwns(Some(CompileRange(range, subject)), [], supply);
    case Binding(name, sub) =>
      StartOwns(None, [Bind(name, subject)], supply);
      if sub.Some? {
        PatOwns(sub.value, subject, supply);
        OwnsLike(CompilePat(sub.value, subject, supply), CompilePat(pat, subject, supply), supply);
      }
    case VariantPat(enumName, variant, fields) =>
      StartOwns(Some(TagIs(subject, enumName, variant)), [], supply);
      FieldsOwn(fields, subject, Compiled(Some(TagIs(subject, enumName, variant)), [], [], supply), supply);
    case StructPat(fields) =>
      StartOwns(None, [], supply);
      FieldsOwn(fields, subject, Compiled(None, [], [], supply), supply);
    case TuplePat(elems) =>
      StartOwns(None, [], supply);
      PrefixOwns(elems, subject, 0, Compiled(None, [], [], supply), supply);
    case ListPat(_, _, _) => ListOwns(pat, subject, supply);
    case MapPat(entries, _) =>
      StartOwns(None, [], supply);
      EntriesOwn(entries, subject, Compiled(None, [], [], supply), supply);
      OwnsLike(CompileEntries(entries, subject, Compiled(None, [], [], supply)), CompilePat(pat, subject, supply), supply);
    case Or(left, right) =>
      PatOwns(left, subject, supply);
      var a := CompilePat(left, subject, supply);
      PatOwns(right, subject, a.supply);
      SidesShareNames(pat, subject, supply);
      UnionOwns(a, CompilePat(right, subject, a.supply), supply);
  }

  lemma SidesShareNames(pat: Pat, subject: Subject, supply: nat)
    requires pat.Or? && Unions(pat)
    ensures var a := CompilePat(pat.left, subject, supply); var b := CompilePat(pat.right, subject, a.supply);
            forall i | 0 <= i < |a.binds| :: a.binds[i].name in BindNames(b.binds)
  {
    var a := CompilePat(pat.left, subject, supply);
    SameNames(pat.left, pat.right, a.binds, CompilePat(pat.right, subject, a.supply).binds);
  }

  lemma {:induction false} ListOwns(pat: Pat, subject: Subject, supply: nat)
    requires pat.ListPat? && Unions(pat)
    ensures Owns(CompilePat(pat, subject, supply), supply)
    decreases pat, 0
  {
    hide Owns, CompilePrefix, CompileSuffix, RestBinds, LengthTest, BindNames;
    var start := Compiled(LengthTest(subject, pat.rest, Count(pat.prefix) + Count(pat.suffix)), [], [], supply);
    StartOwns(start.test, [], supply);
    PrefixOwns(pat.prefix, subject, 0, start, supply);
    var front := CompilePrefix(pat.prefix, subject, 0, start);
    SuffixOwns(pat.suffix, subject, front, supply);
    assert CompilePat(pat, subject, supply) == CompileList(pat, subject, supply);
    OwnsLike(CompileSuffix(pat.suffix, subject, front), CompilePat(pat, subject, supply), supply);
  }

  lemma {:induction false} FieldsOwn(fields: Fields, subject: Subject, acc: Compiled, n: nat)
    requires FieldUnions(fields) && Owns(acc, n)
    ensures Owns(CompileFields(fields, subject, acc), n)
    decreases fields
  {
    if fields.Field? {
      var more := CompilePat(fields.pat, FieldOf(subject, fields.name), acc.supply);
      PatOwns(fields.pat, FieldOf(subject, fields.name), acc.supply);
      OwnsBoth(acc, more, n);
      FieldsOwn(fields.rest, subject, AndThen(acc, more), n);
    }
  }

  lemma {:induction false} PrefixOwns(elems: Pats, subject: Subject, index: nat, acc: Compiled, n: nat)
    requires ElemUnions(elems) && Owns(acc, n)
    ensures Owns(CompilePrefix(elems, subject, index, acc), n)
    decreases elems
  {
    if elems.Elem? {
      var more := CompilePat(elems.head, Index(subject, index), acc.supply);
      PatOwns(elems.head, Index(subject, index), acc.supply);
      OwnsBoth(acc, more, n);
      PrefixOwns(elems.tail, subject, index + 1, AndThen(acc, more), n);
    }
  }

  lemma {:induction false} SuffixOwns(elems: Pats, subject: Subject, acc: Compiled, n: nat)
    requires ElemUnions(elems) && Owns(acc, n)
    ensures Owns(CompileSuffix(elems, subject, acc), n)
    decreases elems
  {
    if elems.Elem? {
      var more := CompilePat(elems.head, IndexFromEnd(subject, Count(elems)), acc.supply);
      PatOwns(elems.head, IndexFromEnd(subject, Count(elems)), acc.supply);
      OwnsBoth(acc, more, n);
      SuffixOwns(elems.tail, subject, AndThen(acc, more), n);
    }
  }

  lemma {:induction false} EntriesOwn(entries: Entries, subject: Subject, acc: Compiled, n: nat)
    requires EntryUnions(entries) && Owns(acc, n)
    ensures Owns(CompileEntries(entries, subject, acc), n)
    decreases entries
  {
    if entries.Entry? {
      var has := AndThen(acc, Compiled(Some(Has(subject, entries.key)), [], [], acc.supply));
      var more := CompilePat(entries.pat, MapGet(subject, entries.key), acc.supply);
      PatOwns(entries.pat, MapGet(subject, entries.key), acc.supply);
      OwnsBoth(has, more, n);
      EntriesOwn(entries.rest, subject, AndThen(has, more), n);
    }
  }

  // ----- a failed prefix fails the whole -----

  lemma {:induction false} FailedFields(fields: Fields, subject: Subject, acc: Compiled, root: Value, ds: Decisions, n: nat)
    requires FieldUnions(fields) && Correct(acc, root, ds, n, None)
    ensures Correct(CompileFields(fields, subject, acc), root, ds, n, None)
    decreases fields
  {
    hide Correct, CompilePat, Owns;
    if fields.Field? {
      var more := CompilePat(fields.pat, FieldOf(subject, fields.name), acc.supply);
      PatOwns(fields.pat, FieldOf(subject, fields.name), acc.supply);
      FailedAnd(acc, more, root, ds, n);
      FailedFields(fields.rest, subject, AndThen(acc, more), root, ds, n);
    }
  }

  lemma {:induction false} FailedPrefix(elems: Pats, subject: Subject, index: nat, acc: Compiled, root: Value, ds: Decisions, n: nat)
    requires ElemUnions(elems) && Correct(acc, root, ds, n, None)
    ensures Correct(CompilePrefix(elems, subject, index, acc), root, ds, n, None)
    decreases elems
  {
    hide Correct, CompilePat, Owns;
    if elems.Elem? {
      var more := CompilePat(elems.head, Index(subject, index), acc.supply);
      PatOwns(elems.head, Index(subject, index), acc.supply);
      FailedAnd(acc, more, root, ds, n);
      FailedPrefix(elems.tail, subject, index + 1, AndThen(acc, more), root, ds, n);
    }
  }

  lemma {:induction false} FailedSuffix(elems: Pats, subject: Subject, acc: Compiled, root: Value, ds: Decisions, n: nat)
    requires ElemUnions(elems) && Correct(acc, root, ds, n, None)
    ensures Correct(CompileSuffix(elems, subject, acc), root, ds, n, None)
    decreases elems
  {
    hide Correct, CompilePat, Owns;
    if elems.Elem? {
      var more := CompilePat(elems.head, IndexFromEnd(subject, Count(elems)), acc.supply);
      PatOwns(elems.head, IndexFromEnd(subject, Count(elems)), acc.supply);
      FailedAnd(acc, more, root, ds, n);
      FailedSuffix(elems.tail, subject, AndThen(acc, more), root, ds, n);
    }
  }

  lemma {:induction false} FailedEntries(entries: Entries, subject: Subject, acc: Compiled, root: Value, ds: Decisions, n: nat)
    requires EntryUnions(entries) && Correct(acc, root, ds, n, None)
    ensures Correct(CompileEntries(entries, subject, acc), root, ds, n, None)
    decreases entries
  {
    hide Correct, CompilePat;
    if entries.Entry? {
      var asks := Compiled(Some(Has(subject, entries.key)), [], [], acc.supply);
      FailedAnd(acc, asks, root, ds, n);
      var more := CompilePat(entries.pat, MapGet(subject, entries.key), acc.supply);
      PatOwns(entries.pat, MapGet(subject, entries.key), acc.supply);
      FailedAnd(AndThen(acc, asks), more, root, ds, n);
      FailedEntries(entries.rest, subject, AndThen(AndThen(acc, asks), more), root, ds, n);
    }
  }

  // ----- one more part -----

  /** A part compiled after `acc` against a path that reads `v`. */
  lemma PartCorrect(acc: Compiled, pat: Pat, subject: Subject, root: Value, v: Value, ds: Decisions, n: nat, ba: Bindings, names: seq<string>)
    requires Correct(acc, root, ds, n, Some(ba))
    requires Reads(subject, root, v) && Typed(pat, v) && Unions(pat) && Linear(pat)
    requires Distinct(BindNames(acc.binds) + (Names(pat) + names))
    ensures Correct(AndThen(acc, CompilePat(pat, subject, acc.supply)), root, ds, n, Join(Some(ba), Matches(pat, v)))
    ensures Distinct(BindNames(AndThen(acc, CompilePat(pat, subject, acc.supply)).binds) + names)
    decreases pat, 5
  {
    hide CompilePat, Matches, Typed, Linear, Reads, Unions, RunTest;
    var more := CompilePat(pat, subject, acc.supply);
    var ds1 := RunOptional(acc.test, root, ds).value.1;
    PatCorrect(pat, subject, root, v, ds1, acc.supply);
    Apart(acc.binds, more.binds, names);
    AndCorrect(acc, more, root, ds, ds1, n, ba, Matches(pat, v));
  }

  lemma Apart(a: seq<Bind>, b: seq<Bind>, names: seq<string>)
    requires Distinct(BindNames(a) + (BindNames(b) + names))
    ensures forall i, j | 0 <= i < |a| && 0 <= j < |b| :: a[i].name != b[j].name
    ensures Distinct(BindNames(a + b) + names)
  {
    var all := BindNames(a) + (BindNames(b) + names);
    BindNamesOf(a, b);
    assert all == BindNames(a + b) + names;
    forall i, j | 0 <= i < |a| && 0 <= j < |b| ensures a[i].name != b[j].name {
      assert all[i] == a[i].name && all[|a| + j] == b[j].name;
    }
  }

  lemma JoinAssociates(a: Option<Bindings>, b: Option<Bindings>, c: Option<Bindings>)
    ensures Join(Join(a, b), c) == Join(a, Join(b, c))
  {
    if a.Some? && b.Some? && c.Some? {
      assert a.value + b.value + c.value == a.value + (b.value + c.value);
    }
  }

  // ----- the parts of each form -----

  lemma ReadsField(subject: Subject, field: string, root: Value, v: Value)
    requires Reads(subject, root, v) && (v.Record? || v.Variant?) && field in v.fields
    ensures Reads(FieldOf(subject, field), root, v.fields[field])
  {
    forall ds: Decisions ensures ReadAt(FieldOf(subject, field), root, ds) == Some(v.fields[field]) {
      ReadsFieldAt(subject, field, root, v, ds);
    }
  }

  lemma ReadsFieldAt(subject: Subject, field: string, root: Value, v: Value, ds: Decisions)
    requires ReadAt(subject, root, ds) == Some(v) && (v.Record? || v.Variant?) && field in v.fields
    ensures ReadAt(FieldOf(subject, field), root, ds) == Some(v.fields[field])
  {}

  lemma ReadsIndex(subject: Subject, index: nat, root: Value, v: Value)
    requires Reads(subject, root, v) && v.Items? && index < |v.items|
    ensures Reads(Index(subject, index), root, v.items[index])
  {
    forall ds: Decisions ensures ReadAt(Index(subject, index), root, ds) == Some(v.items[index]) {
      ReadsIndexAt(subject, index, root, v, ds);
    }
  }

  lemma ReadsIndexAt(subject: Subject, index: nat, root: Value, v: Value, ds: Decisions)
    requires ReadAt(subject, root, ds) == Some(v) && v.Items? && index < |v.items|
    ensures ReadAt(Index(subject, index), root, ds) == Some(v.items[index])
  {}

  lemma ReadsFromEnd(subject: Subject, offset: nat, root: Value, v: Value)
    requires Reads(subject, root, v) && v.Items? && 0 < offset <= |v.items|
    ensures Reads(IndexFromEnd(subject, offset), root, v.items[|v.items| - offset])
  {
    forall ds: Decisions ensures ReadAt(IndexFromEnd(subject, offset), root, ds) == Some(v.items[|v.items| - offset]) {
      ReadsFromEndAt(subject, offset, root, v, ds);
    }
  }

  lemma ReadsFromEndAt(subject: Subject, offset: nat, root: Value, v: Value, ds: Decisions)
    requires ReadAt(subject, root, ds) == Some(v) && v.Items? && 0 < offset <= |v.items|
    ensures ReadAt(IndexFromEnd(subject, offset), root, ds) == Some(v.items[|v.items| - offset])
  {}

  lemma ReadsKey(subject: Subject, key: Lit, root: Value, v: Value)
    requires Reads(subject, root, v) && v.Table? && key in v.entries
    ensures Reads(MapGet(subject, key), root, v.entries[key])
  {
    forall ds: Decisions ensures ReadAt(MapGet(subject, key), root, ds) == Some(v.entries[key]) {
      ReadsKeyAt(subject, key, root, v, ds);
    }
  }

  lemma ReadsKeyAt(subject: Subject, key: Lit, root: Value, v: Value, ds: Decisions)
    requires ReadAt(subject, root, ds) == Some(v) && v.Table? && key in v.entries
    ensures ReadAt(MapGet(subject, key), root, ds) == Some(v.entries[key])
  {}

  lemma {:induction false} FieldsCorrect(fields: Fields, subject: Subject, acc: Compiled, root: Value, v: Value, ds: Decisions, n: nat, ba: Bindings)
    requires Correct(acc, root, ds, n, Some(ba))
    requires Reads(subject, root, v) && (v.Record? || v.Variant?) && FieldsTyped(fields, v.fields)
    requires FieldUnions(fields) && FieldsLinear(fields) && Distinct(BindNames(acc.binds) + FieldNames(fields))
    ensures Correct(CompileFields(fields, subject, acc), root, ds, n, Join(Some(ba), MatchFields(fields, v.fields)))
    decreases fields
  {
    hide Correct, CompilePat, Matches, Typed, Linear, Unions, ReadAt, Reads;
    if fields.NoFields? {
      assert ba + map[] == ba;
    } else {
      var path, item := FieldOf(subject, fields.name), v.fields[fields.name];
      ReadsField(subject, fields.name, root, v);
      PartCorrect(acc, fields.pat, path, root, item, ds, n, ba, FieldNames(fields.rest));
      var next := AndThen(acc, CompilePat(fields.pat, path, acc.supply));
      var m := Matches(fields.pat, item);
      if m.Some? {
        FieldsCorrect(fields.rest, subject, next, root, v, ds, n, ba + m.value);
      } else {
        FailedFields(fields.rest, subject, next, root, ds, n);
      }
      JoinAssociates(Some(ba), m, MatchFields(fields.rest, v.fields));
    }
  }

  lemma {:induction false} PrefixCorrect(elems: Pats, subject: Subject, index: nat, acc: Compiled, root: Value, v: Value, ds: Decisions, n: nat, ba: Bindings)
    requires Correct(acc, root, ds, n, Some(ba))
    requires Reads(subject, root, v) && v.Items? && index + Count(elems) <= |v.items|
    requires ElemsTyped(elems, v.items[index..index + Count(elems)])
    requires ElemUnions(elems) && ElemsLinear(elems) && Distinct(BindNames(acc.binds) + ElemNames(elems))
    ensures Correct(CompilePrefix(elems, subject, index, acc), root, ds, n, Join(Some(ba), MatchElems(elems, v.items[index..index + Count(elems)])))
    decreases elems
  {
    hide Correct, CompilePat, Matches, Typed, Linear, Unions, ReadAt, Reads;
    var values := v.items[index..index + Count(elems)];
    if elems.NoPats? {
      assert ba + map[] == ba;
    } else {
      var path, item := Index(subject, index), v.items[index];
      ReadsIndex(subject, index, root, v);
      assert values[1..] == v.items[index + 1..index + 1 + Count(elems.tail)];
      PartCorrect(acc, elems.head, path, root, item, ds, n, ba, ElemNames(elems.tail));
      var next := AndThen(acc, CompilePat(elems.head, path, acc.supply));
      var m := Matches(elems.head, item);
      if m.Some? {
        PrefixCorrect(elems.tail, subject, index + 1, next, root, v, ds, n, ba + m.value);
      } else {
        FailedPrefix(elems.tail, subject, index + 1, next, root, ds, n);
      }
      JoinAssociates(Some(ba), m, MatchElems(elems.tail, values[1..]));
    }
  }

  lemma {:induction false} SuffixCorrect(elems: Pats, subject: Subject, acc: Compiled, root: Value, v: Value, ds: Decisions, n: nat, ba: Bindings)
    requires Correct(acc, root, ds, n, Some(ba))
    requires Reads(subject, root, v) && v.Items? && Count(elems) <= |v.items|
    requires ElemsTyped(elems, v.items[|v.items| - Count(elems)..])
    requires ElemUnions(elems) && ElemsLinear(elems) && Distinct(BindNames(acc.binds) + ElemNames(elems))
    ensures Correct(CompileSuffix(elems, subject, acc), root, ds, n, Join(Some(ba), MatchElems(elems, v.items[|v.items| - Count(elems)..])))
    decreases elems
  {
    hide Correct, CompilePat, Matches, Typed, Linear, Unions, ReadAt, Reads;
    var values := v.items[|v.items| - Count(elems)..];
    if elems.NoPats? {
      assert ba + map[] == ba;
    } else {
      var path, item := IndexFromEnd(subject, Count(elems)), v.items[|v.items| - Count(elems)];
      ReadsFromEnd(subject, Count(elems), root, v);
      assert values[1..] == v.items[|v.items| - Count(elems.tail)..];
      PartCorrect(acc, elems.head, path, root, item, ds, n, ba, ElemNames(elems.tail));
      var next := AndThen(acc, CompilePat(elems.head, path, acc.supply));
      var m := Matches(elems.head, item);
      if m.Some? {
        SuffixCorrect(elems.tail, subject, next, root, v, ds, n, ba + m.value);
      } else {
        FailedSuffix(elems.tail, subject, next, root, ds, n);
      }
      JoinAssociates(Some(ba), m, MatchElems(elems.tail, values[1..]));
    }
  }

  lemma {:induction false} EntriesCorrect(entries: Entries, subject: Subject, acc: Compiled, root: Value, v: Value, ds: Decisions, n: nat, ba: Bindings)
    requires Correct(acc, root, ds, n, Some(ba))
    requires Reads(subject, root, v) && v.Table? && EntriesTyped(entries, v.entries)
    requires EntryUnions(entries) && EntriesLinear(entries) && Distinct(BindNames(acc.binds) + EntryNames(entries))
    ensures Correct(CompileEntries(entries, subject, acc), root, ds, n, Join(Some(ba), MatchEntries(entries, v.entries)))
    decreases entries
  {
    hide Correct, CompilePat, Matches, Typed, Linear, Unions, ReadAt, Reads;
    if entries.NoEntries? {
      assert ba + map[] == ba;
    } else {
      HasCorrect(acc, subject, entries.key, root, v, ds, n, ba);
      var has := AndThen(acc, Compiled(Some(Has(subject, entries.key)), [], [], acc.supply));
      var path := MapGet(subject, entries.key);
      var next := AndThen(has, CompilePat(entries.pat, path, acc.supply));
      if entries.key in v.entries {
        var item := v.entries[entries.key];
        ReadsKey(subject, entries.key, root, v);
        assert has.binds == acc.binds;
        PartCorrect(has, entries.pat, path, root, item, ds, n, ba, EntryNames(entries.rest));
        var m := Matches(entries.pat, item);
        if m.Some? {
          EntriesCorrect(entries.rest, subject, next, root, v, ds, n, ba + m.value);
        } else {
          FailedEntries(entries.rest, subject, next, root, ds, n);
        }
        JoinAssociates(Some(ba), m, MatchEntries(entries.rest, v.entries));
      } else {
        PatOwns(entries.pat, path, acc.supply);
        FailedAnd(has, CompilePat(entries.pat, path, acc.supply), root, ds, n);
        FailedEntries(entries.rest, subject, next, root, ds, n);
      }
    }
  }

  lemma HasCorrect(acc: Compiled, subject: Subject, key: Lit, root: Value, v: Value, ds: Decisions, n: nat, ba: Bindings)
    requires Correct(acc, root, ds, n, Some(ba)) && Reads(subject, root, v) && v.Table?
    ensures Correct(AndThen(acc, Compiled(Some(Has(subject, key)), [], [], acc.supply)), root, ds, n, if key in v.entries then Some(ba) else None)
  {
    hide Correct, RunOptional, BindNames;
    var asks := Compiled(Some(Has(subject, key)), [], [], acc.supply);
    StillRuns(acc, root, ds, n, ba);
    var ds1 := RunOptional(acc.test, root, ds).value.1;
    HasRuns(subject, key, root, v, ds1);
    StartCorrect(asks.test, root, ds1, acc.supply, key in v.entries);
    AndCorrect(acc, asks, root, ds, ds1, n, ba, if key in v.entries then Some(map[]) else None);
    assert ba + map[] == ba;
  }

  lemma StillRuns(c: Compiled, root: Value, ds: Decisions, n: nat, bound: Bindings)
    requires Correct(c, root, ds, n, Some(bound))
    ensures RunOptional(c.test, root, ds).Some? && RunOptional(c.test, root, ds).value.0
  {}

  lemma HasRuns(subject: Subject, key: Lit, root: Value, v: Value, ds: Decisions)
    requires Reads(subject, root, v) && v.Table?
    ensures RunOptional(Some(Has(subject, key)), root, ds) == Some((key in v.entries, ds))
  {
    hide ReadAt;
    assert ReadAt(subject, root, ds) == Some(v);
  }

  // ----- unions -----

  lemma {:induction false} SubjectIsThere(binds: seq<Bind>, name: string)
    requires name in BindNames(binds)
    ensures exists i :: 0 <= i < |binds| && binds[i] == Bind(name, SubjectOf(binds, name))
    decreases |binds|
  {
    var last := |binds| - 1;
    if binds[last].name != name {
      SubjectIsThere(binds[..last], name);
      var i :| 0 <= i < |binds[..last]| && binds[..last][i] == Bind(name, SubjectOf(binds[..last], name));
      assert binds[i] == Bind(name, SubjectOf(binds, name));
    } else {
      assert binds[last] == Bind(name, SubjectOf(binds, name));
    }
  }

  lemma EitherIs(first: Test, second: Test, root: Value, ds: Decisions)
    ensures RunTest(Either(first, second), root, ds) == RunEither(first, second, root, ds)
  {
    hide RunEither, ReadAt, AtMost, Below, SameKind;
  }

  lemma EitherRuns(first: Test, second: Test, root: Value, ds: Decisions)
    ensures var a := RunTest(first, root, ds);
            RunTest(Either(first, second), root, ds) == if a.None? || a.value.0 then a else RunTest(second, root, a.value.1)
  {
    hide RunTest;
    EitherIs(first, second, root, ds);
  }

  lemma AlwaysRuns(root: Value)
    ensures forall ds :: RunTest(Always, root, ds) == Some((true, ds))
  {}

  lemma DecisionRuns(decision: Decision, test: Test, root: Value, ds: Decisions)
    ensures var a := RunTest(test, root, ds);
            RunTest(Assign(decision, test), root, ds) == if a.None? then None else Some((a.value.0, a.value.1[decision := a.value.0]))
  {}

  /** The left side is tried first; which side matched is remembered for every binding. */
  lemma UnionCorrect(a: Compiled, b: Compiled, root: Value, ds: Decisions, n: nat, ma: Option<Bindings>, mb: Option<Bindings>)
    requires Correct(a, root, ds, n, ma)
    requires forall later: Decisions :: Correct(b, root, later, a.supply, mb)
    requires NameSet(BindNames(a.binds)) == NameSet(BindNames(b.binds))
    requires forall i | 0 <= i < |a.binds| :: a.binds[i].name in BindNames(b.binds)
    ensures Correct(CompileUnion(a, b), root, ds, n, if ma.Some? then ma else mb)
  {
    hide ReadAt, SelectBinds, Decides, BindsAre;
    assert Correct(b, root, ds, a.supply, mb);
    OwnsBoth(a, b, n);
    var (x, ds1) := RunOptional(a.test, root, ds).value;
    var c := CompileUnion(a, b);
    if a.binds != [] && a.test.Some? {
      UnionDecides(a, b, root, ds, n, ma, mb);
    } else if x {
      LeftUnion(a, b, root, ds, ds1, ma);
    } else {
      assert Correct(b, root, ds1, a.supply, mb);
      RightUnion(a, b, root, ds, ds1, mb);
    }
  }

  /** Without a decision, the left side matched. */
  lemma LeftUnion(a: Compiled, b: Compiled, root: Value, ds: Decisions, ds1: Decisions, ma: Option<Bindings>)
    requires RunOptional(a.test, root, ds) == Some((true, ds1)) && ma.Some?
    requires forall i | 0 <= i < |a.binds| :: a.binds[i].name in BindNames(b.binds)
    requires Decides(ds, ds1, a.decisions) && BindsAre(a.binds, root, ds1, a.decisions, ma.value) && (a.binds == [] || a.test.None?)
    requires forall d | d in a.decisions :: d !in b.decisions
    ensures var c := CompileUnion(a, b);
            && RunOptional(c.test, root, ds) == Some((true, ds1)) && Decides(ds, ds1, c.decisions)
            && BindsAre(c.binds, root, ds1, c.decisions, ma.value)
  {
    hide ReadAt, RunTest;
    var c := CompileUnion(a, b);
    if a.test.Some? { EitherRuns(a.test.value, if b.test.Some? then b.test.value else Always, root, ds); }
    forall i | 0 <= i < |c.binds| ensures BindIs(c.binds[i], root, ds1, c.decisions, ma.value) {
      assert BindIs(a.binds[i], root, ds1, a.decisions, ma.value);
      BindStays(a.binds[i], root, ds1, ds1, a.decisions, b.decisions, ma.value, ma.value);
    }
  }

  /** Without bindings no decision is needed. */
  lemma RightUnion(a: Compiled, b: Compiled, root: Value, ds: Decisions, ds1: Decisions, mb: Option<Bindings>)
    requires a.binds == [] && NameSet(BindNames(b.binds)) == {} && RunOptional(a.test, root, ds) == Some((false, ds1))
    requires Decides(ds, ds1, a.decisions)
    requires var r := RunOptional(b.test, root, ds1); r.Some? && r.value.0 == mb.Some? && Decides(ds1, r.value.1, b.decisions)
                                                      && (mb.Some? ==> BindsAre(b.binds, root, r.value.1, b.decisions, mb.value))
    ensures var c := CompileUnion(a, b); var r := RunOptional(c.test, root, ds);
            && r.Some? && r.value.0 == mb.Some? && Decides(ds, r.value.1, c.decisions)
            && (mb.Some? ==> BindsAre(c.binds, root, r.value.1, c.decisions, mb.value))
  {
    hide ReadAt;
    var r := RunOptional(b.test, root, ds1);
    AlwaysRuns(root);
    EitherRuns(a.test.value, if b.test.Some? then b.test.value else Always, root, ds);
    assert RunOptional(CompileUnion(a, b).test, root, ds) == r;
    DecidesTrans(ds, ds1, r.value.1, a.decisions, b.decisions);
    assert NameSet(BindNames([])) == {};
  }

  lemma {:induction false} UnionDecides(a: Compiled, b: Compiled, root: Value, ds: Decisions, n: nat, ma: Option<Bindings>, mb: Option<Bindings>)
    requires Correct(a, root, ds, n, ma) && a.binds != [] && a.test.Some?
    requires forall later: Decisions :: Correct(b, root, later, a.supply, mb)
    requires NameSet(BindNames(a.binds)) == NameSet(BindNames(b.binds))
    requires forall i | 0 <= i < |a.binds| :: a.binds[i].name in BindNames(b.binds)
    ensures Correct(CompileUnion(a, b), root, ds, n, if ma.Some? then ma else mb)
  {
    hide ReadAt, SelectBinds, BindsAre, RunTest, Owns, Decides;
    assert Correct(b, root, ds, a.supply, mb);
    UnionOwns(a, b, n);
    var d := b.supply;
    var (x, ds0) := RunOptional(a.test, root, ds).value;
    var ds1 := ds0[d := x];
    var own := a.decisions + b.decisions + [d];
    DecidedRuns(a, b, root, ds);
    if x {
      DecidesMore(ds, ds0, a.decisions, own, d, x);
      SelectsLeft(a, b, root, ds0, d, ma.value);
    } else {
      assert Correct(b, root, ds1, a.supply, mb);
      var ds2 := RunOptional(b.test, root, ds1).value.1;
      DecidesMore(ds, ds0, a.decisions, a.decisions + [d], d, x);
      DecidesTrans(ds, ds1, ds2, a.decisions + [d], b.decisions);
      DecidesLike(ds, ds2, a.decisions + [d] + b.decisions, own);
      if mb.Some? {
        SelectsRight(a, b, root, ds1, ds2, d, mb.value);
      }
    }
  }

  /** The emitted test of a union with bindings: the outcome of the left side is noted, and the right side is tried when
      it failed. */
  lemma DecidedRuns(a: Compiled, b: Compiled, root: Value, ds: Decisions)
    requires a.binds != [] && a.test.Some? && RunTest(a.test.value, root, ds).Some?
    requires forall i | 0 <= i < |a.binds| :: a.binds[i].name in BindNames(b.binds)
    ensures var (x, ds0) := RunTest(a.test.value, root, ds).value;
            var ds1 := ds0[b.supply := x];
            RunOptional(CompileUnion(a, b).test, root, ds) == if x then Some((true, ds1)) else RunOptional(b.test, root, ds1)
  {
    hide ReadAt, SelectBinds, RunTest;
    DecisionRuns(b.supply, a.test.value, root, ds);
    AlwaysRuns(root);
    EitherRuns(Assign(b.supply, a.test.value), if b.test.Some? then b.test.value else Always, root, ds);
  }

  lemma DecidesMore(a: Decisions, b: Decisions, own: seq<Decision>, more: seq<Decision>, d: Decision, x: bool)
    requires Decides(a, b, own) && d in more && forall e | e in own :: e in more
    ensures Decides(a, b[d := x], more)
  {}

  lemma DecidesLike(a: Decisions, b: Decisions, own: seq<Decision>, same: seq<Decision>)
    requires Decides(a, b, own) && forall e | e in own :: e in same
    ensures Decides(a, b, same)
  {}

  lemma SelectsLeft(a: Compiled, b: Compiled, root: Value, ds: Decisions, d: Decision, bound: Bindings)
    requires BindsAre(a.binds, root, ds, a.decisions, bound) && d !in a.decisions
    requires forall i | 0 <= i < |a.binds| :: a.binds[i].name in BindNames(b.binds)
    ensures BindsAre(SelectBinds(d, a.binds, b.binds), root, ds[d := true], a.decisions + b.decisions + [d], bound)
  {
    hide ReadAt, BindIs;
    var binds, own := SelectBinds(d, a.binds, b.binds), a.decisions + b.decisions + [d];
    forall i | 0 <= i < |binds| ensures BindIs(binds[i], root, ds[d := true], own, bound) {
      assert BindIs(a.binds[i], root, ds, a.decisions, bound);
      SelectIs(a.binds[i], binds[i], d, root, ds, ds[d := true], a.decisions, own, bound);
    }
  }

  /** A selecting binding reads what the selected side reads. */
  lemma SelectIs(side: Bind, bind: Bind, d: Decision, root: Value, ds: Decisions, ds1: Decisions, part: seq<Decision>,
                 own: seq<Decision>, bound: Bindings)
    requires BindIs(side, root, ds, part, bound) && bind.name == side.name && bind.subject.Select? && bind.subject.decision == d
    requires d in own && d in ds1 && (forall e | e in part :: e in own && (e in ds ==> e in ds1 && ds1[e] == ds[e]))
    requires side.subject == if ds1[d] then bind.subject.left else bind.subject.right
    ensures BindIs(bind, root, ds1, own, bound)
  {
    forall later: Decisions | Keeps(ds1, later, own) ensures ReadAt(bind.subject, root, later) == Some(bound[bind.name]) {
      assert later[d] == ds1[d];
      assert Keeps(ds, later, part);
    }
  }

  lemma SelectsRight(a: Compiled, b: Compiled, root: Value, ds1: Decisions, ds2: Decisions, d: Decision, bound: Bindings)
    requires BindsAre(b.binds, root, ds2, b.decisions, bound) && Decides(ds1, ds2, b.decisions)
    requires d !in b.decisions && d in ds1 && !ds1[d]
    requires NameSet(BindNames(a.binds)) == NameSet(BindNames(b.binds))
    requires forall i | 0 <= i < |a.binds| :: a.binds[i].name in BindNames(b.binds)
    ensures BindsAre(SelectBinds(d, a.binds, b.binds), root, ds2, a.decisions + b.decisions + [d], bound)
  {
    hide ReadAt, BindIs;
    var binds, own := SelectBinds(d, a.binds, b.binds), a.decisions + b.decisions + [d];
    assert d in ds2 && !ds2[d];
    forall i | 0 <= i < |binds| ensures BindIs(binds[i], root, ds2, own, bound) {
      SubjectIsThere(b.binds, a.binds[i].name);
      var j :| 0 <= j < |b.binds| && b.binds[j] == Bind(a.binds[i].name, SubjectOf(b.binds, a.binds[i].name));
      assert BindIs(b.binds[j], root, ds2, b.decisions, bound);
      SelectIs(b.binds[j], binds[i], d, root, ds2, ds2, b.decisions, own, bound);
    }
  }

  // ----- the main theorem -----

  /** A compiled pattern held against a value of its type: the test is true exactly when the reference matcher
      succeeds, nothing is read that is not known to be there, and each name then reads the matcher's value. */
  lemma {:induction false} PatCorrect(pat: Pat, subject: Subject, root: Value, v: Value, ds: Decisions, n: nat)
    requires Reads(subject, root, v) && Typed(pat, v) && Unions(pat) && Linear(pat)
    ensures Correct(CompilePat(pat, subject, n), root, ds, n, Matches(pat, v))
    decreases pat, 4
  {
    hide Correct, ReadAt, CompilePat, Matches, Typed, Linear, Unions;
    match pat
    case Wildcard => LeafCorrect(pat, subject, root, v, ds, n);
    case Binding(_, _) => BindingCorrect(pat, subject, root, v, ds, n);
    case Literal(_) => LeafCorrect(pat, subject, root, v, ds, n);
    case RangePat(_) => LeafCorrect(pat, subject, root, v, ds, n);
    case VariantPat(_, _, _) => VariantCorrect(pat, subject, root, v, ds, n);
    case StructPat(_) => StructCorrect(pat, subject, root, v, ds, n);
    case TuplePat(_) => TupleCorrect(pat, subject, root, v, ds, n);
    case ListPat(_, _, _) => ListCorrect(pat, subject, root, v, ds, n);
    case MapPat(_, _) => MapCorrect(pat, subject, root, v, ds, n);
    case Or(left, right) =>
      UnionParts(pat, subject, v, n);
      PatCorrect(left, subject, root, v, ds, n);
      var a := CompilePat(left, subject, n);
      forall later: Decisions ensures Correct(CompilePat(right, subject, a.supply), root, later, a.supply, Matches(right, v)) {
        PatCorrect(right, subject, root, v, later, a.supply);
      }
      var b := CompilePat(right, subject, a.supply);
      SameNames(left, right, a.binds, b.binds);
      UnionCorrect(a, b, root, ds, n, Matches(left, v), Matches(right, v));
  }

  lemma UnionParts(pat: Pat, subject: Subject, v: Value, n: nat)
    requires pat.Or? && Typed(pat, v) && Unions(pat) && Linear(pat)
    ensures Typed(pat.left, v) && Unions(pat.left) && Linear(pat.left) && Typed(pat.right, v) && Unions(pat.right) && Linear(pat.right)
    ensures NameSet(Names(pat.left)) == NameSet(Names(pat.right))
    ensures var a := CompilePat(pat.left, subject, n); var b := CompilePat(pat.right, subject, a.supply);
            && (forall i | 0 <= i < |a.binds| :: a.binds[i].name in BindNames(b.binds))
            && CompilePat(pat, subject, n) == CompileUnion(a, b)
    ensures Matches(pat, v) == if Matches(pat.left, v).Some? then Matches(pat.left, v) else Matches(pat.right, v)
  {
    var a := CompilePat(pat.left, subject, n);
    SameNames(pat.left, pat.right, a.binds, CompilePat(pat.right, subject, a.supply).binds);
  }

  lemma LeafCorrect(pat: Pat, subject: Subject, root: Value, v: Value, ds: Decisions, n: nat)
    requires pat.Wildcard? || pat.Literal? || pat.RangePat?
    requires Reads(subject, root, v) && Typed(pat, v) && Unions(pat)
    ensures Correct(CompilePat(pat, subject, n), root, ds, n, Matches(pat, v))
  {
    hide Correct, ReadAt, CompileRange, InRange, RangeTyped;
    assert ReadAt(subject, root, ds) == Some(v);
    match pat
    case Wildcard => StartCorrect(None, root, ds, n, true);
    case Literal(lit) =>
      LiteralRuns(subject, lit, root, v, ds);
      StartCorrect(Some(PayloadIs(subject, lit)), root, ds, n, v.payload == lit);
    case RangePat(range) =>
      RangeRuns(range, subject, root, v, ds);
      StartCorrect(Some(CompileRange(range, subject)), root, ds, n, InRange(range, v.payload));
  }

  lemma LiteralRuns(subject: Subject, lit: Lit, root: Value, v: Value, ds: Decisions)
    requires ReadAt(subject, root, ds) == Some(v) && v.Scalar?
    ensures RunOptional(Some(PayloadIs(subject, lit)), root, ds) == Some((v.payload == lit, ds))
  {
    hide ReadAt;
  }

  lemma RangeRuns(range: Range, subject: Subject, root: Value, v: Value, ds: Decisions)
    requires ReadAt(subject, root, ds) == Some(v) && v.Scalar? && RangeTyped(range, v.payload)
    ensures RunTest(CompileRange(range, subject), root, ds) == Some((InRange(range, v.payload), ds))
  {
    hide ReadAt, AtMost;
  }

  lemma {:induction false} BindingCorrect(pat: Pat, subject: Subject, root: Value, v: Value, ds: Decisions, n: nat)
    requires pat.Binding? && Reads(subject, root, v) && Typed(pat, v) && Unions(pat) && Linear(pat)
    ensures Correct(CompilePat(pat, subject, n), root, ds, n, Matches(pat, v))
    decreases pat, 2
  {
    hide Correct, ReadAt, Reads, RunTest;
    var name := pat.name;
    FirstBind(name, subject, root, v, ds, n);
    if pat.sub.Some? {
      var sub := pat.sub.value;
      PatCorrect(sub, subject, root, v, ds, n);
      NamedBefore(pat, subject, n);
      AndCorrect(Compiled(None, [Bind(name, subject)], [], n), CompilePat(sub, subject, n), root, ds, ds, n, map[name := v], Matches(sub, v));
    }
  }

  lemma NamedBefore(pat: Pat, subject: Subject, n: nat)
    requires pat.Binding? && pat.sub.Some? && Unions(pat) && Linear(pat)
    ensures var inner := CompilePat(pat.sub.value, subject, n);
            && (forall j | 0 <= j < |inner.binds| :: inner.binds[j].name != pat.name)
            && AndThen(Compiled(None, [Bind(pat.name, subject)], [], n), inner) == CompilePat(pat, subject, n)
  {
    var inner := CompilePat(pat.sub.value, subject, n);
    forall j | 0 <= j < |inner.binds| ensures inner.binds[j].name != pat.name {
      assert Names(pat)[0] == pat.name && Names(pat)[j + 1] == BindNames(inner.binds)[j];
    }
    assert [] + inner.decisions == inner.decisions;
  }

  lemma FirstBind(name: string, subject: Subject, root: Value, v: Value, ds: Decisions, n: nat)
    requires Reads(subject, root, v)
    ensures Correct(Compiled(None, [Bind(name, subject)], [], n), root, ds, n, Some(map[name := v]))
  {
    hide ReadAt;
    var bind := Bind(name, subject);
    assert BindIs(bind, root, ds, [], map[name := v]);
    assert BindNames([bind]) == [name];
  }

  /** Code that has not bound anything yet. */
  lemma StartCorrect(test: Option<Test>, root: Value, ds: Decisions, n: nat, holds: bool)
    requires RunOptional(test, root, ds) == Some((holds, ds))
    ensures Correct(Compiled(test, [], [], n), root, ds, n, if holds then Some(map[]) else None)
  {
    assert BindNames([]) == [];
  }

  lemma JoinStart(m: Option<Bindings>)
    ensures Join(Some(map[]), m) == m
  {
    if m.Some? { assert map[] + m.value == m.value; }
  }

  lemma {:induction false} VariantCorrect(pat: Pat, subject: Subject, root: Value, v: Value, ds: Decisions, n: nat)
    requires pat.VariantPat? && Reads(subject, root, v) && Typed(pat, v) && Unions(pat) && Linear(pat)
    ensures Correct(CompilePat(pat, subject, n), root, ds, n, Matches(pat, v))
    decreases pat, 2
  {
    hide Correct, CompileFields, MatchFields, FieldsTyped, FieldsLinear, FieldUnions, ReadAt, RunTest;
    var holds := v.Variant? && v.enumName == pat.enumName && v.variant == pat.variant;
    var test := TagIs(subject, pat.enumName, pat.variant);
    TagRuns(subject, pat.enumName, pat.variant, root, v, ds);
    StartCorrect(Some(test), root, ds, n, holds);
    var start := Compiled(Some(test), [], [], n);
    assert BindNames([]) + FieldNames(pat.fields) == Names(pat);
    if holds {
      FieldsCorrect(pat.fields, subject, start, root, v, ds, n, map[]);
      JoinStart(MatchFields(pat.fields, v.fields));
    } else {
      FailedFields(pat.fields, subject, start, root, ds, n);
    }
  }

  lemma TagRuns(subject: Subject, enumName: string, variant: string, root: Value, v: Value, ds: Decisions)
    requires Reads(subject, root, v)
    ensures RunOptional(Some(TagIs(subject, enumName, variant)), root, ds)
         == Some((v.Variant? && v.enumName == enumName && v.variant == variant, ds))
  {
    hide ReadAt;
    assert ReadAt(subject, root, ds) == Some(v);
  }

  lemma {:induction false} StructCorrect(pat: Pat, subject: Subject, root: Value, v: Value, ds: Decisions, n: nat)
    requires pat.StructPat? && Reads(subject, root, v) && Typed(pat, v) && Unions(pat) && Linear(pat)
    ensures Correct(CompilePat(pat, subject, n), root, ds, n, Matches(pat, v))
    decreases pat, 2
  {
    hide Correct, CompileFields, MatchFields, FieldsTyped, FieldsLinear, FieldUnions;
    StartCorrect(None, root, ds, n, true);
    assert BindNames([]) + FieldNames(pat.fields) == Names(pat);
    FieldsCorrect(pat.fields, subject, Compiled(None, [], [], n), root, v, ds, n, map[]);
    JoinStart(MatchFields(pat.fields, v.fields));
  }

  lemma {:induction false} TupleCorrect(pat: Pat, subject: Subject, root: Value, v: Value, ds: Decisions, n: nat)
    requires pat.TuplePat? && Reads(subject, root, v) && Typed(pat, v) && Unions(pat) && Linear(pat)
    ensures Correct(CompilePat(pat, subject, n), root, ds, n, Matches(pat, v))
    decreases pat, 2
  {
    hide Correct, CompilePrefix, MatchElems, ElemsTyped, ElemsLinear, ElemUnions;
    StartCorrect(None, root, ds, n, true);
    assert BindNames([]) + ElemNames(pat.elems) == Names(pat);
    assert v.items[0..0 + Count(pat.elems)] == v.items[..Count(pat.elems)];
    PrefixCorrect(pat.elems, subject, 0, Compiled(None, [], [], n), root, v, ds, n, map[]);
    JoinStart(MatchElems(pat.elems, v.items[..Count(pat.elems)]));
  }

  function LengthFits(rest: Rest, min: nat, length: nat): bool {
    if rest.Exact? then length == min else length >= min
  }

  lemma {:induction false} ListCorrect(pat: Pat, subject: Subject, root: Value, v: Value, ds: Decisions, n: nat)
    requires pat.ListPat? && Reads(subject, root, v) && Typed(pat, v) && Unions(pat) && Linear(pat)
    ensures Correct(CompilePat(pat, subject, n), root, ds, n, Matches(pat, v))
    decreases pat, 3
  {
    hide Correct, CompilePrefix, CompileSuffix, MatchElems, ElemsTyped, ElemsLinear, ElemUnions, RunTest, ReadAt;
    var p, s := Count(pat.prefix), Count(pat.suffix);
    var holds := LengthFits(pat.rest, p + s, |v.items|);
    if holds {
      ListPartsCorrect(pat, subject, root, v, ds, n);
    } else {
      PlanOfList(pat, subject, n);
      var test := LengthTest(subject, pat.rest, p + s);
      LengthRuns(pat.rest, subject, p + s, root, v, ds);
      StartCorrect(test, root, ds, n, false);
      var start := Compiled(test, [], [], n);
      var front := CompilePrefix(pat.prefix, subject, 0, start);
      var back := CompileSuffix(pat.suffix, subject, front);
      FailedPrefix(pat.prefix, subject, 0, start, root, ds, n);
      FailedSuffix(pat.suffix, subject, front, root, ds, n);
      var tail := Compiled(None, RestBinds(pat.rest, Slice(subject, p, s)), [], back.supply);
      PatOwnsRest(tail);
      FailedAnd(back, tail, root, ds, n);
      assert Matches(pat, v).None?;
    }
  }

  lemma LengthRuns(rest: Rest, subject: Subject, min: nat, root: Value, v: Value, ds: Decisions)
    requires Reads(subject, root, v) && v.Items?
    ensures RunOptional(LengthTest(subject, rest, min), root, ds) == Some((LengthFits(rest, min, |v.items|), ds))
  {
    hide ReadAt, AtMost, Below, SameKind;
    assert ReadAt(subject, root, ds) == Some(v);
  }

  lemma JoinsTail(acc: Compiled, tail: Compiled)
    requires tail.test.None? && tail.decisions == [] && tail.supply == acc.supply
    ensures AndThen(acc, tail) == acc.(binds := acc.binds + tail.binds)
  {}

  lemma PatOwnsRest(tail: Compiled)
    requires tail.decisions == []
    ensures Owns(tail, tail.supply)
  {}

  lemma ListNames(pat: Pat, front: seq<Bind>, back: seq<Bind>)
    requires pat.ListPat? && Linear(pat)
    requires BindNames(front) == ElemNames(pat.prefix) && BindNames(back) == ElemNames(pat.prefix) + ElemNames(pat.suffix)
    ensures Distinct(BindNames([]) + ElemNames(pat.prefix)) && Distinct(BindNames(front) + ElemNames(pat.suffix))
    ensures Distinct(BindNames(back) + RestNames(pat.rest))
  {
    var names := Names(pat);
    assert names == ElemNames(pat.prefix) + ElemNames(pat.suffix) + RestNames(pat.rest);
    assert BindNames([]) + ElemNames(pat.prefix) == names[..|ElemNames(pat.prefix)|];
    assert BindNames(front) + ElemNames(pat.suffix) == names[..|ElemNames(pat.prefix)| + |ElemNames(pat.suffix)|];
  }

  function RestBound(rest: Rest, v: Value): Bindings {
    if rest.Spread? && rest.name.Some? then map[rest.name.value := v] else map[]
  }

  /** The rest clause binds what its path reads. */
  lemma RestCorrect(acc: Compiled, rest: Rest, subject: Subject, root: Value, v: Value, ds: Decisions, n: nat, m: Option<Bindings>)
    requires Correct(acc, root, ds, n, m) && Reads(subject, root, v) && Distinct(BindNames(acc.binds) + RestNames(rest))
    ensures Correct(AndThen(acc, Compiled(None, RestBinds(rest, subject), [], acc.supply)), root, ds, n, Join(m, Some(RestBound(rest, v))))
  {
    hide RunTest, ReadAt, Reads;
    var tail := Compiled(None, RestBinds(rest, subject), [], acc.supply);
    if m.None? {
      FailedAnd(acc, tail, root, ds, n);
    } else {
      var ds1 := RunOptional(acc.test, root, ds).value.1;
      if rest.Spread? && rest.name.Some? {
        FirstBind(rest.name.value, subject, root, v, ds1, acc.supply);
      } else {
        StartCorrect(None, root, ds1, acc.supply, true);
      }
      assert BindNames(tail.binds) + [] == RestNames(rest);
      Apart(acc.binds, tail.binds, []);
      AndCorrect(acc, tail, root, ds, ds1, n, m.value, Some(RestBound(rest, v)));
    }
  }

  lemma PlanOfList(pat: Pat, subject: Subject, n: nat)
    requires pat.ListPat? && Unions(pat) && Linear(pat)
    ensures ElemUnions(pat.prefix) && ElemUnions(pat.suffix) && ElemsLinear(pat.prefix) && ElemsLinear(pat.suffix)
    ensures var p, s := Count(pat.prefix), Count(pat.suffix);
            var front := CompilePrefix(pat.prefix, subject, 0, Compiled(LengthTest(subject, pat.rest, p + s), [], [], n));
            var back := CompileSuffix(pat.suffix, subject, front);
            CompilePat(pat, subject, n) == AndThen(back, Compiled(None, RestBinds(pat.rest, Slice(subject, p, s)), [], back.supply))
            && BindNames(front.binds) == ElemNames(pat.prefix) && BindNames(back.binds) == ElemNames(pat.prefix) + ElemNames(pat.suffix)
  {
    hide CompilePrefix, CompileSuffix;
    assert BindNames([]) + ElemNames(pat.prefix) == ElemNames(pat.prefix);
  }

  lemma MeaningOfList(pat: Pat, v: Value)
    requires pat.ListPat? && Typed(pat, v) && LengthFits(pat.rest, Count(pat.prefix) + Count(pat.suffix), |v.items|)
    ensures var p, s, items := Count(pat.prefix), Count(pat.suffix), v.items;
            && p + s <= |items| && v.Items? && ElemsTyped(pat.prefix, items[..p]) && ElemsTyped(pat.suffix, items[|items| - s..])
            && Matches(pat, v) == Join(Join(MatchElems(pat.prefix, items[..p]), MatchElems(pat.suffix, items[|items| - s..])),
                                       Some(RestBound(pat.rest, Items(items[p..|items| - s]))))
  {}

  function ListFront(pat: Pat, subject: Subject, n: nat): Compiled
    requires pat.ListPat? && ElemUnions(pat.prefix)
  {
    CompilePrefix(pat.prefix, subject, 0, Compiled(LengthTest(subject, pat.rest, Count(pat.prefix) + Count(pat.suffix)), [], [], n))
  }

  lemma {:induction false} ListFrontCorrect(pat: Pat, subject: Subject, root: Value, v: Value, ds: Decisions, n: nat)
    requires pat.ListPat? && Reads(subject, root, v) && v.Items? && ElemUnions(pat.prefix) && ElemsLinear(pat.prefix) && Linear(pat)
    requires Count(pat.prefix) <= |v.items| && ElemsTyped(pat.prefix, v.items[..Count(pat.prefix)])
    requires LengthFits(pat.rest, Count(pat.prefix) + Count(pat.suffix), |v.items|)
    ensures Correct(ListFront(pat, subject, n), root, ds, n, MatchElems(pat.prefix, v.items[..Count(pat.prefix)]))
    decreases pat, 1
  {
    hide Correct, CompilePrefix, MatchElems, ElemsTyped, ElemsLinear, ElemUnions, RunTest, ReadAt, LengthTest, LengthFits, RunOptional;
    var p, s := Count(pat.prefix), Count(pat.suffix);
    var start := Compiled(LengthTest(subject, pat.rest, p + s), [], [], n);
    LengthRuns(pat.rest, subject, p + s, root, v, ds);
    StartCorrect(start.test, root, ds, n, true);
    assert v.items[0..0 + p] == v.items[..p];
    assert BindNames([]) + ElemNames(pat.prefix) == Names(pat)[..|ElemNames(pat.prefix)|];
    PrefixCorrect(pat.prefix, subject, 0, start, root, v, ds, n, map[]);
    JoinStart(MatchElems(pat.prefix, v.items[..p]));
  }

  lemma {:induction false} ListBackCorrect(pat: Pat, subject: Subject, front: Compiled, root: Value, v: Value, ds: Decisions, n: nat, mf: Option<Bindings>)
    requires pat.ListPat? && Reads(subject, root, v) && v.Items? && ElemUnions(pat.suffix) && ElemsLinear(pat.suffix)
    requires Count(pat.suffix) <= |v.items| && ElemsTyped(pat.suffix, v.items[|v.items| - Count(pat.suffix)..])
    requires Correct(front, root, ds, n, mf) && Distinct(BindNames(front.binds) + ElemNames(pat.suffix))
    ensures Correct(CompileSuffix(pat.suffix, subject, front), root, ds, n,
                    Join(mf, MatchElems(pat.suffix, v.items[|v.items| - Count(pat.suffix)..])))
    decreases pat, 1
  {
    hide Correct, CompileSuffix, MatchElems, ElemsTyped, ElemsLinear, ElemUnions;
    if mf.Some? {
      SuffixCorrect(pat.suffix, subject, front, root, v, ds, n, mf.value);
    } else {
      FailedSuffix(pat.suffix, subject, front, root, ds, n);
    }
  }

  lemma {:induction false} ListPartsCorrect(pat: Pat, subject: Subject, root: Value, v: Value, ds: Decisions, n: nat)
    requires pat.ListPat? && Reads(subject, root, v) && Typed(pat, v) && Unions(pat) && Linear(pat)
    requires LengthFits(pat.rest, Count(pat.prefix) + Count(pat.suffix), |v.items|)
    ensures Correct(CompilePat(pat, subject, n), root, ds, n, Matches(pat, v))
    decreases pat, 2
  {
    hide Correct, CompilePat, CompilePrefix, CompileSuffix, Matches, MatchElems, ElemsTyped, ElemsLinear, ElemUnions, RunTest, ReadAt,
         LengthFits, RunOptional, Unions, RestBound, RestBinds, Linear, Typed, Join, Reads, Distinct, Names, ElemNames, RestNames, AndThen, LengthTest, Count;
    PlanOfList(pat, subject, n);
    MeaningOfList(pat, v);
    var p, s, items := Count(pat.prefix), Count(pat.suffix), v.items;
    var front := ListFront(pat, subject, n);
    var back := CompileSuffix(pat.suffix, subject, front);
    var mf, mb := MatchElems(pat.prefix, items[..p]), MatchElems(pat.suffix, items[|items| - s..]);
    ListNames(pat, front.binds, back.binds);
    ListFrontCorrect(pat, subject, root, v, ds, n);
    ListBackCorrect(pat, subject, front, root, v, ds, n, mf);
    SliceReads(subject, root, v, p, s);
    var tail := Compiled(None, RestBinds(pat.rest, Slice(subject, p, s)), [], back.supply);
    var middle := Items(items[p..|items| - s]);
    RestCorrect(back, pat.rest, Slice(subject, p, s), root, middle, ds, n, Join(mf, mb));
    assert CompilePat(pat, subject, n) == AndThen(back, tail);
    assert Matches(pat, v) == Join(Join(mf, mb), Some(RestBound(pat.rest, middle)));
  }

  lemma SliceReads(subject: Subject, root: Value, v: Value, start: nat, endFromEnd: nat)
    requires Reads(subject, root, v) && v.Items? && start + endFromEnd <= |v.items|
    ensures Reads(Slice(subject, start, endFromEnd), root, Items(v.items[start..|v.items| - endFromEnd]))
  {
    forall ds: Decisions ensures ReadAt(Slice(subject, start, endFromEnd), root, ds) == Some(Items(v.items[start..|v.items| - endFromEnd])) {
      SliceReadsAt(subject, root, v, start, endFromEnd, ds);
    }
  }

  lemma SliceReadsAt(subject: Subject, root: Value, v: Value, start: nat, endFromEnd: nat, ds: Decisions)
    requires ReadAt(subject, root, ds) == Some(v) && v.Items? && start + endFromEnd <= |v.items|
    ensures ReadAt(Slice(subject, start, endFromEnd), root, ds) == Some(Items(v.items[start..|v.items| - endFromEnd]))
  {
    assert v.items[start..] == v.items[start..|v.items| - 0];
  }

  lemma {:induction false} WithoutAll(entries: map<Lit, Value>, keys: seq<Lit>)
    ensures Without(entries, keys) == entries - (set k | k in keys)
    decreases |keys|
  {
    if |keys| > 0 {
      WithoutAll(entries - {keys[0]}, keys[1..]);
      assert (set k | k in keys) == {keys[0]} + (set k | k in keys[1..]);
    }
  }

  lemma RestReads(subject: Subject, root: Value, v: Value, keys: seq<Lit>)
    requires Reads(subject, root, v) && v.Table?
    ensures Reads(MapRest(subject, keys), root, Table(v.entries - (set k | k in keys)))
  {
    WithoutAll(v.entries, keys);
    forall ds: Decisions ensures ReadAt(MapRest(subject, keys), root, ds) == Some(Table(v.entries - (set k | k in keys))) {
      assert ReadAt(subject, root, ds) == Some(v);
    }
  }

  lemma {:induction false} MapCorrect(pat: Pat, subject: Subject, root: Value, v: Value, ds: Decisions, n: nat)
    requires pat.MapPat? && Reads(subject, root, v) && Typed(pat, v) && Unions(pat) && Linear(pat)
    ensures Correct(CompilePat(pat, subject, n), root, ds, n, Matches(pat, v))
    decreases pat, 2
  {
    hide Correct, CompileEntries, MatchEntries, EntriesTyped, EntriesLinear, EntryUnions, RunTest, ReadAt, Keys;
    StartCorrect(None, root, ds, n, true);
    var start := Compiled(None, [], [], n);
    var named := CompileEntries(pat.entries, subject, start);
    var names := Names(pat);
    assert names == EntryNames(pat.entries) + RestNames(pat.rest);
    assert BindNames([]) + EntryNames(pat.entries) == names[..|EntryNames(pat.entries)|] == BindNames(named.binds);
    EntriesCorrect(pat.entries, subject, start, root, v, ds, n, map[]);
    var m := MatchEntries(pat.entries, v.entries);
    JoinStart(m);
    var keys := Keys(pat.entries);
    RestReads(subject, root, v, keys);
    RestCorrect(named, pat.rest, MapRest(subject, keys), root, Table(v.entries - (set k | k in keys)), ds, n, m);
    JoinsTail(named, Compiled(None, RestBinds(pat.rest, MapRest(subject, keys)), [], named.supply));
    assert Matches(pat, v) == Join(m, Some(RestBound(pat.rest, Table(v.entries - (set k | k in keys)))));
  }
}
