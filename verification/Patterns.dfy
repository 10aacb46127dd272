/** Patterns and the reference matcher every lowering is measured against. */
module Patterns {
  import opened Ordering
  import opened Values

  datatype Range =
    | From(min: Lit)
    | To(max: Lit)
    | ToInclusive(max: Lit)
    | Exclusive(min: Lit, max: Lit)
    | Inclusive(min: Lit, max: Lit)

  /** The rest clause of a list or map pattern. */
  datatype Rest = Exact | Spread(name: Option<string>)

  datatype Pat =
    | Wildcard
    | Binding(name: string, sub: Option<Pat>)
    | Literal(lit: Lit)
    | VariantPat(enumName: string, variant: string, fields: Fields)
    | StructPat(fields: Fields)
    | TuplePat(elems: Pats)
    | ListPat(prefix: Pats, rest: Rest, suffix: Pats)
    | MapPat(entries: Entries, rest: Rest)
    | RangePat(range: Range)
    | Or(left: Pat, right: Pat)

  datatype Pats = NoPats | Elem(head: Pat, tail: Pats)
  datatype Fields = NoFields | Field(name: string, pat: Pat, rest: Fields)
  datatype Entries = NoEntries | Entry(key: Lit, pat: Pat, rest: Entries)

  function Count(ps: Pats): nat {
    match ps
    case NoPats => 0
    case Elem(_, tail) => 1 + Count(tail)
  }

  function Keys(es: Entries): seq<Lit> {
    match es
    case NoEntries => []
    case Entry(key, _, rest) => [key] + Keys(rest)
  }

  type Bindings = map<string, Value>

  /** Order on scalar payloads, as the JavaScript comparison operators give it for bounds of one type. */
  predicate AtMost(a: Lit, b: Lit) {
    match (a, b)
    case (Integer(x), Integer(y)) => x <= y
    case (Number(x), Number(y)) => x <= y
    case (Text(x), Text(y)) => TextAtMost(x, y)
    case _ => false
  }

  predicate TextAtMost(a: string, b: string) {
    |a| == 0 || (|b| > 0 && (a[0] < b[0] || (a[0] == b[0] && TextAtMost(a[1..], b[1..]))))
  }

  predicate Below(a: Lit, b: Lit) {
    AtMost(a, b) && a != b
  }

  predicate InRange(range: Range, x: Lit) {
    match range
    case From(min) => AtMost(min, x)
    case To(max) => Below(x, max)
    case ToInclusive(max) => AtMost(x, max)
    case Exclusive(min, max) => AtMost(min, x) && Below(x, max)
    case Inclusive(min, max) => AtMost(min, x) && AtMost(x, max)
  }

  /** Bounds of one kind compare as their payloads do. */
  lemma NumbersInRange(a: int, b: int, x: int, c: real, d: real, y: real)
    ensures InRange(From(Integer(a)), Integer(x)) <==> a <= x
    ensures InRange(To(Integer(b)), Integer(x)) <==> x < b
    ensures InRange(ToInclusive(Integer(b)), Integer(x)) <==> x <= b
    ensures InRange(Exclusive(Integer(a), Integer(b)), Integer(x)) <==> a <= x < b
    ensures InRange(Inclusive(Integer(a), Integer(b)), Integer(x)) <==> a <= x <= b
    ensures InRange(Exclusive(Number(c), Number(d)), Number(y)) <==> c <= y < d
    ensures InRange(Inclusive(Number(c), Number(d)), Number(y)) <==> c <= y <= d
  {}

  predicate SameKind(a: Lit, b: Lit) {
    (a.Integer? && b.Integer?) || (a.Number? && b.Number?) || (a.Text? && b.Text?)
  }

  predicate RangeTyped(range: Range, x: Lit) {
    match range
    case From(min) => SameKind(min, x)
    case To(max) => SameKind(max, x)
    case ToInclusive(max) => SameKind(max, x)
    case Exclusive(min, max) => SameKind(min, x) && SameKind(max, x)
    case Inclusive(min, max) => SameKind(min, x) && SameKind(max, x)
  }

  /** A payload lies in no range with a bound of another kind. */
  lemma RangesKeepKind(range: Range, x: Lit)
    requires InRange(range, x)
    ensures RangeTyped(range, x)
  {}

  /** Texts compare by the first character in which they differ; a text comes after its beginnings. */
  lemma {:induction false} TextsCompare(a: string, b: string)
    ensures AtMost(Text(a), Text(b)) <==> a <= b || exists i :: Differ(a, b, i) && a[i] < b[i]
    decreases |a|
  {
    TextOrderIs(a, b);
    LessIs(a, b);
  }

  lemma {:induction false} TextOrderIs(a: string, b: string)
    ensures TextAtMost(a, b) <==> a == b || Less(a, b)
    decreases |a|
  {
    if |a| > 0 && |b| > 0 && a[0] == b[0] {
      TextOrderIs(a[1..], b[1..]);
      assert a == [a[0]] + a[1..] && b == [b[0]] + b[1..];
    }
  }

  /** Join the bindings of two sub-patterns; a failure on either side fails the whole. */
  function Join(a: Option<Bindings>, b: Option<Bindings>): Option<Bindings> {
    if a.Some? && b.Some? then Some(a.value + b.value) else None
  }

  /** The reference matcher: the bindings of a match, or `None`. */
  function Matches(pat: Pat, v: Value): (r: Option<Bindings>)
    decreases pat
  {
    match pat
    case Wildcard => Some(map[])
    case Binding(name, sub) =>
      if sub.None? then Some(map[name := v]) else Join(Some(map[name := v]), Matches(sub.value, v))
    case Literal(lit) => if v.Scalar? && v.payload == lit then Some(map[]) else None
    case VariantPat(enumName, variant, fields) =>
      if v.Variant? && v.enumName == enumName && v.variant == variant then MatchFields(fields, v.fields) else None
    case StructPat(fields) => if v.Record? then MatchFields(fields, v.fields) else None
    case TuplePat(elems) =>
      if v.Items? && Count(elems) <= |v.items| then MatchElems(elems, v.items[..Count(elems)]) else None
    case ListPat(prefix, rest, suffix) =>
      var p, s := Count(prefix), Count(suffix);
      if !v.Items? || |v.items| < p + s || (rest.Exact? && |v.items| != p + s) then None else
      var front := MatchElems(prefix, v.items[..p]);
      var back := MatchElems(suffix, v.items[|v.items| - s..]);
      var middle := if rest.Spread? && rest.name.Some?
                    then map[rest.name.value := Items(v.items[p..|v.items| - s])] else map[];
      Join(Join(front, back), Some(middle))
    case MapPat(entries, rest) =>
      if !v.Table? then None else
      var named := MatchEntries(entries, v.entries);
      var others := if rest.Spread? && rest.name.Some?
                    then map[rest.name.value := Table(v.entries - (set k | k in Keys(entries)))] else map[];
      Join(named, Some(others))
    case RangePat(range) => if v.Scalar? && InRange(range, v.payload) then Some(map[]) else None
    case Or(left, right) =>
      var l := Matches(left, v);
      if l.Some? then l else Matches(right, v)
  }

  function MatchFields(fields: Fields, values: map<string, Value>): Option<Bindings>
    decreases fields
  {
    match fields
    case NoFields => Some(map[])
    case Field(name, pat, rest) =>
      if name !in values then None else Join(Matches(pat, values[name]), MatchFields(rest, values))
  }

  function MatchElems(elems: Pats, values: seq<Value>): Option<Bindings>
    requires |values| == Count(elems)
    decreases elems
  {
    match elems
    case NoPats => Some(map[])
    case Elem(head, tail) => Join(Matches(head, values[0]), MatchElems(tail, values[1..]))
  }

  function MatchEntries(entries: Entries, table: map<Lit, Value>): Option<Bindings>
    decreases entries
  {
    match entries
    case NoEntries => Some(map[])
    case Entry(key, pat, rest) =>
      if key !in table then None else Join(Matches(pat, table[key]), MatchEntries(rest, table))
  }

  // ----- the names a pattern binds -----

  function RestNames(rest: Rest): seq<string> {
    if rest.Spread? && rest.name.Some? then [rest.name.value] else []
  }

  /** The names a pattern binds, each once when the pattern is linear. */
  function Names(pat: Pat): seq<string> {
    match pat
    case Wildcard => []
    case Binding(name, sub) => [name] + if sub.Some? then Names(sub.value) else []
    case Literal(_) => []
    case VariantPat(_, _, fields) => FieldNames(fields)
    case StructPat(fields) => FieldNames(fields)
    case TuplePat(elems) => ElemNames(elems)
    case ListPat(prefix, rest, suffix) => ElemNames(prefix) + ElemNames(suffix) + RestNames(rest)
    case MapPat(entries, rest) => EntryNames(entries) + RestNames(rest)
    case RangePat(_) => []
    case Or(left, _) => Names(left)
  }

  function FieldNames(fields: Fields): seq<string> {
    match fields
    case NoFields => []
    case Field(_, pat, rest) => Names(pat) + FieldNames(rest)
  }

  function ElemNames(elems: Pats): seq<string> {
    match elems
    case NoPats => []
    case Elem(head, tail) => Names(head) + ElemNames(tail)
  }

  function EntryNames(entries: Entries): seq<string> {
    match entries
    case NoEntries => []
    case Entry(_, pat, rest) => Names(pat) + EntryNames(rest)
  }

  ghost predicate Distinct<T(!new)>(s: seq<T>) {
    forall i, j | 0 <= i < j < |s| :: s[i] != s[j]
  }

  function NameSet(s: seq<string>): set<string> {
    set x | x in s
  }

  /** Every union inside the pattern binds the same names on both sides. */
  ghost predicate Unions(pat: Pat) {
    match pat
    case Wildcard => true
    case Binding(_, sub) => sub.Some? ==> Unions(sub.value)
    case Literal(_) => true
    case VariantPat(_, _, fields) => FieldUnions(fields)
    case StructPat(fields) => FieldUnions(fields)
    case TuplePat(elems) => ElemUnions(elems)
    case ListPat(prefix, _, suffix) => ElemUnions(prefix) && ElemUnions(suffix)
    case MapPat(entries, _) => EntryUnions(entries)
    case RangePat(_) => true
    case Or(left, right) => Unions(left) && Unions(right) && NameSet(Names(left)) == NameSet(Names(right))
  }

  ghost predicate FieldUnions(fields: Fields) {
    fields.Field? ==> Unions(fields.pat) && FieldUnions(fields.rest)
  }

  ghost predicate ElemUnions(elems: Pats) {
    elems.Elem? ==> Unions(elems.head) && ElemUnions(elems.tail)
  }

  ghost predicate EntryUnions(entries: Entries) {
    entries.Entry? ==> Unions(entries.pat) && EntryUnions(entries.rest)
  }

  /** A successful match binds exactly the names of the pattern. */
  lemma {:induction false} MatchBindsNames(pat: Pat, v: Value)
    requires Unions(pat) && Matches(pat, v).Some?
    ensures Matches(pat, v).value.Keys == NameSet(Names(pat))
    decreases pat
  {
    match pat
    case Wildcard | Literal(_) | RangePat(_) =>
    case Binding(name, sub) => if sub.Some? { MatchBindsNames(sub.value, v); }
    case VariantPat(_, _, fields) => FieldsBindNames(fields, v.fields);
    case StructPat(fields) => FieldsBindNames(fields, v.fields);
    case TuplePat(elems) => ElemsBindNames(elems, v.items[..Count(elems)]);
    case ListPat(prefix, rest, suffix) =>
      ElemsBindNames(prefix, v.items[..Count(prefix)]);
      ElemsBindNames(suffix, v.items[|v.items| - Count(suffix)..]);
    case MapPat(entries, rest) => EntriesBindNames(entries, v.entries);
    case Or(left, right) => if Matches(left, v).Some? { MatchBindsNames(left, v); } else { MatchBindsNames(right, v); }
  }

  lemma {:induction false} FieldsBindNames(fields: Fields, values: map<string, Value>)
    requires FieldUnions(fields) && MatchFields(fields, values).Some?
    ensures MatchFields(fields, values).value.Keys == NameSet(FieldNames(fields))
    decreases fields
  {
    if fields.Field? { MatchBindsNames(fields.pat, values[fields.name]); FieldsBindNames(fields.rest, values); }
  }

  lemma {:induction false} ElemsBindNames(elems: Pats, values: seq<Value>)
    requires |values| == Count(elems)
    requires ElemUnions(elems) && MatchElems(elems, values).Some?
    ensures MatchElems(elems, values).value.Keys == NameSet(ElemNames(elems))
    decreases elems
  {
    if elems.Elem? { MatchBindsNames(elems.head, values[0]); ElemsBindNames(elems.tail, values[1..]); }
  }

  lemma {:induction false} EntriesBindNames(entries: Entries, table: map<Lit, Value>)
    requires EntryUnions(entries) && MatchEntries(entries, table).Some?
    ensures MatchEntries(entries, table).value.Keys == NameSet(EntryNames(entries))
    decreases entries
  {
    if entries.Entry? { MatchBindsNames(entries.pat, table[entries.key]); EntriesBindNames(entries.rest, table); }
  }

  // ----- the rest of a map -----

  predicate NamesKey(entries: Entries, key: Lit) {
    entries.Entry? && (entries.key == key || NamesKey(entries.rest, key))
  }

  lemma {:induction false} KeysAreNamed(entries: Entries, key: Lit)
    ensures key in Keys(entries) <==> NamesKey(entries, key)
    decreases entries
  {
    if entries.Entry? { KeysAreNamed(entries.rest, key); }
  }

  /** The rest clause of a map pattern binds what no entry of the pattern names, unchanged. */
  lemma MapRestIs(entries: Entries, name: string, table: map<Lit, Value>)
    requires var m := Matches(MapPat(entries, Spread(Some(name))), Table(table)); m.Some?
    ensures var b := Matches(MapPat(entries, Spread(Some(name))), Table(table)).value;
            && name in b && b[name].Table?
            && forall key :: if key in table && !NamesKey(entries, key)
                             then key in b[name].entries && b[name].entries[key] == table[key] else key !in b[name].entries
  {
    forall key ensures key in Keys(entries) <==> NamesKey(entries, key) { KeysAreNamed(entries, key); }
  }
}
