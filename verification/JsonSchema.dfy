/** The schema engine (gearbox/core/JsonSchema.cc) on values.

    A schema node is a record of keywords plus its children. Regular
    expressions, format checkers and the digit count behind maxDecimal are
    parameters (`Checkers`). The error handler is the default one, which
    throws, so a failed check is a rejection. */
module JsonSchema {
  import opened Outcomes
  import opened JsonValue

  datatype Checkers = Checkers(
    defaultFormat: string,
    formatOk: (string, string) -> bool,
    matches: (string, string) -> bool,
    decimals: real -> nat)

  /** The keywords of one node. `needs` is "requires", `fallback` is "default",
      `choices` is "enum"; a single type name is a list of one; the bounds are
      numbers of either kind. */
  datatype Keywords = Keywords(
    types: Option<seq<string>>,
    disallow: Option<seq<string>>,
    minimum: Option<real>,
    maximum: Option<real>,
    maxDecimal: Option<int>,
    minLength: Option<int>,
    maxLength: Option<int>,
    format: Option<string>,
    pattern: Option<string>,
    choices: Option<seq<Json>>,
    minItems: Option<int>,
    maxItems: Option<int>,
    optional: bool,
    needs: seq<string>,
    fallback: Option<Json>)

  /** A missing "properties" behaves like an empty one. */
  datatype Schema = Schema(kw: Keywords, props: map<string, Schema>, items: Items, extra: Extra)

  datatype Items = NoItems | Each(each: Schema) | Tuple(elems: seq<Schema>)

  /** additionalProperties: missing or true is `Open`, false is `Closed`. */
  datatype Extra = Open | Closed | Sub(sub: Schema)

  const NoKeywords := Keywords(
    None, None, None, None, None, None, None, None, None, None, None, None, false, [], None)

  const AnyKeywords := NoKeywords.(types := Some(["any"]))

  /** The schema {"type":"any"} that getAdditionalProperties writes. */
  const AnySchema := Schema(AnyKeywords, map[], NoItems, Open)

  // ---- integer conversions of Json::as<T> ------------------------------

  const TWO_31 := 0x8000_0000
  const TWO_32 := 0x1_0000_0000
  const TWO_63 := 0x8000_0000_0000_0000
  const TWO_64 := 0x1_0000_0000_0000_0000

  predicate FitsInt64(n: int) { -TWO_63 <= n < TWO_63 }

  predicate FitsInt32(n: int) { -TWO_31 <= n < TWO_31 }

  /** as<int>(): the stored int64_t narrowed to 32 bits. */
  function ToInt32(n: int): (r: int)
    ensures FitsInt32(r)
    ensures FitsInt32(n) ==> r == n
  {
    (n + TWO_31) % TWO_32 - TWO_31
  }

  function ToUint32(n: int): nat { n % TWO_32 }

  function ToUint64(n: int): nat { n % TWO_64 }

  // ---- checks on one node ----------------------------------------------

  function DocType(j: Json): string {
    match j
    case Null => "null"
    case Str(_) => "string"
    case Int(_) => "integer"
    case Dbl(_) => "number"
    case Bool(_) => "boolean"
    case Obj(_) => "object"
    case Arr(_) => "array"
  }

  predicate ListContains(types: seq<string>, docType: string) {
    exists t <- types :: t == "any" || t == docType || (t == "number" && docType == "integer")
  }

  predicate ValidType(kw: Keywords, j: Json) {
    || (kw.types.None? && kw.disallow.None?)
    || (kw.types.Some? && ListContains(kw.types.value, DocType(j)))
    || (kw.disallow.Some? && !ListContains(kw.disallow.value, DocType(j)))
  }

  /** True when typeFixup turns integers at this node into doubles. */
  predicate Fixes(kw: Keywords) { kw.types.Some? && "number" in kw.types.value }

  function Fixup(kw: Keywords, j: Json): Json {
    if Fixes(kw) && j.Int? then Dbl(ToInt32(j.n) as real) else j
  }

  predicate IsNumber(j: Json) { j.Int? || j.Dbl? }

  function NumberOf(j: Json): real
    requires IsNumber(j)
  {
    if j.Int? then j.n as real else j.x
  }

  /** minimum and maximum: a value that is not a number fails both. */
  predicate InRange(kw: Keywords, j: Json) {
    && (kw.minimum.Some? ==> IsNumber(j) && NumberOf(j) >= kw.minimum.value)
    && (kw.maximum.Some? ==> IsNumber(j) && NumberOf(j) <= kw.maximum.value)
  }

  predicate DecimalsOk(c: Checkers, kw: Keywords, j: Json) {
    j.Dbl? && kw.maxDecimal.Some? ==> c.decimals(j.x) <= ToUint64(kw.maxDecimal.value)
  }

  predicate TextOk(c: Checkers, kw: Keywords, j: Json) {
    j.Str? ==>
      && (kw.minLength.Some? ==> |j.s| >= ToUint64(kw.minLength.value))
      && (kw.maxLength.Some? ==> |j.s| <= ToUint64(kw.maxLength.value))
      && (var format := if kw.format.Some? then kw.format.value else c.defaultFormat;
          format != "" ==> c.formatOk(format, j.s))
      && (kw.pattern.Some? ==> c.matches(kw.pattern.value, j.s))
  }

  /** enum compares the JSON type first: 1 and 1.0 are different choices. */
  predicate Chosen(kw: Keywords, j: Json) {
    kw.choices.Some? ==> (j.Int? || j.Dbl? || j.Bool? || j.Str?) && j in kw.choices.value
  }

  predicate ValidValue(c: Checkers, kw: Keywords, j: Json) {
    InRange(kw, j) && DecimalsOk(c, kw, j) && TextOk(c, kw, j) && Chosen(kw, j)
  }

  predicate MaxSizeOk(kw: Keywords, size: nat) {
    kw.maxItems.Some? ==> size <= ToUint32(kw.maxItems.value)
  }

  /** validMinSize: a tuple without additional properties fixes the size. */
  predicate MinSizeOk(s: Schema, size: nat) {
    && (s.kw.minItems.Some? ==> size >= ToUint32(s.kw.minItems.value))
    && (s.items.Tuple? && s.extra.Closed? ==> size == |s.items.elems|)
  }

  // ---- children ----------------------------------------------------------

  function ExtraChild(s: Schema): Option<Schema> {
    match s.extra
    case Open => Some(AnySchema)
    case Closed => None
    case Sub(t) => Some(t)
  }

  /** getChildSchema(key): None where the code reports an error. */
  function KeyChild(s: Schema, key: string): Option<Schema> {
    if key in s.props then Some(s.props[key]) else ExtraChild(s)
  }

  /** getChildSchema(index). */
  function IndexChild(s: Schema, index: nat): Option<Schema> {
    match s.items
    case NoItems => ExtraChild(s)
    case Each(t) => Some(t)
    case Tuple(ts) => if index < |ts| then Some(ts[index]) else ExtraChild(s)
  }

  // ---- objects -------------------------------------------------------------

  /** Property `k` is missing and its schema supplies a default. */
  predicate Defaulted(s: Schema, keys: set<string>, k: string) {
    k in s.props && k !in keys && s.props[k].kw.fallback.Some?
  }

  function Defaults(s: Schema, keys: set<string>): map<string, Json> {
    map k | k in s.props && Defaulted(s, keys, k) :: Fixup(s.props[k].kw, s.props[k].kw.fallback.value)
  }

  function WithDefaults(s: Schema, m: map<string, Json>): map<string, Json> { m + Defaults(s, m.Keys) }

  /** `filled` is `m` with the defaults of every property outside `todo`. */
  ghost predicate Filling(s: Schema, m: map<string, Json>, todo: set<string>, filled: map<string, Json>) {
    && (forall k :: k in filled <==> k in m || (k !in todo && Defaulted(s, m.Keys, k)))
    && (forall k <- filled :: filled[k] == if k in m then m[k] else Defaults(s, m.Keys)[k])
  }

  /** One round of the setDefaults loop. */
  lemma {:induction false} FillingStep(s: Schema, m: map<string, Json>, todo: set<string>, filled: map<string, Json>, k: string)
    requires Filling(s, m, todo, filled) && k in todo && k in s.props
    ensures var kw := s.props[k].kw;
      Filling(s, m, todo - {k},
        if kw.fallback.Some? && k !in filled then filled[k := Fixup(kw, kw.fallback.value)] else filled)
  {
  }

  lemma {:induction false} FillingDone(s: Schema, m: map<string, Json>, filled: map<string, Json>)
    requires Filling(s, m, {}, filled)
    ensures filled == WithDefaults(s, m)
  {
  }

  predicate RequiresOk(s: Schema, keys: set<string>) {
    forall k <- s.props :: PropertyOk(s.props[k].kw, k, keys)
  }

  predicate PropertyOk(kw: Keywords, k: string, keys: set<string>) {
    && (kw.optional && k in keys ==> forall req <- kw.needs :: req in keys)
    && (!kw.optional ==> k in keys)
  }

  /** setDefaults followed by validRequires. */
  function CloseObject(s: Schema, m: map<string, Json>): Option<Json> {
    var filled := WithDefaults(s, m);
    if RequiresOk(s, filled.Keys) then Some(Obj(filled)) else None
  }

  // ---- Json::validate ------------------------------------------------------

  /** Json::validate over a finished tree: the tree it leaves (defaults and
      fix-ups included), or None when it rejects. */
  function Validate(c: Checkers, s: Schema, j: Json): Option<Json>
    decreases j, 2
  {
    if !ValidType(s.kw, j) then None
    else
      match j
      case Null => Some(Null)
      case Obj(_) => if MembersOk(c, s, j) then CloseObject(s, ValidMembers(c, s, j)) else None
      case Arr(a) =>
        if && MinSizeOk(s, |a|) && MaxSizeOk(s.kw, |a|)
           && forall i | 0 <= i < |a| :: IndexChild(s, i).Some? && Validate(c, IndexChild(s, i).value, a[i]).Some?
        then Some(Arr(seq(|a|, i requires 0 <= i < |a| => Validate(c, IndexChild(s, i).value, a[i]).value)))
        else None
      case _ =>
        var fixed := Fixup(s.kw, j);
        if ValidValue(c, s.kw, fixed) then Some(fixed) else None
  }

  /** Every member has a schema and passes it. */
  predicate MembersOk(c: Checkers, s: Schema, j: Json)
    requires j.Obj?
    decreases j, 0
  {
    forall k <- j.m :: KeyChild(s, k).Some? && Validate(c, KeyChild(s, k).value, j.m[k]).Some?
  }

  function ValidMembers(c: Checkers, s: Schema, j: Json): map<string, Json>
    requires j.Obj? && MembersOk(c, s, j)
    decreases j, 1
  {
    map k <- j.m :: Validate(c, KeyChild(s, k).value, j.m[k]).value
  }
}
