/** What a document spells and what the keywords of a schema mean, written out on
    the schema's own fields, and the proof that both ways of validating are
    exactly this meaning at every depth. */
module JsonMeaning {
  import opened Outcomes
  import opened JsonValue
  import opened JsonSchema
  import opened JsonStream
  import opened JsonAgreement

  /** The type names of a schema; an integer is a number, and a name that is not
      one of these fits nothing. */
  predicate HasType(name: string, j: Json) {
    || name == "any"
    || (name == "null" && j.Null?)
    || (name == "boolean" && j.Bool?)
    || (name == "integer" && j.Int?)
    || (name == "number" && (j.Int? || j.Dbl?))
    || (name == "string" && j.Str?)
    || (name == "object" && j.Obj?)
    || (name == "array" && j.Arr?)
  }

  /** "type" and "disallow". When both are given, passing one is enough. */
  predicate TypeMeans(kw: Keywords, j: Json) {
    || (kw.types.None? && kw.disallow.None?)
    || (kw.types.Some? && exists i :: 0 <= i < |kw.types.value| && HasType(kw.types.value[i], j))
    || (kw.disallow.Some? && forall i | 0 <= i < |kw.disallow.value| :: !HasType(kw.disallow.value[i], j))
  }

  /** `r` is what becomes of `j`: under "number" an integer turns into the double
      of its value narrowed to 32 bits, anything else stays. */
  ghost predicate Becomes(kw: Keywords, j: Json, r: Json) {
    if kw.types.Some? && "number" in kw.types.value && j.Int? then exists m :: Narrowed(j.n, m, r) else r == j
  }

  /** `r` is the double of `m`, which has 32 bits and differs from `n` by a
      multiple of 2^32. */
  predicate Narrowed(n: int, m: int, r: Json) {
    -0x8000_0000 <= m < 0x8000_0000 && (m - n) % 0x1_0000_0000 == 0 && r == Dbl(m as real)
  }

  /** minimum, maximum, maxDecimal, minLength, maxLength, format, pattern and
      enum of a value that is not null, an object or an array. */
  predicate ValueMeans(c: Checkers, kw: Keywords, r: Json) {
    && (kw.minimum.Some? ==> (r.Int? && r.n as real >= kw.minimum.value) || (r.Dbl? && r.x >= kw.minimum.value))
    && (kw.maximum.Some? ==> (r.Int? && r.n as real <= kw.maximum.value) || (r.Dbl? && r.x <= kw.maximum.value))
    && (kw.maxDecimal.Some? && r.Dbl? ==> c.decimals(r.x) <= kw.maxDecimal.value % 0x1_0000_0000_0000_0000)
    && (kw.minLength.Some? && r.Str? ==> |r.s| >= kw.minLength.value % 0x1_0000_0000_0000_0000)
    && (kw.maxLength.Some? && r.Str? ==> |r.s| <= kw.maxLength.value % 0x1_0000_0000_0000_0000)
    && (kw.format.Some? && kw.format.value != "" && r.Str? ==> c.formatOk(kw.format.value, r.s))
    && (kw.format.None? && c.defaultFormat != "" && r.Str? ==> c.formatOk(c.defaultFormat, r.s))
    && (kw.pattern.Some? && r.Str? ==> c.matches(kw.pattern.value, r.s))
    && (kw.choices.Some? ==> exists i :: 0 <= i < |kw.choices.value| && kw.choices.value[i] == r)
  }

  /** A tree no schema speaks about: only the default format applies. */
  predicate FreeTree(c: Checkers, j: Json) {
    match j
    case Str(s) => c.defaultFormat != "" ==> c.formatOk(c.defaultFormat, s)
    case Obj(m) => forall k <- m :: FreeTree(c, m[k])
    case Arr(a) => forall i | 0 <= i < |a| :: FreeTree(c, a[i])
    case _ => true
  }

  /** additionalProperties: absent or true lets any tree through unchanged, false
      lets none through. */
  ghost predicate ExtraMeans(c: Checkers, s: Schema, j: Json, r: Json, early: bool)
    decreases j, 1
  {
    match s.extra
    case Open => FreeTree(c, j) && r == j
    case Closed => false
    case Sub(t) => Means(c, t, j, r, early)
  }

  ghost predicate MemberMeans(c: Checkers, s: Schema, k: string, j: Json, r: Json, early: bool)
    decreases j, 2
  {
    if k in s.props then Means(c, s.props[k], j, r, early) else ExtraMeans(c, s, j, r, early)
  }

  ghost predicate ElemMeans(c: Checkers, s: Schema, i: nat, j: Json, r: Json, early: bool)
    decreases j, 2
  {
    match s.items
    case NoItems => ExtraMeans(c, s, j, r, early)
    case Each(t) => Means(c, t, j, r, early)
    case Tuple(ts) => if i < |ts| then Means(c, ts[i], j, r, early) else ExtraMeans(c, s, j, r, early)
  }

  /** default: `r` has the members of `m` and, for every property that `m` lacks
      and that has a default, that default; nothing else. */
  ghost predicate DefaultsMean(s: Schema, m: map<string, Json>, r: map<string, Json>) {
    && (forall k <- m :: k in r)
    && (forall k <- s.props :: s.props[k].kw.fallback.Some? ==> k in r)
    && (forall k <- r :: k in m || (k in s.props && s.props[k].kw.fallback.Some?
          && Becomes(s.props[k].kw, s.props[k].kw.fallback.value, r[k])))
  }

  /** optional and requires. */
  predicate PresenceMeans(s: Schema, r: map<string, Json>) {
    && (forall k <- s.props :: !s.props[k].kw.optional ==> k in r)
    && (forall k <- s.props :: s.props[k].kw.optional && k in r ==>
          forall i | 0 <= i < |s.props[k].kw.needs| :: s.props[k].kw.needs[i] in r)
  }

  /** minItems, maxItems, and the size of a tuple without additional elements. */
  predicate SizeMeans(s: Schema, size: nat) {
    && (s.kw.minItems.Some? ==> size >= s.kw.minItems.value % 0x1_0000_0000)
    && (s.kw.maxItems.Some? ==> size <= s.kw.maxItems.value % 0x1_0000_0000)
    && (s.items.Tuple? && s.extra.Closed? ==> size == |s.items.elems|)
  }

  /** `j` conforms to `s` and becomes `r`. The value keywords speak about what was
      read when `early`, and about what it becomes otherwise: the two differ for
      integers under "number" only. */
  ghost predicate Means(c: Checkers, s: Schema, j: Json, r: Json, early: bool)
    decreases j, 0
  {
    && TypeMeans(s.kw, j)
    && match j
       case Null => r == Null
       case Obj(m) =>
         && r.Obj? && DefaultsMean(s, m, r.m) && PresenceMeans(s, r.m)
         && forall k <- m :: k in r.m && MemberMeans(c, s, k, m[k], r.m[k], early)
       case Arr(a) =>
         && r.Arr? && |r.a| == |a| && SizeMeans(s, |a|)
         && forall i | 0 <= i < |a| :: i < |r.a| && ElemMeans(c, s, i, a[i], r.a[i], early)
       case _ => Becomes(s.kw, j, r) && ValueMeans(c, s.kw, if early then j else r)
  }

  // ---- the definitions of the engine have this meaning ---------------------------

  lemma {:induction false} TypeIsMeant(kw: Keywords, j: Json)
    ensures ValidType(kw, j) <==> TypeMeans(kw, j)
  {
    if kw.types.Some? { NameIsMeant(kw.types.value, j); }
    if kw.disallow.Some? { NameIsMeant(kw.disallow.value, j); }
  }

  lemma {:induction false} NameIsMeant(names: seq<string>, j: Json)
    ensures ListContains(names, DocType(j)) <==> exists i :: 0 <= i < |names| && HasType(names[i], j)
  {
    forall t: string
      ensures (t == "any" || t == DocType(j) || (t == "number" && DocType(j) == "integer")) <==> HasType(t, j)
    {
      NamesDiffer(t);
    }
    if ListContains(names, DocType(j)) {
      var t :| t in names && (t == "any" || t == DocType(j) || (t == "number" && DocType(j) == "integer"));
      var i :| 0 <= i < |names| && names[i] == t;
      assert HasType(names[i], j);
    }
    if i :| 0 <= i < |names| && HasType(names[i], j) {
      assert names[i] in names;
    }
  }

  /** Type names of equal length differ. */
  lemma NamesDiffer(t: string)
    ensures !(t == "string" && t == "number") && !(t == "string" && t == "object") && !(t == "number" && t == "object")
    ensures !(t == "integer" && t == "boolean")
  {
    assert "string"[0] == 's' && "number"[0] == 'n' && "object"[0] == 'o';
    assert "integer"[0] == 'i' && "boolean"[0] == 'b';
  }

  lemma {:induction false} FixupIsMeant(kw: Keywords, j: Json, r: Json)
    ensures Fixup(kw, j) == r <==> Becomes(kw, j, r)
  {
    if Fixes(kw) && j.Int? {
      var m := ToInt32(j.n);
      NarrowingIsMeant(j.n);
      hide ToInt32;
      assert Narrowed(j.n, m, Dbl(m as real));
      if Becomes(kw, j, r) {
        var n :| Narrowed(j.n, n, r);
        SameResidue(m, n, j.n);
      }
    }
  }

  lemma NarrowingIsMeant(n: int)
    ensures -0x8000_0000 <= ToInt32(n) < 0x8000_0000 && (ToInt32(n) - n) % 0x1_0000_0000 == 0
  {
    var q := (n + TWO_31) / TWO_32;
    assert ToInt32(n) - n == TWO_32 * -q;
  }

  lemma SameResidue(m: int, n: int, k: int)
    requires -0x8000_0000 <= m < 0x8000_0000 && -0x8000_0000 <= n < 0x8000_0000
    requires (m - k) % 0x1_0000_0000 == 0 && (n - k) % 0x1_0000_0000 == 0
    ensures m == n
  {
  }

  lemma {:induction false} ValueIsMeant(c: Checkers, kw: Keywords, r: Json)
    requires !r.Null? && !r.Obj? && !r.Arr?
    ensures ValidValue(c, kw, r) <==> ValueMeans(c, kw, r)
  {
    if kw.choices.Some? {
      assert r in kw.choices.value <==> exists i :: 0 <= i < |kw.choices.value| && kw.choices.value[i] == r;
    }
  }

  // ---- every depth ------------------------------------------------------------------

  /** The schema {"type":"any"} lets a tree through unchanged. */
  lemma {:induction false} AnyIsFreeAt(c: Checkers, j: Json, early: bool)
    ensures ValidateAt(c, AnySchema, j, early) == if FreeTree(c, j) then Some(j) else None
    decreases j
  {
    AnyChecks(c, j);
    hide ValidType, ValidValue, Fixup;
    match j
    case Obj(m) =>
      forall k | k in m
        ensures ValidateAt(c, AnySchema, m[k], early) == if FreeTree(c, m[k]) then Some(m[k]) else None
      {
        AnyIsFreeAt(c, m[k], early);
      }
      if FreeTree(c, j) {
        assert ValidMembersAt(c, AnySchema, j, early) == m;
        assert Defaults(AnySchema, m.Keys) == map[];
        assert WithDefaults(AnySchema, m) == m;
      }
    case Arr(a) =>
      forall i | 0 <= i < |a|
        ensures ValidateAt(c, AnySchema, a[i], early) == if FreeTree(c, a[i]) then Some(a[i]) else None
      {
        AnyIsFreeAt(c, a[i], early);
      }
      if FreeTree(c, j) {
        assert seq(|a|, i requires 0 <= i < |a| => ValidateAt(c, IndexChild(AnySchema, i).value, a[i], early).value) == a;
      }
    case _ =>
  }

  /** The checks of {"type":"any"} on one node. */
  lemma {:induction false} AnyChecks(c: Checkers, j: Json)
    ensures ValidType(AnySchema.kw, j) && Fixup(AnySchema.kw, j) == j
    ensures ValidValue(c, AnySchema.kw, j) <==> (j.Str? && c.defaultFormat != "" ==> c.formatOk(c.defaultFormat, j.s))
  {
    assert AnyKeywords.types.value == ["any"] && "any" in AnyKeywords.types.value;
    assert "number" !in AnyKeywords.types.value by { assert |"number"| != |"any"|; }
  }

  lemma {:induction false} ValidateAtIsMeant(c: Checkers, s: Schema, j: Json, r: Json, early: bool)
    ensures ValidateAt(c, s, j, early) == Some(r) <==> Means(c, s, j, r, early)
    decreases j, 3
  {
    hide ValidType, TypeMeans, Fixup, Becomes, ValidValue, ValueMeans;
    TypeIsMeant(s.kw, j);
    match j
    case Null =>
    case Obj(_) => ObjectIsMeant(c, s, j, r, early);
    case Arr(_) => ArrayIsMeant(c, s, j, r, early);
    case _ =>
      var fixed := Fixup(s.kw, j);
      FixupIsMeant(s.kw, j, r);
      FixupIsMeant(s.kw, j, fixed);
      FixupKeepsKind(s.kw, j);
      ValueIsMeant(c, s.kw, if early then j else fixed);
  }

  lemma {:induction false} FixupKeepsKind(kw: Keywords, j: Json)
    requires !j.Null? && !j.Obj? && !j.Arr?
    ensures var r := Fixup(kw, j); !r.Null? && !r.Obj? && !r.Arr?
  {
  }

  /** The child validators, for the schema the engine picks. */
  lemma {:induction false} ExtraIsMeant(c: Checkers, s: Schema, j: Json, r: Json, early: bool)
    ensures ExtraMeans(c, s, j, r, early) <==> ExtraChild(s).Some? && ValidateAt(c, ExtraChild(s).value, j, early) == Some(r)
    decreases j, 4
  {
    hide ValidateAt, Means;
    match s.extra
    case Open => AnyIsFreeAt(c, j, early);
    case Closed =>
    case Sub(t) => ValidateAtIsMeant(c, t, j, r, early);
  }

  lemma {:induction false} MemberIsMeant(c: Checkers, s: Schema, k: string, j: Json, r: Json, early: bool)
    ensures MemberMeans(c, s, k, j, r, early) <==> KeyChild(s, k).Some? && ValidateAt(c, KeyChild(s, k).value, j, early) == Some(r)
    decreases j, 5
  {
    hide ValidateAt, Means;
    if k in s.props { ValidateAtIsMeant(c, s.props[k], j, r, early); } else { ExtraIsMeant(c, s, j, r, early); }
  }

  lemma {:induction false} ElemIsMeant(c: Checkers, s: Schema, i: nat, j: Json, r: Json, early: bool)
    ensures ElemMeans(c, s, i, j, r, early) <==> IndexChild(s, i).Some? && ValidateAt(c, IndexChild(s, i).value, j, early) == Some(r)
    decreases j, 5
  {
    hide ValidateAt, Means;
    match s.items
    case NoItems => ExtraIsMeant(c, s, j, r, early);
    case Each(t) => ValidateAtIsMeant(c, t, j, r, early);
    case Tuple(ts) => if i < |ts| { ValidateAtIsMeant(c, ts[i], j, r, early); } else { ExtraIsMeant(c, s, j, r, early); }
  }

  lemma {:induction false} PresenceIsMeant(s: Schema, r: map<string, Json>)
    ensures RequiresOk(s, r.Keys) <==> PresenceMeans(s, r)
  {
    if RequiresOk(s, r.Keys) {
      forall k | k in s.props && s.props[k].kw.optional && k in r
        ensures forall i | 0 <= i < |s.props[k].kw.needs| :: s.props[k].kw.needs[i] in r
      {
        assert PropertyOk(s.props[k].kw, k, r.Keys);
      }
    }
    if PresenceMeans(s, r) {
      forall k | k in s.props
        ensures PropertyOk(s.props[k].kw, k, r.Keys)
      {
        var needs := s.props[k].kw.needs;
        if s.props[k].kw.optional && k in r {
          forall n | n in needs
            ensures n in r
          {
            var i :| 0 <= i < |needs| && needs[i] == n;
          }
        }
      }
    }
  }

  /** Filling in defaults, for members that are already in their final form. */
  lemma {:induction false} DefaultsAreMeant(s: Schema, m: map<string, Json>, r: map<string, Json>)
    ensures WithDefaults(s, m) == r <==> DefaultsMean(s, m, r) && forall k <- m :: k in r && r[k] == m[k]
  {
    hide Becomes, Fixup;
    var d := Defaults(s, m.Keys);
    assert forall k :: k in d <==> Defaulted(s, m.Keys, k);
    forall k | k in d && k in r
      ensures r[k] == d[k] <==> Becomes(s.props[k].kw, s.props[k].kw.fallback.value, r[k])
    {
      FixupIsMeant(s.props[k].kw, s.props[k].kw.fallback.value, r[k]);
    }
    if DefaultsMean(s, m, r) && forall k <- m :: k in r && r[k] == m[k] {
      assert WithDefaults(s, m).Keys == r.Keys;
      assert WithDefaults(s, m) == r;
    }
  }

  /** Every member validates to its counterpart in `r`. */
  ghost predicate MembersBecome(c: Checkers, s: Schema, m: map<string, Json>, r: map<string, Json>, early: bool) {
    forall k <- m :: k in r && KeyChild(s, k).Some? && ValidateAt(c, KeyChild(s, k).value, m[k], early) == Some(r[k])
  }

  lemma {:induction false} MembersAreMeant(c: Checkers, s: Schema, j: Json, r: map<string, Json>, early: bool)
    requires j.Obj?
    ensures MembersBecome(c, s, j.m, r, early) <==> forall k <- j.m :: k in r && MemberMeans(c, s, k, j.m[k], r[k], early)
    decreases j, 1
  {
    hide KeyChild, MemberMeans, ValidateAt;
    forall k | k in j.m && k in r
      ensures MemberMeans(c, s, k, j.m[k], r[k], early) <==> KeyChild(s, k).Some? && ValidateAt(c, KeyChild(s, k).value, j.m[k], early) == Some(r[k])
    {
      MemberIsMeant(c, s, k, j.m[k], r[k], early);
    }
  }

  /** The members validate to those of `r` exactly when `r` extends the valid
      members. */
  lemma {:induction false} ValidMembersBecome(c: Checkers, s: Schema, j: Json, r: map<string, Json>, early: bool)
    requires j.Obj?
    ensures MembersBecome(c, s, j.m, r, early) <==>
      && MembersOkAt(c, s, j, early)
      && forall k <- ValidMembersAt(c, s, j, early) :: k in r && r[k] == ValidMembersAt(c, s, j, early)[k]
  {
    hide KeyChild, ValidateAt;
    if MembersBecome(c, s, j.m, r, early) {
      assert MembersOkAt(c, s, j, early);
    }
  }

  lemma {:induction false} ObjectIsMeant(c: Checkers, s: Schema, j: Json, r: Json, early: bool)
    requires j.Obj?
    ensures ValidateAt(c, s, j, early) == Some(r) <==> Means(c, s, j, r, early)
    decreases j, 2
  {
    TypeIsMeant(s.kw, j);
    if r.Obj? {
      MembersAreMeant(c, s, j, r.m, early);
      ValidMembersBecome(c, s, j, r.m, early);
      PresenceIsMeant(s, r.m);
      hide ValidType, TypeMeans, KeyChild, MemberMeans, RequiresOk, PresenceMeans, MembersBecome;
      if MembersOkAt(c, s, j, early) {
        var vm := ValidMembersAt(c, s, j, early);
        DefaultsAreMeant(s, vm, r.m);
        SameKeysDefaults(s, vm, j.m, r.m);
        hide MembersOkAt, ValidMembersAt, WithDefaults, DefaultsMean;
      }
    }
  }

  /** Defaults depend on which members there are. */
  lemma {:induction false} SameKeysDefaults(s: Schema, m: map<string, Json>, n: map<string, Json>, r: map<string, Json>)
    requires m.Keys == n.Keys
    ensures DefaultsMean(s, m, r) <==> DefaultsMean(s, n, r)
  {
    hide Becomes;
    assert forall k :: k in m <==> k in n;
  }

  lemma {:induction false} ArrayIsMeant(c: Checkers, s: Schema, j: Json, r: Json, early: bool)
    requires j.Arr?
    ensures ValidateAt(c, s, j, early) == Some(r) <==> Means(c, s, j, r, early)
    decreases j, 2
  {
    TypeIsMeant(s.kw, j);
    SizeIsMeant(s, |j.a|);
    hide ValidType, TypeMeans, IndexChild, ElemMeans, MinSizeOk, MaxSizeOk, SizeMeans;
    var a := j.a;
    if r.Arr? && |r.a| == |a| {
      forall i: nat | i < |a|
        ensures ElemMeans(c, s, i, a[i], r.a[i], early) <==>
          IndexChild(s, i).Some? && ValidateAt(c, IndexChild(s, i).value, a[i], early) == Some(r.a[i])
      {
        ElemIsMeant(c, s, i, a[i], r.a[i], early);
      }
      if Means(c, s, j, r, early) {
        assert forall i | 0 <= i < |a| :: IndexChild(s, i).Some? && ValidateAt(c, IndexChild(s, i).value, a[i], early) == Some(r.a[i]);
        assert ValidateAt(c, s, j, early).Some?;
        assert ValidateAt(c, s, j, early).value.a == r.a;
      }
    }
  }

  lemma {:induction false} SizeIsMeant(s: Schema, size: nat)
    ensures MinSizeOk(s, size) && MaxSizeOk(s.kw, size) <==> SizeMeans(s, size)
  {
  }

  // ---- what a document says ----------------------------------------------------------

  predicate DistinctKeys(ms: seq<Member>) { forall i, k | 0 <= i < k < |ms| :: ms[i].key != ms[k].key }

  predicate HasKey(ms: seq<Member>, key: string) { exists i :: 0 <= i < |ms| && ms[i].key == key }

  /** The document `d` spells the tree `j`: integers are those of an int64_t, no
      object repeats a key. */
  ghost predicate Spells(d: Doc, j: Json)
    decreases d
  {
    match d
    case DNull => j == Null
    case DBool(b) => j == Bool(b)
    case DNum(Digits(n)) => -9_223_372_036_854_775_808 <= n <= 9_223_372_036_854_775_807 && j == Int(n)
    case DNum(Decimal(x)) => j == Dbl(x)
    case DNum(Unconvertible) => false
    case DStr(s) => j == Str(s)
    case DObj(ms) =>
      && j.Obj? && DistinctKeys(ms)
      && (forall i | 0 <= i < |ms| :: ms[i].key in j.m && Spells(ms[i].val, j.m[ms[i].key]))
      && forall k <- j.m :: HasKey(ms, k)
    case DArr(ds) => j.Arr? && |j.a| == |ds| && forall i | 0 <= i < |ds| :: Spells(ds[i], j.a[i])
  }

  /** `m` is `sofar` with the members of `ms` added. */
  ghost predicate SpellsMembers(ms: seq<Member>, sofar: map<string, Json>, m: map<string, Json>) {
    && DistinctKeys(ms) && (forall k <- sofar :: !HasKey(ms, k) && k in m && m[k] == sofar[k])
    && (forall i | 0 <= i < |ms| :: ms[i].key in m && Spells(ms[i].val, m[ms[i].key]))
    && forall k <- m :: k in sofar || HasKey(ms, k)
  }

  lemma {:induction false} StreamSpells(c: Checkers, d: Doc, j: Json)
    ensures Stream(c, None, d) == Some(j) <==> Spells(d, j)
    decreases d, 1
  {
    match d
    case DObj(ms) =>
      if j.Obj? { MembersSpell(c, ms, map[], j.m); }
    case DArr(ds) =>
      if j.Arr? { ElemsSpell(c, ds, 0, j.a); }
    case _ =>
  }

  /** One member more. */
  lemma {:induction false} SpellingStep(ms: seq<Member>, sofar: map<string, Json>, m: map<string, Json>)
    requires ms != []
    ensures var k := ms[0].key;
      SpellsMembers(ms, sofar, m) <==>
        && k !in sofar && k in m && Spells(ms[0].val, m[k]) && SpellsMembers(ms[1..], sofar[k := m[k]], m)
  {
    hide Spells;
    var k, rest := ms[0].key, ms[1..];
    KeysSplit(ms);
    hide HasKey, DistinctKeys;
    assert forall i | 0 < i < |ms| :: ms[i] == rest[i - 1];
    assert forall i | 0 <= i < |rest| :: rest[i] == ms[i + 1];
  }

  lemma {:induction false} KeysSplit(ms: seq<Member>)
    requires ms != []
    ensures forall key :: HasKey(ms, key) <==> key == ms[0].key || HasKey(ms[1..], key)
    ensures DistinctKeys(ms) <==> DistinctKeys(ms[1..]) && !HasKey(ms[1..], ms[0].key)
  {
    var rest := ms[1..];
    assert forall i | 0 < i < |ms| :: ms[i] == rest[i - 1];
    assert forall i | 0 <= i < |rest| :: rest[i] == ms[i + 1];
  }

  lemma {:induction false} MembersSpell(c: Checkers, ms: seq<Member>, sofar: map<string, Json>, m: map<string, Json>)
    ensures StreamMembers(c, None, ms, sofar) == Some(m) <==> SpellsMembers(ms, sofar, m)
    decreases ms, 0
  {
    hide Stream, Spells;
    if ms == [] {
      if SpellsMembers(ms, sofar, m) { assert m == sofar; }
    } else {
      var k, rest := ms[0].key, ms[1..];
      SpellingStep(ms, sofar, m);
      if Stream(c, None, ms[0].val).Some? && k !in sofar {
        MembersExtend(c, rest, sofar[k := Stream(c, None, ms[0].val).value]);
      }
      if k in m {
        StreamSpells(c, ms[0].val, m[k]);
        MembersSpell(c, rest, sofar[k := m[k]], m);
      }
      hide SpellsMembers;
    }
  }

  lemma {:induction false} ElemsSpell(c: Checkers, ds: seq<Doc>, index: nat, a: seq<Json>)
    ensures StreamElems(c, None, ds, index) == Some(a) <==> |a| == |ds| && forall i | 0 <= i < |ds| :: Spells(ds[i], a[i])
    decreases ds, 0
  {
    hide Stream, Spells;
    if ds != [] && a != [] {
      StreamSpells(c, ds[0], a[0]);
      ElemsSpell(c, ds[1..], index + 1, a[1..]);
      assert a == [a[0]] + a[1..];
      assert forall i | 0 < i < |ds| :: ds[i] == ds[1..][i - 1];
      assert |a| == |ds| ==> forall i | 0 < i < |ds| :: a[i] == a[1..][i - 1];
    }
  }

  /** Without a schema a document is read as the tree it spells, and refused when
      it spells none. */
  lemma {:induction false} ReadingIsMeant(c: Checkers, d: Doc, j: Json)
    ensures Parse(c, None, d) == Some(j) <==> Spells(d, j)
  {
    hide Parse, Stream, Spells;
    ParseIsStream(c, None, d);
    StreamSpells(c, d, j);
  }

  // ---- main results ----------------------------------------------------------------

  /** Validation accepts `j` with result `r` exactly when `j` conforms to the
      schema, keyword by keyword and at every depth, and becomes `r`. */
  lemma {:induction false} ValidateIsMeant(c: Checkers, s: Schema, j: Json, r: Json)
    ensures Validate(c, s, j) == Some(r) <==> Means(c, s, j, r, false)
  {
    ValidateIsLate(c, s, j);
    ValidateAtIsMeant(c, s, j, r, false);
    hide Validate, ValidateAt, Means;
  }

  lemma {:induction false} AnyIsFree(c: Checkers, j: Json)
    ensures Validate(c, AnySchema, j) == if FreeTree(c, j) then Some(j) else None
  {
    ValidateIsLate(c, AnySchema, j);
    AnyIsFreeAt(c, j, false);
    hide Validate, ValidateAt, FreeTree;
  }

  /** Streaming under a schema accepts a document with result `r` exactly when it
      spells a tree that conforms, with numbers as they were read, and becomes
      `r`: for every schema and document. */
  lemma {:induction false} StreamingIsMeant(c: Checkers, s: Schema, d: Doc, r: Json)
    ensures Parse(c, Some(s), d) == Some(r) <==> exists j :: Spells(d, j) && Means(c, s, j, r, true)
  {
    hide Parse, Means, ValidateAt, Judge, Stream, Spells;
    ParseIsStream(c, Some(s), d);
    StreamIsJudge(c, s, d);
    JudgeIsValidateAt(c, s, d, true);
    forall j
      ensures Stream(c, None, d) == Some(j) <==> Spells(d, j)
      ensures ValidateAt(c, s, j, true) == Some(r) <==> Means(c, s, j, r, true)
    {
      StreamSpells(c, d, j);
      ValidateAtIsMeant(c, s, j, r, true);
    }
    if Stream(c, None, d).Some? { assert Spells(d, Stream(c, None, d).value); }
  }

  /** The tree route does so with numbers as what they become. */
  lemma {:induction false} TreeRouteIsMeant(c: Checkers, s: Schema, d: Doc, r: Json)
    ensures ParseThenValidate(c, s, d) == Some(r) <==> exists j :: Spells(d, j) && Means(c, s, j, r, false)
  {
    hide Parse, Means, Validate, Spells;
    forall j
      ensures Parse(c, None, d) == Some(j) <==> Spells(d, j)
      ensures Validate(c, s, j) == Some(r) <==> Means(c, s, j, r, false)
    {
      ReadingIsMeant(c, d, j);
      ValidateIsMeant(c, s, j, r);
    }
    if Parse(c, None, d).Some? { assert Spells(d, Parse(c, None, d).value); }
  }
}
