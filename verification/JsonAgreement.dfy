/** Streaming validation against tree validation: parsing under a schema, and
    parsing without one followed by Json::validate, accept the same documents
    and leave the same tree. The two differ on one kind of leaf, an integer
    under a "number" type: parse_number checks the value before typeFixup,
    validate checks it afterwards. */
module JsonAgreement {
  import opened Outcomes
  import opened JsonValue
  import opened JsonSchema
  import opened JsonStream

  /** The tree route. */
  function ParseThenValidate(c: Checkers, s: Schema, d: Doc): Option<Json> {
    match Parse(c, None, d)
    case None => None
    case Some(j) => Validate(c, s, j)
  }

  // ---- one reading with the integer check as a parameter ---------------------

  /** When the value of an integer under a "number" type is checked: by
      parse_number as read, by validate as the double it becomes, or never. */
  datatype Timing = BeforeFixup | AfterFixup | Unchecked

  predicate LeafOk(c: Checkers, kw: Keywords, n: int, t: Timing) {
    match t
    case BeforeFixup => InRange(kw, Int(n)) && Chosen(kw, Int(n))
    case AfterFixup =>
      var fixed := Dbl(ToInt32(n) as real);
      InRange(kw, fixed) && Chosen(kw, fixed) && DecimalsOk(c, kw, fixed)
    case Unchecked => true
  }

  /** The document is an integer that the node turns into a double. */
  predicate Fixed(s: Schema, d: Doc) { d.DNum? && d.t.Digits? && FitsInt64(d.t.n) && Fixes(s.kw) }

  /** Reading a document under a schema, with the integers that are fixed up
      checked at time `t`. */
  function Judge(c: Checkers, s: Schema, d: Doc, t: Timing): Option<Json>
    decreases d
  {
    if Fixed(s, d) then if LeafOk(c, s.kw, d.t.n, t) then Some(Fixup(s.kw, Int(d.t.n))) else None
    else
      match d
      case DObj(ms) =>
        if !ValidType(s.kw, Obj(map[])) then None
        else
          (match JudgeMembers(c, s, ms, map[], t)
           case None => None
           case Some(m) => CloseObject(s, m))
      case DArr(ds) =>
        if !ValidType(s.kw, Arr([])) then None
        else
          (match JudgeElems(c, s, ds, 0, t)
           case None => None
           case Some(es) => EndResult(ArrFrame(Some(s), es)))
      case _ => Stream(c, Some(s), d)
  }

  function JudgeMembers(c: Checkers, s: Schema, ms: seq<Member>, sofar: map<string, Json>, t: Timing): Option<map<string, Json>>
    decreases ms
  {
    if ms == [] then Some(sofar)
    else if KeyChild(s, ms[0].key).None? || ms[0].key in sofar then None
    else
      match Judge(c, KeyChild(s, ms[0].key).value, ms[0].val, t)
      case None => None
      case Some(v) => JudgeMembers(c, s, ms[1..], sofar[ms[0].key := v], t)
  }

  function JudgeElems(c: Checkers, s: Schema, ds: seq<Doc>, index: nat, t: Timing): (r: Option<seq<Json>>)
    ensures r.Some? ==> |r.value| == |ds|
    decreases ds
  {
    if ds == [] then Some([])
    else if ChildAt(Some(s), index).None? then None
    else
      match Judge(c, IndexChild(s, index).value, ds[0], t)
      case None => None
      case Some(v) =>
        match JudgeElems(c, s, ds[1..], index + 1, t)
        case None => None
        case Some(vs) => Some([v] + vs)
  }

  /** Every integer that is fixed up passes the check at time `t`, each with
      the schema node the engine pairs it with. */
  predicate LeavesOk(c: Checkers, s: Schema, d: Doc, t: Timing)
    decreases d
  {
    && (Fixed(s, d) ==> LeafOk(c, s.kw, d.t.n, t))
    && (d.DObj? ==> MemberLeavesOk(c, s, d.ms, t))
    && (d.DArr? ==> ElemLeavesOk(c, s, d.ds, 0, t))
  }

  predicate MemberLeavesOk(c: Checkers, s: Schema, ms: seq<Member>, t: Timing)
    decreases ms
  {
    ms != [] ==>
      && (KeyChild(s, ms[0].key).Some? ==> LeavesOk(c, KeyChild(s, ms[0].key).value, ms[0].val, t))
      && MemberLeavesOk(c, s, ms[1..], t)
  }

  predicate ElemLeavesOk(c: Checkers, s: Schema, ds: seq<Doc>, index: nat, t: Timing)
    decreases ds
  {
    ds != [] ==>
      && (IndexChild(s, index).Some? ==> LeavesOk(c, IndexChild(s, index).value, ds[0], t))
      && ElemLeavesOk(c, s, ds[1..], index + 1, t)
  }

  /** The check on those integers can be made separately. */
  lemma {:induction false} JudgeSplits(c: Checkers, s: Schema, d: Doc, t: Timing)
    ensures Judge(c, s, d, t) == if LeavesOk(c, s, d, t) then Judge(c, s, d, Unchecked) else None
    decreases d, 1
  {
    match d
    case DObj(ms) => MembersSplit(c, s, ms, map[], t);
    case DArr(ds) => ElemsSplit(c, s, ds, 0, t);
    case _ =>
  }

  lemma {:induction false} MembersSplit(c: Checkers, s: Schema, ms: seq<Member>, sofar: map<string, Json>, t: Timing)
    ensures JudgeMembers(c, s, ms, sofar, t) ==
      if MemberLeavesOk(c, s, ms, t) then JudgeMembers(c, s, ms, sofar, Unchecked) else None
    decreases ms, 0
  {
    hide Judge, LeavesOk, KeyChild;
    if ms != [] && KeyChild(s, ms[0].key).Some? && ms[0].key !in sofar {
      var child := KeyChild(s, ms[0].key).value;
      JudgeSplits(c, child, ms[0].val, t);
      match Judge(c, child, ms[0].val, Unchecked) {
        case None =>
        case Some(v) => MembersSplit(c, s, ms[1..], sofar[ms[0].key := v], t);
      }
    }
  }

  lemma {:induction false} ElemsSplit(c: Checkers, s: Schema, ds: seq<Doc>, index: nat, t: Timing)
    ensures JudgeElems(c, s, ds, index, t) ==
      if ElemLeavesOk(c, s, ds, index, t) then JudgeElems(c, s, ds, index, Unchecked) else None
    decreases ds, 0
  {
    hide Judge, LeavesOk, IndexChild, MaxSizeOk;
    if ds != [] && ChildAt(Some(s), index).Some? {
      JudgeSplits(c, IndexChild(s, index).value, ds[0], t);
      ElemsSplit(c, s, ds[1..], index + 1, t);
    }
  }

  lemma {:induction false} FixingAcceptsIntegers(kw: Keywords)
    ensures Fixes(kw) ==> forall n :: ValidType(kw, Int(n))
  {
    assert Fixes(kw) ==> "number" in kw.types.value;
  }

  // ---- streaming checks before the fix-up --------------------------------------

  lemma {:induction false} StreamIsJudge(c: Checkers, s: Schema, d: Doc)
    ensures Stream(c, Some(s), d) == Judge(c, s, d, BeforeFixup)
    decreases d, 1
  {
    match d
    case DObj(ms) => StreamMembersIsJudge(c, s, ms, map[]);
    case DArr(ds) => StreamElemsIsJudge(c, s, ds, 0);
    case DNum(_) => FixingAcceptsIntegers(s.kw);
    case _ =>
  }

  lemma {:induction false} StreamMembersIsJudge(c: Checkers, s: Schema, ms: seq<Member>, sofar: map<string, Json>)
    ensures StreamMembers(c, Some(s), ms, sofar) == JudgeMembers(c, s, ms, sofar, BeforeFixup)
    decreases ms, 0
  {
    hide Judge, Stream, KeyChild;
    if ms != [] && KeyChild(s, ms[0].key).Some? && ms[0].key !in sofar {
      StreamIsJudge(c, KeyChild(s, ms[0].key).value, ms[0].val);
      match Stream(c, KeyChild(s, ms[0].key), ms[0].val) {
        case None =>
        case Some(v) => StreamMembersIsJudge(c, s, ms[1..], sofar[ms[0].key := v]);
      }
    }
  }

  lemma {:induction false} StreamElemsIsJudge(c: Checkers, s: Schema, ds: seq<Doc>, index: nat)
    ensures StreamElems(c, Some(s), ds, index) == JudgeElems(c, s, ds, index, BeforeFixup)
    decreases ds, 0
  {
    hide Judge, Stream, IndexChild, MaxSizeOk;
    if ds != [] && ChildAt(Some(s), index).Some? {
      StreamIsJudge(c, IndexChild(s, index).value, ds[0]);
      StreamElemsIsJudge(c, s, ds[1..], index + 1);
    }
  }

  // ---- a finished tree, with the check at either time ----------------------------

  function When(early: bool): Timing { if early then BeforeFixup else AfterFixup }

  /** Validation of a finished tree, with the values of scalars checked before
      the fix-up or after it. */
  function ValidateAt(c: Checkers, s: Schema, j: Json, early: bool): Option<Json>
    decreases j, 2
  {
    if !ValidType(s.kw, j) then None
    else
      match j
      case Null => Some(Null)
      case Obj(_) => if MembersOkAt(c, s, j, early) then CloseObject(s, ValidMembersAt(c, s, j, early)) else None
      case Arr(a) =>
        if && MinSizeOk(s, |a|) && MaxSizeOk(s.kw, |a|)
           && forall i | 0 <= i < |a| :: IndexChild(s, i).Some? && ValidateAt(c, IndexChild(s, i).value, a[i], early).Some?
        then Some(Arr(seq(|a|, i requires 0 <= i < |a| => ValidateAt(c, IndexChild(s, i).value, a[i], early).value)))
        else None
      case _ =>
        var fixed := Fixup(s.kw, j);
        if ValidValue(c, s.kw, if early then j else fixed) then Some(fixed) else None
  }

  predicate MembersOkAt(c: Checkers, s: Schema, j: Json, early: bool)
    requires j.Obj?
    decreases j, 0
  {
    forall k <- j.m :: KeyChild(s, k).Some? && ValidateAt(c, KeyChild(s, k).value, j.m[k], early).Some?
  }

  function ValidMembersAt(c: Checkers, s: Schema, j: Json, early: bool): map<string, Json>
    requires j.Obj? && MembersOkAt(c, s, j, early)
    decreases j, 1
  {
    map k <- j.m :: ValidateAt(c, KeyChild(s, k).value, j.m[k], early).value
  }

  /** Json::validate checks afterwards. */
  lemma {:induction false} ValidateIsLate(c: Checkers, s: Schema, j: Json)
    ensures ValidateAt(c, s, j, false) == Validate(c, s, j)
    decreases j
  {
    hide ValidType, ValidValue, Fixup, CloseObject, MinSizeOk, MaxSizeOk, KeyChild, IndexChild;
    match j
    case Obj(m) =>
      forall k | k in m && KeyChild(s, k).Some?
        ensures ValidateAt(c, KeyChild(s, k).value, m[k], false) == Validate(c, KeyChild(s, k).value, m[k])
      {
        ValidateIsLate(c, KeyChild(s, k).value, m[k]);
      }
      if MembersOk(c, s, j) {
        assert ValidMembersAt(c, s, j, false) == ValidMembers(c, s, j);
      }
    case Arr(a) =>
      forall i | 0 <= i < |a| && IndexChild(s, i).Some?
        ensures ValidateAt(c, IndexChild(s, i).value, a[i], false) == Validate(c, IndexChild(s, i).value, a[i])
      {
        ValidateIsLate(c, IndexChild(s, i).value, a[i]);
      }
      if Validate(c, s, j).Some? {
        assert Validate(c, s, j).value.a == ValidateAt(c, s, j, false).value.a;
      }
    case _ =>
  }

  // ---- reading a document is checking its tree ----------------------------------

  lemma {:induction false} JudgeIsValidateAt(c: Checkers, s: Schema, d: Doc, early: bool)
    ensures Judge(c, s, d, When(early)) ==
      match Stream(c, None, d)
      case None => None
      case Some(j) => ValidateAt(c, s, j, early)
    decreases d, 1
  {
    match d
    case DObj(ms) =>
      MembersAgree(c, s, ms, map[], map[], early);
      if Stream(c, None, d).Some? {
        var m := StreamMembers(c, None, ms, map[]).value;
        assert ValidType(s.kw, Obj(m)) == ValidType(s.kw, Obj(map[]));
      }
    case DArr(ds) =>
      ElemsAgree(c, s, ds, [], early);
      if Stream(c, None, d).Some? && ValidType(s.kw, Stream(c, None, d).value) {
        var a := StreamElems(c, None, ds, 0).value;
        assert [] + a == a;
        ArrayAgrees(c, s, a, early);
      }
    case DNum(_) => FixingAcceptsIntegers(s.kw);
    case _ =>
  }

  /** The members read so far are the validated form of the members built so
      far; the rest of the object keeps that. */
  lemma {:induction false} MembersAgree(
    c: Checkers, s: Schema, ms: seq<Member>, done: map<string, Json>, built: map<string, Json>, early: bool)
    requires done.Keys == built.Keys
    requires forall k <- built :: KeyChild(s, k).Some? && ValidateAt(c, KeyChild(s, k).value, built[k], early) == Some(done[k])
    ensures
      match StreamMembers(c, None, ms, built)
      case None => JudgeMembers(c, s, ms, done, When(early)) == None
      case Some(m) =>
        JudgeMembers(c, s, ms, done, When(early)) ==
          if MembersOkAt(c, s, Obj(m), early) then Some(ValidMembersAt(c, s, Obj(m), early)) else None
    decreases ms, 0
  {
    hide Stream, ValidateAt, KeyChild, Judge;
    if ms == [] {
      assert done == ValidMembersAt(c, s, Obj(built), early);
    } else {
      var k := ms[0].key;
      if k !in built {
        match Stream(c, None, ms[0].val) {
          case None =>
            if KeyChild(s, k).Some? { JudgeIsValidateAt(c, KeyChild(s, k).value, ms[0].val, early); }
          case Some(j) =>
            var longer := built[k := j];
            MembersExtend(c, ms[1..], longer);
            assert k in longer && longer[k] == j;
            assert StreamMembers(c, None, ms, built) == StreamMembers(c, None, ms[1..], longer);
            if KeyChild(s, k).Some? {
              JudgeIsValidateAt(c, KeyChild(s, k).value, ms[0].val, early);
              match ValidateAt(c, KeyChild(s, k).value, j, early) {
                case None =>
                case Some(v) => MembersAgree(c, s, ms[1..], done[k := v], longer, early);
              }
            }
        }
      }
    }
  }

  lemma {:induction false} MembersExtend(c: Checkers, ms: seq<Member>, built: map<string, Json>)
    ensures StreamMembers(c, None, ms, built).Some? ==>
      var m := StreamMembers(c, None, ms, built).value;
      forall k <- built :: k in m && m[k] == built[k]
    decreases ms
  {
    if ms != [] && ms[0].key !in built && Stream(c, None, ms[0].val).Some? {
      MembersExtend(c, ms[1..], built[ms[0].key := Stream(c, None, ms[0].val).value]);
    }
  }

  predicate ElemOk(c: Checkers, s: Schema, index: nat, j: Json, early: bool) {
    ChildAt(Some(s), index).Some? && ValidateAt(c, IndexChild(s, index).value, j, early).Some?
  }

  /** The elements of `a` from position `from` on, checked one after the other
      with the size limit applied at each. */
  function ValidateFrom(c: Checkers, s: Schema, a: seq<Json>, from: nat, early: bool): (r: Option<seq<Json>>)
    requires from <= |a|
    ensures r.Some? ==> |r.value| == |a| - from
    decreases |a| - from
  {
    if from == |a| then Some([])
    else if !ElemOk(c, s, from, a[from], early) then None
    else
      match ValidateFrom(c, s, a, from + 1, early)
      case None => None
      case Some(vs) => Some([ValidateAt(c, IndexChild(s, from).value, a[from], early).value] + vs)
  }

  /** With `built` already in the array, reading the elements `ds` is building
      them and checking what they add. */
  lemma {:induction false} ElemsAgree(c: Checkers, s: Schema, ds: seq<Doc>, built: seq<Json>, early: bool)
    ensures JudgeElems(c, s, ds, |built|, When(early)) ==
      match StreamElems(c, None, ds, |built|)
      case None => None
      case Some(a) => ValidateFrom(c, s, built + a, |built|, early)
    decreases ds, 0
  {
    hide Judge, Stream, ValidateAt, IndexChild, MaxSizeOk;
    if ds != [] {
      if IndexChild(s, |built|).Some? { JudgeIsValidateAt(c, IndexChild(s, |built|).value, ds[0], early); }
      if Stream(c, None, ds[0]).Some? {
        var j := Stream(c, None, ds[0]).value;
        ElemsAgree(c, s, ds[1..], built + [j], early);
        if StreamElems(c, None, ds[1..], |built| + 1).Some? {
          var vs := StreamElems(c, None, ds[1..], |built| + 1).value;
          assert built + ([j] + vs) == built + [j] + vs;
        }
      }
    }
  }

  lemma {:induction false} FromAt(c: Checkers, s: Schema, a: seq<Json>, from: nat, early: bool)
    requires from <= |a|
    ensures ValidateFrom(c, s, a, from, early).Some? <==> forall i | from <= i < |a| :: ElemOk(c, s, i, a[i], early)
    ensures ValidateFrom(c, s, a, from, early).Some? ==>
      forall i | from <= i < |a| ::
        ElemOk(c, s, i, a[i], early) &&
        ValidateFrom(c, s, a, from, early).value[i - from] == ValidateAt(c, IndexChild(s, i).value, a[i], early).value
    decreases |a| - from
  {
    hide ElemOk, ValidateAt;
    if from < |a| {
      FromAt(c, s, a, from + 1, early);
      if ValidateFrom(c, s, a, from, early).Some? {
        var vs := ValidateFrom(c, s, a, from + 1, early).value;
        assert forall i | from < i < |a| ::
          ValidateFrom(c, s, a, from, early).value[i - from] == vs[i - (from + 1)] && a[i] == a[i];
      }
    }
  }

  /** Checking maxItems at every push is checking it once at the end. */
  lemma {:induction false} ArrayAgrees(c: Checkers, s: Schema, a: seq<Json>, early: bool)
    requires ValidType(s.kw, Arr(a))
    ensures ValidateAt(c, s, Arr(a), early) ==
      match ValidateFrom(c, s, a, 0, early)
      case None => None
      case Some(vs) => EndResult(ArrFrame(Some(s), vs))
  {
    FromAt(c, s, a, 0, early);
    if ValidateFrom(c, s, a, 0, early).Some? {
      var vs := ValidateFrom(c, s, a, 0, early).value;
      assert a != [] ==> ElemOk(c, s, |a| - 1, a[|a| - 1], early);
      assert MaxSizeOk(s.kw, |a|);
      if MinSizeOk(s, |a|) {
        var ws := ValidateAt(c, s, Arr(a), early).value.a;
        assert forall i | 0 <= i < |a| :: vs[i - 0] == ws[i];
        assert vs == ws;
      }
    } else {
      var i :| 0 <= i < |a| && !ElemOk(c, s, i, a[i], early);
      assert MaxSizeOk(s.kw, |a|) ==> MaxSizeOk(s.kw, i + 1);
    }
  }

  /** The tree route checks after the fix-up. */
  lemma {:induction false} JudgeIsValidate(c: Checkers, s: Schema, d: Doc)
    ensures Judge(c, s, d, AfterFixup) ==
      match Stream(c, None, d)
      case None => None
      case Some(j) => Validate(c, s, j)
  {
    hide Judge, Stream, Validate, ValidateAt;
    JudgeIsValidateAt(c, s, d, false);
    if Stream(c, None, d).Some? { ValidateIsLate(c, s, Stream(c, None, d).value); }
  }

  // ---- main results --------------------------------------------------------------

  /** Streaming and parse-then-validate give the same verdict and the same tree,
      for every schema and document (repeated keys included), exactly when the
      document is rejected whatever its fixed-up integers are, or those pass
      the check before the fix-up if and only if they pass it afterwards. */
  lemma {:induction false} StreamingEqualsTree(c: Checkers, s: Schema, d: Doc)
    ensures Parse(c, Some(s), d) == ParseThenValidate(c, s, d) <==>
      || Judge(c, s, d, Unchecked).None?
      || (LeavesOk(c, s, d, BeforeFixup) <==> LeavesOk(c, s, d, AfterFixup))
  {
    hide Judge, LeavesOk, Stream;
    ParseIsStream(c, Some(s), d);
    ParseIsStream(c, None, d);
    StreamIsJudge(c, s, d);
    JudgeIsValidate(c, s, d);
    JudgeSplits(c, s, d, BeforeFixup);
    JudgeSplits(c, s, d, AfterFixup);
  }

  /** Whenever both accept they leave the same tree. */
  lemma {:induction false} AcceptedTreesAreEqual(c: Checkers, s: Schema, d: Doc)
    ensures Parse(c, Some(s), d).Some? && ParseThenValidate(c, s, d).Some? ==>
      Parse(c, Some(s), d) == ParseThenValidate(c, s, d)
  {
    hide Judge, LeavesOk, Stream;
    ParseIsStream(c, Some(s), d);
    ParseIsStream(c, None, d);
    StreamIsJudge(c, s, d);
    JudgeIsValidate(c, s, d);
    JudgeSplits(c, s, d, BeforeFixup);
    JudgeSplits(c, s, d, AfterFixup);
  }

  // ---- a condition on the schema alone --------------------------------------

  /** No node combines a "number" type with enum or maxDecimal. */
  predicate NumberSafe(s: Schema)
    decreases s
  {
    && (Fixes(s.kw) ==> s.kw.choices.None? && s.kw.maxDecimal.None?)
    && (forall k <- s.props :: NumberSafe(s.props[k]))
    && (s.items.Each? ==> NumberSafe(s.items.each))
    && (s.items.Tuple? ==> forall i | 0 <= i < |s.items.elems| :: NumberSafe(s.items.elems[i]))
    && (s.extra.Sub? ==> NumberSafe(s.extra.sub))
  }

  /** Every integer under a "number" type fits 32 bits; others may be wider. */
  predicate SmallNumbers(s: Schema, d: Doc)
    decreases d
  {
    && (Fixed(s, d) ==> FitsInt32(d.t.n))
    && (d.DObj? ==> SmallMembers(s, d.ms))
    && (d.DArr? ==> SmallElems(s, d.ds, 0))
  }

  predicate SmallMembers(s: Schema, ms: seq<Member>)
    decreases ms
  {
    ms != [] ==>
      && (KeyChild(s, ms[0].key).Some? ==> SmallNumbers(KeyChild(s, ms[0].key).value, ms[0].val))
      && SmallMembers(s, ms[1..])
  }

  predicate SmallElems(s: Schema, ds: seq<Doc>, index: nat)
    decreases ds
  {
    ds != [] ==>
      && (IndexChild(s, index).Some? ==> SmallNumbers(IndexChild(s, index).value, ds[0]))
      && SmallElems(s, ds[1..], index + 1)
  }

  lemma {:induction false} SafeLeaves(c: Checkers, s: Schema, d: Doc)
    requires NumberSafe(s) && SmallNumbers(s, d)
    ensures LeavesOk(c, s, d, BeforeFixup) <==> LeavesOk(c, s, d, AfterFixup)
    decreases d, 1
  {
    match d
    case DObj(ms) => SafeMemberLeaves(c, s, ms);
    case DArr(ds) => SafeElemLeaves(c, s, ds, 0);
    case _ =>
  }

  lemma {:induction false} SafeMemberLeaves(c: Checkers, s: Schema, ms: seq<Member>)
    requires NumberSafe(s) && SmallMembers(s, ms)
    ensures MemberLeavesOk(c, s, ms, BeforeFixup) <==> MemberLeavesOk(c, s, ms, AfterFixup)
    decreases ms, 0
  {
    if ms != [] {
      if KeyChild(s, ms[0].key).Some? { SafeLeaves(c, KeyChild(s, ms[0].key).value, ms[0].val); }
      SafeMemberLeaves(c, s, ms[1..]);
    }
  }

  lemma {:induction false} SafeElemLeaves(c: Checkers, s: Schema, ds: seq<Doc>, index: nat)
    requires NumberSafe(s) && SmallElems(s, ds, index)
    ensures ElemLeavesOk(c, s, ds, index, BeforeFixup) <==> ElemLeavesOk(c, s, ds, index, AfterFixup)
    decreases ds, 0
  {
    if ds != [] {
      if IndexChild(s, index).Some? { SafeLeaves(c, IndexChild(s, index).value, ds[0]); }
      SafeElemLeaves(c, s, ds[1..], index + 1);
    }
  }

  /** Such schemas and documents always agree. */
  lemma {:induction false} SafeSchemasAgree(c: Checkers, s: Schema, d: Doc)
    requires NumberSafe(s) && SmallNumbers(s, d)
    ensures Parse(c, Some(s), d) == ParseThenValidate(c, s, d)
  {
    hide NumberSafe, SmallNumbers, Parse, ParseThenValidate, LeavesOk;
    SafeLeaves(c, s, d);
    StreamingEqualsTree(c, s, d);
  }

  // ---- each part of the condition is needed ----------------------------------

  const NumberNode := Schema(NoKeywords.(types := Some(["number"])), map[], NoItems, Open)

  /** {"type":"number","enum":[1]} on the document 1: streaming accepts,
      validate rejects. */
  lemma EnumBreaksAgreement(c: Checkers)
    ensures var s := NumberNode.(kw := NumberNode.kw.(choices := Some([Int(1)])));
      && Parse(c, Some(s), DNum(Digits(1))) == Some(Dbl(1.0))
      && ParseThenValidate(c, s, DNum(Digits(1))) == None
  {
    var s := NumberNode.(kw := NumberNode.kw.(choices := Some([Int(1)])));
    ParseIsStream(c, Some(s), DNum(Digits(1)));
    ParseIsStream(c, None, DNum(Digits(1)));
    assert "number" in s.kw.types.value && Int(1) in s.kw.choices.value;
  }

  /** {"type":"number","maxDecimal":0} on 1, given that the engine counts at
      least one digit in 1.0: streaming accepts, validate rejects. */
  lemma MaxDecimalBreaksAgreement(c: Checkers)
    requires c.decimals(1.0) > 0
    ensures var s := NumberNode.(kw := NumberNode.kw.(maxDecimal := Some(0)));
      && Parse(c, Some(s), DNum(Digits(1))) == Some(Dbl(1.0))
      && ParseThenValidate(c, s, DNum(Digits(1))) == None
  {
    var s := NumberNode.(kw := NumberNode.kw.(maxDecimal := Some(0)));
    ParseIsStream(c, Some(s), DNum(Digits(1)));
    ParseIsStream(c, None, DNum(Digits(1)));
    assert "number" in s.kw.types.value;
  }

  /** {"type":"number","maximum":10} on 2^32 + 1: streaming rejects, validate
      narrows the value to 1 and accepts. */
  lemma WideIntegersBreakAgreement(c: Checkers)
    ensures var s := NumberNode.(kw := NumberNode.kw.(maximum := Some(10.0)));
      && Parse(c, Some(s), DNum(Digits(0x1_0000_0001))) == None
      && ParseThenValidate(c, s, DNum(Digits(0x1_0000_0001))) == Some(Dbl(1.0))
  {
    var s := NumberNode.(kw := NumberNode.kw.(maximum := Some(10.0)));
    ParseIsStream(c, Some(s), DNum(Digits(0x1_0000_0001)));
    ParseIsStream(c, None, DNum(Digits(0x1_0000_0001)));
    assert "number" in s.kw.types.value;
    assert ToInt32(0x1_0000_0001) == 1;
  }
}
