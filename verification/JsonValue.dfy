/** Json documents as values (gearbox/core/Json.h) and the equality that
    `Json::equals` computes. Doubles are reals; the members of an object are a
    map, because std::map holds each key once. */
module JsonValue {

  datatype Json =
    | Null
    | Bool(b: bool)
    | Int(n: int)
    | Dbl(x: real)
    | Str(s: string)
    | Obj(m: map<string, Json>)
    | Arr(a: seq<Json>)

  /** Json::empty. */
  predicate Empty(j: Json) {
    match j
    case Null => true
    case Str(s) => s == ""
    case Obj(m) => m == map[]
    case Arr(a) => a == []
    case _ => false
  }

  /** Json::equals. The array overload swaps receiver and argument at every
      level, so `swapped` tells which of the two trees is the receiver: the
      object overload walks the keys of the argument only. */
  predicate Equals(x: Json, y: Json, swapped: bool)
    decreases x
  {
    if Empty(x) && Empty(y) then true
    else if Empty(x) || Empty(y) then false
    else
      match (x, y)
      case (Bool(p), Bool(q)) => p == q
      case (Int(p), Int(q)) => p == q
      case (Dbl(p), Dbl(q)) => p == q
      case (Str(p), Str(q)) => p == q
      case (Obj(p), Obj(q)) =>
        && |p| == |q|
        && (if swapped
            then forall k <- p :: k in q && Equals(p[k], q[k], swapped)
            else forall k <- q :: k in p && Equals(p[k], q[k], swapped))
      case (Arr(p), Arr(q)) =>
        && |p| == |q|
        && forall i | 0 <= i < |p| :: Equals(p[i], q[i], !swapped)
      case _ => false
  }

  /** The reference: null, "", {} and [] collapse to null at every depth. */
  function Norm(j: Json): Json {
    match j
    case Str(s) => if s == "" then Null else j
    case Obj(m) => if m == map[] then Null else Obj(map k <- m :: Norm(m[k]))
    case Arr(a) => if a == [] then Null else Arr(seq(|a|, i requires 0 <= i < |a| => Norm(a[i])))
    case _ => j
  }

  lemma SameSizeSubset(p: set<string>, q: set<string>)
    requires p <= q && |p| == |q|
    ensures p == q
  {
    assert |q - p| == |q| - |p|;
  }

  lemma NormKeepsEmptiness(j: Json)
    ensures Norm(j) == Null <==> Empty(j)
    ensures j.Obj? && !Empty(j) ==> Norm(j).Obj? && Norm(j).m.Keys == j.m.Keys
  {
  }

  /** `equals` is equality of normal forms, whichever side is the receiver. */
  lemma {:induction false} EqualsIsEqualNormalForms(x: Json, y: Json, swapped: bool)
    ensures Equals(x, y, swapped) <==> Norm(x) == Norm(y)
    decreases x
  {
    NormKeepsEmptiness(x);
    NormKeepsEmptiness(y);
    if !Empty(x) && !Empty(y) {
      match (x, y) {
        case (Obj(p), Obj(q)) =>
          forall k | k in p && k in q
            ensures Equals(p[k], q[k], swapped) <==> Norm(p[k]) == Norm(q[k])
          {
            EqualsIsEqualNormalForms(p[k], q[k], swapped);
          }
          if Norm(x) == Norm(y) {
            ObjNormsAgree(p, q);
          }
          if Equals(x, y, swapped) {
            if swapped { SameSizeSubset(p.Keys, q.Keys); } else { SameSizeSubset(q.Keys, p.Keys); }
            assert Norm(x).m == Norm(y).m;
          }
        case (Arr(p), Arr(q)) =>
          forall i | 0 <= i < |p| && i < |q|
            ensures Equals(p[i], q[i], !swapped) <==> Norm(p[i]) == Norm(q[i])
          {
            EqualsIsEqualNormalForms(p[i], q[i], !swapped);
          }
          if Norm(x) == Norm(y) {
            ArrNormsAgree(p, q);
          }
          if Equals(x, y, swapped) {
            assert Norm(x).a == Norm(y).a;
          }
        case _ =>
      }
    }
  }

  lemma ObjNormsAgree(p: map<string, Json>, q: map<string, Json>)
    requires p != map[] && q != map[] && Norm(Obj(p)) == Norm(Obj(q))
    ensures p.Keys == q.Keys && |p| == |q|
    ensures forall k <- p :: Norm(p[k]) == Norm(q[k])
  {
    var np, nq := Norm(Obj(p)).m, Norm(Obj(q)).m;
    assert np.Keys == p.Keys && nq.Keys == q.Keys;
    assert |p| == |p.Keys| && |q| == |q.Keys|;
    forall k | k in p
      ensures Norm(p[k]) == Norm(q[k])
    {
      assert np[k] == nq[k];
    }
  }

  lemma ArrNormsAgree(p: seq<Json>, q: seq<Json>)
    requires p != [] && q != [] && Norm(Arr(p)) == Norm(Arr(q))
    ensures |p| == |q|
    ensures forall i | 0 <= i < |p| :: Norm(p[i]) == Norm(q[i])
  {
    var np, nq := Norm(Arr(p)).a, Norm(Arr(q)).a;
    assert |np| == |p| && |nq| == |q|;
    forall i | 0 <= i < |p|
      ensures Norm(p[i]) == Norm(q[i])
    {
      assert np[i] == nq[i];
    }
  }

  /** Json::operator==: `this` is the left operand. */
  predicate Eq(x: Json, y: Json) { Equals(x, y, false) }

  /** operator== is an equivalence relation on all documents. */
  lemma EqIsAnEquivalence(x: Json, y: Json, z: Json)
    ensures Eq(x, x)
    ensures Eq(x, y) <==> Eq(y, x)
    ensures Eq(x, y) && Eq(y, z) ==> Eq(x, z)
  {
    EqualsIsEqualNormalForms(x, x, false);
    EqualsIsEqualNormalForms(x, y, false);
    EqualsIsEqualNormalForms(y, x, false);
    EqualsIsEqualNormalForms(y, z, false);
    EqualsIsEqualNormalForms(x, z, false);
  }

  /** operator== is a congruence: replacing a member of an object, or an
      element of an array, by an equal one keeps the container equal. */
  lemma EqIsACongruence(m: map<string, Json>, a: seq<Json>, k: string, i: nat, x: Json, y: Json)
    requires Eq(x, y) && i < |a|
    ensures Eq(Obj(m[k := x]), Obj(m[k := y]))
    ensures Eq(Arr(a[i := x]), Arr(a[i := y]))
  {
    EqualsIsEqualNormalForms(x, y, false);
    var mx, my := m[k := x], m[k := y];
    assert k in mx && k in my;
    assert Norm(Obj(mx)).m == Norm(Obj(my)).m;
    EqualsIsEqualNormalForms(Obj(mx), Obj(my), false);
    assert Norm(Arr(a[i := x])).a == Norm(Arr(a[i := y])).a;
    EqualsIsEqualNormalForms(Arr(a[i := x]), Arr(a[i := y]), false);
  }
}
