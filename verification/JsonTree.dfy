/** Json::validate and its helpers as the loops of gearbox/core/Json.cc and
    gearbox/core/JsonSchema.cc, each proved against the function that
    specifies it. A std::map is visited in key order; here any order will do. */
module JsonTree {
  import opened Outcomes
  import opened JsonValue
  import opened JsonSchema

  /** JsonSchema::setDefaults. */
  method SetDefaults(s: Schema, members: map<string, Json>) returns (filled: map<string, Json>)
    ensures filled == WithDefaults(s, members)
  {
    filled := members;
    var todo := s.props.Keys;
    while todo != {}
      invariant todo <= s.props.Keys
      invariant Filling(s, members, todo, filled)
      decreases todo
    {
      var k :| k in todo;
      var kw := s.props[k].kw;
      FillingStep(s, members, todo, filled, k);
      if kw.fallback.Some? && k !in filled {
        filled := filled[k := Fixup(kw, kw.fallback.value)];
      }
      todo := todo - {k};
    }
    FillingDone(s, members, filled);
  }

  /** JsonSchema::validRequires. */
  method ValidRequires(s: Schema, members: map<string, Json>) returns (ok: bool)
    ensures ok == RequiresOk(s, members.Keys)
  {
    var todo := s.props.Keys;
    while todo != {}
      invariant todo <= s.props.Keys
      invariant forall k <- s.props :: k in todo || PropertyOk(s.props[k].kw, k, members.Keys)
      decreases todo
    {
      var k :| k in todo;
      var kw := s.props[k].kw;
      if kw.optional && k in members {
        for i := 0 to |kw.needs|
          invariant forall j | 0 <= j < i :: kw.needs[j] in members
        {
          if kw.needs[i] !in members { return false; }
        }
      }
      if !kw.optional && k !in members { return false; }
      todo := todo - {k};
    }
    return true;
  }

  method ValidateJson(c: Checkers, s: Schema, j: Json) returns (r: Option<Json>)
    ensures r == Validate(c, s, j)
    decreases j, 1
  {
    if !ValidType(s.kw, j) { return None; }
    var fixed := Fixup(s.kw, j);
    match fixed {
      case Null => r := Some(fixed);
      case Obj(_) => r := ValidateObject(c, s, j);
      case Arr(_) => r := ValidateArray(c, s, j);
      case _ => r := if ValidValue(c, s.kw, fixed) then Some(fixed) else None;
    }
  }

  method ValidateObject(c: Checkers, s: Schema, j: Json) returns (r: Option<Json>)
    requires j.Obj?
    ensures r == if MembersOk(c, s, j) then CloseObject(s, ValidMembers(c, s, j)) else None
    decreases j, 0
  {
    var done: map<string, Json> := map[];
    var todo := j.m.Keys;
    while todo != {}
      invariant todo <= j.m.Keys && done.Keys == j.m.Keys - todo
      invariant forall k <- done :: KeyChild(s, k).Some? && Validate(c, KeyChild(s, k).value, j.m[k]) == Some(done[k])
      decreases todo
    {
      var k :| k in todo;
      if KeyChild(s, k).None? { return None; }
      var v := ValidateJson(c, KeyChild(s, k).value, j.m[k]);
      if v.None? { return None; }
      done := done[k := v.value];
      todo := todo - {k};
    }
    assert done == ValidMembers(c, s, j);
    var filled := SetDefaults(s, done);
    var ok := ValidRequires(s, filled);
    r := if ok then Some(Obj(filled)) else None;
  }

  method ValidateArray(c: Checkers, s: Schema, j: Json) returns (r: Option<Json>)
    requires j.Arr? && ValidType(s.kw, j)
    ensures r == Validate(c, s, j)
    decreases j, 0
  {
    var a := j.a;
    if !MinSizeOk(s, |a|) || !MaxSizeOk(s.kw, |a|) { return None; }
    var done: seq<Json> := [];
    for i := 0 to |a|
      invariant |done| == i
      invariant forall k | 0 <= k < i :: IndexChild(s, k).Some? && Validate(c, IndexChild(s, k).value, a[k]) == Some(done[k])
    {
      if IndexChild(s, i).None? { return None; }
      var v := ValidateJson(c, IndexChild(s, i).value, a[i]);
      if v.None? { return None; }
      done := done + [v.value];
    }
    r := Some(Arr(done));
    assert done == Validate(c, s, j).value.a;
  }
}
