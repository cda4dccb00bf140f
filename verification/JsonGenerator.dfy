/** The generator (gearbox/core/JsonGenerator.cc) as an emitter of the events
    yajl would read back, and the round trip through the parser. */
module JsonGenerator {
  import opened Outcomes
  import opened JsonValue
  import opened JsonSchema
  import opened JsonStream

  /** `d` is a text of `j`: members in some order, integers as digits, doubles
      as whatever token `fmt` (the printf format) produces. */
  predicate TextOf(fmt: real -> NumToken, d: Doc, j: Json)
    decreases j
  {
    match j
    case Null => d == DNull
    case Bool(b) => d == DBool(b)
    case Int(n) => d == DNum(Digits(n))
    case Dbl(x) => d == DNum(fmt(x))
    case Str(s) => d == DStr(s)
    case Obj(m) =>
      && d.DObj?
      && (forall i | 0 <= i < |d.ms| :: d.ms[i].key in m && TextOf(fmt, d.ms[i].val, m[d.ms[i].key]))
      && (forall i, k | 0 <= i < k < |d.ms| :: d.ms[i].key != d.ms[k].key)
      && (forall k <- m :: exists i :: 0 <= i < |d.ms| && d.ms[i].key == k)
    case Arr(a) =>
      && d.DArr?
      && |d.ds| == |a|
      && (forall i | 0 <= i < |a| :: TextOf(fmt, d.ds[i], a[i]))
  }

  lemma {:induction false} MemberEventsAppend(ms: seq<Member>, m: Member)
    ensures MemberEvents(ms + [m]) == MemberEvents(ms) + [EKey(m.key)] + Events(m.val)
  {
    if ms == [] {
      assert ms + [m] == [m];
      assert MemberEvents([m][1..]) == [];
    } else {
      assert (ms + [m])[1..] == ms[1..] + [m];
      MemberEventsAppend(ms[1..], m);
    }
  }

  lemma {:induction false} ElemEventsAppend(ds: seq<Doc>, d: Doc)
    ensures ElemEvents(ds + [d]) == ElemEvents(ds) + Events(d)
  {
    if ds == [] {
      assert ds + [d] == [d];
      assert ElemEvents([d][1..]) == [];
    } else {
      assert (ds + [d])[1..] == ds[1..] + [d];
      ElemEventsAppend(ds[1..], d);
    }
  }

  /** `out` is the event list of some text of `j`. */
  ghost predicate Writes(fmt: real -> NumToken, out: seq<Event>, j: Json) {
    exists d :: TextOf(fmt, d, j) && out == Events(d)
  }

  method Generate(fmt: real -> NumToken, j: Json) returns (out: seq<Event>)
    ensures Writes(fmt, out, j)
    decreases j, 1
  {
    match j {
      case Null => out := [ENull]; assert TextOf(fmt, DNull, j);
      case Bool(b) => out := [EBool(b)]; assert TextOf(fmt, DBool(b), j);
      case Int(n) => out := [ENum(Digits(n))]; assert TextOf(fmt, DNum(Digits(n)), j);
      case Dbl(x) => out := [ENum(fmt(x))]; assert TextOf(fmt, DNum(fmt(x)), j);
      case Str(s) => out := [EStr(s)]; assert TextOf(fmt, DStr(s), j);
      case Obj(_) => out := GenerateObject(fmt, j);
      case Arr(_) => out := GenerateArray(fmt, j);
    }
  }

  /** `ms` is a text of the members of `j` whose keys are not in `todo`. */
  predicate Listed(fmt: real -> NumToken, ms: seq<Member>, j: Json, todo: set<string>)
    requires j.Obj?
  {
    && todo <= j.m.Keys
    && (forall i | 0 <= i < |ms| :: ms[i].key in j.m && ms[i].key !in todo && TextOf(fmt, ms[i].val, j.m[ms[i].key]))
    && (forall i, k | 0 <= i < k < |ms| :: ms[i].key != ms[k].key)
    && (forall k <- j.m :: k !in todo ==> exists i :: 0 <= i < |ms| && ms[i].key == k)
  }

  lemma ListedExtends(fmt: real -> NumToken, ms: seq<Member>, j: Json, todo: set<string>, m: Member)
    requires j.Obj? && Listed(fmt, ms, j, todo)
    requires m.key in todo && TextOf(fmt, m.val, j.m[m.key])
    ensures Listed(fmt, ms + [m], j, todo - {m.key})
  {
    var ms' := ms + [m];
    assert ms'[|ms|] == m;
    forall k | k in j.m && k !in todo - {m.key}
      ensures exists i :: 0 <= i < |ms'| && ms'[i].key == k
    {
      if k != m.key {
        var i :| 0 <= i < |ms| && ms[i].key == k;
        assert ms'[i].key == k;
      }
    }
  }

  lemma ListedAll(fmt: real -> NumToken, ms: seq<Member>, j: Json)
    requires j.Obj? && Listed(fmt, ms, j, {})
    ensures TextOf(fmt, DObj(ms), j)
  {
  }

  method GenerateObject(fmt: real -> NumToken, j: Json) returns (out: seq<Event>)
    requires j.Obj?
    ensures Writes(fmt, out, j)
    decreases j, 0
  {
    var body := [];
    ghost var ms := [];
    var todo := j.m.Keys;
    while todo != {}
      invariant body == MemberEvents(ms)
      invariant Listed(fmt, ms, j, todo)
      decreases todo
    {
      var k :| k in todo;
      var text := Generate(fmt, j.m[k]);
      ghost var e :| TextOf(fmt, e, j.m[k]) && text == Events(e);
      MemberEventsAppend(ms, Member(k, e));
      ListedExtends(fmt, ms, j, todo, Member(k, e));
      body := body + [EKey(k)] + text;
      ms := ms + [Member(k, e)];
      todo := todo - {k};
    }
    out := [EStartMap] + body + [EEndMap];
    ListedAll(fmt, ms, j);
    assert out == Events(DObj(ms));
  }

  lemma ElemEventsNone()
    ensures ElemEvents([]) == []
  {
  }

  lemma ArrayEvents(ds: seq<Doc>)
    ensures Events(DArr(ds)) == [EStartArray] + ElemEvents(ds) + [EEndArray]
  {
  }

  method GenerateArray(fmt: real -> NumToken, j: Json) returns (out: seq<Event>)
    requires j.Arr?
    ensures Writes(fmt, out, j)
    decreases j, 0
  {
    hide Events, ElemEvents;
    out := [EStartArray];
    ghost var ds := [];
    ElemEventsNone();
    for i := 0 to |j.a|
      invariant |ds| == i && out == [EStartArray] + ElemEvents(ds)
      invariant forall k | 0 <= k < i :: TextOf(fmt, ds[k], j.a[k])
    {
      var text := Generate(fmt, j.a[i]);
      ghost var e :| TextOf(fmt, e, j.a[i]) && text == Events(e);
      ElemEventsAppend(ds, e);
      out := out + text;
      ds := ds + [e];
    }
    out := out + [EEndArray];
    ArrayEvents(ds);
    assert TextOf(fmt, DArr(ds), j);
  }

  // ---- round trip ------------------------------------------------------------

  /** No doubles, and every integer is an int64_t. */
  predicate DoubleFree(j: Json) {
    match j
    case Int(n) => FitsInt64(n)
    case Dbl(_) => false
    case Obj(m) => forall k <- m :: DoubleFree(m[k])
    case Arr(a) => forall i | 0 <= i < |a| :: DoubleFree(a[i])
    case _ => true
  }

  lemma {:induction false} StreamOfText(c: Checkers, fmt: real -> NumToken, d: Doc, j: Json)
    requires DoubleFree(j) && TextOf(fmt, d, j)
    ensures Stream(c, None, d) == Some(j)
    decreases j, 1
  {
    match j
    case Obj(m) => ObjectOfText(c, fmt, d, j);
    case Arr(a) =>
      ElemsOfText(c, fmt, d.ds, j, 0);
      assert a[0..] == a && d.ds[0..] == d.ds;
    case _ =>
  }

  lemma ObjectText(fmt: real -> NumToken, d: Doc, j: Json)
    requires j.Obj? && TextOf(fmt, d, j)
    ensures d.DObj?
    ensures forall i | 0 <= i < |d.ms| :: d.ms[i].key in j.m && TextOf(fmt, d.ms[i].val, j.m[d.ms[i].key])
    ensures forall i, k | 0 <= i < k < |d.ms| :: d.ms[i].key != d.ms[k].key
    ensures forall k <- j.m :: exists i :: 0 <= i < |d.ms| && d.ms[i].key == k
  {
  }

  lemma {:induction false} ObjectOfText(c: Checkers, fmt: real -> NumToken, d: Doc, j: Json)
    requires j.Obj? && DoubleFree(j) && TextOf(fmt, d, j)
    ensures Stream(c, None, d) == Some(j)
    decreases j, 0, |d.ms| + 1
  {
    hide DoubleFree, StreamMembers, TextOf;
    ObjectText(fmt, d, j);
    MembersOfText(c, fmt, d.ms, j, map[]);
    var r := StreamMembers(c, None, d.ms, map[]).value;
    forall k | k in j.m
      ensures k in r
    {
      var i :| 0 <= i < |d.ms| && d.ms[i].key == k;
    }
    assert r == j.m;
  }

  lemma {:induction false} MembersOfText(
    c: Checkers, fmt: real -> NumToken, ms: seq<Member>, j: Json, sofar: map<string, Json>)
    requires j.Obj? && DoubleFree(j)
    requires forall i | 0 <= i < |ms| ::
      ms[i].key in j.m && ms[i].key !in sofar && TextOf(fmt, ms[i].val, j.m[ms[i].key])
    requires forall i, k | 0 <= i < k < |ms| :: ms[i].key != ms[k].key
    requires sofar.Keys <= j.m.Keys && forall k <- sofar :: sofar[k] == j.m[k]
    ensures StreamMembers(c, None, ms, sofar).Some?
    ensures var r := StreamMembers(c, None, ms, sofar).value;
      && r.Keys <= j.m.Keys && (forall k <- r :: r[k] == j.m[k])
      && sofar.Keys <= r.Keys && (forall i | 0 <= i < |ms| :: ms[i].key in r)
    decreases j, 0, |ms|
  {
    if ms != [] {
      var k := ms[0].key;
      StreamOfText(c, fmt, ms[0].val, j.m[k]);
      forall i | 0 <= i < |ms[1..]|
        ensures ms[1..][i].key !in sofar[k := j.m[k]]
      {
        assert ms[1..][i] == ms[i + 1];
        assert ms[0].key != ms[i + 1].key;
      }
      MembersOfText(c, fmt, ms[1..], j, sofar[k := j.m[k]]);
      assert forall i | 0 < i < |ms| :: ms[i] == ms[1..][i - 1];
    }
  }

  lemma {:induction false} ElemsOfText(c: Checkers, fmt: real -> NumToken, ds: seq<Doc>, j: Json, from: nat)
    requires j.Arr? && DoubleFree(j) && from <= |j.a| && |ds| == |j.a|
    requires forall i | 0 <= i < |ds| :: TextOf(fmt, ds[i], j.a[i])
    ensures StreamElems(c, None, ds[from..], from) == Some(j.a[from..])
    decreases j, 0, |j.a| - from
  {
    if from < |ds| {
      StreamOfText(c, fmt, ds[from], j.a[from]);
      ElemsOfText(c, fmt, ds, j, from + 1);
      assert ds[from..][1..] == ds[from + 1..];
      assert j.a[from..] == [j.a[from]] + j.a[from + 1..];
    }
  }

  /** serialize then parse: every double-free tree comes back unchanged, from
      any text the generator may emit for it, and the cursor ends above the
      root with nothing left open. */
  lemma GenerateThenParse(c: Checkers, fmt: real -> NumToken, out: seq<Event>, j: Json)
    requires DoubleFree(j) && Writes(fmt, out, j)
    ensures Run(c, Start(None), out) == Machine([], Above(j))
  {
    var d :| TextOf(fmt, d, j) && out == Events(d);
    StreamOfText(c, fmt, d, j);
    ParseIsStream(c, None, d);
  }
}
