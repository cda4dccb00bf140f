/** The streaming parser (gearbox/core/JsonParser.cc) as a machine over yajl
    events, and its agreement with Json::validate. */
module JsonStream {
  import opened Outcomes
  import opened JsonValue
  import opened JsonSchema

  /** A number token: without a dot it is cast to int64_t, with a dot to
      double; `Unconvertible` is text lexical_cast throws on, e.g. 1e5. */
  datatype NumToken = Digits(n: int) | Decimal(x: real) | Unconvertible

  /** The syntax tree of a text yajl accepts; keys may repeat. */
  datatype Doc =
    | DNull
    | DBool(b: bool)
    | DNum(t: NumToken)
    | DStr(s: string)
    | DObj(ms: seq<Member>)
    | DArr(ds: seq<Doc>)

  datatype Member = Member(key: string, val: Doc)

  datatype Event =
    | ENull | EBool(b: bool) | ENum(t: NumToken) | EStr(s: string)
    | EStartMap | EKey(key: string) | EEndMap | EStartArray | EEndArray

  function Events(d: Doc): seq<Event> {
    match d
    case DNull => [ENull]
    case DBool(b) => [EBool(b)]
    case DNum(t) => [ENum(t)]
    case DStr(s) => [EStr(s)]
    case DObj(ms) => [EStartMap] + MemberEvents(ms) + [EEndMap]
    case DArr(ds) => [EStartArray] + ElemEvents(ds) + [EEndArray]
  }

  function MemberEvents(ms: seq<Member>): seq<Event> {
    if ms == [] then [] else [EKey(ms[0].key)] + Events(ms[0].val) + MemberEvents(ms[1..])
  }

  function ElemEvents(ds: seq<Doc>): seq<Event> {
    if ds == [] then [] else Events(ds[0]) + ElemEvents(ds[1..])
  }

  function TokenValue(t: NumToken): Option<Json> {
    match t
    case Digits(n) => if FitsInt64(n) then Some(Int(n)) else None
    case Decimal(x) => Some(Dbl(x))
    case Unconvertible => None
  }

  // ---- the callback machine ------------------------------------------------

  /** An open container with the schema that was current when it opened. */
  datatype Frame =
    | ObjFrame(schema: Option<Schema>, members: map<string, Json>, key: Option<string>)
    | ArrFrame(schema: Option<Schema>, elems: seq<Json>)

  /** Where the cursor is: on a fresh node that waits for its value, on the
      innermost open container, or above the root. */
  datatype Focus = Waiting(schema: Option<Schema>) | Inside | Above(result: Json)

  datatype Machine = Failed | Machine(stack: seq<Frame>, focus: Focus)

  function Start(s: Option<Schema>): Machine { Machine([], Waiting(s)) }

  function Top(m: Machine): Frame
    requires m.Machine? && m.stack != []
  {
    m.stack[|m.stack| - 1]
  }

  function SetTop(m: Machine, f: Frame): Machine
    requires m.Machine? && m.stack != []
  {
    Machine(m.stack[..|m.stack| - 1] + [f], Inside)
  }

  /** Machines that can take a value: yajl only starts a value here. */
  predicate TakesValue(m: Machine) {
    && m.Machine?
    && (m.focus.Waiting? ==> m.stack == [] || (Top(m).ObjFrame? && Top(m).key.Some?))
    && (m.focus.Inside? ==> m.stack != [] && Top(m).ArrFrame?)
    && !m.focus.Above?
  }

  function ChildAt(s: Option<Schema>, index: nat): Option<Option<Schema>> {
    match s
    case None => Some(None)
    case Some(t) =>
      if !MaxSizeOk(t.kw, index + 1) then None
      else if IndexChild(t, index).None? then None
      else Some(IndexChild(t, index))
  }

  function ChildOf(s: Option<Schema>, key: string): Option<Option<Schema>> {
    match s
    case None => Some(None)
    case Some(t) => if KeyChild(t, key).None? then None else Some(KeyChild(t, key))
  }

  /** getObj: the schema of the node that receives the next value, or None
      when the array may not grow. */
  function Slot(m: Machine): Option<Option<Schema>>
    requires TakesValue(m)
  {
    if m.focus.Waiting? then Some(m.focus.schema)
    else ChildAt(Top(m).schema, |Top(m).elems|)
  }

  /** The container with a finished child stored in it. */
  function StoreIn(f: Frame, v: Json): Frame
    requires f.ObjFrame? ==> f.key.Some?
  {
    match f
    case ObjFrame(s, members, key) => ObjFrame(s, members[key.value := v], None)
    case ArrFrame(s, elems) => ArrFrame(s, elems + [v])
  }

  /** A finished value is stored and both cursors climb to its parent. */
  function Attach(m: Machine, v: Json): Machine
    requires TakesValue(m)
  {
    if m.stack == [] then Machine([], Above(v)) else SetTop(m, StoreIn(Top(m), v))
  }

  /** The check a scalar callback makes; numbers are fixed up afterwards. */
  function ScalarResult(c: Checkers, s: Option<Schema>, v: Json): Option<Json> {
    match s
    case None => Some(v)
    case Some(t) =>
      if !ValidType(t.kw, v) then None
      else if v.Null? then Some(v)
      else if !ValidValue(c, t.kw, v) then None
      else Some(Fixup(t.kw, v))
  }

  function Scalar(c: Checkers, m: Machine, v: Option<Json>): Machine {
    if !TakesValue(m) || v.None? || Slot(m).None? then Failed
    else
      match ScalarResult(c, Slot(m).value, v.value)
      case None => Failed
      case Some(r) => Attach(m, r)
  }

  predicate TypeOk(s: Option<Schema>, v: Json) { s.Some? ==> ValidType(s.value.kw, v) }

  /** parse_start_map and parse_start_array: the fresh container `v` becomes
      the innermost open one. */
  function OpenContainer(m: Machine, v: Json, f: Option<Schema> -> Frame): Machine {
    if !TakesValue(m) || Slot(m).None? || !TypeOk(Slot(m).value, v) then Failed
    else Machine(m.stack + [f(Slot(m).value)], Inside)
  }

  function EndResult(f: Frame): Option<Json> {
    match f
    case ObjFrame(s, ms, _) => if s.None? then Some(Obj(ms)) else CloseObject(s.value, ms)
    case ArrFrame(s, es) => if s.Some? && !MinSizeOk(s.value, |es|) then None else Some(Arr(es))
  }

  /** The machine with the innermost container popped: the place its value
      goes to. */
  function Pop(m: Machine): Machine
    requires m.Machine? && m.stack != []
  {
    var below := m.stack[..|m.stack| - 1];
    if below == [] then Machine([], Waiting(Top(m).schema))
    else if below[|below| - 1].ObjFrame? then Machine(below, Waiting(Top(m).schema))
    else Machine(below, Inside)
  }

  function CloseContainer(m: Machine): Machine
    requires m.Machine? && m.stack != []
  {
    if EndResult(Top(m)).None? || !TakesValue(Pop(m)) then Failed
    else Attach(Pop(m), EndResult(Top(m)).value)
  }

  predicate AtObject(m: Machine) {
    m.Machine? && m.focus.Inside? && m.stack != [] && Top(m).ObjFrame? && Top(m).key.None?
  }

  predicate AtArray(m: Machine) {
    m.Machine? && m.focus.Inside? && m.stack != [] && Top(m).ArrFrame?
  }

  function Key(m: Machine, key: string): Machine {
    if !AtObject(m) then Failed
    else
      var f := Top(m);
      var child := ChildOf(f.schema, key);
      if child.None? || key in f.members then Failed
      else Machine(SetTop(m, f.(key := Some(key))).stack, Waiting(child.value))
  }

  /** One yajl callback; Failed when it returns 0 or throws. */
  function Step(c: Checkers, m: Machine, e: Event): Machine {
    match e
    case ENull => Scalar(c, m, Some(Null))
    case EBool(b) => Scalar(c, m, Some(Bool(b)))
    case ENum(t) => Scalar(c, m, TokenValue(t))
    case EStr(s) => Scalar(c, m, Some(Str(s)))
    case EStartMap => OpenContainer(m, Obj(map[]), s => ObjFrame(s, map[], None))
    case EKey(k) => Key(m, k)
    case EEndMap => if AtObject(m) then CloseContainer(m) else Failed
    case EStartArray => OpenContainer(m, Arr([]), s => ArrFrame(s, []))
    case EEndArray => if AtArray(m) then CloseContainer(m) else Failed
  }

  /** yajl stops at the first callback that fails: Failed absorbs. */
  function Run(c: Checkers, m: Machine, es: seq<Event>): Machine
    decreases es
  {
    if es == [] then m else Run(c, Step(c, m, es[0]), es[1..])
  }

  function Parse(c: Checkers, s: Option<Schema>, d: Doc): Option<Json> {
    match Run(c, Start(s), Events(d))
    case Machine(_, Above(v)) => Some(v)
    case _ => None
  }

  // ---- what the machine computes, by recursion on the document ------------

  function Stream(c: Checkers, s: Option<Schema>, d: Doc): Option<Json>
    decreases d
  {
    match d
    case DNull => ScalarResult(c, s, Null)
    case DBool(b) => ScalarResult(c, s, Bool(b))
    case DNum(t) => if TokenValue(t).None? then None else ScalarResult(c, s, TokenValue(t).value)
    case DStr(x) => ScalarResult(c, s, Str(x))
    case DObj(ms) =>
      if !TypeOk(s, Obj(map[])) then None
      else
        (match StreamMembers(c, s, ms, map[])
         case None => None
         case Some(m) => EndResult(ObjFrame(s, m, None)))
    case DArr(ds) =>
      if !TypeOk(s, Arr([])) then None
      else
        match StreamElems(c, s, ds, 0)
        case None => None
        case Some(es) => EndResult(ArrFrame(s, es))
  }

  function StreamMembers(c: Checkers, s: Option<Schema>, ms: seq<Member>, sofar: map<string, Json>)
    : Option<map<string, Json>>
    decreases ms
  {
    if ms == [] then Some(sofar)
    else if ChildOf(s, ms[0].key).None? || ms[0].key in sofar then None
    else
      match Stream(c, ChildOf(s, ms[0].key).value, ms[0].val)
      case None => None
      case Some(v) => StreamMembers(c, s, ms[1..], sofar[ms[0].key := v])
  }

  function StreamElems(c: Checkers, s: Option<Schema>, ds: seq<Doc>, index: nat): (r: Option<seq<Json>>)
    ensures r.Some? ==> |r.value| == |ds|
    decreases ds
  {
    if ds == [] then Some([])
    else if ChildAt(s, index).None? then None
    else
      match Stream(c, ChildAt(s, index).value, ds[0])
      case None => None
      case Some(v) =>
        match StreamElems(c, s, ds[1..], index + 1)
        case None => None
        case Some(vs) => Some([v] + vs)
  }

  lemma {:induction false} FailedAbsorbs(c: Checkers, es: seq<Event>)
    ensures Run(c, Failed, es) == Failed
  {
    if es != [] { FailedAbsorbs(c, es[1..]); }
  }

  lemma {:induction false} RunSplit(c: Checkers, m: Machine, es: seq<Event>, fs: seq<Event>)
    ensures Run(c, m, es + fs) == Run(c, Run(c, m, es), fs)
    decreases es
  {
    if es == [] {
      assert es + fs == fs;
    } else {
      assert (es + fs)[1..] == es[1..] + fs;
      RunSplit(c, Step(c, m, es[0]), es[1..], fs);
    }
  }

  /** The machine's state after the events of one value. */
  function AfterValue(c: Checkers, m: Machine, d: Doc): Machine
    requires TakesValue(m)
  {
    if Slot(m).None? then Failed
    else
      match Stream(c, Slot(m).value, d)
      case None => Failed
      case Some(v) => Attach(m, v)
  }

  /** Both cursors return to where they were: whatever the depth of `d`, its
      events either fail or store exactly the recursive result. */
  lemma {:induction false} RunValue(c: Checkers, m: Machine, d: Doc)
    requires TakesValue(m)
    ensures Run(c, m, Events(d)) == AfterValue(c, m, d)
    decreases d, 1
  {
    match d
    case DObj(ms) => RunObject(c, m, ms);
    case DArr(ds) => RunArray(c, m, ds);
    case _ => assert Run(c, m, Events(d)) == Step(c, m, Events(d)[0]);
  }

  /** The end of an object stores it where it was opened. */
  lemma {:induction false} CloseObjectStep(c: Checkers, m: Machine, ms: seq<Member>, s: Option<Schema>, mem: map<string, Json>)
    requires TakesValue(m) && Slot(m) == Some(s) && TypeOk(s, Obj(map[]))
    requires StreamMembers(c, s, ms, map[]) == Some(mem)
    ensures Run(c, Machine(m.stack + [ObjFrame(s, mem, None)], Inside), [EEndMap]) == AfterValue(c, m, DObj(ms))
  {
    hide Run, Attach, StreamMembers, Slot, CloseObject, ValidType, Pop;
    var m2 := Machine(m.stack + [ObjFrame(s, mem, None)], Inside);
    assert m2.stack[..|m2.stack| - 1] == m.stack;
    PopRestores(m, m2);
    RunOne(c, m2, EEndMap);
  }

  lemma RunOne(c: Checkers, m: Machine, e: Event)
    ensures Run(c, m, [e]) == Step(c, m, e)
  {
  }

  lemma {:induction false} RunObject(c: Checkers, m: Machine, ms: seq<Member>)
    requires TakesValue(m)
    ensures Run(c, m, Events(DObj(ms))) == AfterValue(c, m, DObj(ms))
    decreases DObj(ms), 0
  {
    hide Run, StreamMembers, Slot, ValidType, CloseObject, Attach, TypeOk;
    var inner := MemberEvents(ms) + [EEndMap];
    assert Events(DObj(ms)) == [EStartMap] + inner;
    RunCons(c, m, EStartMap, inner);
    var m1 := Step(c, m, EStartMap);
    if m1 == Failed {
      FailedAbsorbs(c, inner);
    } else {
      RunSplit(c, m1, MemberEvents(ms), [EEndMap]);
      RunMembers(c, m1, ms);
      FailedAbsorbs(c, [EEndMap]);
      match StreamMembers(c, Top(m1).schema, ms, map[]) {
        case None =>
        case Some(mem) => CloseObjectStep(c, m, ms, Top(m1).schema, mem);
      }
    }
  }

  lemma {:induction false} CloseArrayStep(c: Checkers, m: Machine, ds: seq<Doc>, s: Option<Schema>, es: seq<Json>)
    requires TakesValue(m) && Slot(m) == Some(s) && TypeOk(s, Arr([]))
    requires StreamElems(c, s, ds, 0) == Some(es)
    ensures Run(c, Machine(m.stack + [ArrFrame(s, es)], Inside), [EEndArray]) == AfterValue(c, m, DArr(ds))
  {
    hide Run, Attach, StreamElems, Slot, MinSizeOk, ValidType, Pop;
    var m2 := Machine(m.stack + [ArrFrame(s, es)], Inside);
    assert m2.stack[..|m2.stack| - 1] == m.stack;
    PopRestores(m, m2);
    RunOne(c, m2, EEndArray);
  }

  lemma {:induction false} RunArray(c: Checkers, m: Machine, ds: seq<Doc>)
    requires TakesValue(m)
    ensures Run(c, m, Events(DArr(ds))) == AfterValue(c, m, DArr(ds))
    decreases DArr(ds), 0
  {
    hide Run, StreamElems, Slot, ValidType, MinSizeOk, Attach, TypeOk;
    var inner := ElemEvents(ds) + [EEndArray];
    assert Events(DArr(ds)) == [EStartArray] + inner;
    RunCons(c, m, EStartArray, inner);
    var m1 := Step(c, m, EStartArray);
    if m1 == Failed {
      FailedAbsorbs(c, inner);
    } else {
      RunSplit(c, m1, ElemEvents(ds), [EEndArray]);
      RunElems(c, m1, ds);
      FailedAbsorbs(c, [EEndArray]);
      match StreamElems(c, Top(m1).schema, ds, 0) {
        case None =>
        case Some(es) =>
          assert Top(m1).elems + es == es;
          CloseArrayStep(c, m, ds, Top(m1).schema, es);
      }
    }
  }

  lemma RunCons(c: Checkers, m: Machine, e: Event, es: seq<Event>)
    ensures Run(c, m, [e] + es) == Run(c, Step(c, m, e), es)
  {
    assert ([e] + es)[1..] == es;
  }

  /** Popping a container that was opened on `m` gives a machine in which
      Attach acts as on `m`. */
  lemma PopRestores(m: Machine, m2: Machine)
    requires TakesValue(m) && m2.Machine? && m2.stack != []
    requires m2.stack[..|m2.stack| - 1] == m.stack
    ensures TakesValue(Pop(m2))
    ensures forall v :: Attach(Pop(m2), v) == Attach(m, v)
  {
  }

  /** One member stored: the object is open and has that member. */
  lemma {:induction false} MemberStored(m: Machine, key: string, v: Json)
    requires AtObject(m) && Key(m, key) != Failed
    ensures var m1 := Key(m, key);
      var n := Attach(m1, v);
      && TakesValue(m1) && m1.focus.Waiting? && Slot(m1) == ChildOf(Top(m).schema, key)
      && AtObject(n) && Top(n) == ObjFrame(Top(m).schema, Top(m).members[key := v], None)
      && forall f :: SetTop(n, f) == SetTop(m, f)
  {
  }

  lemma {:induction false} RunMembers(c: Checkers, m: Machine, ms: seq<Member>)
    requires AtObject(m)
    ensures Run(c, m, MemberEvents(ms)) ==
      match StreamMembers(c, Top(m).schema, ms, Top(m).members)
      case None => Failed
      case Some(mem) => SetTop(m, ObjFrame(Top(m).schema, mem, None))
    decreases ms, 0
  {
    if ms == [] {
      assert SetTop(m, Top(m)) == m;
    } else {
      hide Stream, ChildOf, Run, Attach, SetTop, Top, Slot;
      var key := ms[0].key;
      var tail := Events(ms[0].val) + MemberEvents(ms[1..]);
      assert MemberEvents(ms) == [EKey(key)] + tail;
      RunCons(c, m, EKey(key), tail);
      var m1 := Step(c, m, EKey(key));
      if m1 == Failed {
        FailedAbsorbs(c, tail);
      } else {
        MemberStored(m, key, Null);
        RunSplit(c, m1, Events(ms[0].val), MemberEvents(ms[1..]));
        RunValue(c, m1, ms[0].val);
        FailedAbsorbs(c, MemberEvents(ms[1..]));
        match Stream(c, Slot(m1).value, ms[0].val) {
          case None =>
          case Some(v) =>
            MemberStored(m, key, v);
            RunMembers(c, Attach(m1, v), ms[1..]);
        }
      }
    }
  }

  /** One element stored: the array is open with that element at its end. */
  lemma {:induction false} ElemStored(m: Machine, v: Json)
    requires AtArray(m)
    ensures var n := Attach(m, v);
      && AtArray(n) && Top(n) == ArrFrame(Top(m).schema, Top(m).elems + [v])
      && forall f :: SetTop(n, f) == SetTop(m, f)
  {
  }

  lemma {:induction false} RunElems(c: Checkers, m: Machine, ds: seq<Doc>)
    requires AtArray(m)
    ensures Run(c, m, ElemEvents(ds)) ==
      match StreamElems(c, Top(m).schema, ds, |Top(m).elems|)
      case None => Failed
      case Some(es) => SetTop(m, ArrFrame(Top(m).schema, Top(m).elems + es))
    decreases ds, 0
  {
    var f := Top(m);
    if ds == [] {
      assert f.elems + [] == f.elems;
      assert SetTop(m, f) == m;
    } else {
      hide Stream, ChildAt, Run, Attach, SetTop, Top;
      RunSplit(c, m, Events(ds[0]), ElemEvents(ds[1..]));
      RunValue(c, m, ds[0]);
      FailedAbsorbs(c, ElemEvents(ds[1..]));
      if Slot(m).Some? {
        match Stream(c, Slot(m).value, ds[0]) {
          case None =>
          case Some(v) =>
            ElemStored(m, v);
            RunElems(c, Attach(m, v), ds[1..]);
            match StreamElems(c, f.schema, ds[1..], |f.elems| + 1) {
              case None =>
              case Some(vs) => assert f.elems + [v] + vs == f.elems + ([v] + vs);
            }
        }
      }
    }
  }

  /** Parsing is the recursive function: in particular the cursor always ends
      above the root when the document is accepted. */
  lemma {:induction false} ParseIsStream(c: Checkers, s: Option<Schema>, d: Doc)
    ensures Parse(c, s, d) == Stream(c, s, d)
    ensures Run(c, Start(s), Events(d)) ==
      match Stream(c, s, d)
      case None => Failed
      case Some(v) => Machine([], Above(v))
  {
    RunValue(c, Start(s), d);
  }
}
