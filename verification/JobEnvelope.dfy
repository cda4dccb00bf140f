/** The recursive job envelope: JobImpl::to_json (gearbox/job/JobImpl.cc)
    against JobManager::job(name, envelope) (gearbox/job/JobManager.cc). */
module JobEnvelope {
  import opened Outcomes
  import opened Text
  import opened JsonValue
  import JsonSchema
  import JsonStream
  import JsonGenerator

  datatype Kind = UnknownKind | Sync | Async

  datatype Event = Unknown | Completed | Failed | Succeeded | Started | Stopped | Cancelled

  /** JobImpl::Private. A handler pointer that is null is not in `on`. */
  datatype Job = Job(
    name: string, kind: Kind,
    version: string, operation: string, component: string,
    resourceType: string, resourceName: string,
    remoteIp: string, remoteUser: string,
    baseUri: string, parentUri: string, status: string, content: string,
    arguments: seq<string>, matrix: map<string, string>, headers: map<string, string>,
    environ: map<string, string>, query: map<string, string>,
    on: map<Event, Job>)

  /** The schema files that exist, and whether a job must have one. */
  datatype Config = Config(schemas: set<string>, required: bool)

  const DefaultBase := "http://localhost:4080/internal"
  const ParentHeader := "y-status-parent-uri"

  // ---- events ----------------------------------------------------------------

  /** Job::event2str. */
  function EventName(e: Event): string {
    match e
    case Completed => "COMPLETED"
    case Failed => "FAILED"
    case Succeeded => "SUCCEEDED"
    case Started => "STARTED"
    case Stopped => "STOPPED"
    case Cancelled => "CANCELLED"
    case Unknown => "UNKNOWN"
  }

  /** Job::str2event. */
  function EventOf(s: string): Event {
    if s == "COMPLETED" then Completed
    else if s == "FAILED" then Failed
    else if s == "SUCCEEDED" then Succeeded
    else if s == "STARTED" then Started
    else if s == "STOPPED" then Stopped
    else if s == "CANCELLED" then Cancelled
    else Unknown
  }

  lemma EventOfName(e: Event)
    ensures EventOf(EventName(e)) == e
  {
    assert "STARTED"[2] != "STOPPED"[2];
    assert "COMPLETED"[0] != "SUCCEEDED"[0] && "COMPLETED"[0] == "CANCELLED"[0] && "COMPLETED"[1] != "CANCELLED"[1];
    assert "SUCCEEDED"[0] != "CANCELLED"[0];
    assert "UNKNOWN"[0] != "STARTED"[0] && "UNKNOWN"[0] != "STOPPED"[0];
  }

  // ---- job names -------------------------------------------------------------

  /** The part of `s` after its last underscore. */
  function AfterLast(s: string): (r: string)
    ensures |r| <= |s| && r == s[|s| - |r|..] && '_' !in r
    ensures |r| < |s| ==> s[|s| - |r| - 1] == '_'
  {
    if s == [] || s[|s| - 1] == '_' then []
    else
      var r := AfterLast(s[..|s| - 1]);
      r + [s[|s| - 1]]
  }

  predicate IsUri(s: string) { FindSep(s, 0) < |s| }

  predicate IsVersion(v: string) { |v| >= 2 && v[0] == 'v' && '0' <= v[1] <= '9' }

  /** JobImpl::operation, the setter. */
  function Operation(op: string): string {
    if op == "put" then "create" else if op == "post" then "update" else op
  }

  function Blank(name: string): Job {
    Job(name, Async, "", "", "", "", "", "", "", DefaultBase, "", "", "", [], map[], map[], map[], map[], map[])
  }

  /** JobImpl::name, with set_job_from_name for names that are not URIs. */
  function FromName(name: string): Option<Job> {
    if IsUri(name) then Some(Blank(name))
    else if |name| < 3 || name[..3] != "do_" then None
    else
      var opEnd := Find(name, '_', 3);
      if opEnd == |name| then None
      else
        var version := AfterLast(name);
        if !IsVersion(version) then None
        else
          var compEnd := Find(name, '_', opEnd + 1);
          if compEnd == |name| then None
          else
            var resEnd := Find(name, '_', compEnd + 1);
            if resEnd == |name| then None
            else Some(Blank(name).(
              version := version,
              operation := Operation(name[3..opEnd]),
              component := name[opEnd + 1..compEnd],
              resourceType := name[compEnd + 1..resEnd]))
  }

  lemma {:induction false} LastAt(s: string, at: nat)
    requires at < |s| && s[at] == '_' && '_' !in s[at + 1..]
    ensures AfterLast(s) == s[at + 1..]
  {
    if at + 1 < |s| {
      var most := s[..|s| - 1];
      assert s[at + 1..] == most[at + 1..] + [s[|s| - 1]];
      LastAt(most, at);
    }
  }

  lemma NameParts(name: string, a: nat, b: nat, d: nat)
    requires 3 <= a < b < d < |name| && !IsUri(name) && name[..3] == "do_"
    requires name[a] == '_' && name[b] == '_' && name[d] == '_'
    requires '_' !in name[3..a] && '_' !in name[a + 1..b] && '_' !in name[b + 1..d] && '_' !in name[d + 1..]
    requires IsVersion(name[d + 1..])
    ensures FromName(name) == Some(Blank(name).(
      version := name[d + 1..], operation := Operation(name[3..a]),
      component := name[a + 1..b], resourceType := name[b + 1..d]))
  {
    hide Find, AfterLast, Operation, IsVersion, IsUri;
    FindAt(name, '_', 3, a);
    FindAt(name, '_', a + 1, b);
    FindAt(name, '_', b + 1, d);
    LastAt(name, d);
  }

  /** The documented form do_<op>_<component>_<resource>_<version> is read back
      field by field. */
  lemma NameReadsBack(op: string, comp: string, res: string, v: string, name: string)
    requires '_' !in op && '_' !in comp && '_' !in res && '_' !in v && IsVersion(v)
    requires name == "do_" + op + "_" + comp + "_" + res + "_" + v && !IsUri(name)
    ensures FromName(name) == Some(Blank(name).(
        version := v, operation := Operation(op), component := comp, resourceType := res))
  {
    hide FromName, Operation, Blank;
    var a := 3 + |op|;
    var b := a + 1 + |comp|;
    var d := b + 1 + |res|;
    assert name[..3] == "do_" && name[3..a] == op && name[a] == '_';
    assert name[a + 1..b] == comp && name[b] == '_';
    assert name[b + 1..d] == res && name[d] == '_' && name[d + 1..] == v;
    NameParts(name, a, b, d);
  }

  // ---- keys ------------------------------------------------------------------

  /** The keys of an envelope and of the objects in it. */
  datatype Field =
    | FVersion | FJobType | FOperation | FComponent | FResource | FType | FName | FRemote | FIp
    | FUser | FBaseUri | FParentUri | FStatus | FContent | FArguments | FMatrix
    | FHeaders | FEnviron | FQuery | FOn | FEnvelope

  function Key(f: Field): string {
    match f
    case FVersion => "version"
    case FJobType => "job_type"
    case FOperation => "operation"
    case FComponent => "component"
    case FResource => "resource"
    case FType => "type"
    case FName => "name"
    case FRemote => "remote"
    case FIp => "ip"
    case FUser => "user"
    case FBaseUri => "base_uri"
    case FParentUri => "parent_uri"
    case FStatus => "status"
    case FContent => "content"
    case FArguments => "arguments"
    case FMatrix => "matrix_arguments"
    case FHeaders => "headers"
    case FEnviron => "environ"
    case FQuery => "query_params"
    case FOn => "on"
    case FEnvelope => "envelope"
  }

  /** All keys differ. */
  lemma KeysDiffer()
    ensures forall f, g | Key(f) == Key(g) :: f == g
  {
    forall f, g | Key(f) == Key(g)
      ensures f == g
    {
      assert Key(f)[0] == Key(g)[0] && Key(f)[1] == Key(g)[1] && |Key(f)| == |Key(g)|;
    }
  }

  // ---- encoding --------------------------------------------------------------

  function Texts(m: map<string, string>): map<string, Json> { map k <- m :: Str(m[k]) }

  function Strs(a: seq<string>): seq<Json> { seq(|a|, i requires 0 <= i < |a| => Str(a[i])) }

  /** Set a key unless the text is empty. */
  function PutText(m: map<string, Json>, key: Field, s: string): map<string, Json> {
    if s == "" then m else m[Key(key) := Str(s)]
  }

  function Remote(j: Job): map<string, Json> {
    PutText(PutText(map[], FIp, j.remoteIp), FUser, j.remoteUser)
  }

  function Resource(j: Job): map<string, Json> {
    PutText(map[Key(FType) := Str(j.resourceType)], FName, j.resourceName)
  }

  function KindName(k: Kind): string { if k == Sync then "sync" else "async" }

  function Handler(name: string, envelope: Json): Json {
    Obj(map[Key(FName) := Str(name), Key(FEnvelope) := envelope])
  }

  function TextMember(s: string): Option<Json> { if s == "" then None else Some(Str(s)) }

  function ObjectMember(m: map<string, Json>): Option<Json> { if m == map[] then None else Some(Obj(m)) }

  /** What to_json writes under each key of the envelope, if anything. */
  function MemberOf(j: Job, f: Field): Option<Json>
    decreases j, 2
  {
    match f
    case FVersion => Some(Str(j.version))
    case FJobType => Some(Str(KindName(j.kind)))
    case FOperation => Some(Str(j.operation))
    case FComponent => Some(Str(j.component))
    case FResource => Some(Obj(Resource(j)))
    case FRemote => ObjectMember(Remote(j))
    case FBaseUri => TextMember(j.baseUri)
    case FParentUri => TextMember(j.parentUri)
    case FStatus => TextMember(j.status)
    case FArguments => Some(Arr(Strs(j.arguments)))
    case FMatrix => Some(Obj(Texts(j.matrix)))
    case FHeaders => Some(Obj(Texts(j.headers)))
    case FEnviron => Some(Obj(Texts(j.environ)))
    case FQuery => Some(Obj(Texts(j.query)))
    case FOn => ObjectMember(Handlers(j))
    case FContent => TextMember(j.content)
    case _ => None
  }

  const Written: nat := 16

  /** The order in which to_json writes its fields; the others are keys of
      inner objects. */
  function Rank(f: Field): nat {
    match f
    case FVersion => 0
    case FJobType => 1
    case FOperation => 2
    case FComponent => 3
    case FResource => 4
    case FRemote => 5
    case FBaseUri => 6
    case FParentUri => 7
    case FStatus => 8
    case FArguments => 9
    case FMatrix => 10
    case FHeaders => 11
    case FEnviron => 12
    case FQuery => 13
    case FOn => 14
    case FContent => 15
    case _ => Written
  }

  function Earliest(n: nat): set<Field> { set f: Field | Rank(f) < n }

  /** The members written for the first `n` fields. */
  function Members(j: Job, n: nat): map<string, Json>
    decreases j, 3
  {
    KeysDiffer();
    map f | f in Earliest(n) && MemberOf(j, f).Some? :: Key(f) := MemberOf(j, f).value
  }

  lemma MembersLookup(j: Job, n: nat)
    ensures var r := Members(j, n);
      && (forall f <- Earliest(n) :: MemberOf(j, f).Some? ==> Key(f) in r && r[Key(f)] == MemberOf(j, f).value)
      && (forall f :: Key(f) in r ==> f in Earliest(n) && MemberOf(j, f).Some?)
      && (forall k <- r :: exists f <- Earliest(n) :: k == Key(f))
  {
    hide Earliest, MemberOf, Key;
    KeysDiffer();
    forall k | k in Members(j, n)
      ensures exists f <- Earliest(n) :: k == Key(f)
    {
      var f :| f in Earliest(n) && MemberOf(j, f).Some? && k == Key(f);
    }
  }

  /** JobImpl::to_json. */
  function Envelope(j: Job): Json
    decreases j, 4
  {
    Obj(Members(j, Written))
  }

  function NamesOf(on: map<Event, Job>): (r: set<string>)
    ensures forall k <- r :: EventOf(k) in on && EventName(EventOf(k)) == k
    ensures forall e <- on :: EventName(e) in r
  {
    assert forall e <- on :: EventOf(EventName(e)) == e by {
      forall e | e in on ensures EventOf(EventName(e)) == e { EventOfName(e); }
    }
    set e | e in on :: EventName(e)
  }

  function Handlers(j: Job): map<string, Json>
    decreases j, 1
  {
    map k <- NamesOf(j.on) :: HandlerAt(j, EventOf(k))
  }

  function HandlerAt(j: Job, e: Event): Json
    requires e in j.on
    decreases j, 0
  {
    Handler(j.on[e].name, Envelope(j.on[e]))
  }

  // ---- key order ---------------------------------------------------------------

  /** The order of std::map keys. */
  predicate Leq(a: string, b: string) {
    a == [] || (b != [] && (a[0] < b[0] || (a[0] == b[0] && Leq(a[1..], b[1..]))))
  }

  lemma {:induction false} LeqTotal(a: string, b: string)
    ensures Leq(a, b) || Leq(b, a)
    ensures Leq(a, b) && Leq(b, a) ==> a == b
  {
    if a != [] && b != [] {
      LeqTotal(a[1..], b[1..]);
      assert a == [a[0]] + a[1..] && b == [b[0]] + b[1..];
    }
  }

  lemma {:induction false} LeqTransitive(a: string, b: string, c: string)
    requires Leq(a, b) && Leq(b, c)
    ensures Leq(a, c)
  {
    if a != [] && a[0] == b[0] && b[0] == c[0] { LeqTransitive(a[1..], b[1..], c[1..]); }
  }

  predicate IsFirst(keys: set<string>, k: string) { k in keys && forall x <- keys :: Leq(k, x) }

  lemma {:induction false} FirstExists(keys: set<string>)
    requires keys != {}
    ensures exists k :: IsFirst(keys, k)
  {
    var x :| x in keys;
    var rest := keys - {x};
    LeqTotal(x, x);
    if rest == {} {
      assert keys == {x};
      assert IsFirst(keys, x);
    } else {
      FirstExists(rest);
      var k :| IsFirst(rest, k);
      var first := if Leq(x, k) then x else k;
      LeqTotal(x, k);
      forall y | y in keys
        ensures Leq(first, y)
      {
        if y != x && first == x { LeqTransitive(x, k, y); }
      }
      assert IsFirst(keys, first);
    }
  }

  /** The first key an iteration over a std::map meets. */
  function First(keys: set<string>): (r: string)
    requires keys != {}
    ensures IsFirst(keys, r)
  {
    FirstExists(keys);
    assert forall k, x | IsFirst(keys, k) && IsFirst(keys, x) :: k == x by {
      forall k, x | IsFirst(keys, k) && IsFirst(keys, x) ensures k == x { LeqTotal(k, x); }
    }
    var k :| IsFirst(keys, k);
    k
  }

  // ---- decoding ------------------------------------------------------------------

  /** What a decoding leaves: the job, unless it threw, and the manager's
      base_uri. */
  datatype Decoded = Decoded(job: Option<Job>, base: string)

  datatype DecodedHandlers = DecodedHandlers(on: Option<map<Event, Job>>, base: string)

  predicate HasKey(j: Json, key: Field) { j.Obj? && Key(key) in j.m }

  /** Every present key among `keys` holds a string. */
  predicate TextKeys(j: Json, keys: set<Field>) {
    forall k <- keys :: HasKey(j, k) ==> j.m[Key(k)].Str?
  }

  function TextOr(j: Json, key: Field, default: string): string {
    if HasKey(j, key) && j.m[Key(key)].Str? then j.m[Key(key)].s else default
  }

  /** Absent, or an object of strings. */
  predicate TextObject(j: Json, key: Field) {
    HasKey(j, key) ==> j.m[Key(key)].Obj? && forall k <- j.m[Key(key)].m :: j.m[Key(key)].m[k].Str?
  }

  function TextsOf(j: Json, key: Field): map<string, string>
    requires TextObject(j, key)
  {
    if HasKey(j, key) then map k <- j.m[Key(key)].m :: j.m[Key(key)].m[k].s else map[]
  }

  /** Absent, or an array of strings. */
  predicate TextArray(j: Json, key: Field) {
    HasKey(j, key) ==> j.m[Key(key)].Arr? && forall i | 0 <= i < |j.m[Key(key)].a| :: j.m[Key(key)].a[i].Str?
  }

  function StrsOf(j: Json, key: Field): seq<string>
    requires TextArray(j, key)
  {
    if HasKey(j, key)
    then var a := j.m[Key(key)].a; seq(|a|, i requires 0 <= i < |a| => a[i].s)
    else []
  }

  /** JobManager::getSchema: whether it finds a schema or needs none. */
  predicate SchemaFound(cfg: Config, j: Job) {
    || !cfg.required
    || j.operation + "-" + j.component + "-" + j.resourceType + "-" + j.version in cfg.schemas
    || j.operation + "-global-" + j.resourceType + "-" + j.version in cfg.schemas
  }

  /** The name and the job_type: what is read before the handlers. */
  function Begin(name: string, env: Json): Option<Job> {
    match FromName(name)
    case None => None
    case Some(j) =>
      if !HasKey(env, FJobType) then Some(j)
      else if env.m[Key(FJobType)] == Str("sync") then Some(j.(kind := Sync))
      else if env.m[Key(FJobType)] == Str("async") then Some(j.(kind := Async))
      else None
  }

  /** The fields between the handlers and base_uri. */
  function ReadNames(j: Job, env: Json): Option<Job> {
    if !TextKeys(env, {FVersion, FOperation, FComponent, FParentUri}) then None
    else if HasKey(env, FResource) && !TextKeys(env.m[Key(FResource)], {FType, FName}) then None
    else
      var res := if HasKey(env, FResource) then env.m[Key(FResource)] else Null;
      Some(j.(
        version := TextOr(env, FVersion, j.version),
        operation := if HasKey(env, FOperation) then Operation(TextOr(env, FOperation, "")) else j.operation,
        component := TextOr(env, FComponent, j.component),
        resourceType := TextOr(res, FType, j.resourceType),
        resourceName := TextOr(res, FName, j.resourceName),
        parentUri := TextOr(env, FParentUri, j.parentUri)))
  }

  /** Everything after base_uri. */
  function ReadRest(cfg: Config, j: Job, env: Json): Option<Job> {
    if !TextKeys(env, {FStatus, FContent}) || !SchemaFound(cfg, j) then None
    else if !TextObject(env, FHeaders) || !TextObject(env, FMatrix)
         || !TextObject(env, FEnviron) || !TextObject(env, FQuery)
         || !TextArray(env, FArguments) then None
    else
      var headers := TextsOf(env, FHeaders);
      Some(j.(
        status := TextOr(env, FStatus, j.status),
        content := TextOr(env, FContent, j.content),
        parentUri := if ParentHeader in headers then headers[ParentHeader] else j.parentUri,
        headers := headers - {ParentHeader},
        matrix := TextsOf(env, FMatrix),
        environ := TextsOf(env, FEnviron),
        query := TextsOf(env, FQuery),
        arguments := StrsOf(env, FArguments)))
  }

  function Finish(cfg: Config, j: Job, env: Json, h: DecodedHandlers): Decoded {
    if h.on.None? then Decoded(None, h.base)
    else
      match ReadNames(j.(on := h.on.value), env)
      case None => Decoded(None, h.base)
      case Some(k) =>
        if !TextKeys(env, {FBaseUri}) then Decoded(None, h.base)
        else Decoded(
          ReadRest(cfg, k.(baseUri := TextOr(env, FBaseUri, k.baseUri)), env),
          TextOr(env, FBaseUri, h.base))
  }

  /** JobManager::job(name, envelope) of a manager whose base_uri is `base`. */
  function Decode(cfg: Config, name: string, env: Json, base: string): Decoded
    decreases if env.Null? then 0 else 1, env, 1
  {
    match Begin(name, env)
    case None => Decoded(None, base)
    case Some(j) => Finish(cfg, j, env, DecodeOn(cfg, env, base))
  }

  /** The handlers under FOn, decoded by the same manager. */
  function DecodeOn(cfg: Config, env: Json, base: string): DecodedHandlers
    decreases if env.Null? then 0 else 1, env, 0
  {
    if !HasKey(env, FOn) then DecodedHandlers(Some(map[]), base)
    else
      var on := env.m[Key(FOn)];
      if on.Obj? then DecodeHandlers(cfg, on, on.m.Keys, map[], base)
      else DecodedHandlers(None, base)
  }

  /** Decode the members `todo` of `on` in key order. A later name of the same
      event replaces an earlier one; a missing envelope reads as null. */
  function DecodeHandlers(cfg: Config, on: Json, todo: set<string>, sofar: map<Event, Job>, base: string): DecodedHandlers
    requires on.Obj? && todo <= on.m.Keys
    decreases 1, on, todo
  {
    if todo == {} then DecodedHandlers(Some(sofar), base)
    else
      var k := First(todo);
      var v := on.m[k];
      if !HasKey(v, FName) || !v.m[Key(FName)].Str? then DecodedHandlers(None, base)
      else
        var r := Decode(cfg, v.m[Key(FName)].s, if Key(FEnvelope) in v.m then v.m[Key(FEnvelope)] else Null, base);
        if r.job.None? then DecodedHandlers(None, r.base)
        else DecodeHandlers(cfg, on, todo - {k}, sofar[EventOf(k) := r.job.value], r.base)
  }

  // ---- round trip ----------------------------------------------------------------

  /** The decoded job does not depend on the manager's base_uri. */
  lemma {:induction false} JobIgnoresBase(cfg: Config, name: string, env: Json, b: string, c: string)
    ensures Decode(cfg, name, env, b).job == Decode(cfg, name, env, c).job
    decreases if env.Null? then 0 else 1, env, 1
  {
    hide Begin, ReadNames, ReadRest, TextKeys;
    if HasKey(env, FOn) && env.m[Key(FOn)].Obj? {
      HandlersIgnoreBase(cfg, env.m[Key(FOn)], env.m[Key(FOn)].m.Keys, map[], b, c);
    }
  }

  lemma {:induction false} HandlersIgnoreBase(
    cfg: Config, on: Json, todo: set<string>, sofar: map<Event, Job>, b: string, c: string)
    requires on.Obj? && todo <= on.m.Keys
    ensures DecodeHandlers(cfg, on, todo, sofar, b).on == DecodeHandlers(cfg, on, todo, sofar, c).on
    decreases 1, on, todo
  {
    hide Decode;
    if todo != {} {
      var k := First(todo);
      var v := on.m[k];
      if HasKey(v, FName) && v.m[Key(FName)].Str? {
        var name, inner := v.m[Key(FName)].s, if Key(FEnvelope) in v.m then v.m[Key(FEnvelope)] else Null;
        JobIgnoresBase(cfg, name, inner, b, c);
        var r, t := Decode(cfg, name, inner, b), Decode(cfg, name, inner, c);
        if r.job.Some? {
          HandlersIgnoreBase(cfg, on, todo - {k}, sofar[EventOf(k) := r.job.value], r.base, t.base);
        }
      }
    }
  }

  /** What a decoder makes of the envelope of `j` when the handlers in it arrive
      as `on`: every way in which a job can change on the way. */
  function Arrives(j: Job, on: map<Event, Job>): Job {
    j.(
      kind := if j.kind == Sync then Sync else Async,
      operation := Operation(j.operation),
      remoteIp := "", remoteUser := "",
      baseUri := if j.baseUri == "" then DefaultBase else j.baseUri,
      parentUri := if ParentHeader in j.headers then j.headers[ParentHeader] else j.parentUri,
      headers := j.headers - {ParentHeader},
      on := on)
  }

  lemma EnvelopeLookup(j: Job, f: Field)
    requires Rank(f) < Written
    ensures HasKey(Envelope(j), f) <==> MemberOf(j, f).Some?
    ensures HasKey(Envelope(j), f) ==> Envelope(j).m[Key(f)] == MemberOf(j, f).value
  {
    hide Members, MemberOf, Key;
    MembersLookup(j, Written);
  }

  lemma TextReadsBack(j: Job, f: Field, s: string, default: string)
    requires Rank(f) < Written && (MemberOf(j, f) == TextMember(s) || MemberOf(j, f) == Some(Str(s)))
    ensures HasKey(Envelope(j), f) ==> Envelope(j).m[Key(f)].Str?
    ensures TextOr(Envelope(j), f, default) == if HasKey(Envelope(j), f) then s else default
    ensures HasKey(Envelope(j), f) <==> MemberOf(j, f).Some?
    ensures s != "" ==> HasKey(Envelope(j), f)
  {
    EnvelopeLookup(j, f);
  }

  lemma ObjectReadsBack(j: Job, f: Field, m: map<string, string>)
    requires Rank(f) < Written && MemberOf(j, f) == Some(Obj(Texts(m)))
    ensures TextObject(Envelope(j), f) && TextsOf(Envelope(j), f) == m
  {
    hide Envelope, Key, MemberOf;
    EnvelopeLookup(j, f);
  }

  lemma ArgumentsReadBack(j: Job)
    ensures TextArray(Envelope(j), FArguments) && StrsOf(Envelope(j), FArguments) == j.arguments
  {
    hide Envelope, Key;
    EnvelopeLookup(j, FArguments);
  }

  lemma StatusReadsBack(j: Job)
    ensures TextKeys(Envelope(j), {FStatus, FContent})
    ensures TextOr(Envelope(j), FStatus, "") == j.status && TextOr(Envelope(j), FContent, "") == j.content
  {
    hide Envelope, Key, Handlers;
    TextReadsBack(j, FStatus, j.status, "");
    TextReadsBack(j, FContent, j.content, "");
  }

  lemma HashesReadBack(j: Job)
    ensures TextObject(Envelope(j), FHeaders) && TextsOf(Envelope(j), FHeaders) == j.headers
    ensures TextObject(Envelope(j), FMatrix) && TextsOf(Envelope(j), FMatrix) == j.matrix
    ensures TextObject(Envelope(j), FEnviron) && TextsOf(Envelope(j), FEnviron) == j.environ
    ensures TextObject(Envelope(j), FQuery) && TextsOf(Envelope(j), FQuery) == j.query
  {
    hide Envelope, Key, TextObject, TextsOf, Handlers, Texts;
    ObjectReadsBack(j, FHeaders, j.headers);
    ObjectReadsBack(j, FMatrix, j.matrix);
    ObjectReadsBack(j, FEnviron, j.environ);
    ObjectReadsBack(j, FQuery, j.query);
  }

  lemma ResourceReadsBack(j: Job)
    ensures HasKey(Envelope(j), FResource)
    ensures var r := Envelope(j).m[Key(FResource)];
      && TextKeys(r, {FType, FName})
      && (forall t :: TextOr(r, FType, t) == j.resourceType)
      && TextOr(r, FName, "") == j.resourceName
  {
    hide Envelope, Key;
    KeysDiffer();
    EnvelopeLookup(j, FResource);
  }

  lemma BeginEnvelope(j: Job)
    ensures Begin(j.name, Envelope(j)) ==
      match FromName(j.name) { case None => None case Some(k) => Some(k.(kind := if j.kind == Sync then Sync else Async)) }
  {
    hide Envelope, FromName;
    EnvelopeLookup(j, FJobType);
    assert "sync" != "async";
  }

  lemma NamesEnvelope(j: Job, k: Job)
    requires k.resourceName == "" && k.parentUri == ""
    ensures ReadNames(k, Envelope(j)) == Some(k.(
      version := j.version, operation := Operation(j.operation), component := j.component,
      resourceType := j.resourceType, resourceName := j.resourceName, parentUri := j.parentUri))
  {
    hide Envelope, Key, Resource, KindName, Handlers;
    TextReadsBack(j, FVersion, j.version, k.version);
    TextReadsBack(j, FOperation, j.operation, "");
    TextReadsBack(j, FComponent, j.component, k.component);
    TextReadsBack(j, FParentUri, j.parentUri, k.parentUri);
    ResourceReadsBack(j);
  }

  /** What a name leaves untouched. */
  lemma NameDefaults(name: string)
    requires FromName(name).Some?
    ensures var k := FromName(name).value;
      k == Blank(name).(version := k.version, operation := k.operation, component := k.component, resourceType := k.resourceType)
  {
  }

  lemma RestEnvelope(cfg: Config, j: Job, k: Job)
    requires k.status == "" && k.content == "" && k.parentUri == j.parentUri
    ensures ReadRest(cfg, k, Envelope(j)) ==
      if !SchemaFound(cfg, k) then None else Some(k.(
        status := j.status, content := j.content, headers := j.headers - {ParentHeader},
        parentUri := if ParentHeader in j.headers then j.headers[ParentHeader] else j.parentUri,
        matrix := j.matrix, environ := j.environ, query := j.query, arguments := j.arguments))
  {
    hide Envelope, SchemaFound, Key, TextObject, TextsOf, TextArray, StrsOf, MemberOf, HasKey, TextOr;
    StatusReadsBack(j);
    HashesReadBack(j);
    ArgumentsReadBack(j);
  }

  lemma SchemaByNames(cfg: Config, j: Job, k: Job)
    requires j.version == k.version && j.operation == k.operation
    requires j.component == k.component && j.resourceType == k.resourceType
    ensures SchemaFound(cfg, j) == SchemaFound(cfg, k)
  {
  }

  /** What decoding an envelope yields once its handlers are decoded. */
  lemma FinishEnvelope(cfg: Config, j: Job, base: string)
    ensures var r := Decode(cfg, j.name, Envelope(j), base);
      var h := DecodeOn(cfg, Envelope(j), base);
      if FromName(j.name).None? then r == Decoded(None, base)
      else if h.on.None? then r == Decoded(None, h.base)
      else
        var k := Arrives(j, h.on.value);
        && r.base == (if j.baseUri == "" then h.base else j.baseUri)
        && r.job == (if SchemaFound(cfg, k) then Some(k) else None)
  {
    hide Envelope, DecodeOn, SchemaFound, ReadNames, ReadRest, Begin, Key, FromName, Resource, KindName, Handlers;
    BeginEnvelope(j);
    var h := DecodeOn(cfg, Envelope(j), base);
    if FromName(j.name).Some? && h.on.Some? {
      NameDefaults(j.name);
      var k := Begin(j.name, Envelope(j)).value;
      assert Decode(cfg, j.name, Envelope(j), base) == Finish(cfg, k, Envelope(j), h);
      NamesEnvelope(j, k.(on := h.on.value));
      var n := ReadNames(k.(on := h.on.value), Envelope(j)).value;
      TextReadsBack(j, FBaseUri, j.baseUri, n.baseUri);
      TextReadsBack(j, FBaseUri, j.baseUri, h.base);
      assert TextKeys(Envelope(j), {FBaseUri});
      var b := n.(baseUri := TextOr(Envelope(j), FBaseUri, n.baseUri));
      RestEnvelope(cfg, j, b);
      assert Finish(cfg, k, Envelope(j), h).job == ReadRest(cfg, b, Envelope(j));
      SchemaByNames(cfg, b, Arrives(j, h.on.value));
    }
  }

  /** What arrives when `j` is sent to a manager of its own. */
  function Sent(cfg: Config, j: Job): Option<Job> { Decode(cfg, j.name, Envelope(j), "").job }

  /** `r` is `sofar` with the handlers named in `todo` as they arrive, or
      nothing when one of them does not arrive. */
  ghost predicate Gathered(cfg: Config, on: map<Event, Job>, todo: set<string>, sofar: map<Event, Job>, r: Option<map<Event, Job>>)
    requires todo <= NamesOf(on)
  {
    match r
    case None => exists k <- todo :: Sent(cfg, on[EventOf(k)]).None?
    case Some(m) =>
      && (forall k <- todo :: EventOf(k) in m && Sent(cfg, on[EventOf(k)]) == Some(m[EventOf(k)]))
      && (forall e <- sofar :: EventName(e) !in todo ==> e in m && m[e] == sofar[e])
      && (forall e <- m :: e in sofar || EventName(e) in todo)
  }

  lemma GatheredEnds(cfg: Config, on: map<Event, Job>, todo: set<string>, sofar: map<Event, Job>, k: string)
    requires todo <= NamesOf(on)
    requires k in todo ==> Sent(cfg, on[EventOf(k)]).None?
    ensures todo == {} ==> Gathered(cfg, on, todo, sofar, Some(sofar))
    ensures k in todo ==> Gathered(cfg, on, todo, sofar, None)
  {
    hide Sent;
  }

  lemma GatheredStep(
    cfg: Config, on: map<Event, Job>, todo: set<string>, sofar: map<Event, Job>, k: string, v: Job, r: Option<map<Event, Job>>)
    requires todo <= NamesOf(on) && k in todo && Sent(cfg, on[EventOf(k)]) == Some(v)
    requires Gathered(cfg, on, todo - {k}, sofar[EventOf(k) := v], r)
    ensures Gathered(cfg, on, todo, sofar, r)
  {
    hide Sent, EventOf, EventName;
    EventOfName(EventOf(k));
    if r.None? {
      var x :| x in todo - {k} && Sent(cfg, on[EventOf(x)]).None?;
    } else {
      var m := r.value;
      assert EventName(EventOf(k)) == k;
      assert m[EventOf(k)] == v;
    }
  }

  lemma {:induction false} HandlersDecode(cfg: Config, j: Job, todo: set<string>, sofar: map<Event, Job>, base: string)
    requires todo <= NamesOf(j.on)
    ensures Gathered(cfg, j.on, todo, sofar, DecodeHandlers(cfg, Obj(Handlers(j)), todo, sofar, base).on)
    decreases todo
  {
    hide Decode, Envelope, Key, EventName, EventOf, Gathered, NamesOf, First, Handlers;
    HandlerKeys(j);
    if todo == {} {
      GatheredEnds(cfg, j.on, todo, sofar, "");
    } else {
      var k := First(todo);
      var h := j.on[EventOf(k)];
      HandlerShape(j, k);
      JobIgnoresBase(cfg, h.name, Envelope(h), base, "");
      var r := Decode(cfg, h.name, Envelope(h), base);
      if r.job.Some? {
        HandlersDecode(cfg, j, todo - {k}, sofar[EventOf(k) := r.job.value], r.base);
        GatheredStep(cfg, j.on, todo, sofar, k, r.job.value,
          DecodeHandlers(cfg, Obj(Handlers(j)), todo - {k}, sofar[EventOf(k) := r.job.value], r.base).on);
      } else {
        GatheredEnds(cfg, j.on, todo, sofar, k);
      }
    }
  }

  lemma HandlerKeys(j: Job)
    ensures Handlers(j).Keys == NamesOf(j.on)
  {
    hide NamesOf, HandlerAt;
  }

  lemma HandlerShape(j: Job, k: string)
    requires k in NamesOf(j.on)
    ensures k in Handlers(j)
    ensures var v, h := Handlers(j)[k], j.on[EventOf(k)];
      && HasKey(v, FName) && v.m[Key(FName)] == Str(h.name)
      && HasKey(v, FEnvelope) && v.m[Key(FEnvelope)] == Envelope(h)
  {
    hide Key, Envelope, NamesOf, EventOf;
    KeysDiffer();
    assert Handlers(j)[k] == Handler(j.on[EventOf(k)].name, Envelope(j.on[EventOf(k)]));
  }

  /** The handlers of `j` arrive exactly when each arrives on its own. */
  lemma OnDecodes(cfg: Config, j: Job, base: string)
    ensures var r := DecodeOn(cfg, Envelope(j), base).on;
      && (r.Some? <==> forall e <- j.on :: Sent(cfg, j.on[e]).Some?)
      && (r.Some? ==> r.value.Keys == j.on.Keys)
      && (r.Some? ==> forall e <- j.on :: Sent(cfg, j.on[e]) == Some(r.value[e]))
  {
    hide Envelope, Key, Sent, NamesOf, EventName, EventOf, Handlers, DecodeHandlers;
    EnvelopeLookup(j, FOn);
    HandlerKeys(j);
    forall e: Event
      ensures EventOf(EventName(e)) == e
    {
      EventOfName(e);
    }
    assert NamesOf(j.on) == {} <==> j.on == map[];
    assert Handlers(j) == map[] <==> Handlers(j).Keys == {};
    HandlersDecode(cfg, j, NamesOf(j.on), map[], base);
  }

  /** A caller's view of the jobs that survive the trip, at every depth. */
  predicate Sendable(cfg: Config, j: Job) {
    && FromName(j.name).Some?
    && j.kind != UnknownKind
    && j.baseUri != ""
    && j.operation != "put" && j.operation != "post"
    && ParentHeader !in j.headers
    && SchemaFound(cfg, j)
    && forall e <- j.on :: Sendable(cfg, j.on[e])
  }

  /** The job without the fields no decoder reads. */
  function Portable(j: Job): Job {
    j.(remoteIp := "", remoteUser := "", on := map e <- j.on :: Portable(j.on[e]))
  }

  lemma OperationKept(op: string)
    ensures Operation(op) == op <==> op != "put" && op != "post"
  {
    assert "put"[0] != "create"[0] && "post"[0] != "update"[0];
  }

  lemma ArrivesWhole(j: Job, on: map<Event, Job>)
    ensures Arrives(j, on) == Portable(j) <==>
      && j.kind != UnknownKind && j.baseUri != "" && j.operation != "put" && j.operation != "post"
      && ParentHeader !in j.headers && on == Portable(j).on
  {
    hide Operation;
    OperationKept(j.operation);
    assert j.headers - {ParentHeader} == j.headers <==> ParentHeader !in j.headers;
  }

  lemma PortableHandlers(j: Job)
    ensures Portable(j).on.Keys == j.on.Keys
    ensures forall e <- j.on :: Portable(j).on[e] == Portable(j.on[e])
  {
  }

  lemma HandlersWhole(cfg: Config, j: Job, on: map<Event, Job>)
    requires on.Keys == j.on.Keys && forall e <- j.on :: Sent(cfg, j.on[e]) == Some(on[e])
    requires forall e <- j.on :: Sent(cfg, j.on[e]) == Some(Portable(j.on[e])) <==> Sendable(cfg, j.on[e])
    ensures on == Portable(j).on <==> forall e <- j.on :: Sendable(cfg, j.on[e])
  {
    hide Sent, Sendable;
    PortableHandlers(j);
    hide Portable;
    var p := Portable(j).on;
    if forall e <- j.on :: Sendable(cfg, j.on[e]) {
      assert on == p;
    }
    if on == p {
      forall e | e in j.on ensures Sendable(cfg, j.on[e]) { assert on[e] == p[e]; }
    }
  }

  /** Decoding an encoded job gives the same job back, with the same handlers
      at every depth, if and only if the job is sendable. */
  lemma {:induction false} EnvelopeRoundTrip(cfg: Config, j: Job, base: string)
    ensures Decode(cfg, j.name, Envelope(j), base).job == Some(Portable(j)) <==> Sendable(cfg, j)
    decreases j
  {
    hide Decode, Envelope, FromName, SchemaFound, DecodeOn, Portable, Arrives;
    FinishEnvelope(cfg, j, base);
    OnDecodes(cfg, j, base);
    forall e | e in j.on
      ensures Sent(cfg, j.on[e]) == Some(Portable(j.on[e])) <==> Sendable(cfg, j.on[e])
    {
      EnvelopeRoundTrip(cfg, j.on[e], "");
    }
    var h := DecodeOn(cfg, Envelope(j), base).on;
    if h.Some? {
      ArrivesWhole(j, h.value);
      HandlersWhole(cfg, j, h.value);
      var k := Arrives(j, h.value);
      if k == Portable(j) { PortableNames(cfg, j); }
    }
  }

  lemma PortableNames(cfg: Config, j: Job)
    ensures SchemaFound(cfg, Portable(j)) == SchemaFound(cfg, j)
  {
  }

  // ---- the names on the wire -------------------------------------------------------

  lemma KeyNames()
    ensures Key(FVersion) == "version" && Key(FJobType) == "job_type" && Key(FOperation) == "operation"
    ensures Key(FComponent) == "component" && Key(FResource) == "resource" && Key(FType) == "type" && Key(FName) == "name"
    ensures Key(FRemote) == "remote" && Key(FIp) == "ip" && Key(FUser) == "user"
    ensures Key(FBaseUri) == "base_uri" && Key(FParentUri) == "parent_uri" && Key(FStatus) == "status"
    ensures Key(FContent) == "content" && Key(FArguments) == "arguments" && Key(FMatrix) == "matrix_arguments"
    ensures Key(FHeaders) == "headers" && Key(FEnviron) == "environ" && Key(FQuery) == "query_params"
    ensures Key(FOn) == "on" && Key(FEnvelope) == "envelope"
  {
  }

  /** `m` has the text `s` under `key`, and no such member when it is empty. */
  predicate HasText(m: map<string, Json>, key: string, s: string) {
    (key in m <==> s != "") && (key in m ==> m[key] == Str(s))
  }

  /** An object of texts, copied. */
  predicate HasTexts(m: map<string, Json>, key: string, h: map<string, string>) {
    && key in m && m[key].Obj? && m[key].m.Keys == h.Keys
    && forall k <- h :: m[key].m[k] == Str(h[k])
  }

  /** The members of an envelope, under the names other programs read. */
  lemma EnvelopeNames(j: Job)
    ensures var m := Envelope(j).m;
      && "version" in m && m["version"] == Str(j.version)
      && "job_type" in m && m["job_type"] == Str(if j.kind == Sync then "sync" else "async")
      && "operation" in m && m["operation"] == Str(j.operation)
      && "component" in m && m["component"] == Str(j.component)
      && HasText(m, "base_uri", j.baseUri) && HasText(m, "parent_uri", j.parentUri)
      && HasText(m, "status", j.status) && HasText(m, "content", j.content)
  {
    hide Envelope, Key, Handlers, Resource, Remote, Texts, Strs;
    KeyNames();
    EnvelopeLookup(j, FVersion);
    EnvelopeLookup(j, FJobType);
    EnvelopeLookup(j, FOperation);
    EnvelopeLookup(j, FComponent);
    EnvelopeLookup(j, FBaseUri);
    EnvelopeLookup(j, FParentUri);
    EnvelopeLookup(j, FStatus);
    EnvelopeLookup(j, FContent);
  }

  lemma EnvelopeHashes(j: Job)
    ensures var m := Envelope(j).m;
      && HasTexts(m, "headers", j.headers) && HasTexts(m, "environ", j.environ)
      && HasTexts(m, "query_params", j.query) && HasTexts(m, "matrix_arguments", j.matrix)
      && "arguments" in m && m["arguments"].Arr? && |m["arguments"].a| == |j.arguments|
      && forall i | 0 <= i < |j.arguments| :: m["arguments"].a[i] == Str(j.arguments[i])
  {
    hide Envelope, Key, Handlers, Resource, Remote;
    KeyNames();
    EnvelopeLookup(j, FHeaders);
    EnvelopeLookup(j, FEnviron);
    EnvelopeLookup(j, FQuery);
    EnvelopeLookup(j, FMatrix);
    EnvelopeLookup(j, FArguments);
  }

  /** The "resource" and "remote" members, with the keys as parameters. */
  predicate ObjectsAre(m: map<string, Json>, j: Job, resource: string, type_: string, name: string, remote: string, ip: string, user: string) {
    && resource in m && m[resource].Obj?
    && type_ in m[resource].m && m[resource].m[type_] == Str(j.resourceType)
    && HasText(m[resource].m, name, j.resourceName)
    && (remote in m <==> j.remoteIp != "" || j.remoteUser != "")
    && (remote in m ==> m[remote].Obj? && HasText(m[remote].m, ip, j.remoteIp) && HasText(m[remote].m, user, j.remoteUser))
  }

  lemma ObjectsByKey(j: Job)
    ensures ObjectsAre(Envelope(j).m, j, Key(FResource), Key(FType), Key(FName), Key(FRemote), Key(FIp), Key(FUser))
  {
    KeysDiffer();
    hide Envelope, Key, Handlers, Texts, Strs;
    EnvelopeLookup(j, FResource);
    EnvelopeLookup(j, FRemote);
    assert j.remoteIp != "" ==> Key(FIp) in Remote(j);
    assert j.remoteUser != "" ==> Key(FUser) in Remote(j);
  }

  lemma EnvelopeObjects(j: Job)
    ensures ObjectsAre(Envelope(j).m, j, "resource", "type", "name", "remote", "ip", "user")
  {
    ObjectsByKey(j);
    KeyNames();
    hide Envelope, Key, ObjectsAre;
  }

  /** The handlers under `on`, one member for each event by the event's name. */
  predicate HandlersAre(m: map<string, Json>, j: Job, on: string, name: string, envelope: string) {
    && (on in m <==> j.on != map[])
    && (on in m ==> m[on].Obj? && m[on].m.Keys == NamesOf(j.on))
    && forall e <- j.on :: on in m && EventName(e) in m[on].m
         && m[on].m[EventName(e)] == Obj(map[name := Str(j.on[e].name), envelope := Envelope(j.on[e])])
  }

  lemma NoNames(on: map<Event, Job>)
    ensures NamesOf(on) == {} <==> on == map[]
  {
  }

  lemma OnMember(j: Job)
    ensures Key(FOn) in Envelope(j).m <==> Handlers(j) != map[]
    ensures Key(FOn) in Envelope(j).m ==> Envelope(j).m[Key(FOn)] == Obj(Handlers(j))
  {
    hide Members, Key, Handlers;
    EnvelopeLookup(j, FOn);
  }

  lemma HandlersByKey(j: Job)
    ensures HandlersAre(Envelope(j).m, j, Key(FOn), Key(FName), Key(FEnvelope))
  {
    hide Envelope, Key, Handlers, EventName, NamesOf, EventOf, HandlerAt;
    OnMember(j);
    HandlerKeys(j);
    NoNames(j.on);
    assert Handlers(j) == map[] <==> Handlers(j).Keys == {};
    forall e | e in j.on
      ensures EventName(e) in Handlers(j)
        && Handlers(j)[EventName(e)] == Obj(map[Key(FName) := Str(j.on[e].name), Key(FEnvelope) := Envelope(j.on[e])])
    {
      HandlerValue(j, e);
    }
  }

  lemma EnvelopeHandlers(j: Job)
    ensures HandlersAre(Envelope(j).m, j, "on", "name", "envelope")
  {
    HandlersByKey(j);
    KeyNames();
    hide Envelope, Key, HandlersAre;
  }

  const TopNames: set<string> := {
    "version", "job_type", "operation", "component", "resource", "remote", "base_uri", "parent_uri", "status",
    "arguments", "matrix_arguments", "headers", "environ", "query_params", "on", "content"}

  lemma TopKey(f: Field)
    requires Rank(f) < Written
    ensures Key(f) in TopNames
  {
  }

  /** Nothing else is written. */
  lemma EnvelopeHasNothingElse(j: Job)
    ensures Envelope(j).m.Keys <= TopNames
  {
    MembersLookup(j, Written);
    forall k | k in Envelope(j).m
      ensures k in TopNames
    {
      hide Key, MemberOf, Members;
      var f :| f in Earliest(Written) && k == Key(f);
      TopKey(f);
    }
  }

  function MemberText(env: Json, key: string, default: string): string {
    if env.Obj? && key in env.m && env.m[key].Str? then env.m[key].s else default
  }

  function MemberTexts(env: Json, key: string): map<string, string> {
    if env.Obj? && key in env.m && env.m[key].Obj?
    then map k | k in env.m[key].m && env.m[key].m[k].Str? :: env.m[key].m[k].s
    else map[]
  }

  function MemberList(env: Json, key: string): seq<string> {
    if env.Obj? && key in env.m && env.m[key].Arr?
    then var a := env.m[key].a; seq(|a|, i requires 0 <= i < |a| => if a[i].Str? then a[i].s else "")
    else []
  }

  /** Every field of a job decoded from any envelope is the member of that name,
      or the default: from the job's name, or the value of a new job. */
  lemma DecodedFields(cfg: Config, name: string, env: Json, base: string)
    requires Decode(cfg, name, env, base).job.Some?
    ensures FromName(name).Some?
    ensures var j, d := Decode(cfg, name, env, base).job.value, FromName(name).value;
      && j.name == name
      && j.version == MemberText(env, "version", d.version)
      && j.component == MemberText(env, "component", d.component)
      && j.status == MemberText(env, "status", "") && j.content == MemberText(env, "content", "")
      && j.baseUri == MemberText(env, "base_uri", "http://localhost:4080/internal")
      && j.environ == MemberTexts(env, "environ") && j.query == MemberTexts(env, "query_params")
      && j.matrix == MemberTexts(env, "matrix_arguments") && j.arguments == MemberList(env, "arguments")
      && j.headers == MemberTexts(env, "headers") - {"y-status-parent-uri"}
      && j.parentUri == (if "y-status-parent-uri" in MemberTexts(env, "headers")
                         then MemberTexts(env, "headers")["y-status-parent-uri"] else MemberText(env, "parent_uri", ""))
  {
    hide FromName, DecodeOn, SchemaFound, Begin, Key, ReadNames, ReadRest;
    KeyNames();
    BeginFields(name, env);
    NameDefaults(name);
    var h := DecodeOn(cfg, env, base);
    var b := Begin(name, env).value.(on := h.on.value);
    NamesFields(b, env);
    var n := ReadNames(b, env).value;
    RestFields(cfg, n.(baseUri := TextOr(env, FBaseUri, n.baseUri)), env);
    assert TextKeys(env, {FBaseUri});
  }

  lemma BeginFields(name: string, env: Json)
    requires Begin(name, env).Some?
    ensures FromName(name).Some?
    ensures Begin(name, env).value == FromName(name).value.(kind := Begin(name, env).value.kind)
    ensures !(env.Obj? && "job_type" in env.m) ==> Begin(name, env).value.kind == FromName(name).value.kind
    ensures env.Obj? && "job_type" in env.m ==>
      || (env.m["job_type"] == Str("sync") && Begin(name, env).value.kind == Sync)
      || (env.m["job_type"] == Str("async") && Begin(name, env).value.kind == Async)
  {
    hide FromName;
    KeyNames();
  }

  lemma NamesFields(j: Job, env: Json)
    requires ReadNames(j, env).Some?
    ensures var r := ReadNames(j, env).value;
      && r == j.(version := MemberText(env, "version", j.version), component := MemberText(env, "component", j.component),
                 parentUri := MemberText(env, "parent_uri", j.parentUri),
                 operation := r.operation, resourceType := r.resourceType, resourceName := r.resourceName)
      && (env.Obj? && "operation" in env.m ==>
            && env.m["operation"].Str?
            && var op := env.m["operation"].s;
               r.operation == if op == "put" then "create" else if op == "post" then "update" else op)
      && (!(env.Obj? && "operation" in env.m) ==> r.operation == j.operation)
      && (var res := if env.Obj? && "resource" in env.m then env.m["resource"] else Null;
          r.resourceType == MemberText(res, "type", j.resourceType) && r.resourceName == MemberText(res, "name", j.resourceName))
  {
    KeyNames();
    hide Key;
  }

  lemma RestFields(cfg: Config, j: Job, env: Json)
    requires ReadRest(cfg, j, env).Some?
    ensures var r, headers := ReadRest(cfg, j, env).value, MemberTexts(env, "headers");
      r == j.(
        status := MemberText(env, "status", j.status), content := MemberText(env, "content", j.content),
        environ := MemberTexts(env, "environ"), query := MemberTexts(env, "query_params"),
        matrix := MemberTexts(env, "matrix_arguments"), arguments := MemberList(env, "arguments"),
        headers := headers - {"y-status-parent-uri"},
        parentUri := if "y-status-parent-uri" in headers then headers["y-status-parent-uri"] else j.parentUri)
    ensures SchemaFound(cfg, j)
  {
    KeyNames();
    hide Key, SchemaFound;
    TextsFields(env, FHeaders);
    TextsFields(env, FEnviron);
    TextsFields(env, FQuery);
    TextsFields(env, FMatrix);
    ListFields(env, FArguments);
    hide TextObject, TextsOf, TextArray, StrsOf, MemberTexts, MemberList;
  }

  lemma TextsFields(env: Json, f: Field)
    requires TextObject(env, f)
    ensures TextsOf(env, f) == MemberTexts(env, Key(f))
  {
    hide Key;
  }

  lemma ListFields(env: Json, f: Field)
    requires TextArray(env, f)
    ensures StrsOf(env, f) == MemberList(env, Key(f))
  {
    hide Key;
  }

  /** The type, operation and resource of a decoded job, and the schema it needs. */
  lemma DecodedNames(cfg: Config, name: string, env: Json, base: string)
    requires Decode(cfg, name, env, base).job.Some?
    ensures FromName(name).Some?
    ensures var j, d := Decode(cfg, name, env, base).job.value, FromName(name).value;
      && (env.Obj? && "job_type" in env.m ==>
            (env.m["job_type"] == Str("sync") && j.kind == Sync) || (env.m["job_type"] == Str("async") && j.kind == Async))
      && (env.Obj? && "operation" in env.m ==>
            && env.m["operation"].Str?
            && var op := env.m["operation"].s;
               j.operation == if op == "put" then "create" else if op == "post" then "update" else op)
      && (!(env.Obj? && "operation" in env.m) ==> j.operation == d.operation)
      && (var res := if env.Obj? && "resource" in env.m then env.m["resource"] else Null;
          j.resourceType == MemberText(res, "type", d.resourceType) && j.resourceName == MemberText(res, "name", ""))
      && (cfg.required ==>
            || j.operation + "-" + j.component + "-" + j.resourceType + "-" + j.version in cfg.schemas
            || j.operation + "-global-" + j.resourceType + "-" + j.version in cfg.schemas)
  {
    hide FromName, DecodeOn, Begin, Key, ReadNames, ReadRest;
    BeginFields(name, env);
    NameDefaults(name);
    var h := DecodeOn(cfg, env, base);
    var b := Begin(name, env).value.(on := h.on.value);
    NamesFields(b, env);
    var n := ReadNames(b, env).value;
    RestFields(cfg, n.(baseUri := TextOr(env, FBaseUri, n.baseUri)), env);
  }

  predicate TextOrAbsent(env: Json, key: string) { env.Obj? && key in env.m ==> env.m[key].Str? }

  predicate TextsOrAbsent(env: Json, key: string) {
    env.Obj? && key in env.m ==> env.m[key].Obj? && forall k <- env.m[key].m :: env.m[key].m[k].Str?
  }

  /** Every member that is present has the type a decoder expects. */
  predicate WellTyped(env: Json) {
    && (env.Obj? && "job_type" in env.m ==> env.m["job_type"] == Str("sync") || env.m["job_type"] == Str("async"))
    && TextOrAbsent(env, "version") && TextOrAbsent(env, "operation") && TextOrAbsent(env, "component")
    && TextOrAbsent(env, "parent_uri") && TextOrAbsent(env, "base_uri") && TextOrAbsent(env, "status") && TextOrAbsent(env, "content")
    && (env.Obj? && "resource" in env.m ==> TextOrAbsent(env.m["resource"], "type") && TextOrAbsent(env.m["resource"], "name"))
    && TextsOrAbsent(env, "headers") && TextsOrAbsent(env, "matrix_arguments")
    && TextsOrAbsent(env, "environ") && TextsOrAbsent(env, "query_params")
    && (env.Obj? && "arguments" in env.m ==>
          env.m["arguments"].Arr? && forall i | 0 <= i < |env.m["arguments"].a| :: env.m["arguments"].a[i].Str?)
  }

  lemma BeginIff(name: string, env: Json)
    ensures Begin(name, env).Some? <==>
      && FromName(name).Some?
      && (env.Obj? && "job_type" in env.m ==> env.m["job_type"] == Str("sync") || env.m["job_type"] == Str("async"))
  {
    hide FromName;
    KeyNames();
  }

  lemma NamesIff(j: Job, env: Json)
    ensures ReadNames(j, env).Some? <==>
      && TextOrAbsent(env, "version") && TextOrAbsent(env, "operation") && TextOrAbsent(env, "component") && TextOrAbsent(env, "parent_uri")
      && (env.Obj? && "resource" in env.m ==> TextOrAbsent(env.m["resource"], "type") && TextOrAbsent(env.m["resource"], "name"))
  {
    KeyNames();
    hide Key;
  }

  lemma RestIff(cfg: Config, j: Job, env: Json)
    ensures ReadRest(cfg, j, env).Some? <==>
      && TextOrAbsent(env, "status") && TextOrAbsent(env, "content") && SchemaFound(cfg, j)
      && TextsOrAbsent(env, "headers") && TextsOrAbsent(env, "matrix_arguments")
      && TextsOrAbsent(env, "environ") && TextsOrAbsent(env, "query_params")
      && (env.Obj? && "arguments" in env.m ==>
            env.m["arguments"].Arr? && forall i | 0 <= i < |env.m["arguments"].a| :: env.m["arguments"].a[i].Str?)
  {
    KeyNames();
    hide Key, SchemaFound;
  }

  /** The names read from `name` and `env` lead to a schema, where one is required. */
  predicate EnvelopeHasSchema(cfg: Config, name: string, env: Json) {
    && Begin(name, env).Some? && ReadNames(Begin(name, env).value, env).Some?
    && SchemaFound(cfg, ReadNames(Begin(name, env).value, env).value)
  }

  /** An envelope is decoded exactly when the name is valid, every member has its
      type, the handlers can be decoded and a required schema exists. */
  lemma DecodesIff(cfg: Config, name: string, env: Json, base: string)
    ensures Decode(cfg, name, env, base).job.Some? <==>
      FromName(name).Some? && WellTyped(env) && DecodeOn(cfg, env, base).on.Some? && EnvelopeHasSchema(cfg, name, env)
  {
    BeginIff(name, env);
    hide FromName, DecodeOn, SchemaFound, Begin, Key, ReadNames, ReadRest;
    KeyNames();
    if Begin(name, env).Some? && DecodeOn(cfg, env, base).on.Some? {
      var b := Begin(name, env).value;
      var h := DecodeOn(cfg, env, base);
      var j := b.(on := h.on.value);
      NamesIff(j, env);
      NamesIff(b, env);
      if ReadNames(j, env).Some? {
        NamesFields(j, env);
        NamesFields(b, env);
        var n := ReadNames(j, env).value;
        var k := n.(baseUri := TextOr(env, FBaseUri, n.baseUri));
        RestIff(cfg, k, env);
        SchemaByNames(cfg, k, ReadNames(b, env).value);
      }
    }
  }

  /** `v` is the member of "on" from which handler `h` was decoded. */
  ghost predicate HandlerFrom(cfg: Config, v: Json, h: Job) {
    && v.Obj? && "name" in v.m && v.m["name"].Str?
    && Decode(cfg, v.m["name"].s, if "envelope" in v.m then v.m["envelope"] else Null, "").job == Some(h)
  }

  lemma {:induction false} HandlersSource(cfg: Config, on: Json, todo: set<string>, sofar: map<Event, Job>, base: string, e: Event)
    requires on.Obj? && todo <= on.m.Keys
    requires DecodeHandlers(cfg, on, todo, sofar, base).on.Some? && e in DecodeHandlers(cfg, on, todo, sofar, base).on.value
    ensures var r := DecodeHandlers(cfg, on, todo, sofar, base).on.value;
      || (e in sofar && r[e] == sofar[e])
      || exists k <- todo :: EventOf(k) == e && HandlerFrom(cfg, on.m[k], r[e])
    decreases todo
  {
    hide Decode, Key, EventOf, First, HandlerFrom;
    KeyNames();
    if todo != {} {
      var k := First(todo);
      var v := on.m[k];
      var inner := if Key(FEnvelope) in v.m then v.m[Key(FEnvelope)] else Null;
      var r := Decode(cfg, v.m[Key(FName)].s, inner, base);
      HandlersSource(cfg, on, todo - {k}, sofar[EventOf(k) := r.job.value], r.base, e);
      HandlerRead(cfg, v, base);
    }
  }

  lemma HandlerRead(cfg: Config, v: Json, base: string)
    requires v.Obj? && "name" in v.m && v.m["name"].Str?
    ensures var r := Decode(cfg, v.m["name"].s, if "envelope" in v.m then v.m["envelope"] else Null, base).job;
      r.Some? ==> HandlerFrom(cfg, v, r.value)
  {
    hide Decode;
    JobIgnoresBase(cfg, v.m["name"].s, if "envelope" in v.m then v.m["envelope"] else Null, base, "");
  }

  /** Every handler of a decoded job comes from a member of "on" with the name of
      its event, and is the job that member's "name" and "envelope" decode to. */
  lemma HandlersComeFrom(cfg: Config, name: string, env: Json, base: string, e: Event)
    requires Decode(cfg, name, env, base).job.Some? && e in Decode(cfg, name, env, base).job.value.on
    ensures env.Obj? && "on" in env.m && env.m["on"].Obj?
    ensures exists k <- env.m["on"].m :: EventOf(k) == e && HandlerFrom(cfg, env.m["on"].m[k], Decode(cfg, name, env, base).job.value.on[e])
  {
    hide FromName, SchemaFound, Begin, Key, ReadNames, ReadRest, DecodeHandlers, EventOf, HandlerFrom;
    KeyNames();
    BeginFields(name, env);
    NameDefaults(name);
    var h := DecodeOn(cfg, env, base);
    var b := Begin(name, env).value.(on := h.on.value);
    NamesFields(b, env);
    var n := ReadNames(b, env).value;
    RestFields(cfg, n.(baseUri := TextOr(env, FBaseUri, n.baseUri)), env);
    assert Decode(cfg, name, env, base).job.value.on == h.on.value;
    var on := env.m["on"];
    HandlersSource(cfg, on, on.m.Keys, map[], base, e);
  }

  /** A name that is not a URI is accepted only with a version at its end: a "v"
      and a digit after the last underscore. */
  lemma NamesHaveVersions(name: string)
    requires FromName(name).Some? && FindSep(name, 0) == |name|
    ensures var v := FromName(name).value.version;
      && |name| > |v| && name[|name| - |v|..] == v && name[|name| - |v| - 1] == '_' && '_' !in v
      && |v| >= 2 && v[0] == 'v' && '0' <= v[1] <= '9' && name[..3] == "do_"
  {
  }

  // ---- the manager's base_uri ------------------------------------------------------

  /** The schema lookup made while `j` is decoded succeeds. */
  predicate HasSchema(cfg: Config, j: Job) { SchemaFound(cfg, j.(operation := Operation(j.operation))) }

  /** Decoding `j` throws nowhere, at any depth. */
  predicate Lands(cfg: Config, j: Job) {
    FromName(j.name).Some? && HasSchema(cfg, j) && forall e <- j.on :: Lands(cfg, j.on[e])
  }

  predicate HandlersLand(cfg: Config, j: Job) { forall e <- j.on :: Lands(cfg, j.on[e]) }

  /** The last base_uri that decoding `j` writes to its manager: its own once its
      handlers are through, else the last one its handlers write. */
  function LastWritten(cfg: Config, j: Job): Option<string>
    decreases j, 1
  {
    if FromName(j.name).None? then None
    else if HandlersLand(cfg, j) && j.baseUri != "" then Some(j.baseUri)
    else WrittenBy(cfg, j, NamesOf(j.on))
  }

  /** The last base_uri the handlers named in `todo` write, in key order, up to
      the first that throws. */
  function WrittenBy(cfg: Config, j: Job, todo: set<string>): Option<string>
    requires todo <= NamesOf(j.on)
    decreases j, 0, todo
  {
    if todo == {} then None
    else
      var k := First(todo);
      var h := j.on[EventOf(k)];
      if !Lands(cfg, h) then LastWritten(cfg, h)
      else
        var rest := WrittenBy(cfg, j, todo - {k});
        if rest.Some? then rest else LastWritten(cfg, h)
  }

  function OrElse(w: Option<string>, base: string): string { if w.Some? then w.value else base }

  /** For every job, sendable or not, with any handlers at any depth: decoding
      succeeds exactly when nothing throws, and leaves the last base_uri written. */
  lemma {:induction false} DecodedBase(cfg: Config, j: Job, base: string)
    ensures Decode(cfg, j.name, Envelope(j), base).job.Some? <==> Lands(cfg, j)
    ensures Decode(cfg, j.name, Envelope(j), base).base == OrElse(LastWritten(cfg, j), base)
    decreases j, 1
  {
    hide Decode, Envelope, FromName, SchemaFound, Arrives, DecodeHandlers, Handlers, NamesOf, Key, WrittenBy;
    FinishEnvelope(cfg, j, base);
    HandlerKeys(j);
    HandlersBase(cfg, j, NamesOf(j.on), map[], base);
    OnIsHandlers(cfg, j, base);
    NamesCover(cfg, j);
    var h := DecodeOn(cfg, Envelope(j), base).on;
    if h.Some? { ArrivesSchema(cfg, j, h.value); }
  }

  lemma ArrivesSchema(cfg: Config, j: Job, on: map<Event, Job>)
    ensures SchemaFound(cfg, Arrives(j, on)) == HasSchema(cfg, j)
  {
    hide Operation, SchemaFound;
    SchemaByNames(cfg, Arrives(j, on), j.(operation := Operation(j.operation)));
  }

  lemma NamesCover(cfg: Config, j: Job)
    ensures (forall k <- NamesOf(j.on) :: Lands(cfg, j.on[EventOf(k)])) <==> HandlersLand(cfg, j)
  {
    hide NamesOf, EventName, EventOf, Lands;
    if forall k <- NamesOf(j.on) :: Lands(cfg, j.on[EventOf(k)]) {
      forall e | e in j.on
        ensures Lands(cfg, j.on[e])
      {
        EventOfName(e);
        assert EventName(e) in NamesOf(j.on);
      }
    }
  }

  lemma OnIsHandlers(cfg: Config, j: Job, base: string)
    ensures DecodeOn(cfg, Envelope(j), base) == DecodeHandlers(cfg, Obj(Handlers(j)), NamesOf(j.on), map[], base)
  {
    hide Envelope, Key, NamesOf, Handlers;
    EnvelopeLookup(j, FOn);
    HandlerKeys(j);
    assert Handlers(j) == map[] <==> Handlers(j).Keys == {};
  }

  lemma {:induction false} HandlersBase(cfg: Config, j: Job, todo: set<string>, sofar: map<Event, Job>, base: string)
    requires todo <= NamesOf(j.on) && todo <= Handlers(j).Keys
    ensures var r := DecodeHandlers(cfg, Obj(Handlers(j)), todo, sofar, base);
      && (r.on.Some? <==> forall k <- todo :: Lands(cfg, j.on[EventOf(k)]))
      && r.base == OrElse(WrittenBy(cfg, j, todo), base)
    decreases j, 0, todo
  {
    hide Decode, Envelope, Key, EventName, EventOf, NamesOf, First, Handlers, LastWritten, Lands;
    if todo != {} {
      var k := First(todo);
      var h := j.on[EventOf(k)];
      HandlerShape(j, k);
      DecodedBase(cfg, h, base);
      var r := Decode(cfg, h.name, Envelope(h), base);
      if r.job.Some? {
        HandlersBase(cfg, j, todo - {k}, sofar[EventOf(k) := r.job.value], r.base);
      }
    }
  }

  function Bare(j: Job): Job { j.(on := map[]) }

  function OwnBase(j: Job): Option<string> { if j.baseUri == "" then None else Some(j.baseUri) }

  /** The handlers leave no trace in any manager: all of them land and the job
      has a base_uri of its own or they write none; or one throws, and the last
      base_uri written by then is just what the job would have written. */
  predicate LeavesNoTrace(cfg: Config, j: Job) {
    || FromName(j.name).None?
    || (if HandlersLand(cfg, j) then j.baseUri != "" || WrittenBy(cfg, j, NamesOf(j.on)).None?
        else WrittenBy(cfg, j, NamesOf(j.on)) == OwnBase(j))
  }

  lemma BareWrites(cfg: Config, j: Job)
    ensures LastWritten(cfg, Bare(j)) == if FromName(j.name).None? then None else OwnBase(j)
  {
    hide FromName;
    assert NamesOf(Bare(j).on) == {};
  }

  /** Whether the handlers of a job change the base_uri its decoding leaves, for
      one manager: the last base_uri written, with them and without. */
  lemma TaintedIff(cfg: Config, j: Job, base: string)
    ensures Decode(cfg, j.name, Envelope(j), base).base != Decode(cfg, j.name, Envelope(Bare(j)), base).base <==>
      && FromName(j.name).Some?
      && var w := WrittenBy(cfg, j, NamesOf(j.on));
         if HandlersLand(cfg, j) then j.baseUri == "" && w.Some? && w.value != base
         else OrElse(w, base) != OrElse(OwnBase(j), base)
  {
    hide Decode, Envelope, FromName, NamesOf, WrittenBy, HandlersLand;
    DecodedBase(cfg, j, base);
    DecodedBase(cfg, Bare(j), base);
    BareWrites(cfg, j);
  }

  /** The handlers of a job are without effect on every manager's base_uri, when
      the decoding fails too, if and only if the job leaves no trace of them. */
  lemma UntaintedIff(cfg: Config, j: Job)
    ensures LeavesNoTrace(cfg, j) <==>
      forall base :: Decode(cfg, j.name, Envelope(j), base).base == Decode(cfg, j.name, Envelope(Bare(j)), base).base
  {
    hide Decode, Envelope, FromName, NamesOf, WrittenBy, HandlersLand;
    forall base: string
      ensures LeavesNoTrace(cfg, j) ==>
        Decode(cfg, j.name, Envelope(j), base).base == Decode(cfg, j.name, Envelope(Bare(j)), base).base
    {
      TaintedIff(cfg, j, base);
    }
    if !LeavesNoTrace(cfg, j) {
      var w := WrittenBy(cfg, j, NamesOf(j.on));
      var other := (if w.Some? then w.value else j.baseUri) + "/";
      TaintedIff(cfg, j, other);
      assert w.Some? ==> |other| == |w.value| + 1;
      assert w.None? ==> |other| == |j.baseUri| + 1;
    }
  }

  /** A job with a base_uri whose handlers all land leaves its own. */
  lemma OutermostBaseWins(cfg: Config, j: Job, base: string)
    requires FromName(j.name).Some? && HandlersLand(cfg, j) && j.baseUri != ""
    ensures Decode(cfg, j.name, Envelope(j), base).base == j.baseUri
  {
    hide Decode, Envelope, FromName, HandlersLand;
    DecodedBase(cfg, j, base);
  }

  lemma {:induction false} SendableLands(cfg: Config, j: Job)
    requires Sendable(cfg, j)
    ensures Lands(cfg, j) && HandlersLand(cfg, j)
    decreases j
  {
    hide FromName, SchemaFound;
    OperationKept(j.operation);
    forall e | e in j.on
      ensures Lands(cfg, j.on[e])
    {
      SendableLands(cfg, j.on[e]);
    }
  }

  /** A base_uri of its own does not protect a job: when a later handler cannot
      be decoded, the manager keeps the base_uri of an earlier one. */
  lemma FailedHandlerTaints(cfg: Config, j: Job, base: string)
    requires FromName(j.name).Some? && j.on.Keys == {Completed, Failed}
    requires Sendable(cfg, j.on[Completed]) && FromName(j.on[Failed].name).None?
    ensures Decode(cfg, j.name, Envelope(j), base) == Decoded(None, j.on[Completed].baseUri)
  {
    DecodedBase(cfg, j, base);
    hide Decode, Envelope, FromName, Sendable, First, SchemaFound;
    SendableLands(cfg, j.on[Completed]);
    assert j.on[Completed].baseUri != "" by { SendableHasBase(cfg, j.on[Completed]); }
    var c, f := EventName(Completed), EventName(Failed);
    EventOfName(Completed);
    EventOfName(Failed);
    assert NamesOf(j.on) == {c, f};
    assert !Leq(f, c);
    assert First({c, f}) == c;
    assert {c, f} - {c} == {f};
    assert First({f}) == f;
    assert LastWritten(cfg, j.on[Failed]) == None;
    assert LastWritten(cfg, j.on[Completed]) == Some(j.on[Completed].baseUri);
    assert WrittenBy(cfg, j, {f}) == None;
    assert WrittenBy(cfg, j, {c, f}) == Some(j.on[Completed].baseUri);
    assert !Lands(cfg, j.on[Failed]);
  }

  lemma SendableHasBase(cfg: Config, j: Job)
    requires Sendable(cfg, j)
    ensures j.baseUri != "" && FromName(j.name).Some?
  {
  }

  // ---- the encoder ---------------------------------------------------------------

  lemma MembersStep(j: Job, f: Field)
    requires Rank(f) < Written
    ensures Members(j, Rank(f) + 1) ==
      if MemberOf(j, f).Some? then Members(j, Rank(f))[Key(f) := MemberOf(j, f).value] else Members(j, Rank(f))
  {
    hide MemberOf, Key, Members, Earliest, Rank;
    KeysDiffer();
    RankInjective(f);
    MembersLookup(j, Rank(f));
    MembersLookup(j, Rank(f) + 1);
  }

  lemma RankInjective(f: Field)
    requires Rank(f) < Written
    ensures f !in Earliest(Rank(f)) && Earliest(Rank(f) + 1) == Earliest(Rank(f)) + {f}
  {
  }

  lemma PlainMembers(j: Job, f: Field)
    requires f != FOn && MemberOf(j, f).Some?
    ensures JsonGenerator.DoubleFree(MemberOf(j, f).value)
  {
    hide Key, KindName;
  }

  /** Texts and objects only: an envelope survives being printed and parsed. */
  lemma {:induction false} EnvelopeIsDoubleFree(j: Job)
    ensures JsonGenerator.DoubleFree(Envelope(j))
    decreases j
  {
    hide Key, NamesOf, EventOf, MemberOf, Handlers, Members, Rank, Earliest;
    forall k | k in Envelope(j).m
      ensures JsonGenerator.DoubleFree(Envelope(j).m[k])
    {
      MembersLookup(j, Written);
      var f :| f in Earliest(Written) && k == Key(f);
      if f == FOn {
        forall e | e in j.on ensures JsonGenerator.DoubleFree(Envelope(j.on[e])) { EnvelopeIsDoubleFree(j.on[e]); }
        HandlersAreDoubleFree(j);
      } else {
        PlainMembers(j, f);
      }
    }
  }

  lemma HandlersAreDoubleFree(j: Job)
    requires forall e <- j.on :: JsonGenerator.DoubleFree(Envelope(j.on[e]))
    requires MemberOf(j, FOn).Some?
    ensures JsonGenerator.DoubleFree(MemberOf(j, FOn).value)
  {
    hide Key, NamesOf, EventOf, Envelope, Handler;
    forall x | x in Handlers(j)
      ensures JsonGenerator.DoubleFree(Handlers(j)[x])
    {
      var h := j.on[EventOf(x)];
      HandlerIsDoubleFree(h.name, Envelope(h));
    }
  }

  lemma HandlerIsDoubleFree(name: string, envelope: Json)
    requires JsonGenerator.DoubleFree(envelope)
    ensures JsonGenerator.DoubleFree(Handler(name, envelope))
  {
    hide Key;
  }

  method HashToJson(h: map<string, string>) returns (r: Json)
    ensures r == Obj(Texts(h))
  {
    var out: map<string, Json> := map[];
    var todo := h.Keys;
    while todo != {}
      invariant todo <= h.Keys && out.Keys == h.Keys - todo
      invariant forall k <- out :: out[k] == Str(h[k])
      decreases todo
    {
      var k :| k in todo;
      out := out[k := Str(h[k])];
      todo := todo - {k};
    }
    assert out == Texts(h);
    r := Obj(out);
  }

  method ArgumentsToJson(a: seq<string>) returns (r: Json)
    ensures r == Arr(Strs(a))
  {
    var out: seq<Json> := [];
    for i := 0 to |a|
      invariant |out| == i && forall k | 0 <= k < i :: out[k] == Str(a[k])
    {
      out := out + [Str(a[i])];
    }
    assert out == Strs(a);
    r := Arr(out);
  }

  /** Job::serialize: the events of the text of the envelope. */
  method Serialize(c: JsonSchema.Checkers, fmt: real -> JsonStream.NumToken, j: Job) returns (text: seq<JsonStream.Event>)
    ensures JsonGenerator.Writes(fmt, text, Envelope(j))
    decreases j, 2
  {
    var out := ToJson(c, fmt, j);
    text := JsonGenerator.Generate(fmt, out);
  }

  /** Each handler is serialized and its text is parsed into the envelope. */
  method HandlersToJson(c: JsonSchema.Checkers, fmt: real -> JsonStream.NumToken, j: Job) returns (out: map<string, Json>)
    ensures out == Handlers(j)
    decreases j, 0
  {
    hide Handlers, Envelope, Key, EventOf, NamesOf, EventName;
    HandlerKeys(j);
    out := map[];
    var todo := j.on.Keys;
    while todo != {}
      invariant todo <= j.on.Keys && out.Keys <= NamesOf(j.on)
      invariant forall e <- j.on :: e !in todo ==> EventName(e) in out
      invariant forall k <- out :: out[k] == Handlers(j)[k]
      decreases todo
    {
      var e :| e in todo;
      var h := j.on[e];
      var text := Serialize(c, fmt, h);
      EnvelopeIsDoubleFree(h);
      JsonGenerator.GenerateThenParse(c, fmt, text, Envelope(h));
      var parsed := JsonStream.Run(c, JsonStream.Start(None), text).focus.result;
      EventOfName(e);
      HandlerValue(j, e);
      out := out[EventName(e) := Handler(h.name, parsed)];
      todo := todo - {e};
    }
    assert forall k <- NamesOf(j.on) :: k in out by {
      forall k | k in NamesOf(j.on) ensures k in out { assert EventOf(k) in j.on; }
    }
  }

  lemma HandlerValue(j: Job, e: Event)
    requires e in j.on
    ensures EventName(e) in Handlers(j) && Handlers(j)[EventName(e)] == Handler(j.on[e].name, Envelope(j.on[e]))
  {
    hide Envelope, Key, Handler;
    EventOfName(e);
  }

  /** One assignment of to_json, skipped when there is nothing to write. */
  method Put(j: Job, m: Json, f: Field, v: Option<Json>) returns (out: Json)
    requires Rank(f) < Written && m == Obj(Members(j, Rank(f))) && v == MemberOf(j, f)
    ensures out == Obj(Members(j, Rank(f) + 1))
  {
    hide MemberOf, Members;
    MembersStep(j, f);
    out := if v.Some? then Obj(m.m[Key(f) := v.value]) else m;
  }

  lemma MembersNone(j: Job)
    ensures Members(j, 0) == map[]
  {
    MembersLookup(j, 0);
  }

  method NamesToJson(j: Job) returns (m: Json)
    ensures m == Obj(Members(j, 9))
  {
    hide Members, Handlers, Key, Resource, Remote, KindName;
    m := Obj(map[]);
    MembersNone(j);
    m := Put(j, m, FVersion, Some(Str(j.version)));
    m := Put(j, m, FJobType, Some(Str(KindName(j.kind))));
    m := Put(j, m, FOperation, Some(Str(j.operation)));
    m := Put(j, m, FComponent, Some(Str(j.component)));
    m := Put(j, m, FResource, Some(Obj(Resource(j))));
    m := Put(j, m, FRemote, ObjectMember(Remote(j)));
    m := Put(j, m, FBaseUri, TextMember(j.baseUri));
    m := Put(j, m, FParentUri, TextMember(j.parentUri));
    m := Put(j, m, FStatus, TextMember(j.status));
  }

  method HashesToJson(j: Job, names: Json) returns (m: Json)
    requires names == Obj(Members(j, 9))
    ensures m == Obj(Members(j, 14))
  {
    hide Members, Handlers, Key, Texts, Strs;
    var arguments := ArgumentsToJson(j.arguments);
    m := Put(j, names, FArguments, Some(arguments));
    var hash := HashToJson(j.matrix);
    m := Put(j, m, FMatrix, Some(hash));
    hash := HashToJson(j.headers);
    m := Put(j, m, FHeaders, Some(hash));
    hash := HashToJson(j.environ);
    m := Put(j, m, FEnviron, Some(hash));
    hash := HashToJson(j.query);
    m := Put(j, m, FQuery, Some(hash));
  }

  /** JobImpl::to_json, field by field in the order of the source. */
  method ToJson(c: JsonSchema.Checkers, fmt: real -> JsonStream.NumToken, j: Job) returns (out: Json)
    ensures out == Envelope(j)
    decreases j, 1
  {
    hide Members, Handlers, Key;
    var m := NamesToJson(j);
    m := HashesToJson(j, m);
    var handlers := HandlersToJson(c, fmt, j);
    m := Put(j, m, FOn, ObjectMember(handlers));
    m := Put(j, m, FContent, TextMember(j.content));
    out := m;
  }

  // ---- the decoder ---------------------------------------------------------------

  /** The loops that copy an object of strings into a hash. */
  method ReadTexts(env: Json, key: Field) returns (r: Option<map<string, string>>)
    ensures r == if TextObject(env, key) then Some(TextsOf(env, key)) else None
  {
    if !HasKey(env, key) { return Some(map[]); }
    var o := env.m[Key(key)];
    if !o.Obj? { return None; }
    var out: map<string, string> := map[];
    var todo := o.m.Keys;
    while todo != {}
      invariant todo <= o.m.Keys && out.Keys == o.m.Keys - todo
      invariant forall k <- out :: o.m[k] == Str(out[k])
      decreases todo
    {
      var k :| k in todo;
      if !o.m[k].Str? { return None; }
      out := out[k := o.m[k].s];
      todo := todo - {k};
    }
    assert out == TextsOf(env, key);
    return Some(out);
  }

  method ReadArguments(env: Json, key: Field) returns (r: Option<seq<string>>)
    ensures r == if TextArray(env, key) then Some(StrsOf(env, key)) else None
  {
    if !HasKey(env, key) { return Some([]); }
    var a := env.m[Key(key)];
    if !a.Arr? { return None; }
    var out: seq<string> := [];
    for i := 0 to |a.a|
      invariant |out| == i && forall k | 0 <= k < i :: a.a[k] == Str(out[k])
    {
      if !a.a[i].Str? { return None; }
      out := out + [a.a[i].s];
    }
    assert out == StrsOf(env, key);
    return Some(out);
  }

  /** The hashes and arguments of an envelope, read in the order of the source. */
  method ReadHashes(cfg: Config, j: Job, env: Json) returns (r: Option<Job>)
    requires TextKeys(env, {FStatus, FContent}) && SchemaFound(cfg, j)
    ensures r == ReadRest(cfg, j, env)
  {
    hide TextObject, TextsOf, TextArray, StrsOf, SchemaFound, TextKeys, TextOr;
    var headers := ReadTexts(env, FHeaders);
    if headers.None? { return None; }
    var matrix := ReadTexts(env, FMatrix);
    if matrix.None? { return None; }
    var environ := ReadTexts(env, FEnviron);
    if environ.None? { return None; }
    var query := ReadTexts(env, FQuery);
    if query.None? { return None; }
    var arguments := ReadArguments(env, FArguments);
    if arguments.None? { return None; }
    var h := headers.value;
    return Some(j.(
      status := TextOr(env, FStatus, j.status),
      content := TextOr(env, FContent, j.content),
      parentUri := if ParentHeader in h then h[ParentHeader] else j.parentUri,
      headers := h - {ParentHeader},
      matrix := matrix.value, environ := environ.value, query := query.value,
      arguments := arguments.value));
  }

  class JobManager {
    const cfg: Config
    var baseUri: string

    constructor (cfg: Config, baseUri: string)
      ensures this.cfg == cfg && this.baseUri == baseUri
    {
      this.cfg, this.baseUri := cfg, baseUri;
    }

    /** JobManager::job(name, envelope): handlers first, so that their base_uri
        is overwritten by the envelope's own. */
    method ReadJob(name: string, env: Json) returns (r: Option<Job>)
      modifies this
      ensures r == Decode(cfg, name, env, old(baseUri)).job
      ensures baseUri == Decode(cfg, name, env, old(baseUri)).base
      decreases if env.Null? then 0 else 1, env, 1
    {
      hide DecodeHandlers, Begin, ReadNames, ReadRest, TextKeys, SchemaFound, Key;
      var start := Begin(name, env);
      if start.None? { return None; }
      var on: map<Event, Job> := map[];
      if HasKey(env, FOn) {
        if !env.m[Key(FOn)].Obj? { return None; }
        var handlers := ReadHandlers(env.m[Key(FOn)]);
        if handlers.None? { return None; }
        on := handlers.value;
      }
      var named := ReadNames(start.value.(on := on), env);
      if named.None? { return None; }
      if !TextKeys(env, {FBaseUri}) { return None; }
      var j := named.value.(baseUri := TextOr(env, FBaseUri, named.value.baseUri));
      if HasKey(env, FBaseUri) { baseUri := TextOr(env, FBaseUri, baseUri); }
      if !TextKeys(env, {FStatus, FContent}) || !SchemaFound(cfg, j) {
        BadRest(cfg, j, env);
        return None;
      }
      r := ReadHashes(cfg, j, env);
    }

    /** The loop over the members of "on", in key order. */
    method ReadHandlers(on: Json) returns (r: Option<map<Event, Job>>)
      requires on.Obj?
      modifies this
      ensures r == DecodeHandlers(cfg, on, on.m.Keys, map[], old(baseUri)).on
      ensures baseUri == DecodeHandlers(cfg, on, on.m.Keys, map[], old(baseUri)).base
      decreases 1, on, 0
    {
      hide Decode, Key, First, EventOf;
      var todo := on.m.Keys;
      var events: map<Event, Job> := map[];
      while todo != {}
        invariant todo <= on.m.Keys
        invariant DecodeHandlers(cfg, on, todo, events, baseUri)
               == DecodeHandlers(cfg, on, on.m.Keys, map[], old(baseUri))
        decreases todo
      {
        var k := First(todo);
        var v := on.m[k];
        if !HasKey(v, FName) || !v.m[Key(FName)].Str? { return None; }
        var job := ReadJob(v.m[Key(FName)].s, if Key(FEnvelope) in v.m then v.m[Key(FEnvelope)] else Null);
        if job.None? { return None; }
        events := events[EventOf(k) := job.value];
        todo := todo - {k};
      }
      r := Some(events);
    }
  }

  lemma BadRest(cfg: Config, j: Job, env: Json)
    requires !TextKeys(env, {FStatus, FContent}) || !SchemaFound(cfg, j)
    ensures ReadRest(cfg, j, env) == None
  {
  }

  /** A job put through the encoder and then through the decoder of any
      manager: everything portable comes back, and the manager works for it. */
  method Forward(c: JsonSchema.Checkers, fmt: real -> JsonStream.NumToken, j: Job, manager: JobManager) returns (r: Option<Job>)
    modifies manager
    ensures r == Some(Portable(j)) <==> Sendable(manager.cfg, j)
    ensures Sendable(manager.cfg, j) ==> manager.baseUri == j.baseUri
  {
    hide Decode, Envelope, Sendable, Portable;
    var envelope := ToJson(c, fmt, j);
    EnvelopeRoundTrip(manager.cfg, j, manager.baseUri);
    if Sendable(manager.cfg, j) {
      SendableLands(manager.cfg, j);
      SendableHasBase(manager.cfg, j);
      OutermostBaseWins(manager.cfg, j, manager.baseUri);
    }
    r := manager.ReadJob(j.name, envelope);
  }
}
