/** Schema nodes in memory: references with parent links, and the two ways
    JsonSchema.cc writes to a schema while it reads it. getAdditionalProperties
    replaces a missing or true additionalProperties by {"type":"any"}, and
    getChildSchema points the parent link of the child it returns at the node
    it was called on. */
module SchemaStore {
  import opened Outcomes
  import opened JsonValue
  import opened JsonSchema

  /** A parent link: none, a schema node, or the "properties" object or
      "items" array that belongs to a schema node. */
  datatype Link = Unlinked | Node(r: nat) | Holder(r: nat)

  datatype ItemRefs = NoItemRefs | EachRef(each: nat) | TupleRefs(elems: seq<nat>)

  datatype ExtraRef = Missing | Flag(b: bool) | SubRef(sub: nat)

  datatype SNode = SNode(kw: Keywords, props: map<string, nat>, items: ItemRefs, extra: ExtraRef, parent: Link)

  type Heap = seq<SNode>

  // ---- what a node means -----------------------------------------------------

  /** Node `r` is {"type":"any"}, possibly already filled in further down. */
  ghost predicate AnyRep(h: Heap, r: nat)
    decreases |h| - r
  {
    && r < |h|
    && h[r].kw == AnyKeywords && h[r].props == map[] && h[r].items.NoItemRefs?
    && match h[r].extra
       case Missing => true
       case Flag(_) => false
       case SubRef(t) => r < t && AnyRep(h, t)
  }

  /** Node `r` and everything below it is the schema `s`. Filling in
      additionalProperties is invisible at this level. */
  ghost predicate Rep(h: Heap, r: nat, s: Schema)
    decreases s
  {
    && r < |h|
    && h[r].kw == s.kw
    && h[r].props.Keys == s.props.Keys
    && (forall k <- s.props :: r < h[r].props[k] && Rep(h, h[r].props[k], s.props[k]))
    && (match s.items
        case NoItems => h[r].items.NoItemRefs?
        case Each(t) => h[r].items.EachRef? && r < h[r].items.each && Rep(h, h[r].items.each, t)
        case Tuple(ts) =>
          && h[r].items.TupleRefs? && |h[r].items.elems| == |ts|
          && forall i | 0 <= i < |ts| :: r < h[r].items.elems[i] && Rep(h, h[r].items.elems[i], ts[i]))
    && (match s.extra
        case Open =>
          || h[r].extra == Missing || h[r].extra == Flag(true)
          || (h[r].extra.SubRef? && r < h[r].extra.sub && AnyRep(h, h[r].extra.sub))
        case Closed => h[r].extra == Flag(false)
        case Sub(t) => h[r].extra.SubRef? && r < h[r].extra.sub && Rep(h, h[r].extra.sub, t))
  }

  /** Links of the children of `r`, as parsing leaves them: "items" as one
      schema and additionalProperties hang off `r` itself, the others off a
      holder until getChildSchema has returned them once. */
  ghost predicate NodeLinked(h: Heap, r: nat)
    requires r < |h|
  {
    && (forall k <- h[r].props :: ChildLinked(h, r, h[r].props[k], true))
    && (h[r].items.EachRef? ==> ChildLinked(h, r, h[r].items.each, false))
    && (h[r].items.TupleRefs? ==>
          forall i | 0 <= i < |h[r].items.elems| :: ChildLinked(h, r, h[r].items.elems[i], true))
    && (h[r].extra.SubRef? ==> ChildLinked(h, r, h[r].extra.sub, false))
  }

  ghost predicate ChildLinked(h: Heap, r: nat, child: nat, held: bool) {
    r < child < |h| && (h[child].parent == Node(r) || (held && h[child].parent == Holder(r)))
  }

  ghost predicate Linked(h: Heap) { forall r | 0 <= r < |h| :: NodeLinked(h, r) }

  // ---- the two writes ----------------------------------------------------------

  /** additionalProperties of `r` becomes a fresh {"type":"any"} node. */
  function FillExtra(h: Heap, r: nat): Heap
    requires r < |h|
  {
    h[r := h[r].(extra := SubRef(|h|))] + [SNode(AnyKeywords, map[], NoItemRefs, Missing, Node(r))]
  }

  function SetParent(h: Heap, child: nat, r: nat): Heap
    requires child < |h|
  {
    h[child := h[child].(parent := Node(r))]
  }

  /** Every node keeps every meaning it had. */
  ghost predicate KeepsMeaning(h: Heap, h': Heap) { forall q: nat, t: Schema :: Rep(h, q, t) ==> Rep(h', q, t) }

  lemma {:induction false} FillKeepsAny(h: Heap, r: nat, q: nat)
    requires r < |h| && !h[r].extra.SubRef? && AnyRep(h, q)
    ensures AnyRep(FillExtra(h, r), q)
    decreases |h| - q
  {
    var h' := FillExtra(h, r);
    if h[q].extra.SubRef? {
      FillKeepsAny(h, r, h[q].extra.sub);
      assert h'[q] == h[q];
    } else if q == r {
      assert AnyRep(h', |h|);
      assert h'[q].extra == SubRef(|h|);
    } else {
      assert h'[q] == h[q];
    }
  }

  lemma {:induction false} FillKeepsRep(h: Heap, r: nat, q: nat, t: Schema)
    requires r < |h| && (h[r].extra == Missing || h[r].extra == Flag(true)) && Rep(h, q, t)
    ensures Rep(FillExtra(h, r), q, t)
    decreases t
  {
    var h' := FillExtra(h, r);
    assert h'[q] == if q == r then h[q].(extra := SubRef(|h|)) else h[q];
    forall k | k in t.props
      ensures Rep(h', h[q].props[k], t.props[k])
    {
      FillKeepsRep(h, r, h[q].props[k], t.props[k]);
    }
    match t.items {
      case NoItems =>
      case Each(u) => FillKeepsRep(h, r, h[q].items.each, u);
      case Tuple(us) =>
        forall i | 0 <= i < |us|
          ensures Rep(h', h[q].items.elems[i], us[i])
        {
          FillKeepsRep(h, r, h[q].items.elems[i], us[i]);
        }
    }
    match t.extra {
      case Open =>
        if q == r { assert AnyRep(h', |h|); }
        if h[q].extra.SubRef? { FillKeepsAny(h, r, h[q].extra.sub); }
      case Closed =>
      case Sub(u) => FillKeepsRep(h, r, h[q].extra.sub, u);
    }
  }

  lemma {:induction false} ParentKeepsAny(h: Heap, child: nat, r: nat, q: nat)
    requires child < |h| && AnyRep(h, q)
    ensures AnyRep(SetParent(h, child, r), q)
    decreases |h| - q
  {
    if h[q].extra.SubRef? { ParentKeepsAny(h, child, r, h[q].extra.sub); }
  }

  lemma {:induction false} ParentKeepsRep(h: Heap, child: nat, r: nat, q: nat, t: Schema)
    requires child < |h| && Rep(h, q, t)
    ensures Rep(SetParent(h, child, r), q, t)
    decreases t
  {
    var h' := SetParent(h, child, r);
    forall k | k in t.props
      ensures Rep(h', h[q].props[k], t.props[k])
    {
      ParentKeepsRep(h, child, r, h[q].props[k], t.props[k]);
    }
    match t.items {
      case NoItems =>
      case Each(u) => ParentKeepsRep(h, child, r, h[q].items.each, u);
      case Tuple(us) =>
        forall i | 0 <= i < |us|
          ensures Rep(h', h[q].items.elems[i], us[i])
        {
          ParentKeepsRep(h, child, r, h[q].items.elems[i], us[i]);
        }
    }
    match t.extra {
      case Open => if h[q].extra.SubRef? { ParentKeepsAny(h, child, r, h[q].extra.sub); }
      case Closed =>
      case Sub(u) => ParentKeepsRep(h, child, r, h[q].extra.sub, u);
    }
  }

  lemma FillKeepsMeaning(h: Heap, r: nat)
    requires r < |h| && (h[r].extra == Missing || h[r].extra == Flag(true)) && Linked(h)
    ensures KeepsMeaning(h, FillExtra(h, r)) && Linked(FillExtra(h, r))
    ensures AnyRep(FillExtra(h, r), |h|)
  {
    var h' := FillExtra(h, r);
    forall q: nat, t: Schema | Rep(h, q, t)
      ensures Rep(h', q, t)
    {
      FillKeepsRep(h, r, q, t);
    }
    forall q | 0 <= q < |h'|
      ensures NodeLinked(h', q)
    {
      if q < |h| {
        assert NodeLinked(h, q);
        assert forall p | 0 <= p < |h| :: h'[p].parent == h[p].parent;
      }
    }
  }

  lemma ParentKeepsMeaning(h: Heap, child: nat, r: nat)
    requires child < |h| && (h[child].parent == Node(r) || h[child].parent == Holder(r)) && Linked(h)
    ensures KeepsMeaning(h, SetParent(h, child, r)) && Linked(SetParent(h, child, r))
  {
    var h' := SetParent(h, child, r);
    forall q: nat, t: Schema | Rep(h, q, t)
      ensures Rep(h', q, t)
    {
      ParentKeepsRep(h, child, r, q, t);
    }
    forall q | 0 <= q < |h'|
      ensures NodeLinked(h', q)
    {
      assert NodeLinked(h, q);
      assert forall p | 0 <= p < |h| && p != child :: h'[p] == h[p];
    }
  }

  lemma AnyIsAnySchema(h: Heap, r: nat)
    requires AnyRep(h, r)
    ensures Rep(h, r, AnySchema)
  {
  }

  /** What a call may do: append nodes, keep every meaning, and leave every
      parent link as it was except that of `child`. */
  ghost predicate Stable(h: Heap, h': Heap, child: Option<nat>) {
    && Linked(h')
    && |h| <= |h'|
    && KeepsMeaning(h, h')
    && forall q | 0 <= q < |h| :: Some(q) == child || h'[q].parent == h[q].parent
  }

  lemma {:induction false} StableKeepsNode(h: Heap, h': Heap, r: nat, s: Schema)
    requires Stable(h, h', None) && Rep(h, r, s)
    ensures Rep(h', r, s) && Linked(h') && r < |h'|
  {
    hide Linked;
  }

  /** Relinking a child after a call that kept everything. */
  lemma {:induction false} RelinkIsStable(h0: Heap, h: Heap, child: nat, r: nat, t: Schema)
    requires Stable(h0, h, None) && child < |h| && Rep(h, child, t)
    requires h[child].parent == Node(r) || h[child].parent == Holder(r)
    ensures Stable(h0, SetParent(h, child, r), Some(child)) && Rep(SetParent(h, child, r), child, t)
  {
    hide Rep, Linked;
    ParentKeepsMeaning(h, child, r);
  }

  /** The children of a node stand for the children of its schema. */
  lemma {:induction false} RepOfProperty(h: Heap, r: nat, s: Schema, key: string)
    requires Linked(h) && Rep(h, r, s)
    ensures key in h[r].props <==> key in s.props
    ensures key in s.props ==>
      var child := h[r].props[key];
      && r < child < |h| && Rep(h, child, s.props[key])
      && (h[child].parent == Node(r) || h[child].parent == Holder(r))
  {
    assert NodeLinked(h, r);
  }

  // ---- lookups as functions --------------------------------------------------------

  /** The lookups that may write: getAdditionalProperties, the two forms of
      getChildSchema, and validMinSize. */
  datatype Lookup =
    | Additional(r: nat)
    | ByKey(r: nat, key: string)
    | ByIndex(r: nat, index: nat)
    | MinSize(r: nat, size: nat)

  /** What getAdditionalProperties leaves. */
  function FillOnce(h: Heap, r: nat): (h': Heap)
    requires r < |h|
    ensures |h| <= |h'| && h'[r].props == h[r].props && h'[r].items == h[r].items
  {
    if h[r].extra == Missing || h[r].extra == Flag(true) then FillExtra(h, r) else h
  }

  /** Relink a child that getChildSchema returns. */
  function Relinked(h: Heap, child: nat, r: nat): Heap { if child < |h| then SetParent(h, child, r) else h }

  function AfterLookup(h: Heap, l: Lookup): Heap {
    if l.r >= |h| then h
    else
      match l
      case Additional(r) => FillOnce(h, r)
      case ByKey(r, key) =>
        if key in h[r].props then Relinked(FillOnce(h, r), h[r].props[key], r) else FillOnce(h, r)
      case ByIndex(r, index) =>
        if h[r].items.TupleRefs? && index < |h[r].items.elems|
        then Relinked(FillOnce(h, r), h[r].items.elems[index], r) else FillOnce(h, r)
      case MinSize(r, size) =>
        var least := h[r].kw.minItems;
        if (least.Some? && size < ToUint32(least.value)) || !h[r].items.TupleRefs? then h else FillOnce(h, r)
  }

  function AfterLookups(h: Heap, ls: seq<Lookup>): Heap {
    if ls == [] then h else AfterLookup(AfterLookups(h, ls[..|ls| - 1]), ls[|ls| - 1])
  }

  /** The links are in order and no node has lost a meaning. */
  ghost predicate Kept(h: Heap, h': Heap) { Linked(h') && KeepsMeaning(h, h') }

  lemma KeptSame(h: Heap)
    requires Linked(h)
    ensures Kept(h, h)
  {
  }

  lemma KeptThen(h: Heap, h1: Heap, h2: Heap)
    requires Kept(h, h1) && Kept(h1, h2)
    ensures Kept(h, h2)
  {
    hide Linked, Rep;
  }

  lemma StableIsKept(h: Heap, h': Heap, child: Option<nat>)
    requires Stable(h, h', child)
    ensures Kept(h, h')
  {
    hide Linked, KeepsMeaning;
  }

  lemma FillOnceKeeps(h: Heap, r: nat)
    requires Linked(h) && r < |h|
    ensures Kept(h, FillOnce(h, r))
  {
    hide Linked, Rep, FillExtra;
    if h[r].extra == Missing || h[r].extra == Flag(true) { FillKeepsMeaning(h, r); }
  }

  lemma RelinkedKeeps(h: Heap, h': Heap, child: nat, r: nat)
    requires Kept(h, h') && child < |h'| && (h'[child].parent == Node(r) || h'[child].parent == Holder(r))
    ensures Kept(h, Relinked(h', child, r))
  {
    hide Linked, Rep;
    ParentKeepsMeaning(h', child, r);
  }

  /** A single lookup, on any node of any heap. */
  lemma LookupKeeps(h: Heap, l: Lookup)
    requires Linked(h)
    ensures Kept(h, AfterLookup(h, l))
  {
    KeptSame(h);
    if l.r < |h| {
      var h1 := FillOnce(h, l.r);
      FillOnceKeeps(h, l.r);
      assert NodeLinked(h1, l.r);
      hide Linked, KeepsMeaning, FillOnce;
      match l
      case ByKey(r, key) => if key in h[r].props { RelinkedKeeps(h, h1, h[r].props[key], r); }
      case ByIndex(r, index) =>
        if h[r].items.TupleRefs? && index < |h[r].items.elems| { RelinkedKeeps(h, h1, h[r].items.elems[index], r); }
      case _ =>
    }
  }

  /** Any sequence of lookups. */
  lemma {:induction false} LookupsKeep(h: Heap, ls: seq<Lookup>)
    requires Linked(h)
    ensures Kept(h, AfterLookups(h, ls))
  {
    if ls == [] {
      KeptSame(h);
    } else {
      hide KeepsMeaning, AfterLookup;
      var h1 := AfterLookups(h, ls[..|ls| - 1]);
      LookupsKeep(h, ls[..|ls| - 1]);
      LookupKeeps(h1, ls[|ls| - 1]);
      KeptThen(h, h1, AfterLookups(h, ls));
    }
  }

  // ---- the store -----------------------------------------------------------------

  class Store {
    var heap: Heap

    constructor (h: Heap)
      requires Linked(h)
      ensures heap == h
    {
      heap := h;
    }

    method GetAdditionalProperties(r: nat, ghost s: Schema) returns (child: Option<nat>)
      requires Linked(heap) && Rep(heap, r, s)
      modifies this
      ensures heap == AfterLookup(old(heap), Additional(r))
      ensures Stable(old(heap), heap, None)
      ensures child.None? <==> ExtraChild(s).None?
      ensures child.Some? ==>
        && r < child.value < |heap| && heap[child.value].parent == Node(r)
        && Rep(heap, child.value, ExtraChild(s).value)
    {
      match heap[r].extra {
        case SubRef(t) =>
          assert NodeLinked(heap, r);
          if s.extra.Open? { AnyIsAnySchema(heap, t); }
          child := Some(t);
        case Flag(b) =>
          if b {
            FillKeepsMeaning(heap, r);
            child := Some(|heap|);
            heap := FillExtra(heap, r);
            AnyIsAnySchema(heap, child.value);
          } else {
            child := None;
          }
        case Missing =>
          FillKeepsMeaning(heap, r);
          child := Some(|heap|);
          heap := FillExtra(heap, r);
          AnyIsAnySchema(heap, child.value);
      }
    }

    method GetKeyChild(r: nat, key: string, ghost s: Schema) returns (child: Option<nat>)
      requires Linked(heap) && Rep(heap, r, s)
      modifies this
      ensures heap == AfterLookup(old(heap), ByKey(r, key))
      ensures Stable(old(heap), heap, child)
      ensures child.None? <==> KeyChild(s, key).None?
      ensures child.Some? ==>
        && r < child.value < |heap| && heap[child.value].parent == Node(r)
        && Rep(heap, child.value, KeyChild(s, key).value)
    {
      var extra := GetAdditionalProperties(r, s);
      StableKeepsNode(old(heap), heap, r, s);
      hide Rep, Linked, KeepsMeaning, FillOnce;
      RepOfProperty(heap, r, s, key);
      if key in heap[r].props {
        child := Some(heap[r].props[key]);
        RelinkIsStable(old(heap), heap, child.value, r, s.props[key]);
        heap := SetParent(heap, child.value, r);
      } else {
        child := extra;
      }
    }

    method GetIndexChild(r: nat, index: nat, ghost s: Schema) returns (child: Option<nat>)
      requires Linked(heap) && Rep(heap, r, s)
      modifies this
      ensures heap == AfterLookup(old(heap), ByIndex(r, index))
      ensures Stable(old(heap), heap, child)
      ensures child.None? <==> IndexChild(s, index).None?
      ensures child.Some? ==>
        && r < child.value < |heap| && heap[child.value].parent == Node(r)
        && Rep(heap, child.value, IndexChild(s, index).value)
    {
      var extra := GetAdditionalProperties(r, s);
      assert NodeLinked(heap, r);
      match heap[r].items {
        case NoItemRefs => child := extra;
        case EachRef(t) => child := Some(t);
        case TupleRefs(ts) =>
          if index < |ts| {
            child := Some(ts[index]);
            ParentKeepsMeaning(heap, ts[index], r);
            heap := SetParent(heap, ts[index], r);
          } else {
            child := extra;
          }
      }
    }

    /** validMinSize, which also fills in additionalProperties of tuples. */
    method ValidMinSize(r: nat, size: nat, ghost s: Schema) returns (ok: bool)
      requires Linked(heap) && Rep(heap, r, s)
      modifies this
      ensures heap == AfterLookup(old(heap), MinSize(r, size))
      ensures Stable(old(heap), heap, None)
      ensures ok == MinSizeOk(s, size)
    {
      var kw := heap[r].kw;
      if kw.minItems.Some? && size < ToUint32(kw.minItems.value) { return false; }
      if heap[r].items.TupleRefs? {
        var tuple := |heap[r].items.elems|;
        var extra := GetAdditionalProperties(r, s);
        return extra.Some? || size == tuple;
      }
      return true;
    }
  }

  // ---- a node means one thing -----------------------------------------------------

  /** Two schemas a node may stand for accept the same documents with the same
      result, so keeping every meaning is keeping the accepted documents. */
  lemma {:induction false} MeaningIsUnique(c: Checkers, h: Heap, r: nat, s: Schema, t: Schema, j: Json)
    requires Rep(h, r, s) && Rep(h, r, t)
    ensures Validate(c, s, j) == Validate(c, t, j)
    decreases j, 1
  {
    match j
    case Obj(_) => ObjectMeaning(c, h, r, s, t, j);
    case Arr(_) => ArrayMeaning(c, h, r, s, t, j);
    case _ =>
  }

  /** Any sequence of lookups, on any nodes, leaves every node with the schema it
      had; whatever schema it stands for afterwards accepts the same documents
      with the same resulting tree. */
  lemma {:induction false} FillingKeepsAcceptance(c: Checkers, h: Heap, ls: seq<Lookup>, r: nat, s: Schema, t: Schema, j: Json)
    requires Linked(h) && Rep(h, r, s)
    ensures Linked(AfterLookups(h, ls)) && Rep(AfterLookups(h, ls), r, s)
    ensures Rep(AfterLookups(h, ls), r, t) ==> Validate(c, s, j) == Validate(c, t, j)
  {
    LookupsKeep(h, ls);
    hide AfterLookups, Validate, Linked;
    var h' := AfterLookups(h, ls);
    assert Rep(h', r, s);
    if Rep(h', r, t) { MeaningIsUnique(c, h', r, s, t, j); }
  }

  lemma {:induction false} ObjectMeaning(c: Checkers, h: Heap, r: nat, s: Schema, t: Schema, j: Json)
    requires Rep(h, r, s) && Rep(h, r, t) && j.Obj?
    ensures Validate(c, s, j) == Validate(c, t, j)
    decreases j, 0
  {
    forall k | k in j.m
      ensures KeyChild(s, k).Some? == KeyChild(t, k).Some?
      ensures KeyChild(s, k).Some? ==>
        Validate(c, KeyChild(s, k).value, j.m[k]) == Validate(c, KeyChild(t, k).value, j.m[k])
    {
      KeyChildUnique(h, r, s, t, k);
      if KeyChild(s, k).Some? && KeyChild(s, k) != KeyChild(t, k) {
        var q :| Rep(h, q, KeyChild(s, k).value) && Rep(h, q, KeyChild(t, k).value);
        MeaningIsUnique(c, h, q, KeyChild(s, k).value, KeyChild(t, k).value, j.m[k]);
      }
    }
    PropsUnique(h, r, s, t);
    if MembersOk(c, s, j) {
      assert ValidMembers(c, s, j) == ValidMembers(c, t, j);
      ClosingDependsOnProps(s, t, ValidMembers(c, s, j));
    }
  }

  lemma {:induction false} ArrayMeaning(c: Checkers, h: Heap, r: nat, s: Schema, t: Schema, j: Json)
    requires Rep(h, r, s) && Rep(h, r, t) && j.Arr?
    ensures Validate(c, s, j) == Validate(c, t, j)
    decreases j, 0
  {
    forall i | 0 <= i < |j.a|
      ensures IndexChild(s, i).Some? == IndexChild(t, i).Some?
      ensures IndexChild(s, i).Some? ==>
        Validate(c, IndexChild(s, i).value, j.a[i]) == Validate(c, IndexChild(t, i).value, j.a[i])
    {
      IndexChildUnique(h, r, s, t, i);
      if IndexChild(s, i).Some? && IndexChild(s, i) != IndexChild(t, i) {
        var q :| Rep(h, q, IndexChild(s, i).value) && Rep(h, q, IndexChild(t, i).value);
        MeaningIsUnique(c, h, q, IndexChild(s, i).value, IndexChild(t, i).value, j.a[i]);
      }
    }
    assert MinSizeOk(s, |j.a|) == MinSizeOk(t, |j.a|);
    if Validate(c, s, j).Some? {
      assert Validate(c, s, j).value.a == Validate(c, t, j).value.a;
    }
  }

  lemma {:induction false} ExtraUnique(h: Heap, r: nat, s: Schema, t: Schema)
    requires Rep(h, r, s) && Rep(h, r, t)
    ensures ExtraChild(s).Some? == ExtraChild(t).Some?
    ensures ExtraChild(s).Some? && ExtraChild(s) != ExtraChild(t) ==>
      exists q: nat :: Rep(h, q, ExtraChild(s).value) && Rep(h, q, ExtraChild(t).value)
  {
    if h[r].extra.SubRef? && (s.extra.Open? || t.extra.Open?) { AnyIsAnySchema(h, h[r].extra.sub); }
    if ExtraChild(s).Some? && ExtraChild(s) != ExtraChild(t) {
      var q := h[r].extra.sub;
      assert Rep(h, q, ExtraChild(s).value) && Rep(h, q, ExtraChild(t).value);
    }
  }

  lemma {:induction false} KeyChildUnique(h: Heap, r: nat, s: Schema, t: Schema, k: string)
    requires Rep(h, r, s) && Rep(h, r, t)
    ensures KeyChild(s, k).Some? == KeyChild(t, k).Some?
    ensures KeyChild(s, k).Some? && KeyChild(s, k) != KeyChild(t, k) ==>
      exists q: nat :: Rep(h, q, KeyChild(s, k).value) && Rep(h, q, KeyChild(t, k).value)
  {
    if k in s.props {
      assert Rep(h, h[r].props[k], s.props[k]) && Rep(h, h[r].props[k], t.props[k]);
    } else {
      ExtraUnique(h, r, s, t);
    }
  }

  lemma {:induction false} IndexChildUnique(h: Heap, r: nat, s: Schema, t: Schema, i: nat)
    requires Rep(h, r, s) && Rep(h, r, t)
    ensures IndexChild(s, i).Some? == IndexChild(t, i).Some?
    ensures IndexChild(s, i).Some? && IndexChild(s, i) != IndexChild(t, i) ==>
      exists q: nat :: Rep(h, q, IndexChild(s, i).value) && Rep(h, q, IndexChild(t, i).value)
  {
    if s.items.Each? {
      assert Rep(h, h[r].items.each, s.items.each) && Rep(h, h[r].items.each, t.items.each);
    } else if s.items.Tuple? && i < |s.items.elems| {
      var q := h[r].items.elems[i];
      assert Rep(h, q, s.items.elems[i]) && Rep(h, q, t.items.elems[i]);
    } else {
      ExtraUnique(h, r, s, t);
    }
  }

  lemma {:induction false} PropsUnique(h: Heap, r: nat, s: Schema, t: Schema)
    requires Rep(h, r, s) && Rep(h, r, t)
    ensures s.props.Keys == t.props.Keys
    ensures forall k <- s.props :: s.props[k].kw == t.props[k].kw
  {
    forall k | k in s.props
      ensures s.props[k].kw == t.props[k].kw
    {
      assert Rep(h, h[r].props[k], s.props[k]) && Rep(h, h[r].props[k], t.props[k]);
    }
  }

  lemma {:induction false} ClosingDependsOnProps(s: Schema, t: Schema, m: map<string, Json>)
    requires s.props.Keys == t.props.Keys
    requires forall k <- s.props :: s.props[k].kw == t.props[k].kw
    ensures CloseObject(s, m) == CloseObject(t, m)
  {
    var d, e := Defaults(s, m.Keys), Defaults(t, m.Keys);
    assert d.Keys == e.Keys;
    assert d == e;
  }
}
