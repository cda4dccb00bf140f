/** The parser's context (gearbox/core/JsonParser.cc): a cursor into the tree
    being built and a cursor into the schema, both moved down by keys and
    elements and up through parent links. The callbacks update nodes in place
    and are proved against the machine of JsonStream. */
module JsonParser {
  import opened Outcomes
  import opened JsonValue
  import opened JsonSchema
  import opened JsonStream
  import opened SchemaStore

  /** Contents of a tree node. `Leaf` is a scalar, or a default value copied
      in as a whole. */
  datatype Data = Undef | Leaf(v: Json) | Object(m: map<string, nat>) | Array(a: seq<nat>)

  /** Parent links are addresses; the parent of the root lies outside. */
  datatype JNode = JNode(parent: int, data: Data)

  type Tree = seq<JNode>

  // ---- what a finished node is ---------------------------------------------

  /** Node `r` is the value `v`, stored in nodes r..hi. */
  ghost predicate Holds(h: Tree, r: nat, hi: nat, v: Json)
    decreases v
  {
    && r < hi <= |h|
    && (|| h[r].data == Leaf(v)
        || (v.Null? && h[r].data.Undef?)
        || (v.Obj? && h[r].data.Object? && h[r].data.m.Keys == v.m.Keys
            && forall k <- v.m :: r < h[r].data.m[k] && Holds(h, h[r].data.m[k], hi, v.m[k]))
        || (v.Arr? && h[r].data.Array? && |h[r].data.a| == |v.a|
            && forall i | 0 <= i < |v.a| :: r < h[r].data.a[i] && Holds(h, h[r].data.a[i], hi, v.a[i])))
  }

  ghost predicate SameData(h: Tree, h': Tree, lo: nat, hi: nat) {
    hi <= |h| && hi <= |h'| && forall i | lo <= i < hi :: h'[i].data == h[i].data
  }

  lemma {:induction false} HoldsFrame(h: Tree, h': Tree, r: nat, hi: nat, hi': nat, v: Json)
    requires Holds(h, r, hi, v) && SameData(h, h', r, hi) && hi <= hi' <= |h'|
    ensures Holds(h', r, hi', v)
    decreases v
  {
    if h[r].data != Leaf(v) {
      match v {
        case Obj(m) =>
          forall k | k in m
            ensures Holds(h', h[r].data.m[k], hi', m[k])
          {
            HoldsFrame(h, h', h[r].data.m[k], hi, hi', m[k]);
          }
        case Arr(a) =>
          forall i | 0 <= i < |a|
            ensures Holds(h', h[r].data.a[i], hi', a[i])
          {
            HoldsFrame(h, h', h[r].data.a[i], hi, hi', a[i]);
          }
        case _ =>
      }
    }
  }

  // ---- what an open container is ---------------------------------------------

  /** Node `r` is the open container `f`; its finished children lie below hi
      and `child`, if any, is the node that is still open. */
  ghost predicate FrameRep(h: Tree, r: nat, hi: nat, child: Option<nat>, f: Frame) {
    && r < hi <= |h|
    && match f
       case ObjFrame(_, members, key) =>
         && h[r].data.Object?
         && key.Some? == child.Some?
         && (key.Some? ==> key.value !in members)
         && h[r].data.m.Keys == members.Keys + (if key.Some? then {key.value} else {})
         && (key.Some? ==> h[r].data.m[key.value] == child.value)
         && forall k <- members :: r < h[r].data.m[k] && Holds(h, h[r].data.m[k], hi, members[k])
       case ArrFrame(_, elems) =>
         && h[r].data.Array?
         && |h[r].data.a| == |elems| + (if child.Some? then 1 else 0)
         && (child.Some? ==> h[r].data.a[|elems|] == child.value)
         && forall i | 0 <= i < |elems| :: r < h[r].data.a[i] && Holds(h, h[r].data.a[i], hi, elems[i])
  }

  lemma FrameRepFrame(h: Tree, h': Tree, r: nat, hi: nat, hi': nat, child: Option<nat>, f: Frame)
    requires FrameRep(h, r, hi, child, f) && SameData(h, h', r, hi) && hi <= hi' <= |h'|
    ensures FrameRep(h', r, hi', child, f)
  {
    match f
    case ObjFrame(_, members, _) =>
      forall k | k in members
        ensures Holds(h', h[r].data.m[k], hi', members[k])
      {
        HoldsFrame(h, h', h[r].data.m[k], hi, hi', members[k]);
      }
    case ArrFrame(_, elems) =>
      forall i | 0 <= i < |elems|
        ensures Holds(h', h[r].data.a[i], hi', elems[i])
      {
        HoldsFrame(h, h', h[r].data.a[i], hi, hi', elems[i]);
      }
  }

  // ---- the cursor's parent chain -------------------------------------------------

  /** Entry `i` of the chain is the parent of entry i + 1. */
  ghost predicate LinkAt(h: Tree, spine: seq<nat>, i: nat)
    requires i < |spine|
  {
    && spine[i] < |h|
    && (i + 1 < |spine| ==> spine[i] < spine[i + 1] < |h| && h[spine[i + 1]].parent == spine[i])
  }

  /** From the root at address 0 down to the cursor, each node the parent of
      the next; above the root lies `above`. */
  ghost predicate Chain(h: Tree, cursor: int, above: int, spine: seq<nat>) {
    && (forall i: nat | i < |spine| :: LinkAt(h, spine, i))
    && (spine != [] ==>
          && spine[0] == 0 && cursor == spine[|spine| - 1]
          && 0 <= cursor < |h| && h[0].parent == above)
    && (spine == [] ==> cursor == above)
  }

  ghost predicate FrameAt(h: Tree, spine: seq<nat>, stack: seq<Frame>, i: nat)
    requires i < |stack| <= |spine|
  {
    if i + 1 < |spine| then FrameRep(h, spine[i], spine[i + 1], Some(spine[i + 1]), stack[i])
    else FrameRep(h, spine[i], |h|, None, stack[i])
  }

  /** The open containers are the first nodes of the chain; the node after
      each is its open child. */
  ghost predicate Frames(h: Tree, spine: seq<nat>, stack: seq<Frame>) {
    |stack| <= |spine| && forall i: nat | i < |stack| :: FrameAt(h, spine, stack, i)
  }

  /** The cursor is on the node that takes the next value of `m`. */
  ghost predicate AtSlot(h: Tree, cursor: int, above: int, spine: seq<nat>, m: Machine) {
    && TakesValue(m)
    && |spine| == |m.stack| + 1
    && Chain(h, cursor, above, spine)
    && Frames(h, spine, m.stack)
  }

  /** The tree and cursor implement the machine: the cursor's parent chain is
      exactly the stack of open containers, plus the waiting node if any. */
  ghost predicate Implements(h: Tree, cursor: int, above: int, spine: seq<nat>, m: Machine) {
    && m.Machine?
    && Chain(h, cursor, above, spine)
    && Frames(h, spine, m.stack)
    && match m.focus
       case Waiting(_) => AtSlot(h, cursor, above, spine, m) && h[cursor].data.Undef?
       case Inside => m.stack != [] && |spine| == |m.stack|
       case Above(v) => m.stack == [] && spine == [] && Holds(h, 0, |h|, v)
  }

  lemma {:induction false} StoreClosesFrame(h: Tree, r: nat, child: nat, f: Frame, v: Json)
    requires FrameRep(h, r, child, Some(child), f) && r < child && Holds(h, child, |h|, v)
    ensures FrameRep(h, r, |h|, None, StoreIn(f, v))
  {
    FrameRepFrame(h, h, r, child, |h|, Some(child), f);
  }

  /** Storing a finished value in its node and moving the cursor to the parent
      is Attach. */
  lemma {:induction false} ClimbImplements(h: Tree, cursor: int, above: int, spine: seq<nat>, m: Machine, v: Json)
    requires AtSlot(h, cursor, above, spine, m) && Holds(h, cursor, |h|, v)
    ensures Implements(h, h[cursor].parent, above, spine[..|spine| - 1], Attach(m, v))
  {
    hide FrameRep, Holds;
    var n := |m.stack|;
    var up, stack := spine[..n], Attach(m, v).stack;
    if n > 0 {
      assert FrameAt(h, spine, m.stack, n - 1) && LinkAt(h, spine, n - 1);
      StoreClosesFrame(h, spine[n - 1], spine[n], m.stack[n - 1], v);
    }
    forall i: nat | i < |stack|
      ensures FrameAt(h, up, stack, i)
    {
      assert FrameAt(h, spine, m.stack, i);
    }
    forall i: nat | i < |up|
      ensures LinkAt(h, up, i)
    {
      assert LinkAt(h, spine, i);
    }
  }

  /** Writing to the node under the cursor, and appending nodes, leaves the
      containers around it alone. */
  lemma WriteKeepsSlot(h: Tree, h': Tree, cursor: int, above: int, spine: seq<nat>, m: Machine)
    requires AtSlot(h, cursor, above, spine, m)
    requires |h| <= |h'| && h'[cursor].parent == h[cursor].parent
    requires forall i | 0 <= i < |h| && i != cursor :: h'[i] == h[i]
    ensures AtSlot(h', cursor, above, spine, m)
  {
    forall i: nat | i < |m.stack|
      ensures FrameAt(h', spine, m.stack, i)
    {
      assert FrameAt(h, spine, m.stack, i);
      Increasing(h, cursor, above, spine, i + 1, |spine| - 1);
      FrameRepFrame(h, h', spine[i], spine[i + 1], spine[i + 1], Some(spine[i + 1]), m.stack[i]);
    }
    forall i: nat | i < |spine|
      ensures LinkAt(h', spine, i)
    {
      assert LinkAt(h, spine, i);
    }
  }

  function SetData(h: Tree, cursor: int, data: Data): Tree
    requires 0 <= cursor < |h|
  {
    h[cursor := h[cursor].(data := data)]
  }

  lemma SlotInTree(h: Tree, cursor: int, above: int, spine: seq<nat>, m: Machine)
    requires AtSlot(h, cursor, above, spine, m)
    ensures 0 <= cursor < |h|
  {
  }

  lemma SetDataKeepsSlot(h: Tree, cursor: int, above: int, spine: seq<nat>, m: Machine, data: Data)
    requires AtSlot(h, cursor, above, spine, m)
    ensures 0 <= cursor < |h|
    ensures var h' := SetData(h, cursor, data);
      && AtSlot(h', cursor, above, spine, m) && |h'| == |h| && h'[cursor].data == data
      && (forall v :: data == Leaf(v) ==> Holds(h', cursor, |h'|, v))
  {
    WriteKeepsSlot(h, SetData(h, cursor, data), cursor, above, spine, m);
  }

  lemma {:induction false} Increasing(h: Tree, cursor: int, above: int, spine: seq<nat>, i: nat, k: nat)
    requires Chain(h, cursor, above, spine) && i <= k < |spine|
    ensures spine[i] <= spine[k]
    decreases k - i
  {
    if i < k {
      assert LinkAt(h, spine, k - 1);
      Increasing(h, cursor, above, spine, i, k - 1);
    }
  }

  /** A fresh node appended under the innermost open container. */
  lemma PushKeepsFrames(h: Tree, h': Tree, cursor: int, above: int, spine: seq<nat>, stack: seq<Frame>, f: Frame)
    requires Chain(h, cursor, above, spine) && spine != [] && |stack| == |spine| && Frames(h, spine, stack)
    requires |h'| == |h| + 1 && h'[|h|].parent == cursor && h'[cursor].parent == h[cursor].parent
    requires forall i | 0 <= i < |h| && i != cursor :: h'[i] == h[i]
    requires FrameRep(h', cursor, |h|, Some(|h|), f)
    ensures Chain(h', |h|, above, spine + [|h|])
    ensures Frames(h', spine + [|h|], stack[..|stack| - 1] + [f])
  {
    var n := |spine|;
    var spine', stack' := spine + [|h|], stack[..n - 1] + [f];
    forall i: nat | i < n
      ensures FrameAt(h', spine', stack', i)
    {
      if i < n - 1 {
        assert FrameAt(h, spine, stack, i);
        Increasing(h, cursor, above, spine, i + 1, n - 1);
        FrameRepFrame(h, h', spine[i], spine[i + 1], spine[i + 1], Some(spine[i + 1]), stack[i]);
      }
    }
    forall i: nat | i < |spine'|
      ensures LinkAt(h', spine', i)
    {
      if i < n { assert LinkAt(h, spine, i); }
    }
  }

  /** The tree after a fresh child was added to the node under the cursor. */
  function Pushed(h: Tree, cursor: int, data: Data): Tree
    requires 0 <= cursor < |h|
  {
    h[cursor := h[cursor].(data := data)] + [JNode(cursor, Undef)]
  }

  /** getObj under an open array. */
  lemma PushElem(h: Tree, cursor: int, above: int, spine: seq<nat>, m: Machine)
    requires Implements(h, cursor, above, spine, m) && AtArray(m)
    ensures 0 <= cursor < |h| && h[cursor].data.Array?
    ensures |h[cursor].data.a| == |Top(m).elems|
    ensures AtSlot(Pushed(h, cursor, Array(h[cursor].data.a + [|h|])), |h|, above, spine + [|h|], m)
  {
    TopRep(h, cursor, above, spine, m);
    var f, a, n := Top(m), h[cursor].data.a, |h|;
    var h' := Pushed(h, cursor, Array(a + [n]));
    forall i | 0 <= i < |f.elems|
      ensures Holds(h', (a + [n])[i], n, f.elems[i])
    {
      HoldsFrame(h, h', a[i], n, n, f.elems[i]);
    }
    assert FrameRep(h', cursor, n, Some(n), f);
    PushKeepsFrames(h, h', cursor, above, spine, m.stack, f);
    assert m.stack[..|m.stack| - 1] + [f] == m.stack;
  }

  /** parse_map_key on a new key. */
  lemma {:induction false} PushMember(h: Tree, cursor: int, above: int, spine: seq<nat>, m: Machine, key: string, s: Option<Schema>)
    requires Implements(h, cursor, above, spine, m) && AtObject(m)
    ensures 0 <= cursor < |h| && h[cursor].data.Object?
    ensures h[cursor].data.m.Keys == Top(m).members.Keys
    ensures key !in Top(m).members ==>
      Implements(Pushed(h, cursor, Object(h[cursor].data.m[key := |h|])), |h|, above, spine + [|h|],
                 Machine(SetTop(m, Top(m).(key := Some(key))).stack, Waiting(s)))
  {
    TopRep(h, cursor, above, spine, m);
    var f, refs, n := Top(m), h[cursor].data.m, |h|;
    if key !in f.members {
      var h', g := Pushed(h, cursor, Object(refs[key := n])), f.(key := Some(key));
      forall k | k in f.members
        ensures Holds(h', refs[key := n][k], n, f.members[k])
      {
        HoldsFrame(h, h', refs[k], n, n, f.members[k]);
      }
      assert FrameRep(h', cursor, n, Some(n), g);
      PushKeepsFrames(h, h', cursor, above, spine, m.stack, g);
    }
  }

  /** A fresh container under the cursor becomes the innermost open one. */
  lemma OpenImplements(h: Tree, cursor: int, above: int, spine: seq<nat>, m: Machine, f: Frame)
    requires AtSlot(h, cursor, above, spine, m) && FrameRep(h, cursor, |h|, None, f)
    ensures Implements(h, cursor, above, spine, Machine(m.stack + [f], Inside))
  {
    var stack := m.stack + [f];
    forall i: nat | i < |stack|
      ensures FrameAt(h, spine, stack, i)
    {
      if i < |m.stack| { assert FrameAt(h, spine, m.stack, i); }
    }
  }

  /** The object under the cursor with one more member, a whole value. */
  function WithLeaf(h: Tree, cursor: int, k: string, v: Json): Tree
    requires 0 <= cursor < |h| && h[cursor].data.Object?
  {
    h[cursor := h[cursor].(data := Object(h[cursor].data.m[k := |h|]))] + [JNode(-1, Leaf(v))]
  }

  lemma {:induction false} AddLeaf(
    h: Tree, cursor: int, above: int, spine: seq<nat>, m: Machine, members: map<string, Json>, k: string, v: Json)
    requires AtSlot(h, cursor, above, spine, m) && k !in members
    requires FrameRep(h, cursor, |h|, None, ObjFrame(None, members, None))
    ensures AtSlot(WithLeaf(h, cursor, k, v), cursor, above, spine, m)
    ensures FrameRep(WithLeaf(h, cursor, k, v), cursor, |h| + 1, None, ObjFrame(None, members[k := v], None))
  {
    var h', refs := WithLeaf(h, cursor, k, v), h[cursor].data.m;
    WriteKeepsSlot(h, h', cursor, above, spine, m);
    forall q | q in members
      ensures Holds(h', refs[k := |h|][q], |h'|, members[q])
    {
      HoldsFrame(h, h', refs[q], |h|, |h'|, members[q]);
    }
    assert Holds(h', |h|, |h'|, v);
  }

  /** One round of setDefaults on the object under the cursor. */
  function WithDefault(h: Tree, cursor: int, k: string, kw: Keywords): Tree
    requires 0 <= cursor < |h| && h[cursor].data.Object?
  {
    if kw.fallback.Some? && k !in h[cursor].data.m then WithLeaf(h, cursor, k, Fixup(kw, kw.fallback.value)) else h
  }

  lemma {:induction false} DefaultStep(
    h: Tree, cursor: int, above: int, spine: seq<nat>, m: Machine, members: map<string, Json>, k: string, kw: Keywords)
    requires AtSlot(h, cursor, above, spine, m)
    requires FrameRep(h, cursor, |h|, None, ObjFrame(None, members, None))
    ensures var h' := WithDefault(h, cursor, k, kw);
      && AtSlot(h', cursor, above, spine, m)
      && FrameRep(h', cursor, |h'|, None, ObjFrame(None,
           if kw.fallback.Some? && k !in members then members[k := Fixup(kw, kw.fallback.value)] else members, None))
  {
    hide Holds, Fixup, Frames;
    if kw.fallback.Some? && k !in members {
      AddLeaf(h, cursor, above, spine, m, members, k, Fixup(kw, kw.fallback.value));
    }
  }

  lemma HoldsObject(h: Tree, r: nat, members: map<string, Json>)
    requires r < |h| && h[r].data.Object? && h[r].data.m.Keys == members.Keys
    requires forall k <- members :: r < h[r].data.m[k] && Holds(h, h[r].data.m[k], |h|, members[k])
    ensures Holds(h, r, |h|, Obj(members))
  {
  }

  lemma TopRep(h: Tree, cursor: int, above: int, spine: seq<nat>, m: Machine)
    requires Implements(h, cursor, above, spine, m) && m.focus.Inside?
    ensures 0 <= cursor < |h| && FrameRep(h, cursor, |h|, None, Top(m))
  {
    assert FrameAt(h, spine, m.stack, |spine| - 1);
  }

  /** Closing the innermost container puts the cursor on a node that takes a
      value of the popped machine. */
  lemma PopSlot(h: Tree, cursor: int, above: int, spine: seq<nat>, m: Machine)
    requires Implements(h, cursor, above, spine, m) && m.focus.Inside?
    ensures AtSlot(h, cursor, above, spine, Pop(m))
  {
    var below := Pop(m).stack;
    forall i: nat | i < |below|
      ensures FrameAt(h, spine, below, i) && (i == |below| - 1 && below[i].ObjFrame? ==> below[i].key.Some?)
    {
      assert FrameAt(h, spine, m.stack, i);
    }
  }

  // ---- the schema cursor's parent chain ----------------------------------------------

  ghost predicate StepAt(h: Heap, path: seq<nat>, ss: seq<Option<Schema>>, i: nat)
    requires i < |path| == |ss|
  {
    && ss[i].Some? && Rep(h, path[i], ss[i].value)
    && (i + 1 < |path| ==> path[i] < path[i + 1] < |h| && h[path[i + 1]].parent == Node(path[i]))
  }

  /** The schema cursor's chain: one node per entry of the tree's chain, each
      the parent of the next. Without a schema there is no cursor. */
  ghost predicate Path(h: Heap, cursor: Option<nat>, on: bool, path: seq<nat>, ss: seq<Option<Schema>>) {
    if !on then cursor.None? && path == [] && forall i: nat | i < |ss| :: ss[i].None?
    else
      && |path| == |ss|
      && (forall i: nat | i < |ss| :: StepAt(h, path, ss, i))
      && (ss != [] ==> cursor == Some(path[|ss| - 1]))
  }

  lemma {:induction false} PathIncreasing(h: Heap, cursor: Option<nat>, path: seq<nat>, ss: seq<Option<Schema>>, i: nat)
    requires Path(h, cursor, true, path, ss) && i < |path|
    ensures path[i] <= path[|path| - 1]
    decreases |path| - i
  {
    if i + 1 < |path| {
      assert StepAt(h, path, ss, i);
      PathIncreasing(h, cursor, path, ss, i + 1);
    }
  }

  lemma PathStable(h: Heap, h': Heap, child: Option<nat>, cursor: Option<nat>, path: seq<nat>, ss: seq<Option<Schema>>)
    requires Path(h, cursor, true, path, ss) && Stable(h, h', child)
    requires child.Some? ==> path != [] && path[|path| - 1] < child.value
    ensures Path(h', cursor, true, path, ss)
  {
    forall i: nat | i < |ss|
      ensures StepAt(h', path, ss, i)
    {
      assert StepAt(h, path, ss, i);
      if i + 1 < |path| { PathIncreasing(h, cursor, path, ss, i + 1); }
    }
  }

  lemma {:induction false} PathTop(h: Heap, cursor: Option<nat>, on: bool, path: seq<nat>, ss: seq<Option<Schema>>, s: Option<Schema>)
    requires Path(h, cursor, on, path, ss + [s])
    ensures cursor.Some? == s.Some? == on
    ensures s.Some? ==> Rep(h, cursor.value, s.value)
    ensures s.Some? ==> cursor.value < |h| && h[cursor.value].kw == s.value.kw
    ensures on ==> path != [] && cursor == Some(path[|path| - 1])
  {
    assert (ss + [s])[|ss|] == s;
    if on { assert StepAt(h, path, ss + [s], |ss|); }
  }

  lemma {:induction false} PathDown(h: Heap, cursor: Option<nat>, path: seq<nat>, ss: seq<Option<Schema>>, child: nat, t: Schema)
    requires Path(h, cursor, true, path, ss) && path != [] && path[|path| - 1] < child < |h|
    requires h[child].parent == Node(path[|path| - 1]) && Rep(h, child, t)
    ensures Path(h, Some(child), true, path + [child], ss + [Some(t)])
  {
    forall i: nat | i < |ss| + 1
      ensures StepAt(h, path + [child], ss + [Some(t)], i)
    {
      if i < |ss| { assert StepAt(h, path, ss, i); }
    }
  }

  lemma PathNone(h: Heap, cursor: Option<nat>, path: seq<nat>, ss: seq<Option<Schema>>)
    requires Path(h, cursor, false, path, ss)
    ensures Path(h, cursor, false, path, ss + [None])
  {
  }

  /** Up once: the parent link of a node on the path is the node before it. */
  lemma {:induction false} PathUp(h: Heap, cursor: Option<nat>, on: bool, path: seq<nat>, ss: seq<Option<Schema>>, s: Option<Schema>)
    requires Path(h, cursor, on, path, ss + [s]) && ss != []
    ensures on ==> cursor.Some? && cursor.value < |h| && h[cursor.value].parent.Node?
    ensures Path(h, if on then Some(h[cursor.value].parent.r) else None, on,
                 if on then path[..|path| - 1] else path, ss)
  {
    var full := ss + [s];
    if on {
      assert StepAt(h, path, full, |ss| - 1);
      var path' := path[..|path| - 1];
      forall i: nat | i < |ss|
        ensures StepAt(h, path', ss, i)
      {
        assert StepAt(h, path, full, i);
      }
    } else {
      assert forall i | 0 <= i < |ss| :: ss[i] == full[i];
    }
  }

  /** The schemas along a chain of open containers. */
  function Schemas(stack: seq<Frame>): seq<Option<Schema>> {
    seq(|stack|, i requires 0 <= i < |stack| => stack[i].schema)
  }

  lemma SchemasSplit(stack: seq<Frame>)
    requires stack != []
    ensures Schemas(stack) == Schemas(stack[..|stack| - 1]) + [stack[|stack| - 1].schema]
  {
  }

  /** The schemas along the chain of a machine. */
  function SchemasOf(m: Machine): seq<Option<Schema>>
    requires m.Machine?
  {
    if m.focus.Waiting? then Schemas(m.stack) + [m.focus.schema] else Schemas(m.stack)
  }

  lemma {:induction false} AttachSchemas(m: Machine, v: Json)
    requires TakesValue(m) && m.stack != []
    ensures SchemasOf(Attach(m, v)) == Schemas(m.stack)
  {
    SchemasSplit(m.stack);
    SchemasSplit(Attach(m, v).stack);
  }

  /** The loop of setDefaults over the properties of a schema node. */
  method FillTree(
    h0: Tree, cursor: int, props: map<string, nat>, heap: Heap, ghost s: Schema,
    ghost above: int, ghost spine: seq<nat>, ghost m: Machine, ghost members: map<string, Json>)
    returns (h: Tree)
    requires props.Keys == s.props.Keys && forall k <- props :: Rep(heap, props[k], s.props[k])
    requires AtSlot(h0, cursor, above, spine, m)
    requires FrameRep(h0, cursor, |h0|, None, ObjFrame(None, members, None))
    ensures AtSlot(h, cursor, above, spine, m)
    ensures FrameRep(h, cursor, |h|, None, ObjFrame(None, WithDefaults(s, members), None))
  {
    h := h0;
    ghost var filled := members;
    var todo := props.Keys;
    while todo != {}
      invariant todo <= props.Keys
      invariant AtSlot(h, cursor, above, spine, m)
      invariant FrameRep(h, cursor, |h|, None, ObjFrame(None, filled, None))
      invariant Filling(s, members, todo, filled)
      decreases todo
    {
      var k :| k in todo;
      assert Rep(heap, props[k], s.props[k]);
      var kw := heap[props[k]].kw;
      FillingStep(s, members, todo, filled, k);
      DefaultStep(h, cursor, above, spine, m, filled, k, kw);
      h := WithDefault(h, cursor, k, kw);
      if kw.fallback.Some? && k !in filled { filled := filled[k := Fixup(kw, kw.fallback.value)]; }
      todo := todo - {k};
    }
    FillingDone(s, members, filled);
  }

  // ---- the callbacks ---------------------------------------------------------------------

  class Context {
    var tree: Tree
    var cursor: int
    var schema: Option<nat>
    const above: int
    const on: bool
    const store: Store
    const c: Checkers
    ghost var spine: seq<nat>
    ghost var path: seq<nat>
    ghost var m: Machine

    ghost predicate Valid()
      reads this, store
    {
      && Implements(tree, cursor, above, spine, m)
      && Linked(store.heap)
      && (!m.focus.Above? ==> Path(store.heap, schema, on, path, SchemasOf(m)))
    }

    /** getObj has run: the cursor is on the node that takes the value and the
        schema cursor on that node's schema. */
    ghost predicate Ready(s: Option<Schema>)
      reads this, store
    {
      && AtSlot(tree, cursor, above, spine, m)
      && Linked(store.heap)
      && Path(store.heap, schema, on, path, Schemas(m.stack) + [s])
    }

    /** Json::Parser::parse, up to the first event. */
    constructor (checkers: Checkers, st: Store, root: Option<nat>, rootParent: int, ghost s: Option<Schema>)
      requires Linked(st.heap) && root.Some? == s.Some?
      requires root.Some? ==> Rep(st.heap, root.value, s.value)
      ensures Valid() && m == Start(s)
      ensures store == st && above == rootParent && c == checkers
    {
      tree, cursor, schema := [JNode(rootParent, Undef)], 0, root;
      above, on, store, c := rootParent, root.Some?, st, checkers;
      spine, path, m := [0], if root.Some? then [root.value] else [], Start(s);
    }

    /** setJsonUp and setSchemaUp, once the node under the cursor is finished. */
    method SetUp(ghost s: Option<Schema>, ghost v: Json)
      requires Ready(s) && Holds(tree, cursor, |tree|, v)
      modifies this
      ensures Valid() && m == Attach(old(m), v) && tree == old(tree)
    {
      hide Linked, Path, Chain, Frames, Holds, Rep;
      SlotInTree(tree, cursor, above, spine, m);
      ClimbImplements(tree, cursor, above, spine, m, v);
      PathTop(store.heap, schema, on, path, Schemas(m.stack), s);
      if m.stack != [] {
        PathUp(store.heap, schema, on, path, Schemas(m.stack), s);
        AttachSchemas(m, v);
      }
      cursor := tree[cursor].parent;
      if schema.Some? {
        schema := match store.heap[schema.value].parent
          case Node(r) => Some(r)
          case _ => None;
      }
      spine := spine[..|spine| - 1];
      path := if on then path[..|path| - 1] else path;
      m := Attach(m, v);
    }

    /** getObj: under an open array, push a fresh element and step both cursors
        down to it. */
    method GetObj() returns (ok: bool)
      requires Valid() && TakesValue(m)
      modifies this, store
      ensures Kept(old(store.heap), store.heap)
      ensures m == old(m)
      ensures ok == Slot(m).Some?
      ensures ok ==> Ready(Slot(m).value) && tree[cursor].data.Undef?
    {
      KeptSame(store.heap);
      if m.focus.Inside? { TopRep(tree, cursor, above, spine, m); }
      if tree[cursor].data.Array? {
        ok := PushElement();
      } else {
        ok := true;
      }
    }

    method PushElement() returns (ok: bool)
      requires Valid() && AtArray(m)
      modifies this, store
      ensures Kept(old(store.heap), store.heap)
      ensures m == old(m)
      ensures ok == Slot(m).Some?
      ensures ok ==> Ready(Slot(m).value) && tree[cursor].data.Undef?
    {
      hide Linked, Path, Chain, Frames, Holds, Rep, FrameRep, Kept, AfterLookup, KeepsMeaning;
      KeptSame(store.heap);
      PushElem(tree, cursor, above, spine, m);
      SchemasSplit(m.stack);
      ghost var f := Top(m);
      var n, a := |tree|, tree[cursor].data.a;
      tree := Pushed(tree, cursor, Array(a + [n]));
      spine := spine + [n];
      cursor := n;
      PathTop(store.heap, schema, on, path, Schemas(m.stack[..|m.stack| - 1]), f.schema);
      if schema.Some? {
        ghost var s := f.schema.value;
        if !MaxSizeOk(store.heap[schema.value].kw, |a| + 1) { return false; }
        ghost var heap := store.heap;
        var child := store.GetIndexChild(schema.value, |a|, s);
        StableIsKept(heap, store.heap, child);
        if child.None? { return false; }
        PathStable(heap, store.heap, child, schema, path, Schemas(m.stack));
        PathDown(store.heap, schema, path, Schemas(m.stack), child.value, IndexChild(s, |a|).value);
        path := path + [child.value];
        schema := child;
      } else {
        PathNone(store.heap, schema, path, Schemas(m.stack));
      }
      return true;
    }

    /** The part shared by parse_null, parse_boolean, parse_number and
        parse_string; `value` is None when lexical_cast throws. */
    method ParseScalar(value: Option<Json>) returns (ok: bool)
      requires Valid() && TakesValue(m)
      modifies this, store
      ensures Kept(old(store.heap), store.heap)
      ensures ok == Scalar(c, old(m), value).Machine?
      ensures ok ==> Valid() && m == Scalar(c, old(m), value)
    {
      hide Linked, Path, Chain, Frames, Kept;
      var got := GetObj();
      if !got || value.None? { return false; }
      ok := StoreScalar(value.value, Slot(m).value);
    }

    /** setData, the checks, typeFixup and the climb. */
    method StoreScalar(value: Json, ghost s: Option<Schema>) returns (ok: bool)
      requires Ready(s)
      modifies this
      ensures ok == ScalarResult(c, s, value).Some?
      ensures ok ==> Valid() && m == Attach(old(m), ScalarResult(c, s, value).value)
    {
      hide Linked, Path, Chain, Frames, Holds, Rep, ValidValue, ValidType;
      PathTop(store.heap, schema, on, path, Schemas(m.stack), s);
      var v := value;
      SetDataKeepsSlot(tree, cursor, above, spine, m, Leaf(v));
      tree := SetData(tree, cursor, Leaf(v));
      if schema.Some? {
        var kw := store.heap[schema.value].kw;
        if !ValidType(kw, v) { return false; }
        if !v.Null? {
          if !ValidValue(c, kw, v) { return false; }
          v := Fixup(kw, v);
          SetDataKeepsSlot(tree, cursor, above, spine, m, Leaf(v));
          tree := SetData(tree, cursor, Leaf(v));
        }
      }
      SetUp(s, v);
      return true;
    }

    method ParseStartMap() returns (ok: bool)
      requires Valid() && TakesValue(m)
      modifies this, store
      ensures Kept(old(store.heap), store.heap)
      ensures ok == Step(c, old(m), EStartMap).Machine?
      ensures ok ==> Valid() && m == Step(c, old(m), EStartMap)
    {
      hide Kept;
      ghost var s := Slot(m);
      var got := OpenNode(Object(map[]), Obj(map[]));
      if !got { return false; }
      OpenImplements(tree, cursor, above, spine, m, ObjFrame(s.value, map[], None));
      m := Machine(m.stack + [ObjFrame(s.value, map[], None)], Inside);
      SchemasSplit(m.stack);
      return true;
    }

    method ParseStartArray() returns (ok: bool)
      requires Valid() && TakesValue(m)
      modifies this, store
      ensures Kept(old(store.heap), store.heap)
      ensures ok == Step(c, old(m), EStartArray).Machine?
      ensures ok ==> Valid() && m == Step(c, old(m), EStartArray)
    {
      hide Kept;
      ghost var s := Slot(m);
      var got := OpenNode(Array([]), Arr([]));
      if !got { return false; }
      OpenImplements(tree, cursor, above, spine, m, ArrFrame(s.value, []));
      m := Machine(m.stack + [ArrFrame(s.value, [])], Inside);
      SchemasSplit(m.stack);
      return true;
    }

    /** Shared by the two start callbacks. */
    method OpenNode(data: Data, v: Json) returns (ok: bool)
      requires Valid() && TakesValue(m)
      modifies this, store
      ensures Kept(old(store.heap), store.heap)
      ensures m == old(m)
      ensures ok == (Slot(m).Some? && TypeOk(Slot(m).value, v))
      ensures ok ==> Ready(Slot(m).value) && tree[cursor].data == data
    {
      hide Linked, Path, Chain, Frames, Holds, Rep, ValidType, Slot, Kept;
      var got := GetObj();
      if !got { return false; }
      PathTop(store.heap, schema, on, path, Schemas(m.stack), Slot(m).value);
      SetDataKeepsSlot(tree, cursor, above, spine, m, data);
      tree := SetData(tree, cursor, data);
      if schema.Some? && !ValidType(store.heap[schema.value].kw, v) { return false; }
      return true;
    }

    method ParseMapKey(key: string) returns (ok: bool)
      requires Valid() && AtObject(m)
      modifies this, store
      ensures Kept(old(store.heap), store.heap)
      ensures ok == Key(old(m), key).Machine?
      ensures ok ==> Valid() && m == Key(old(m), key)
    {
      hide Linked, Path, Chain, Frames, Holds, Rep, FrameRep, Kept, AfterLookup, KeepsMeaning;
      KeptSame(store.heap);
      ghost var f, stack := Top(m), m.stack;
      SchemasSplit(stack);
      PathTop(store.heap, schema, on, path, Schemas(stack[..|stack| - 1]), f.schema);
      PushMember(tree, cursor, above, spine, m, key, if on then KeyChild(f.schema.value, key) else None);
      if schema.Some? {
        ghost var heap := store.heap;
        var child := store.GetKeyChild(schema.value, key, f.schema.value);
        StableIsKept(heap, store.heap, child);
        if child.None? { return false; }
        PathStable(heap, store.heap, child, schema, path, Schemas(stack));
        PathDown(store.heap, schema, path, Schemas(stack), child.value, KeyChild(f.schema.value, key).value);
        path := path + [child.value];
        schema := child;
      } else {
        PathNone(store.heap, schema, path, Schemas(stack));
      }
      if key in tree[cursor].data.m { return false; }
      m := Key(m, key);
      SchemasSplit(m.stack);
      spine := spine + [|tree|];
      tree, cursor := Pushed(tree, cursor, Object(tree[cursor].data.m[key := |tree|])), |tree|;
      return true;
    }

    method ParseEndArray() returns (ok: bool)
      requires Valid() && AtArray(m)
      modifies this, store
      ensures Kept(old(store.heap), store.heap)
      ensures ok == Step(c, old(m), EEndArray).Machine?
      ensures ok ==> Valid() && m == Step(c, old(m), EEndArray)
    {
      hide Linked, Path, Chain, Frames, Rep, Kept, AfterLookup, KeepsMeaning;
      KeptSame(store.heap);
      ghost var f := Top(m);
      TopRep(tree, cursor, above, spine, m);
      PopSlot(tree, cursor, above, spine, m);
      SchemasSplit(m.stack);
      PathTop(store.heap, schema, on, path, Schemas(m.stack[..|m.stack| - 1]), f.schema);
      if schema.Some? {
        ghost var heap := store.heap;
        var good := store.ValidMinSize(schema.value, |tree[cursor].data.a|, f.schema.value);
        StableIsKept(heap, store.heap, None);
        if !good { return false; }
        PathStable(heap, store.heap, None, schema, path, Schemas(m.stack));
      }
      m := Pop(m);
      SetUp(f.schema, Arr(f.elems));
      return true;
    }

    /** setDefaults on the object under the cursor: a missing property whose
        schema has a default gets a copy of it; copies have no parent. */
    method FillDefaults(ghost s: Schema, ghost members: map<string, Json>)
      requires Ready(Some(s)) && FrameRep(tree, cursor, |tree|, None, ObjFrame(None, members, None))
      requires schema.Some? && Rep(store.heap, schema.value, s)
      modifies this`tree
      ensures Ready(Some(s))
      ensures FrameRep(tree, cursor, |tree|, None, ObjFrame(None, WithDefaults(s, members), None))
    {
      tree := FillTree(tree, cursor, store.heap[schema.value].props, store.heap, s, above, spine, m, members);
    }

    method ParseEndMap() returns (ok: bool)
      requires Valid() && AtObject(m)
      modifies this, store
      ensures Kept(old(store.heap), store.heap)
      ensures ok == Step(c, old(m), EEndMap).Machine?
      ensures ok ==> Valid() && m == Step(c, old(m), EEndMap)
    {
      hide Linked, Path, Chain, Frames, Rep, Kept, AfterLookup, KeepsMeaning;
      KeptSame(store.heap);
      ghost var f := Top(m);
      TopRep(tree, cursor, above, spine, m);
      PopSlot(tree, cursor, above, spine, m);
      SchemasSplit(m.stack);
      PathTop(store.heap, schema, on, path, Schemas(m.stack[..|m.stack| - 1]), f.schema);
      m := Pop(m);
      ok := FinishObject(f.schema, f.members);
    }

    /** setDefaults, validRequires and the climb. */
    method FinishObject(ghost s: Option<Schema>, ghost members: map<string, Json>) returns (ok: bool)
      requires Ready(s) && FrameRep(tree, cursor, |tree|, None, ObjFrame(None, members, None))
      modifies this
      ensures ok == EndResult(ObjFrame(s, members, None)).Some?
      ensures ok ==> Valid() && m == Attach(old(m), EndResult(ObjFrame(s, members, None)).value)
    {
      hide Linked, Path, Chain, Frames, Holds, Rep;
      PathTop(store.heap, schema, on, path, Schemas(m.stack), s);
      ghost var filled := members;
      if schema.Some? {
        FillDefaults(s.value, members);
        filled := WithDefaults(s.value, members);
        SlotInTree(tree, cursor, above, spine, m);
        var good := RequiredPresent(s.value);
        if !good { return false; }
      }
      SlotInTree(tree, cursor, above, spine, m);
      HoldsObject(tree, cursor, filled);
      SetUp(s, Obj(filled));
      return true;
    }

    /** validRequires on the object under the cursor. */
    method RequiredPresent(ghost s: Schema) returns (ok: bool)
      requires schema.Some? && Rep(store.heap, schema.value, s)
      requires 0 <= cursor < |tree| && tree[cursor].data.Object?
      ensures ok == RequiresOk(s, tree[cursor].data.m.Keys)
    {
      var props, keys := store.heap[schema.value].props, tree[cursor].data.m.Keys;
      assert forall k <- props :: Rep(store.heap, props[k], s.props[k]);
      ok := forall k <- props :: PropertyOk(store.heap[props[k]].kw, k, keys);
    }

    /** The callback yajl makes for one event. The C++ asserts on the kind of
        the node under the cursor are checks here. */
    method Callback(e: Event) returns (ok: bool)
      requires Valid() && above < 0
      modifies this, store
      ensures Kept(old(store.heap), store.heap)
      ensures ok == Step(c, old(m), e).Machine?
      ensures ok ==> Valid() && m == Step(c, old(m), e)
    {
      hide Linked, Path, Rep, Holds, Frames, Kept;
      KeptSame(store.heap);
      if m.focus.Inside? { TopRep(tree, cursor, above, spine, m); }
      if cursor < 0 { return false; }
      match e {
        case EKey(k) =>
          if !tree[cursor].data.Object? { return false; }
          ok := ParseMapKey(k);
        case EEndMap =>
          if !tree[cursor].data.Object? { return false; }
          ok := ParseEndMap();
        case EEndArray =>
          if !tree[cursor].data.Array? { return false; }
          ok := ParseEndArray();
        case _ =>
          if tree[cursor].data.Object? { return false; }
          ok := ValueCallback(e);
      }
    }

    method ValueCallback(e: Event) returns (ok: bool)
      requires Valid() && TakesValue(m) && !e.EKey? && !e.EEndMap? && !e.EEndArray?
      modifies this, store
      ensures Kept(old(store.heap), store.heap)
      ensures ok == Step(c, old(m), e).Machine?
      ensures ok ==> Valid() && m == Step(c, old(m), e)
    {
      match e {
        case ENull => ok := ParseScalar(Some(Null));
        case EBool(b) => ok := ParseScalar(Some(Bool(b)));
        case ENum(t) => ok := ParseScalar(TokenValue(t));
        case EStr(s) => ok := ParseScalar(Some(Str(s)));
        case EStartMap => ok := ParseStartMap();
        case EStartArray => ok := ParseStartArray();
      }
    }

    /** yajl_parse: callbacks until the first failure. */
    method Drive(es: seq<Event>) returns (ok: bool)
      requires Valid() && above < 0
      modifies this, store
      ensures Kept(old(store.heap), store.heap)
      ensures ok == Run(c, old(m), es).Machine?
      ensures ok ==> Valid() && m == Run(c, old(m), es)
    {
      hide Kept;
      ghost var final := Run(c, m, es);
      assert es[0..] == es;
      KeptSame(store.heap);
      for i := 0 to |es|
        invariant Valid() && Run(c, m, es[i..]) == final
        invariant Kept(old(store.heap), store.heap)
      {
        assert es[i..][1..] == es[i + 1..];
        ghost var heap := store.heap;
        var good := Callback(es[i]);
        KeptThen(old(store.heap), heap, store.heap);
        if !good {
          FailedAbsorbs(c, es[i + 1..]);
          return false;
        }
      }
      return true;
    }
  }

  /** Json::Parser::parse on a whole document. The verdict is that of the
      recursive reading; on success the root node holds its value and both the
      tree's cursor and its parent chain are back above the root. */
  method ParseDocument(c: Checkers, d: Doc, st: Store, root: Option<nat>, ghost s: Option<Schema>)
    returns (ok: bool, ctx: Context)
    requires Linked(st.heap) && root.Some? == s.Some?
    requires root.Some? ==> Rep(st.heap, root.value, s.value)
    modifies st
    ensures fresh(ctx) && Kept(old(st.heap), st.heap)
    ensures ok == Stream(c, s, d).Some?
    ensures ok ==> ctx.cursor == ctx.above && ctx.spine == []
    ensures ok ==> Holds(ctx.tree, 0, |ctx.tree|, Stream(c, s, d).value)
  {
    ctx := new Context(c, st, root, -1, s);
    ParseIsStream(c, s, d);
    ok := ctx.Drive(Events(d));
  }

  /** A schema is parsed once and then used for every document: each parse finds
      it as the first one did, whether the parses before it succeeded or not. */
  method ParseAll(c: Checkers, ds: seq<Doc>, st: Store, root: nat, ghost s: Schema) returns (oks: seq<bool>)
    requires Linked(st.heap) && Rep(st.heap, root, s)
    modifies st
    ensures |oks| == |ds| && forall i | 0 <= i < |ds| :: oks[i] == Stream(c, Some(s), ds[i]).Some?
    ensures Kept(old(st.heap), st.heap)
  {
    oks := [];
    KeptSame(st.heap);
    for i := 0 to |ds|
      invariant |oks| == i && forall k | 0 <= k < i :: oks[k] == Stream(c, Some(s), ds[k]).Some?
      invariant Kept(old(st.heap), st.heap)
    {
      ghost var heap := st.heap;
      assert Rep(heap, root, s);
      var ok, ctx := ParseDocument(c, ds[i], st, Some(root), Some(s));
      KeptThen(old(st.heap), heap, st.heap);
      oks := oks + [ok];
    }
  }
}
