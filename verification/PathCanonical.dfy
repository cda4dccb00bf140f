/** Uri::canonicalize_path (gearbox/core/Uri.cc): the loop that erases segments
    in place against a stack fold, and what canonical paths look like. */
module PathCanonical {
  import opened Text

  /** boost::split at every slash. */
  function Split(s: string): (r: seq<string>)
    ensures |r| > 0
    decreases |s|
  {
    var i := Find(s, '/', 0);
    if i == |s| then [s] else [s[..i]] + Split(s[i + 1..])
  }

  /** One segment met by the fold. */
  function Push(stack: seq<string>, part: string): seq<string> {
    if part == "" || part == "." then stack
    else if part == ".." then (if stack == [] then [] else stack[..|stack| - 1])
    else stack + [part]
  }

  function Fold(stack: seq<string>, parts: seq<string>): seq<string>
    decreases |parts|
  {
    if parts == [] then stack else Fold(Push(stack, parts[0]), parts[1..])
  }

  /** Every segment after a slash. */
  function Render(parts: seq<string>): string {
    if parts == [] then "" else Render(parts[..|parts| - 1]) + "/" + parts[|parts| - 1]
  }

  predicate EndsInSlash(s: string) { s != "" && s[|s| - 1] == '/' }

  /** The reference: what the canonical form of a path is. */
  function Canonical(path: string): string {
    if path == "" then "/"
    else Render(Fold([], Split(path))) + (if EndsInSlash(path) then "/" else "")
  }

  // ---- the loop of the source ----------------------------------------------------

  function Erase(s: seq<string>, p: nat): seq<string>
    requires p < |s|
  {
    s[..p] + s[p + 1..]
  }

  /** Segments are erased while an iterator walks over what is kept. */
  method EraseParts(all: seq<string>) returns (parts: seq<string>)
    ensures parts == Fold([], all)
  {
    parts := all;
    var p := 0;
    assert parts[..0] == [] && parts[0..] == all;
    while p < |parts|
      invariant p <= |parts|
      invariant Fold(parts[..p], parts[p..]) == Fold([], all)
      decreases |parts| - p
    {
      ghost var kept, rest := parts[..p], parts[p + 1..];
      assert parts[p..][1..] == rest;
      var part := parts[p];
      if part == "" || part == "." {
        parts := Erase(parts, p);
        assert parts[..p] == kept && parts[p..] == rest;
      } else if part == ".." {
        parts := Erase(parts, p);
        assert parts[..p] == kept && parts[p..] == rest;
        if p != 0 {
          p := p - 1;
          parts := Erase(parts, p);
          assert parts[..p] == kept[..p] && parts[p..] == rest;
        }
      } else {
        p := p + 1;
        assert parts[..p] == kept + [part];
      }
    }
    assert parts[..p] == parts && parts[p..] == [];
  }

  method CanonicalizePath(path: string) returns (r: string)
    ensures r == Canonical(path)
  {
    if path == "" { return "/"; }
    var parts := EraseParts(Split(path));
    r := "";
    for i := 0 to |parts|
      invariant r == Render(parts[..i])
    {
      assert parts[..i + 1][..i] == parts[..i];
      r := r + "/" + parts[i];
    }
    assert parts[..|parts|] == parts;
    if path[|path| - 1] == '/' { r := r + "/"; }
  }

  // ---- what the result looks like ------------------------------------------------

  predicate Ordinary(part: string) { part != "" && part != "." && part != ".." && '/' !in part }

  predicate AllOrdinary(parts: seq<string>) { forall i | 0 <= i < |parts| :: Ordinary(parts[i]) }

  lemma {:induction false} SplitHasNoSlash(s: string)
    ensures forall i | 0 <= i < |Split(s)| :: '/' !in Split(s)[i]
    decreases |s|
  {
    var i := Find(s, '/', 0);
    if i < |s| { SplitHasNoSlash(s[i + 1..]); }
  }

  lemma {:induction false} FoldIsOrdinary(stack: seq<string>, parts: seq<string>)
    requires AllOrdinary(stack) && forall i | 0 <= i < |parts| :: '/' !in parts[i]
    ensures AllOrdinary(Fold(stack, parts))
    decreases |parts|
  {
    if parts != [] { FoldIsOrdinary(Push(stack, parts[0]), parts[1..]); }
  }

  /** Folding ordinary segments only appends them. */
  lemma {:induction false} FoldAppends(stack: seq<string>, parts: seq<string>)
    requires AllOrdinary(parts)
    ensures Fold(stack, parts) == stack + parts
    decreases |parts|
  {
    if parts != [] {
      FoldAppends(Push(stack, parts[0]), parts[1..]);
      assert stack + [parts[0]] + parts[1..] == stack + parts;
    }
  }

  lemma {:induction false} FoldThen(stack: seq<string>, a: seq<string>, b: seq<string>)
    ensures Fold(stack, a + b) == Fold(Fold(stack, a), b)
    decreases |a|
  {
    if a == [] {
      assert a + b == b;
    } else {
      assert (a + b)[1..] == a[1..] + b;
      FoldThen(Push(stack, a[0]), a[1..], b);
    }
  }

  /** Splitting at a slash splits both sides. */
  lemma {:induction false} SplitAt(a: string, b: string)
    ensures Split(a + "/" + b) == Split(a) + Split(b)
    decreases |a|
  {
    var s := a + "/" + b;
    var i := Find(a, '/', 0);
    assert forall k | 0 <= k < |a| :: s[k] == a[k];
    FindAt(s, '/', 0, i);
    if i == |a| {
      assert s[..i] == a && s[i + 1..] == b;
    } else {
      assert s[..i] == a[..i] && s[i + 1..] == a[i + 1..] + "/" + b;
      SplitAt(a[i + 1..], b);
      assert [a[..i]] + Split(a[i + 1..]) + Split(b) == [a[..i]] + (Split(a[i + 1..]) + Split(b));
    }
  }

  lemma SplitSlashFree(s: string)
    requires '/' !in s
    ensures Split(s) == [s]
  {
  }

  lemma {:induction false} SplitRender(parts: seq<string>)
    requires AllOrdinary(parts)
    ensures Split(Render(parts)) == [""] + parts
  {
    if parts == [] {
      SplitSlashFree("");
    } else {
      var most, last := parts[..|parts| - 1], parts[|parts| - 1];
      SplitRender(most);
      SplitAt(Render(most), last);
      SplitSlashFree(last);
      assert [""] + most + [last] == [""] + parts;
    }
  }

  /** The segments of a path. */
  function Segments(path: string): (r: seq<string>)
    ensures AllOrdinary(r)
  {
    SplitHasNoSlash(path);
    FoldIsOrdinary([], Split(path));
    Fold([], Split(path))
  }

  /** What splitting a canonical path shows: an empty segment before the first
      slash, ordinary segments, and one more empty segment after a final slash. */
  lemma SplitCanonical(path: string)
    requires path != ""
    ensures Split(Canonical(path)) == [""] + Segments(path) + (if EndsInSlash(path) then [""] else [])
  {
    var parts := Segments(path);
    SplitRender(parts);
    if EndsInSlash(path) {
      SplitAt(Render(parts), "");
      SplitSlashFree("");
      assert Render(parts) + "/" + "" == Render(parts) + "/";
    } else {
      assert Render(parts) + "" == Render(parts);
      assert [""] + parts + [] == [""] + parts;
    }
  }

  lemma RenderEnds(parts: seq<string>)
    requires AllOrdinary(parts)
    ensures !EndsInSlash(Render(parts))
    ensures Render(parts) == "" <==> parts == []
  {
    if parts != [] {
      var last := parts[|parts| - 1];
      assert Render(parts)[|Render(parts)| - 1] == last[|last| - 1];
    }
  }

  /** A final slash is kept, and one is added for the empty path only. */
  lemma FinalSlash(path: string)
    ensures EndsInSlash(Canonical(path)) <==> path == "" || EndsInSlash(path)
  {
    if path != "" { RenderEnds(Segments(path)); }
  }

  /** No segment of a canonical path is "." or "..", and none is empty but the
      first and a final one. */
  lemma CanonicalSegments(path: string, i: nat)
    requires i < |Split(Canonical(path))|
    ensures var part := Split(Canonical(path))[i];
      && part != "." && part != ".."
      && (part == "" ==> i == 0 || i == |Split(Canonical(path))| - 1)
  {
    if path == "" {
      SplitAt("", "");
      SplitSlashFree("");
      assert "" + "/" + "" == "/";
    } else {
      SplitCanonical(path);
      assert AllOrdinary(Segments(path));
    }
  }

  /** Canonicalising twice changes something only where the first pass left
      nothing, as it does for "a/..". */
  lemma FixedPoint(path: string)
    ensures Canonical(Canonical(path)) == Canonical(path) <==> Canonical(path) != ""
    ensures Canonical(path) == "" <==> path != "" && !EndsInSlash(path) && Segments(path) == []
  {
    FinalSlash(path);
    if path == "" {
      SplitAt("", "");
      SplitSlashFree("");
      assert "" + "/" + "" == "/";
      assert Fold([], ["", ""]) == [] by { assert ["", ""][1..] == [""] && [""][1..] == []; }
    } else {
      var parts := Segments(path);
      RenderEnds(parts);
      SplitCanonical(path);
      var tail: seq<string> := if EndsInSlash(path) then [""] else [];
      FoldThen([], [""] + parts, tail);
      FoldThen([], [""], parts);
      assert Fold([], [""]) == [];
      FoldAppends([], parts);
      assert [] + parts == parts;
      assert Fold(parts, tail) == parts;
    }
  }

  /** What another segment does to a path: an empty one and "." nothing, ".." takes
      the last segment away, and any other is appended. */
  lemma OneMoreSegment(path: string, part: string)
    requires '/' !in part
    ensures var before, after := Segments(path), Segments(path + "/" + part);
      && (part == "" || part == "." ==> after == before)
      && (part == ".." ==> after == if before == [] then [] else before[..|before| - 1])
      && (Ordinary(part) ==> after == before + [part])
  {
    SplitAt(path, part);
    SplitSlashFree(part);
    FoldThen([], Split(path), [part]);
    assert [part][1..] == [];
    assert Fold(Segments(path), [part]) == Push(Segments(path), part);
  }

  /** A path without a slash. */
  lemma OneSegment(part: string)
    requires '/' !in part
    ensures Segments(part) == if Ordinary(part) then [part] else []
  {
    SplitSlashFree(part);
    assert [part][1..] == [];
    assert Fold([], [part]) == Push([], part);
  }

  lemma ParentOfOneSegmentIsEmpty()
    ensures Canonical("a/..") == "" && Canonical("") == "/"
  {
    SplitAt("a", "..");
    assert "a" + "/" + ".." == "a/..";
    SplitSlashFree("a");
    SplitSlashFree("..");
    assert ["a", ".."][1..] == [".."] && [".."][1..] == [];
    assert Push([], "a") == ["a"];
    assert Push(["a"], "..") == [];
    assert Fold([], ["a", ".."]) == Fold(["a"], [".."]);
  }
}
