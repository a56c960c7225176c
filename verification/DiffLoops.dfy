// The loops of e2e/pkg/debug/diff.go, each proved to compute what the Diff module defines.
module DiffLoops {
  import opened Text
  import opened Diff

  // ---------------------------------------------------------------------------
  // diffOpcodes
  // ---------------------------------------------------------------------------

  lemma LcsAt(a: seq<string>, b: seq<string>, i: nat, j: nat)
    requires i < |a| && j < |b|
    ensures Lcs(a, b, i, j) == if a[i] == b[j] then Lcs(a, b, i + 1, j + 1) + 1
                               else Max(Lcs(a, b, i + 1, j), Lcs(a, b, i, j + 1))
  {
  }

  lemma LcsEnds(a: seq<string>, b: seq<string>, i: nat)
    requires i <= |a|
    ensures Lcs(a, b, i, |b|) == 0
  {
  }

  method FillRow(a: seq<string>, b: seq<string>, dp: array2<nat>, i: nat)
    requires dp.Length0 == |a| + 1 && dp.Length1 == |b| + 1
    requires i < |a| && (forall k, l :: i < k <= |a| && 0 <= l <= |b| ==> dp[k, l] == Lcs(a, b, k, l))
    requires forall k :: 0 <= k <= i ==> dp[k, |b|] == 0
    modifies dp
    ensures forall k, l :: i <= k <= |a| && 0 <= l <= |b| ==> dp[k, l] == Lcs(a, b, k, l)
    ensures forall k :: 0 <= k < i ==> dp[k, |b|] == 0
  {
    hide Lcs;
    LcsEnds(a, b, i);
    for j := |b| downto 0
      invariant forall k, l :: i < k <= |a| && 0 <= l <= |b| ==> dp[k, l] == Lcs(a, b, k, l)
      invariant forall l :: j <= l <= |b| ==> dp[i, l] == Lcs(a, b, i, l)
      invariant forall k :: 0 <= k < i ==> dp[k, |b|] == 0
    {
      LcsAt(a, b, i, j);
      if a[i] == b[j] {
        dp[i, j] := dp[i + 1, j + 1] + 1;
      } else if dp[i + 1, j] >= dp[i, j + 1] {
        dp[i, j] := dp[i + 1, j];
      } else {
        dp[i, j] := dp[i, j + 1];
      }
    }
  }

  method FillTable(a: seq<string>, b: seq<string>) returns (dp: array2<nat>)
    ensures fresh(dp) && dp.Length0 == |a| + 1 && dp.Length1 == |b| + 1
    ensures forall k, l :: 0 <= k <= |a| && 0 <= l <= |b| ==> dp[k, l] == Lcs(a, b, k, l)
  {
    var n, m := |a|, |b|;
    dp := new nat[n + 1, m + 1]((_, _) => 0);
    for i := n downto 0
      invariant forall k, l :: i <= k <= |a| && 0 <= l <= |b| ==> dp[k, l] == Lcs(a, b, k, l)
      invariant forall k :: 0 <= k < i ==> dp[k, m] == 0
    {
      FillRow(a, b, dp, i);
    }
  }

  lemma WalkStep(raw: seq<Opcode>, a: seq<string>, b: seq<string>, i: nat, j: nat)
    requires i <= |a| && j <= |b| && (i < |a| || j < |b|)
    ensures var op := NextOp(a, b, i, j); raw + [op] + Walk(a, b, op.i2, op.j2) == raw + Walk(a, b, i, j)
  {
  }

  lemma WalkEnds(a: seq<string>, b: seq<string>)
    ensures Walk(a, b, |a|, |b|) == []
  {
  }

  method WalkTable(a: seq<string>, b: seq<string>, dp: array2<nat>) returns (raw: seq<Opcode>)
    requires dp.Length0 == |a| + 1 && dp.Length1 == |b| + 1
    requires forall k, l :: 0 <= k <= |a| && 0 <= l <= |b| ==> dp[k, l] == Lcs(a, b, k, l)
    ensures raw == Walk(a, b, 0, 0)
  {
    hide Lcs, Walk;
    raw := [];
    assert raw + Walk(a, b, 0, 0) == Walk(a, b, 0, 0);
    var n, m := |a|, |b|;
    var i, j := 0, 0;
    while i < n && j < m
      invariant 0 <= i <= n && 0 <= j <= m
      invariant raw + Walk(a, b, i, j) == Walk(a, b, 0, 0)
      decreases n - i + m - j
    {
      WalkStep(raw, a, b, i, j);
      if a[i] == b[j] {
        raw := raw + [Opcode(Equal, i, i + 1, j, j + 1)];
        i, j := i + 1, j + 1;
      } else if dp[i + 1, j] >= dp[i, j + 1] {
        raw := raw + [Opcode(Delete, i, i + 1, j, j)];
        i := i + 1;
      } else {
        raw := raw + [Opcode(Insert, i, i, j, j + 1)];
        j := j + 1;
      }
    }
    while i < n
      invariant 0 <= i <= n && 0 <= j <= m && (i == n || j == m)
      invariant raw + Walk(a, b, i, j) == Walk(a, b, 0, 0)
    {
      WalkStep(raw, a, b, i, j);
      raw := raw + [Opcode(Delete, i, i + 1, j, j)];
      i := i + 1;
    }
    while j < m
      invariant i == n && 0 <= j <= m
      invariant raw + Walk(a, b, i, j) == Walk(a, b, 0, 0)
    {
      WalkStep(raw, a, b, i, j);
      raw := raw + [Opcode(Insert, i, i, j, j + 1)];
      j := j + 1;
    }
    WalkEnds(a, b);
    assert raw + [] == raw;
  }

  method MergeRuns(raw: seq<Opcode>) returns (merged: seq<Opcode>)
    requires raw != []
    ensures merged == Merge([], raw)
  {
    merged := [raw[0]];
    for k := 1 to |raw|
      invariant merged != []
      invariant Merge(merged, raw[k..]) == Merge([], raw)
    {
      var op, last := raw[k], merged[|merged| - 1];
      assert raw[k..][1..] == raw[k + 1..];
      if op.tag == last.tag {
        merged := merged[..|merged| - 1] + [last.(i2 := op.i2, j2 := op.j2)];
      } else {
        merged := merged + [op];
      }
    }
  }

  method FuseReplacements(merged: seq<Opcode>) returns (result: seq<Opcode>)
    ensures result == Fuse(merged)
  {
    result := [];
    var k := 0;
    while k < |merged|
      invariant 0 <= k <= |merged|
      invariant result + Fuse(merged[k..]) == Fuse(merged)
    {
      ghost var rest := merged[k..];
      var op;
      if k + 1 < |merged| && merged[k].tag == Delete && merged[k + 1].tag == Insert {
        op := Opcode(Replace, merged[k].i1, merged[k].i2, merged[k + 1].j1, merged[k + 1].j2);
        assert rest[2..] == merged[k + 2..];
        k := k + 1;
      } else {
        op := merged[k];
        assert rest[1..] == merged[k + 1..];
      }
      k := k + 1;
      assert Fuse(rest) == [op] + Fuse(merged[k..]);
      Assoc(result, [op], Fuse(merged[k..]));
      result := result + [op];
    }
  }

  method DiffOpcodes(a: seq<string>, b: seq<string>) returns (ops: seq<Opcode>)
    ensures ops == Opcodes(a, b)
  {
    var dp := FillTable(a, b);
    var raw := WalkTable(a, b, dp);
    if raw == [] {
      return [];
    }
    var merged := MergeRuns(raw);
    ops := FuseReplacements(merged);
  }

  // ---------------------------------------------------------------------------
  // UnifiedDiff
  // ---------------------------------------------------------------------------

  method GroupHunks(ops: seq<Opcode>) returns (groups: seq<seq<Opcode>>)
    ensures groups == Grouped([], ops)
  {
    groups := [];
    for k := 0 to |ops|
      invariant Grouped(groups, ops[k..]) == Grouped([], ops)
    {
      var op := ops[k];
      assert ops[k..][1..] == ops[k + 1..];
      if op.tag == Equal {
        continue;
      }
      ghost var was := groups;
      if |groups| == 0 {
        groups := groups + [[]];
      }
      var last := groups[|groups| - 1];
      if |last| > 0 {
        var prev := last[|last| - 1];
        var gap := op.i1 - prev.i2;
        if op.j1 - prev.j2 > gap {
          gap := op.j1 - prev.j2;
        }
        if gap > 0 {
          groups := groups + [[]];
          last := [];
        }
      }
      assert [] + [op] == [op];
      groups := groups[..|groups| - 1] + [last + [op]];
      assert groups == AddToGroups(was, op);
    }
  }

  method Emit(before: seq<OutLine>, op: Opcode, a: seq<string>, b: seq<string>) returns (out: seq<OutLine>)
    requires Sound(op, a, b) && op.tag != Equal
    ensures out == before + Removals(a[op.i1..op.i2]) + Additions(b[op.j1..op.j2])
  {
    out := before;
    if op.tag == Replace || op.tag == Delete {
      for i := op.i1 to op.i2
        invariant out == before + Removals(a[op.i1..i])
      {
        out := out + [Removed(a[i])];
      }
    }
    if op.tag == Replace || op.tag == Insert {
      for j := op.j1 to op.j2
        invariant out == before + Removals(a[op.i1..op.i2]) + Additions(b[op.j1..j])
      {
        out := out + [Added(b[j])];
      }
    }
  }

  lemma HunkJoins(before: seq<OutLine>, op: Opcode, a: seq<string>, b: seq<string>, path: string, prevPath: string)
    requires Sound(op, a, b)
    ensures before + Header(op, path, prevPath) + Removals(a[op.i1..op.i2]) + Additions(b[op.j1..op.j2])
         == before + Hunk(op, a, b, path, prevPath)
  {
    hide Removals, Additions, Header;
    var h, r, p := Header(op, path, prevPath), Removals(a[op.i1..op.i2]), Additions(b[op.j1..op.j2]);
    Assoc(before, h + r, p);
    Assoc(before, h, r);
  }

  // A hunk shows no context lines, so its output is its header and what its opcodes emit.
  method EmitHunk(
    before: seq<OutLine>, g: seq<Opcode>, a: seq<string>, b: seq<string>, path: string, prevPath: string)
    returns (out: seq<OutLine>)
    requires |g| == 1 && Sound(g[0], a, b) && g[0].tag != Equal
    ensures out == before + Hunk(g[0], a, b, path, prevPath)
  {
    out := before;
    var first, lastOp := g[0], g[|g| - 1];
    if path != "" && path != prevPath {
      out := out + [PathHeader(path)];
    } else if path == "" {
      out := out + [RangeHeader(first.i1 + 1, lastOp.i2 - first.i1, first.j1 + 1, lastOp.j2 - first.j1)];
    }
    assert out == before + Header(first, path, prevPath);
    HunkJoins(before, first, a, b, path, prevPath);
    hide Removals, Additions, Header, Hunk;
    for q := 0 to |g|
      invariant q == 0 ==> out == before + Header(first, path, prevPath)
      invariant q == 1 ==> out == before + Hunk(first, a, b, path, prevPath)
    {
      out := Emit(out, g[q], a, b);
    }
  }

  function Flat(groups: seq<seq<Opcode>>): seq<Opcode> {
    if groups == [] then [] else groups[0] + Flat(groups[1..])
  }

  lemma {:induction false} FlatSingletons(groups: seq<seq<Opcode>>)
    requires forall k :: 0 <= k < |groups| ==> |groups[k]| == 1
    ensures |Flat(groups)| == |groups| && forall k :: 0 <= k < |groups| ==> Flat(groups)[k] == groups[k][0]
  {
    if groups != [] {
      FlatSingletons(groups[1..]);
    }
  }

  lemma RenderedStep(
    out: seq<OutLine>, changes: seq<Opcode>, k: nat, a: seq<string>, b: seq<string>,
    path: nat -> string, prevPath: string)
    requires k < |changes|
    ensures out + Rendered(changes[k..], a, b, path, prevPath)
            == out + Hunk(changes[k], a, b, path(changes[k].j1), prevPath)
               + Rendered(changes[k + 1..], a, b, path, path(changes[k].j1))
  {
    assert changes[k..][1..] == changes[k + 1..];
  }

  /** `path(j)` is the breadcrumb of line `j` of `b`; it is "" when there is none. */
  method EmitHunks(groups: seq<seq<Opcode>>, a: seq<string>, b: seq<string>, path: nat -> string)
    returns (out: seq<OutLine>)
    requires forall k :: 0 <= k < |groups| ==>
               |groups[k]| == 1 && Sound(groups[k][0], a, b) && groups[k][0].tag != Equal
    ensures out == Rendered(Flat(groups), a, b, path, "")
  {
    out := [];
    ghost var changes := Flat(groups);
    FlatSingletons(groups);
    var prevPath := "";
    for k := 0 to |groups|
      invariant out + Rendered(changes[k..], a, b, path, prevPath) == Rendered(changes, a, b, path, "")
    {
      RenderedStep(out, changes, k, a, b, path, prevPath);
      var g := groups[k];
      var p := path(g[0].j1);
      out := EmitHunk(out, g, a, b, p, prevPath);
      prevPath := p;
    }
  }

  method UnifiedDiff(a: seq<string>, b: seq<string>, path: nat -> string) returns (out: seq<OutLine>)
    ensures out == Rendered(Changes(Opcodes(a, b)), a, b, path, "")
  {
    hide Opcodes, Changes, Grouped, Tiles, Sound, Alternates, Kept, Lcs, Flat;
    var ops := DiffOpcodes(a, b);
    OpcodesTile(a, b);
    ChangesAreSpaced(ops, a, b, 0, 0, |a|, |b|);
    assert [] + Changes(ops) == Changes(ops);
    GroupsAreSingletons([], [], ops);
    var groups := GroupHunks(ops);
    if groups == [] {
      return [];
    }
    forall k | 0 <= k < |Changes(ops)|
      ensures Sound(Changes(ops)[k], a, b) && Changes(ops)[k].tag != Equal
    {
      ChangesAreSound(ops, a, b, 0, 0, |a|, |b|, k);
    }
    FlatSingletons(groups);
    assert Flat(groups) == Changes(ops);
    out := EmitHunks(groups, a, b, path);
  }
}
