// Line diff between two printed objects (e2e/pkg/debug/diff.go).
//
// The source fills a table of longest-common-subsequence lengths, walks it into
// single-line opcodes, merges runs, fuses a deletion followed by an insertion
// into a replacement, and groups what is left into hunks. `Opcodes` and `Hunks`
// give the value each phase computes; the loops of the source are in DiffLoops.
module Diff {
  import opened Text

  datatype Tag = Equal | Replace | Insert | Delete

  datatype Opcode = Opcode(tag: Tag, i1: nat, i2: nat, j1: nat, j2: nat)

  // ---------------------------------------------------------------------------
  // Longest common subsequence of two suffixes
  // ---------------------------------------------------------------------------

  function Max(x: nat, y: nat): nat { if x >= y then x else y }

  function Lcs(a: seq<string>, b: seq<string>, i: nat, j: nat): nat
    requires i <= |a| && j <= |b|
    decreases |a| - i + |b| - j
  {
    if i == |a| || j == |b| then 0
    else if a[i] == b[j] then Lcs(a, b, i + 1, j + 1) + 1
    else Max(Lcs(a, b, i + 1, j), Lcs(a, b, i, j + 1))
  }

  /** `f` lists, in increasing order, positions of `a` from `lo` on that spell out `s`. */
  ghost predicate Embeds(s: seq<string>, a: seq<string>, f: seq<nat>, lo: nat) {
    && |f| == |s|
    && (forall k :: 0 <= k < |f| ==> lo <= f[k] < |a| && a[f[k]] == s[k])
    && (forall k, l :: 0 <= k < l < |f| ==> f[k] < f[l])
  }

  ghost predicate CommonSubsequence(s: seq<string>, a: seq<string>, b: seq<string>) {
    (exists f :: Embeds(s, a, f, 0)) && (exists g :: Embeds(s, b, g, 0))
  }

  lemma EmbedTail(s: seq<string>, a: seq<string>, f: seq<nat>, lo: nat)
    requires Embeds(s, a, f, lo) && s != []
    ensures Embeds(s[1..], a, f[1..], lo + 1)
  {
    assert forall k :: 0 < k < |f| ==> f[0] < f[k];
  }

  lemma {:induction false} LcsIsUpperBound(
    a: seq<string>, b: seq<string>, i: nat, j: nat, s: seq<string>, f: seq<nat>, g: seq<nat>)
    requires i <= |a| && j <= |b|
    requires Embeds(s, a, f, i) && Embeds(s, b, g, j)
    ensures |s| <= Lcs(a, b, i, j)
    decreases |a| - i + |b| - j
  {
    if s != [] {
      assert i <= f[0] < |a| && j <= g[0] < |b|;
      EmbedTail(s, a, f, i);
      EmbedTail(s, b, g, j);
      if a[i] == b[j] {
        LcsIsUpperBound(a, b, i + 1, j + 1, s[1..], f[1..], g[1..]);
      } else if f[0] > i {
        LcsIsUpperBound(a, b, i + 1, j, s, f, g);
      } else {
        LcsIsUpperBound(a, b, i, j + 1, s, f, g);
      }
    }
  }

  // ---------------------------------------------------------------------------
  // The opcodes as a value
  // ---------------------------------------------------------------------------

  /** The single-line step the walk takes at (i, j). */
  function NextOp(a: seq<string>, b: seq<string>, i: nat, j: nat): Opcode
    requires i <= |a| && j <= |b| && (i < |a| || j < |b|)
  {
    if i < |a| && j < |b| && a[i] == b[j] then Opcode(Equal, i, i + 1, j, j + 1)
    else if i < |a| && (j == |b| || Lcs(a, b, i + 1, j) >= Lcs(a, b, i, j + 1)) then Opcode(Delete, i, i + 1, j, j)
    else Opcode(Insert, i, i, j, j + 1)
  }

  function Walk(a: seq<string>, b: seq<string>, i: nat, j: nat): seq<Opcode>
    requires i <= |a| && j <= |b|
    decreases |a| - i + |b| - j
  {
    if i == |a| && j == |b| then []
    else
      var op := NextOp(a, b, i, j);
      [op] + Walk(a, b, op.i2, op.j2)
  }

  /** Folds `ops` into `merged`, stretching the last opcode while the tag repeats. */
  function Merge(merged: seq<Opcode>, ops: seq<Opcode>): seq<Opcode>
    decreases |ops|
  {
    if ops == [] then merged
    else if merged != [] && ops[0].tag == merged[|merged| - 1].tag then
      var last := merged[|merged| - 1];
      Merge(merged[..|merged| - 1] + [last.(i2 := ops[0].i2, j2 := ops[0].j2)], ops[1..])
    else Merge(merged + [ops[0]], ops[1..])
  }

  function Fuse(ops: seq<Opcode>): seq<Opcode> {
    if ops == [] then []
    else if |ops| > 1 && ops[0].tag == Delete && ops[1].tag == Insert then
      [Opcode(Replace, ops[0].i1, ops[0].i2, ops[1].j1, ops[1].j2)] + Fuse(ops[2..])
    else [ops[0]] + Fuse(ops[1..])
  }

  function Opcodes(a: seq<string>, b: seq<string>): seq<Opcode> {
    Fuse(Merge([], Walk(a, b, 0, 0)))
  }

  // ---------------------------------------------------------------------------
  // What an opcode list means
  // ---------------------------------------------------------------------------

  /** The opcode describes a true fact about `a` and `b`, and covers at least one line. */
  ghost predicate Sound(op: Opcode, a: seq<string>, b: seq<string>) {
    && op.i1 <= op.i2 <= |a|
    && op.j1 <= op.j2 <= |b|
    && (op.tag == Equal ==> op.i1 < op.i2 && a[op.i1..op.i2] == b[op.j1..op.j2])
    && (op.tag == Delete ==> op.i1 < op.i2 && op.j1 == op.j2)
    && (op.tag == Insert ==> op.i1 == op.i2 && op.j1 < op.j2)
    && (op.tag == Replace ==> op.i1 < op.i2 && op.j1 < op.j2)
  }

  /** The opcodes are sound and run contiguously from (i, j) to (i', j'). */
  ghost predicate Tiles(ops: seq<Opcode>, a: seq<string>, b: seq<string>, i: nat, j: nat, i': nat, j': nat) {
    if ops == [] then i == i' && j == j'
    else
      && ops[0].i1 == i && ops[0].j1 == j && Sound(ops[0], a, b)
      && Tiles(ops[1..], a, b, ops[0].i2, ops[0].j2, i', j')
  }

  /** Number of lines the opcodes keep. */
  function Kept(ops: seq<Opcode>): int {
    if ops == [] then 0
    else (if ops[0].tag == Equal then ops[0].i2 - ops[0].i1 else 0) + Kept(ops[1..])
  }

  /** Rebuilds the new text: kept ranges come from the old text, the rest from `patch`. */
  function Replay(ops: seq<Opcode>, from: seq<string>, patch: seq<string>): seq<string> {
    if ops == [] then []
    else
      var op := ops[0];
      (if op.tag == Equal then
         (if op.i1 <= op.i2 <= |from| then from[op.i1..op.i2] else [])
       else
         (if op.j1 <= op.j2 <= |patch| then patch[op.j1..op.j2] else []))
      + Replay(ops[1..], from, patch)
  }

  function Inverse(op: Opcode): Opcode {
    var tag := match op.tag case Insert => Delete case Delete => Insert case t => t;
    Opcode(tag, op.j1, op.j2, op.i1, op.i2)
  }

  function InverseAll(ops: seq<Opcode>): seq<Opcode> {
    if ops == [] then [] else [Inverse(ops[0])] + InverseAll(ops[1..])
  }

  /** Kept ranges and changes strictly alternate. */
  ghost predicate Alternates(ops: seq<Opcode>) {
    forall k :: 0 <= k < |ops| - 1 ==> (ops[k].tag == Equal <==> ops[k + 1].tag != Equal)
  }

  /** Adjacent tags that can follow each other before fusion: no repeats, no insertion before a deletion. */
  predicate Follows(p: Tag, q: Tag) {
    p != q && !(p == Insert && q == Delete) && p != Replace && q != Replace
  }

  ghost predicate Linked(ops: seq<Opcode>) {
    && (forall k :: 0 <= k < |ops| ==> ops[k].tag != Replace)
    && (forall k :: 0 <= k < |ops| - 1 ==> Follows(ops[k].tag, ops[k + 1].tag))
  }

  ghost predicate DeletesFirst(ops: seq<Opcode>) {
    && (forall k :: 0 <= k < |ops| ==> ops[k].tag != Replace)
    && (forall k :: 0 <= k < |ops| - 1 ==> !(ops[k].tag == Insert && ops[k + 1].tag == Delete))
  }

  // ---------------------------------------------------------------------------
  // Each phase keeps the meaning
  // ---------------------------------------------------------------------------

  lemma TilesCons(op: Opcode, ops: seq<Opcode>, a: seq<string>, b: seq<string>, i': nat, j': nat)
    requires Sound(op, a, b) && Tiles(ops, a, b, op.i2, op.j2, i', j')
    ensures Tiles([op] + ops, a, b, op.i1, op.j1, i', j')
    ensures Kept([op] + ops) == (if op.tag == Equal then op.i2 - op.i1 else 0) + Kept(ops)
  {
    assert ([op] + ops)[1..] == ops;
  }

  lemma NextOpIsSound(a: seq<string>, b: seq<string>, i: nat, j: nat)
    requires i <= |a| && j <= |b| && (i < |a| || j < |b|)
    ensures var op := NextOp(a, b, i, j);
            Sound(op, a, b) && Lcs(a, b, i, j) == (if op.tag == Equal then 1 else 0) + Lcs(a, b, op.i2, op.j2)
  {
  }

  lemma {:induction false} WalkTiles(a: seq<string>, b: seq<string>, i: nat, j: nat)
    requires i <= |a| && j <= |b|
    ensures Tiles(Walk(a, b, i, j), a, b, i, j, |a|, |b|)
    ensures Kept(Walk(a, b, i, j)) == Lcs(a, b, i, j)
    decreases |a| - i + |b| - j
  {
    if i < |a| || j < |b| {
      var op := NextOp(a, b, i, j);
      NextOpIsSound(a, b, i, j);
      WalkTiles(a, b, op.i2, op.j2);
      TilesCons(op, Walk(a, b, op.i2, op.j2), a, b, |a|, |b|);
    }
  }

  lemma {:induction false} LcsSteps(a: seq<string>, b: seq<string>, i: nat, j: nat)
    requires i <= |a| && j <= |b|
    ensures i < |a| ==> Lcs(a, b, i + 1, j) <= Lcs(a, b, i, j) <= Lcs(a, b, i + 1, j) + 1
    ensures j < |b| ==> Lcs(a, b, i, j + 1) <= Lcs(a, b, i, j) <= Lcs(a, b, i, j + 1) + 1
    decreases |a| - i + |b| - j
  {
    if i < |a| && j < |b| {
      LcsSteps(a, b, i + 1, j + 1);
      LcsSteps(a, b, i + 1, j);
      LcsSteps(a, b, i, j + 1);
    }
  }

  // The tie-breaking of the walk never inserts right before a deletion: the table
  // would have preferred the deletion one step earlier.
  lemma NoDeleteAfterInsert(a: seq<string>, b: seq<string>, i: nat, j: nat)
    requires i < |a| && j < |b| && NextOp(a, b, i, j).tag == Insert
    ensures NextOp(a, b, i, j + 1).tag != Delete
  {
    LcsSteps(a, b, i + 1, j);
    NextOpIsSound(a, b, i, j);
    NextOpIsSound(a, b, i, j + 1);
  }

  lemma DeletesFirstCons(op: Opcode, ops: seq<Opcode>)
    requires DeletesFirst(ops) && op.tag != Replace
    requires ops != [] ==> !(op.tag == Insert && ops[0].tag == Delete)
    ensures DeletesFirst([op] + ops)
  {
  }

  lemma {:induction false} WalkDeletesFirst(a: seq<string>, b: seq<string>, i: nat, j: nat)
    requires i <= |a| && j <= |b|
    ensures DeletesFirst(Walk(a, b, i, j))
    decreases |a| - i + |b| - j
  {
    if i < |a| || j < |b| {
      var op := NextOp(a, b, i, j);
      WalkDeletesFirst(a, b, op.i2, op.j2);
      if op.tag == Insert && i < |a| {
        NoDeleteAfterInsert(a, b, i, j);
      }
      DeletesFirstCons(op, Walk(a, b, op.i2, op.j2));
    }
  }

  lemma {:induction false} TilesConcat(
    p: seq<Opcode>, q: seq<Opcode>, a: seq<string>, b: seq<string>,
    i: nat, j: nat, i': nat, j': nat, i'': nat, j'': nat)
    requires Tiles(p, a, b, i, j, i', j') && Tiles(q, a, b, i', j', i'', j'')
    ensures Tiles(p + q, a, b, i, j, i'', j'')
    ensures Kept(p + q) == Kept(p) + Kept(q)
  {
    if p == [] {
      assert p + q == q;
    } else {
      assert (p + q)[1..] == p[1..] + q;
      TilesConcat(p[1..], q, a, b, p[0].i2, p[0].j2, i', j', i'', j'');
    }
  }

  lemma {:induction false} TilesSplitLast(
    ops: seq<Opcode>, a: seq<string>, b: seq<string>, i: nat, j: nat, i': nat, j': nat)
    requires ops != [] && Tiles(ops, a, b, i, j, i', j')
    ensures var last := ops[|ops| - 1];
            && Sound(last, a, b) && last.i2 == i' && last.j2 == j'
            && Tiles(ops[..|ops| - 1], a, b, i, j, last.i1, last.j1)
  {
    if |ops| > 1 {
      TilesSplitLast(ops[1..], a, b, ops[0].i2, ops[0].j2, i', j');
      assert ops[1..][..|ops| - 2] == ops[..|ops| - 1][1..];
    }
  }

  lemma StretchIsSound(p: Opcode, q: Opcode, a: seq<string>, b: seq<string>)
    requires Sound(p, a, b) && Sound(q, a, b)
    requires p.tag == q.tag && q.i1 == p.i2 && q.j1 == p.j2
    ensures Sound(p.(i2 := q.i2, j2 := q.j2), a, b)
  {
    if p.tag == Equal {
      assert a[p.i1..q.i2] == a[p.i1..p.i2] + a[q.i1..q.i2];
      assert b[p.j1..q.j2] == b[p.j1..p.j2] + b[q.j1..q.j2];
    }
  }

  lemma {:induction false} MergeTiles(
    merged: seq<Opcode>, ops: seq<Opcode>, a: seq<string>, b: seq<string>,
    i: nat, j: nat, i': nat, j': nat, i'': nat, j'': nat)
    requires Tiles(merged, a, b, i, j, i', j') && Tiles(ops, a, b, i', j', i'', j'')
    ensures Tiles(Merge(merged, ops), a, b, i, j, i'', j'')
    ensures Kept(Merge(merged, ops)) == Kept(merged) + Kept(ops)
    decreases |ops|
  {
    if ops != [] {
      var op := ops[0];
      if merged != [] && op.tag == merged[|merged| - 1].tag {
        var init, last := merged[..|merged| - 1], merged[|merged| - 1];
        var longer := last.(i2 := op.i2, j2 := op.j2);
        TilesSplitLast(merged, a, b, i, j, i', j');
        StretchIsSound(last, op, a, b);
        assert merged == init + [last];
        TilesConcat(init, [last], a, b, i, j, last.i1, last.j1, i', j');
        TilesConcat(init, [longer], a, b, i, j, last.i1, last.j1, op.i2, op.j2);
        MergeTiles(init + [longer], ops[1..], a, b, i, j, op.i2, op.j2, i'', j'');
      } else {
        TilesConcat(merged, [op], a, b, i, j, i', j', op.i2, op.j2);
        MergeTiles(merged + [op], ops[1..], a, b, i, j, op.i2, op.j2, i'', j'');
      }
    }
  }

  lemma {:induction false} MergeLinks(merged: seq<Opcode>, ops: seq<Opcode>)
    requires Linked(merged) && DeletesFirst(ops)
    requires merged != [] && ops != [] ==> !(merged[|merged| - 1].tag == Insert && ops[0].tag == Delete)
    ensures Linked(Merge(merged, ops))
    decreases |ops|
  {
    if ops != [] {
      if merged != [] && ops[0].tag == merged[|merged| - 1].tag {
        var last := merged[|merged| - 1];
        MergeLinks(merged[..|merged| - 1] + [last.(i2 := ops[0].i2, j2 := ops[0].j2)], ops[1..]);
      } else {
        MergeLinks(merged + [ops[0]], ops[1..]);
      }
    }
  }

  lemma {:induction false} FuseTiles(
    ops: seq<Opcode>, a: seq<string>, b: seq<string>, i: nat, j: nat, i': nat, j': nat)
    requires Tiles(ops, a, b, i, j, i', j')
    ensures Tiles(Fuse(ops), a, b, i, j, i', j')
    ensures Kept(Fuse(ops)) == Kept(ops)
    decreases |ops|
  {
    if |ops| > 1 && ops[0].tag == Delete && ops[1].tag == Insert {
      assert ops[1..][1..] == ops[2..];
      assert Tiles(ops[1..], a, b, ops[0].i2, ops[0].j2, i', j');
      FuseTiles(ops[2..], a, b, ops[1].i2, ops[1].j2, i', j');
    } else if ops != [] {
      FuseTiles(ops[1..], a, b, ops[0].i2, ops[0].j2, i', j');
    }
  }

  lemma {:induction false} FuseAlternates(ops: seq<Opcode>)
    requires Linked(ops)
    ensures Alternates(Fuse(ops))
    ensures ops == [] <==> Fuse(ops) == []
    ensures ops != [] ==> (ops[0].tag == Equal <==> Fuse(ops)[0].tag == Equal)
    decreases |ops|
  {
    if ops != [] {
      var n := if |ops| > 1 && ops[0].tag == Delete && ops[1].tag == Insert then 2 else 1;
      FuseAlternates(ops[n..]);
      assert Fuse(ops)[1..] == Fuse(ops[n..]);
      assert n < |ops| ==> Follows(ops[n - 1].tag, ops[n].tag);
    }
  }

  // ---------------------------------------------------------------------------
  // Main results about the opcodes
  // ---------------------------------------------------------------------------

  lemma OpcodesTile(a: seq<string>, b: seq<string>)
    ensures Tiles(Opcodes(a, b), a, b, 0, 0, |a|, |b|)
    ensures Kept(Opcodes(a, b)) == Lcs(a, b, 0, 0)
    ensures Alternates(Opcodes(a, b))
  {
    var raw := Walk(a, b, 0, 0);
    var merged := Merge([], raw);
    WalkTiles(a, b, 0, 0);
    MergeTiles([], raw, a, b, 0, 0, 0, 0, |a|, |b|);
    FuseTiles(merged, a, b, 0, 0, |a|, |b|);
    WalkDeletesFirst(a, b, 0, 0);
    MergeLinks([], raw);
    FuseAlternates(merged);
  }

  function Range(lo: nat, hi: nat): seq<nat>
    requires lo <= hi
  {
    seq(hi - lo, k requires 0 <= k < hi - lo => lo + k)
  }

  function KeptLines(ops: seq<Opcode>, a: seq<string>): seq<string> {
    if ops == [] then []
    else
      (if ops[0].tag == Equal && ops[0].i1 <= ops[0].i2 <= |a| then a[ops[0].i1..ops[0].i2] else [])
      + KeptLines(ops[1..], a)
  }

  lemma EmbedsPrepend(s: seq<string>, a: seq<string>, f: seq<nat>, lo: nat, mid: nat)
    requires lo <= mid <= |a| && Embeds(s, a, f, mid)
    ensures Embeds(a[lo..mid] + s, a, Range(lo, mid) + f, lo)
  {
  }

  lemma EmbedsWeaken(s: seq<string>, a: seq<string>, f: seq<nat>, lo: nat, mid: nat)
    requires lo <= mid && Embeds(s, a, f, mid)
    ensures Embeds(s, a, f, lo)
  {
  }

  lemma {:induction false} KeptLinesEmbed(
    ops: seq<Opcode>, a: seq<string>, b: seq<string>, i: nat, j: nat, i': nat, j': nat)
    returns (f: seq<nat>, g: seq<nat>)
    requires Tiles(ops, a, b, i, j, i', j')
    ensures Embeds(KeptLines(ops, a), a, f, i) && Embeds(KeptLines(ops, a), b, g, j)
    ensures |KeptLines(ops, a)| == Kept(ops)
  {
    if ops == [] {
      f, g := [], [];
    } else {
      var op, rest := ops[0], KeptLines(ops[1..], a);
      f, g := KeptLinesEmbed(ops[1..], a, b, op.i2, op.j2, i', j');
      if op.tag == Equal {
        EmbedsPrepend(rest, a, f, op.i1, op.i2);
        EmbedsPrepend(rest, b, g, op.j1, op.j2);
        f, g := Range(op.i1, op.i2) + f, Range(op.j1, op.j2) + g;
      } else {
        assert KeptLines(ops, a) == [] + rest == rest;
        EmbedsWeaken(rest, a, f, i, op.i2);
        EmbedsWeaken(rest, b, g, j, op.j2);
      }
    }
  }

  /** The opcodes keep as many lines as the longest common subsequence has. */
  lemma OpcodesAreOptimal(a: seq<string>, b: seq<string>)
    ensures CommonSubsequence(KeptLines(Opcodes(a, b), a), a, b)
    ensures |KeptLines(Opcodes(a, b), a)| == Kept(Opcodes(a, b))
    ensures forall s :: CommonSubsequence(s, a, b) ==> |s| <= Kept(Opcodes(a, b))
  {
    OpcodesTile(a, b);
    var _, _ := KeptLinesEmbed(Opcodes(a, b), a, b, 0, 0, |a|, |b|);
    forall s | CommonSubsequence(s, a, b) ensures |s| <= Lcs(a, b, 0, 0) {
      var f :| Embeds(s, a, f, 0);
      var g :| Embeds(s, b, g, 0);
      LcsIsUpperBound(a, b, 0, 0, s, f, g);
    }
  }

  lemma {:induction false} TilesReplay(
    ops: seq<Opcode>, a: seq<string>, b: seq<string>, i: nat, j: nat, i': nat, j': nat)
    requires Tiles(ops, a, b, i, j, i', j')
    ensures i <= i' && j <= j' && (ops != [] ==> i' <= |a| && j' <= |b|)
    ensures ops != [] ==> Replay(ops, a, b) == b[j..j']
    ensures ops != [] ==> Replay(InverseAll(ops), b, a) == a[i..i']
  {
    if ops != [] {
      var op := ops[0];
      TilesReplay(ops[1..], a, b, op.i2, op.j2, i', j');
      assert InverseAll(ops)[1..] == InverseAll(ops[1..]);
      assert b[j..j'] == b[j..op.j2] + b[op.j2..j'];
      assert a[i..i'] == a[i..op.i2] + a[op.i2..i'];
    }
  }

  /** Replaying the opcodes turns `a` into `b`; replaying their inverses turns `b` into `a`. */
  lemma OpcodesReplay(a: seq<string>, b: seq<string>)
    ensures Replay(Opcodes(a, b), a, b) == b
    ensures Replay(InverseAll(Opcodes(a, b)), b, a) == a
  {
    OpcodesTile(a, b);
    TilesReplay(Opcodes(a, b), a, b, 0, 0, |a|, |b|);
  }

  // ---------------------------------------------------------------------------
  // The report
  // ---------------------------------------------------------------------------

  /** One output line; the constructor stands for the leading mark of the printed line. */
  datatype OutLine =
    | PathHeader(path: string)
    | RangeHeader(i: int, di: int, j: int, dj: int)
    | Context(text: string)
    | Removed(text: string)
    | Added(text: string)

  function Changes(ops: seq<Opcode>): seq<Opcode> {
    if ops == [] then []
    else (if ops[0].tag == Equal then [] else [ops[0]]) + Changes(ops[1..])
  }

  /** Lines of `a` outside every kept range, in order. */
  function DroppedLines(ops: seq<Opcode>, a: seq<string>): seq<string> {
    if ops == [] then []
    else
      (if ops[0].tag != Equal && ops[0].i1 <= ops[0].i2 <= |a| then a[ops[0].i1..ops[0].i2] else [])
      + DroppedLines(ops[1..], a)
  }

  /** Lines of `b` outside every kept range, in order. */
  function NewLines(ops: seq<Opcode>, b: seq<string>): seq<string> {
    if ops == [] then []
    else
      (if ops[0].tag != Equal && ops[0].j1 <= ops[0].j2 <= |b| then b[ops[0].j1..ops[0].j2] else [])
      + NewLines(ops[1..], b)
  }

  function Removals(s: seq<string>): (r: seq<OutLine>)
    ensures |r| == |s| && forall k :: 0 <= k < |s| ==> r[k] == Removed(s[k])
  {
    seq(|s|, k requires 0 <= k < |s| => Removed(s[k]))
  }

  function Additions(s: seq<string>): (r: seq<OutLine>)
    ensures |r| == |s| && forall k :: 0 <= k < |s| ==> r[k] == Added(s[k])
  {
    seq(|s|, k requires 0 <= k < |s| => Added(s[k]))
  }

  /** Texts of the removed (or, with `added`, of the added) lines of a report. */
  function Texts(out: seq<OutLine>, added: bool): seq<string> {
    if out == [] then []
    else if (if added then out[0].Added? else out[0].Removed?) then [out[0].text] + Texts(out[1..], added)
    else Texts(out[1..], added)
  }

  function Header(op: Opcode, path: string, prevPath: string): seq<OutLine> {
    if path != "" && path != prevPath then [PathHeader(path)]
    else if path == "" then [RangeHeader(op.i1 + 1, op.i2 - op.i1, op.j1 + 1, op.j2 - op.j1)]
    else []
  }

  function Slice(s: seq<string>, lo: nat, hi: nat): seq<string> {
    if lo <= hi <= |s| then s[lo..hi] else []
  }

  function Hunk(op: Opcode, a: seq<string>, b: seq<string>, path: string, prevPath: string): seq<OutLine> {
    Header(op, path, prevPath) + Removals(Slice(a, op.i1, op.i2)) + Additions(Slice(b, op.j1, op.j2))
  }

  function Rendered(
    changes: seq<Opcode>, a: seq<string>, b: seq<string>, path: nat -> string, prevPath: string): seq<OutLine>
  {
    if changes == [] then []
    else
      var op := changes[0];
      Hunk(op, a, b, path(op.j1), prevPath) + Rendered(changes[1..], a, b, path, path(op.j1))
  }

  lemma {:induction false} TextsConcat(p: seq<OutLine>, q: seq<OutLine>, added: bool)
    ensures Texts(p + q, added) == Texts(p, added) + Texts(q, added)
  {
    if p == [] {
      assert p + q == q;
    } else {
      assert (p + q)[1..] == p[1..] + q;
      TextsConcat(p[1..], q, added);
    }
  }

  lemma {:induction false} MarkedTexts(s: seq<string>, added: bool)
    ensures Texts(Removals(s), added) == (if added then [] else s)
    ensures Texts(Additions(s), added) == (if added then s else [])
  {
    hide Removals, Additions;
    if s != [] {
      MarkedTexts(s[1..], added);
      assert Removals(s)[1..] == Removals(s[1..]);
      assert Additions(s)[1..] == Additions(s[1..]);
    }
  }

  lemma {:induction false} HunkTexts(
    head: seq<OutLine>, minus: seq<string>, plus: seq<string>, rest: seq<OutLine>, added: bool)
    requires Texts(head, added) == []
    ensures Texts(head + Removals(minus) + Additions(plus) + rest, added)
            == (if added then plus else minus) + Texts(rest, added)
  {
    var x := head + Removals(minus);
    var y := x + Additions(plus);
    assert Texts(x, added) == (if added then [] else minus) by {
      TextsConcat(head, Removals(minus), added);
      MarkedTexts(minus, added);
    }
    assert Texts(y, added) == (if added then plus else minus) by {
      TextsConcat(x, Additions(plus), added);
      MarkedTexts(plus, added);
    }
    TextsConcat(y, rest, added);
  }

  lemma {:induction false} RenderedTexts(
    ops: seq<Opcode>, a: seq<string>, b: seq<string>, path: nat -> string, prevPath: string, added: bool)
    ensures Texts(Rendered(Changes(ops), a, b, path, prevPath), added)
            == (if added then NewLines(ops, b) else DroppedLines(ops, a))
    decreases |ops|
  {
    if ops != [] && ops[0].tag == Equal {
      RenderedTexts(ops[1..], a, b, path, prevPath, added);
      assert Changes(ops) == Changes(ops[1..]);
    } else if ops != [] {
      var op := ops[0];
      RenderedTexts(ops[1..], a, b, path, path(op.j1), added);
      assert Changes(ops)[1..] == Changes(ops[1..]);
      HunkTexts(Header(op, path(op.j1), prevPath), Slice(a, op.i1, op.i2), Slice(b, op.j1, op.j2),
                Rendered(Changes(ops[1..]), a, b, path, path(op.j1)), added);
    }
  }

  lemma {:induction false} TilesCount(
    ops: seq<Opcode>, a: seq<string>, b: seq<string>, i: nat, j: nat, i': nat, j': nat)
    requires Tiles(ops, a, b, i, j, i', j')
    ensures i' - i == Kept(ops) + |DroppedLines(ops, a)|
    ensures j' - j == Kept(ops) + |NewLines(ops, b)|
    ensures Changes(ops) == [] <==> DroppedLines(ops, a) == [] && NewLines(ops, b) == []
  {
    if ops != [] {
      assert ops[0].tag == Equal ==> |a[ops[0].i1..ops[0].i2]| == |b[ops[0].j1..ops[0].j2]|;
      TilesCount(ops[1..], a, b, ops[0].i2, ops[0].j2, i', j');
    }
  }

  lemma {:induction false} AllKeptIsIdentity(
    ops: seq<Opcode>, a: seq<string>, b: seq<string>, i: nat, j: nat, i': nat, j': nat)
    requires Tiles(ops, a, b, i, j, i', j') && Changes(ops) == []
    ensures ops != [] ==> i <= i' <= |a| && j <= j' <= |b| && a[i..i'] == b[j..j']
  {
    if ops != [] {
      var op := ops[0];
      AllKeptIsIdentity(ops[1..], a, b, op.i2, op.j2, i', j');
      if |ops| > 1 {
        assert a[i..i'] == a[i..op.i2] + a[op.i2..i'];
        assert b[j..j'] == b[j..op.j2] + b[op.j2..j'];
      }
    }
  }

  /** There is a change to report exactly when the inputs differ. */
  lemma ChangesIffDifferent(a: seq<string>, b: seq<string>)
    ensures Changes(Opcodes(a, b)) == [] <==> a == b
  {
    var ops := Opcodes(a, b);
    OpcodesTile(a, b);
    TilesCount(ops, a, b, 0, 0, |a|, |b|);
    if Changes(ops) == [] {
      AllKeptIsIdentity(ops, a, b, 0, 0, |a|, |b|);
      assert a == a[0..|a|] && b == b[0..|b|];
    }
    if a == b {
      var f := Range(0, |a|);
      assert Embeds(a, a, f, 0);
      OpcodesAreOptimal(a, b);
      assert CommonSubsequence(a, a, b);
    }
  }

  /** Two consecutive changes have kept lines between them. */
  ghost predicate Spaced(changes: seq<Opcode>) {
    forall k :: 0 <= k < |changes| - 1 ==> changes[k].i2 < changes[k + 1].i1
  }

  lemma {:induction false} ChangesAreSpaced(
    ops: seq<Opcode>, a: seq<string>, b: seq<string>, i: nat, j: nat, i': nat, j': nat)
    requires Tiles(ops, a, b, i, j, i', j') && Alternates(ops)
    ensures Spaced(Changes(ops))
    ensures Changes(ops) != [] ==> i + (if ops[0].tag == Equal then 1 else 0) <= Changes(ops)[0].i1
  {
    if ops != [] {
      ChangesAreSpaced(ops[1..], a, b, ops[0].i2, ops[0].j2, i', j');
      assert Changes(ops[1..]) != [] && ops[0].tag != Equal ==> ops[1].tag == Equal;
    }
  }

  /** Distance to the previous change, on whichever side it is larger. */
  function Gap(prev: Opcode, op: Opcode): int {
    if op.j1 - prev.j2 > op.i1 - prev.i2 then op.j1 - prev.j2 else op.i1 - prev.i2
  }

  /** One change joins the last group, or opens the next one behind a gap. */
  function AddToGroups(groups: seq<seq<Opcode>>, op: Opcode): seq<seq<Opcode>> {
    if groups == [] then [[op]]
    else
      var last := groups[|groups| - 1];
      if last != [] && Gap(last[|last| - 1], op) > 0 then groups + [[op]]
      else groups[..|groups| - 1] + [last + [op]]
  }

  function Grouped(groups: seq<seq<Opcode>>, ops: seq<Opcode>): seq<seq<Opcode>>
    decreases |ops|
  {
    if ops == [] then groups
    else Grouped(if ops[0].tag == Equal then groups else AddToGroups(groups, ops[0]), ops[1..])
  }

  ghost predicate SingletonsOf(groups: seq<seq<Opcode>>, changes: seq<Opcode>) {
    |groups| == |changes| && forall k :: 0 <= k < |groups| ==> groups[k] == [changes[k]]
  }

  lemma {:induction false} GroupsAreSingletons(groups: seq<seq<Opcode>>, before: seq<Opcode>, ops: seq<Opcode>)
    requires SingletonsOf(groups, before) && Spaced(before + Changes(ops))
    ensures SingletonsOf(Grouped(groups, ops), before + Changes(ops))
    decreases |ops|
  {
    if ops == [] {
      assert before + [] == before;
    } else if ops[0].tag == Equal {
      assert Changes(ops) == Changes(ops[1..]);
      GroupsAreSingletons(groups, before, ops[1..]);
    } else {
      var op, all := ops[0], before + Changes(ops);
      Assoc(before, [op], Changes(ops[1..]));
      assert before + [op] + Changes(ops[1..]) == all;
      if before != [] {
        assert all[|before| - 1] == before[|before| - 1] && all[|before|] == op;
        assert groups[|groups| - 1] == [before[|before| - 1]];
      }
      assert AddToGroups(groups, op) == groups + [[op]];
      GroupsAreSingletons(groups + [[op]], before + [op], ops[1..]);
    }
  }

  lemma {:induction false} ChangesAreSound(
    ops: seq<Opcode>, a: seq<string>, b: seq<string>, i: nat, j: nat, i': nat, j': nat, k: nat)
    requires Tiles(ops, a, b, i, j, i', j') && k < |Changes(ops)|
    ensures Sound(Changes(ops)[k], a, b) && Changes(ops)[k].tag != Equal
    decreases |ops|
  {
    if ops[0].tag == Equal {
      ChangesAreSound(ops[1..], a, b, ops[0].i2, ops[0].j2, i', j', k);
    } else if k > 0 {
      ChangesAreSound(ops[1..], a, b, ops[0].i2, ops[0].j2, i', j', k - 1);
    }
  }

  lemma {:induction false} RenderedNonEmpty(
    ops: seq<Opcode>, a: seq<string>, b: seq<string>, i: nat, j: nat, i': nat, j': nat,
    path: nat -> string, prevPath: string)
    requires Tiles(ops, a, b, i, j, i', j')
    ensures Rendered(Changes(ops), a, b, path, prevPath) == [] <==> Changes(ops) == []
  {
    if Changes(ops) != [] {
      ChangesAreSound(ops, a, b, i, j, i', j', 0);
    }
  }

  /**
   * What the report says: nothing iff the inputs are equal; otherwise every line outside the kept
   * ranges exactly once and in order, with as many lines kept on either side as any common
   * subsequence can have.
   */
  lemma UnifiedDiffReports(a: seq<string>, b: seq<string>, path: nat -> string)
    ensures var ops, out := Opcodes(a, b), Rendered(Changes(Opcodes(a, b)), a, b, path, "");
            && (out == [] <==> a == b)
            && Texts(out, false) == DroppedLines(ops, a)
            && Texts(out, true) == NewLines(ops, b)
            && |a| - |Texts(out, false)| == |b| - |Texts(out, true)| == Lcs(a, b, 0, 0)
  {
    OpcodesTile(a, b);
    ChangesIffDifferent(a, b);
    RenderedTexts(Opcodes(a, b), a, b, path, "", false);
    RenderedTexts(Opcodes(a, b), a, b, path, "", true);
    TilesCount(Opcodes(a, b), a, b, 0, 0, |a|, |b|);
    RenderedNonEmpty(Opcodes(a, b), a, b, 0, 0, |a|, |b|, path, "");
  }
}
