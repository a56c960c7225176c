// Reading a report back: range headers place every hunk, so the report is a patch, and breadcrumbs
// name the place of every changed line (e2e/pkg/debug/diff.go).
module DiffReader {
  import opened Text
  import opened Diff

  function TextsOf(out: seq<OutLine>): seq<string>
    requires forall k :: 0 <= k < |out| ==> out[k].Added?
  {
    seq(|out|, k requires 0 <= k < |out| => out[k].text)
  }

  /**
   * Applies a report to the old text from line `pos` on, when `done` lines of the new text are there
   * already. A header gives the first old line and how many are removed, and the same for the new text;
   * the removed lines must be those of the old text.
   */
  function Patch(out: seq<OutLine>, a: seq<string>, pos: nat, done: nat): Option<seq<string>>
    requires pos <= |a|
    decreases |out|
  {
    if out == [] then Some(a[pos..])
    else if !out[0].RangeHeader? then None
    else
      var (i, di, j, dj) := (out[0].i - 1, out[0].di, out[0].j - 1, out[0].dj);
      if !(pos <= i && 0 <= di && i + di <= |a| && 0 <= dj && di + dj < |out| && j - done == i - pos) then None
      else
        var minus, plus := out[1..1 + di], out[1 + di..1 + di + dj];
        if minus != Removals(a[i..i + di]) || exists k :: 0 <= k < |plus| && !plus[k].Added? then None
        else
          match Patch(out[1 + di + dj..], a, i + di, j + dj)
          case None => None
          case Some(rest) => Some(a[pos..i] + (TextsOf(plus) + rest))
  }

  /** A hunk with a range header is read as its range. */
  lemma PatchReadsHunk(h: OutLine, minus: seq<string>, plus: seq<string>, rest: seq<OutLine>,
                       a: seq<string>, pos: nat, done: nat, i: nat, j: nat)
    requires pos <= i && i + |minus| <= |a| && minus == a[i..i + |minus|] && j - done == i - pos
    requires h == RangeHeader(i + 1, |minus|, j + 1, |plus|)
    ensures Patch([h] + Removals(minus) + Additions(plus) + rest, a, pos, done)
         == match Patch(rest, a, i + |minus|, j + |plus|)
            case None => None
            case Some(r) => Some(a[pos..i] + (plus + r))
  {
    hide Removals, Additions;
    var out := [h] + Removals(minus) + Additions(plus) + rest;
    var m, n := |minus|, |plus|;
    assert out[0] == h;
    assert out[1..1 + m] == Removals(minus);
    assert out[1 + m..1 + m + n] == Additions(plus);
    assert out[1 + m + n..] == rest;
    assert TextsOf(Additions(plus)) == plus;
  }

  /** The report of tiled ranges, all under range headers, rebuilds the new text. */
  lemma {:induction false} TilesPatch(ops: seq<Opcode>, a: seq<string>, b: seq<string>, i: nat, j: nat,
                                      path: nat -> string, prevPath: string, pos: nat, done: nat)
    requires Tiles(ops, a, b, i, j, |a|, |b|) && forall k :: path(k) == ""
    requires pos <= i <= |a| && done <= j <= |b| && a[pos..i] == b[done..j]
    ensures Patch(Rendered(Changes(ops), a, b, path, prevPath), a, pos, done) == Some(b[done..])
    decreases |ops|
  {
    hide Patch, Rendered;
    if ops == [] {
      assert a[pos..i] == a[pos..] && b[done..j] == b[done..];
      NoHunks(a, b, path, prevPath, pos, done);
    } else if ops[0].tag == Equal {
      var op := ops[0];
      assert a[pos..op.i2] == a[pos..i] + a[i..op.i2] && b[done..op.j2] == b[done..j] + b[j..op.j2];
      assert Changes(ops) == Changes(ops[1..]);
      TilesPatch(ops[1..], a, b, op.i2, op.j2, path, prevPath, pos, done);
    } else {
      var op := ops[0];
      TilesPatch(ops[1..], a, b, op.i2, op.j2, path, path(op.j1), op.i2, op.j2);
      assert Changes(ops)[1..] == Changes(ops[1..]);
      HunkPatches(op, Changes(ops), a, b, path, prevPath, pos, done);
      assert b[done..] == b[done..j] + (b[j..op.j2] + b[op.j2..]);
    }
  }

  lemma NoHunks(a: seq<string>, b: seq<string>, path: nat -> string, prevPath: string, pos: nat, done: nat)
    requires pos <= |a|
    ensures Patch(Rendered([], a, b, path, prevPath), a, pos, done) == Some(a[pos..])
  {
  }

  lemma HunkPatches(op: Opcode, changes: seq<Opcode>, a: seq<string>, b: seq<string>, path: nat -> string,
                    prevPath: string, pos: nat, done: nat)
    requires changes != [] && changes[0] == op && path(op.j1) == ""
    requires Sound(op, a, b) && pos <= op.i1 && op.j1 - done == op.i1 - pos
    ensures Patch(Rendered(changes, a, b, path, prevPath), a, pos, done)
         == match Patch(Rendered(changes[1..], a, b, path, ""), a, op.i2, op.j2)
            case None => None
            case Some(r) => Some(a[pos..op.i1] + (b[op.j1..op.j2] + r))
  {
    hide Patch, Removals, Additions, Rendered;
    var minus, plus := a[op.i1..op.i2], b[op.j1..op.j2];
    var h, rest := RangeHeader(op.i1 + 1, |minus|, op.j1 + 1, |plus|), Rendered(changes[1..], a, b, path, "");
    HunkIs(op, changes, a, b, path, prevPath);
    PatchReadsHunk(h, minus, plus, rest, a, pos, done, op.i1, op.j1);
  }

  lemma HunkIs(
    op: Opcode, changes: seq<Opcode>, a: seq<string>, b: seq<string>, path: nat -> string, prevPath: string)
    requires changes != [] && changes[0] == op && path(op.j1) == "" && Sound(op, a, b)
    ensures Rendered(changes, a, b, path, prevPath)
         == [RangeHeader(op.i1 + 1, op.i2 - op.i1, op.j1 + 1, op.j2 - op.j1)] + Removals(a[op.i1..op.i2])
            + Additions(b[op.j1..op.j2]) + Rendered(changes[1..], a, b, path, "")
  {
    hide Removals, Additions;
  }

  /** Where no line has a breadcrumb the report is a patch: applied to the old text it gives the new one. */
  lemma ReportIsPatch(a: seq<string>, b: seq<string>, path: nat -> string)
    requires forall k :: path(k) == ""
    ensures Patch(Rendered(Changes(Opcodes(a, b)), a, b, path, ""), a, 0, 0) == Some(b)
  {
    hide Patch, Rendered, Opcodes, Tiles;
    OpcodesTile(a, b);
    assert a[0..0] == b[0..0];
    TilesPatch(Opcodes(a, b), a, b, 0, 0, path, "", 0, 0);
  }

  // ---------------------------------------------------------------------------
  // Breadcrumbs
  // ---------------------------------------------------------------------------

  /** Each line under the breadcrumb above it; a range header stands for none. */
  function Placed(out: seq<OutLine>, at: string): seq<(string, OutLine)> {
    if out == [] then []
    else
      match out[0]
      case PathHeader(path) => Placed(out[1..], path)
      case RangeHeader(_, _, _, _) => Placed(out[1..], "")
      case line => [(at, line)] + Placed(out[1..], at)
  }

  function AllAt(at: string, lines: seq<OutLine>): (r: seq<(string, OutLine)>)
    ensures |r| == |lines| && forall k :: 0 <= k < |r| ==> r[k] == (at, lines[k])
  {
    seq(|lines|, k requires 0 <= k < |lines| => (at, lines[k]))
  }

  /** Every changed line with the breadcrumb of the first new line of its range. */
  function Places(changes: seq<Opcode>, a: seq<string>, b: seq<string>, path: nat -> string): seq<(string, OutLine)> {
    if changes == [] then []
    else
      var op := changes[0];
      AllAt(path(op.j1), Removals(Slice(a, op.i1, op.i2)) + Additions(Slice(b, op.j1, op.j2)))
      + Places(changes[1..], a, b, path)
  }

  lemma {:induction false} PlacedLines(lines: seq<OutLine>, rest: seq<OutLine>, at: string)
    requires forall k :: 0 <= k < |lines| ==> lines[k].Removed? || lines[k].Added?
    ensures Placed(lines + rest, at) == AllAt(at, lines) + Placed(rest, at)
  {
    if lines == [] {
      assert lines + rest == rest;
    } else {
      PlacedLines(lines[1..], rest, at);
      assert (lines + rest)[1..] == lines[1..] + rest;
      assert AllAt(at, lines) == [(at, lines[0])] + AllAt(at, lines[1..]);
    }
  }

  /** The header that is last seen above a line, printed or not repeated, is the breadcrumb of its range. */
  lemma {:induction false} BreadcrumbsPlace(
    changes: seq<Opcode>, a: seq<string>, b: seq<string>, path: nat -> string, prevPath: string)
    ensures Placed(Rendered(changes, a, b, path, prevPath), prevPath) == Places(changes, a, b, path)
  {
    hide Removals, Additions, Header, AllAt, Rendered, Placed;
    if changes == [] {
      NothingPlaced(a, b, path, prevPath);
    } else {
      var op := changes[0];
      var p := path(op.j1);
      var lines := Removals(Slice(a, op.i1, op.i2)) + Additions(Slice(b, op.j1, op.j2));
      var rest := Rendered(changes[1..], a, b, path, p);
      BreadcrumbsPlace(changes[1..], a, b, path, p);
      RenderedIs(changes, a, b, path, prevPath);
      HeaderPlaces(op, p, prevPath, lines + rest);
      PlacedLines(lines, rest, p);
    }
  }

  lemma NothingPlaced(a: seq<string>, b: seq<string>, path: nat -> string, prevPath: string)
    ensures Placed(Rendered([], a, b, path, prevPath), prevPath) == []
  {
  }

  lemma RenderedIs(changes: seq<Opcode>, a: seq<string>, b: seq<string>, path: nat -> string, prevPath: string)
    requires changes != []
    ensures var op := changes[0];
            var lines := Removals(Slice(a, op.i1, op.i2)) + Additions(Slice(b, op.j1, op.j2));
            Rendered(changes, a, b, path, prevPath)
            == Header(op, path(op.j1), prevPath) + (lines + Rendered(changes[1..], a, b, path, path(op.j1)))
  {
    hide Removals, Additions, Header, Slice;
    var op := changes[0];
    var h := Header(op, path(op.j1), prevPath);
    var r, p := Removals(Slice(a, op.i1, op.i2)), Additions(Slice(b, op.j1, op.j2));
    var rest := Rendered(changes[1..], a, b, path, path(op.j1));
    Assoc(h, r, p);
    Assoc(h, r + p, rest);
  }

  lemma HeaderPlaces(op: Opcode, path: string, prevPath: string, rest: seq<OutLine>)
    ensures Placed(Header(op, path, prevPath) + rest, prevPath) == Placed(rest, path)
  {
    var h := Header(op, path, prevPath);
    if h == [] {
      assert h + rest == rest;
    } else {
      assert (h + rest)[1..] == rest;
    }
  }
}
