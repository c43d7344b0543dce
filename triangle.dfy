/**
 * The triangular truncation of the cosine basis shared by the encoder and
 * the decoder (src/Thumbhash.cpp, Channel::Channel and ThumbHashToRGBA).
 * A channel with bounds nx, ny keeps the AC term (cx, cy) when cy < ny,
 * cx starts at 1 in row 0 (so that (0, 0), the DC term, is not an AC term)
 * and cx * ny < nx * (ny - cy).
 */
module Triangle {

  /** A frequency pair (cx, cy). */
  type Term = (nat, nat)

  /** The first horizontal frequency scanned in row cy. */
  function RowStart(cy: nat): nat {
    if cy == 0 then 1 else 0
  }

  /** The triangular cutoff: (cx, cy) is an AC term of an nx-by-ny channel. */
  predicate InTriangle(nx: nat, ny: nat, cx: nat, cy: nat) {
    cy < ny && RowStart(cy) <= cx && cx * ny < nx * (ny - cy)
  }

  /** Scan order: row by row (cy outer), and by cx inside a row. */
  predicate Before(s: Term, t: Term) {
    s.1 < t.1 || (s.1 == t.1 && s.0 < t.0)
  }

  /** The terms of row cy from cx on, while the cutoff holds. */
  function RowFrom(nx: nat, ny: nat, cy: nat, cx: nat): seq<Term>
    requires cy < ny
    decreases nx * (ny - cy) - cx * ny
  {
    if cx * ny < nx * (ny - cy) then
      assert (cx + 1) * ny == cx * ny + ny;
      [(cx, cy)] + RowFrom(nx, ny, cy, cx + 1)
    else
      []
  }

  /** The terms of rows cy, cy + 1, ..., ny - 1. */
  function RowsFrom(nx: nat, ny: nat, cy: nat): seq<Term>
    decreases ny - cy
  {
    if cy < ny then RowFrom(nx, ny, cy, RowStart(cy)) + RowsFrom(nx, ny, cy + 1) else []
  }

  /** The AC terms of an nx-by-ny channel, in the order they are stored. */
  function ScanOrder(nx: nat, ny: nat): seq<Term> {
    RowsFrom(nx, ny, 0)
  }

  /** The number of AC terms of an nx-by-ny channel (the source's size_). */
  function TermCount(nx: nat, ny: nat): nat {
    |ScanOrder(nx, ny)|
  }

  lemma MulMonotone(a: nat, b: nat, n: nat)
    requires a <= b
    ensures a * n <= b * n
  {
  }

  /** Row cy from cx on is cx, cx + 1, ... up to the first cx that fails the cutoff. */
  lemma {:induction false} RowFromShape(nx: nat, ny: nat, cy: nat, cx: nat)
    requires cy < ny
    ensures forall i :: 0 <= i < |RowFrom(nx, ny, cy, cx)| ==>
      RowFrom(nx, ny, cy, cx)[i] == (cx + i, cy) && (cx + i) * ny < nx * (ny - cy)
    ensures (cx + |RowFrom(nx, ny, cy, cx)|) * ny >= nx * (ny - cy)
    decreases nx * (ny - cy) - cx * ny
  {
    if cx * ny < nx * (ny - cy) {
      assert (cx + 1) * ny == cx * ny + ny;
      RowFromShape(nx, ny, cy, cx + 1);
      var r := RowFrom(nx, ny, cy, cx + 1);
      assert RowFrom(nx, ny, cy, cx) == [(cx, cy)] + r;
      forall i | 0 <= i < |RowFrom(nx, ny, cy, cx)|
        ensures RowFrom(nx, ny, cy, cx)[i] == (cx + i, cy) && (cx + i) * ny < nx * (ny - cy)
      {
        if i > 0 {
          assert RowFrom(nx, ny, cy, cx)[i] == r[i - 1];
        }
      }
    }
  }

  /** A pair lies in row cy from cx on exactly when it passes the cutoff there. */
  lemma RowFromMembers(nx: nat, ny: nat, cy: nat, cx: nat, t: Term)
    requires cy < ny
    ensures t in RowFrom(nx, ny, cy, cx) <==> t.1 == cy && cx <= t.0 && t.0 * ny < nx * (ny - cy)
  {
    RowFromShape(nx, ny, cy, cx);
    var r := RowFrom(nx, ny, cy, cx);
    if t.1 == cy && cx <= t.0 && t.0 * ny < nx * (ny - cy) {
      var i := t.0 - cx;
      if i >= |r| {
        MulMonotone(cx + |r|, t.0, ny);
        assert false;
      }
      assert r[i] == t;
    }
  }

  /** Membership in rows cy.. of the scan. */
  lemma {:induction false} RowsFromMembers(nx: nat, ny: nat, cy: nat, t: Term)
    ensures t in RowsFrom(nx, ny, cy) <==> cy <= t.1 && InTriangle(nx, ny, t.0, t.1)
    decreases ny - cy
  {
    if cy < ny {
      var row := RowFrom(nx, ny, cy, RowStart(cy));
      var rest := RowsFrom(nx, ny, cy + 1);
      assert RowsFrom(nx, ny, cy) == row + rest;
      assert t in row + rest <==> t in row || t in rest;
      RowFromMembers(nx, ny, cy, RowStart(cy), t);
      RowsFromMembers(nx, ny, cy + 1, t);
    }
  }

  /** Every element of rows cy.. sits in row cy or later. */
  lemma RowsFromRows(nx: nat, ny: nat, cy: nat, i: nat)
    requires i < |RowsFrom(nx, ny, cy)|
    ensures cy <= RowsFrom(nx, ny, cy)[i].1
  {
    RowsFromMembers(nx, ny, cy, RowsFrom(nx, ny, cy)[i]);
  }

  /** Rows cy.. are listed strictly in scan order. */
  lemma {:induction false} RowsFromSorted(nx: nat, ny: nat, cy: nat)
    ensures forall i, j :: 0 <= i < j < |RowsFrom(nx, ny, cy)| ==>
      Before(RowsFrom(nx, ny, cy)[i], RowsFrom(nx, ny, cy)[j])
    decreases ny - cy
  {
    if cy < ny {
      var row := RowFrom(nx, ny, cy, RowStart(cy));
      var rest := RowsFrom(nx, ny, cy + 1);
      var s := RowsFrom(nx, ny, cy);
      assert s == row + rest;
      RowFromShape(nx, ny, cy, RowStart(cy));
      RowsFromSorted(nx, ny, cy + 1);
      forall i, j | 0 <= i < j < |s| ensures Before(s[i], s[j]) {
        if j >= |row| {
          RowsFromRows(nx, ny, cy + 1, j - |row|);
          assert s[j] == rest[j - |row|];
          if i >= |row| {
            assert s[i] == rest[i - |row|];
          }
        }
      }
    }
  }

  /** The scan holds exactly the pairs that pass the triangular cutoff. */
  lemma ScanMembers(nx: nat, ny: nat, t: Term)
    ensures t in ScanOrder(nx, ny) <==> InTriangle(nx, ny, t.0, t.1)
  {
    RowsFromMembers(nx, ny, 0, t);
  }

  /** The scan lists its terms strictly in cy-outer, cx-inner order, hence without repetition. */
  lemma ScanSorted(nx: nat, ny: nat)
    ensures forall i, j :: 0 <= i < j < |ScanOrder(nx, ny)| ==>
      Before(ScanOrder(nx, ny)[i], ScanOrder(nx, ny)[j])
    ensures forall i, j :: 0 <= i < j < |ScanOrder(nx, ny)| ==>
      ScanOrder(nx, ny)[i] != ScanOrder(nx, ny)[j]
  {
    RowsFromSorted(nx, ny, 0);
  }

  /** The DC pair (0, 0) is never an AC term. */
  lemma DcIsNotAc(nx: nat, ny: nat)
    ensures (0, 0) !in ScanOrder(nx, ny)
  {
    ScanMembers(nx, ny, (0, 0));
  }

  /** For a square channel the cutoff is cx < n - cy, the shape of the P, Q and A loops of the reconstruction. */
  lemma SquareCutoff(n: nat, cx: nat, cy: nat)
    ensures InTriangle(n, n, cx, cy) <==> cy < n && RowStart(cy) <= cx < n - cy
  {
    if cy < n {
      if cx < n - cy {
        MulMonotone(cx + 1, n - cy, n);
      } else {
        MulMonotone(n - cy, cx, n);
      }
    }
  }

  lemma {:induction false} SquareRowLength(n: nat, cy: nat, cx: nat)
    requires cy < n && cx <= n - cy
    ensures |RowFrom(n, n, cy, cx)| == n - cy - cx
    decreases n - cy - cx
  {
    if cx < n - cy {
      MulMonotone(cx + 1, n - cy, n);
      SquareRowLength(n, cy, cx + 1);
    } else {
      MulMonotone(n - cy, cx, n);
    }
  }

  lemma {:induction false} SquareRowsLength(n: nat, cy: nat)
    requires 1 <= cy <= n
    ensures |RowsFrom(n, n, cy)| == (n - cy) * (n - cy + 1) / 2
    decreases n - cy
  {
    if cy < n {
      SquareRowLength(n, cy, 0);
      SquareRowsLength(n, cy + 1);
      TriangularStep(n - cy);
    }
  }

  /** The triangular numbers m(m+1)/2 grow by m at m. */
  lemma TriangularStep(m: nat)
    requires m >= 1
    ensures m * (m + 1) / 2 == (m - 1) * m / 2 + m
  {
    assert m * (m + 1) == (m - 1) * m + 2 * m;
  }

  /** A square n-by-n channel has n(n+1)/2 - 1 AC terms: 5 for 3-by-3 and 14 for 5-by-5. */
  lemma SquareTermCount(n: nat)
    requires n >= 1
    ensures TermCount(n, n) == n * (n + 1) / 2 - 1
  {
    SquareRowLength(n, 0, 1);
    SquareRowsLength(n, 1);
    TriangularStep(n);
  }

  /** The literal term counts the decoder passes for the P, Q and alpha channels. */
  lemma FixedTermCounts()
    ensures TermCount(3, 3) == 5 && TermCount(5, 5) == 14
  {
    SquareTermCount(3);
    SquareTermCount(5);
  }

  /**
   * Counts the AC terms of an nx-by-ny channel with the nested loop of the
   * Channel constructor (the decoder repeats the same loop for the L channel).
   */
  method CountTerms(nx: nat, ny: nat) returns (n: nat)
    ensures n == TermCount(nx, ny)
  {
    n := 0;
    var cy := 0;
    while cy < ny
      invariant cy <= ny
      invariant n + |RowsFrom(nx, ny, cy)| == TermCount(nx, ny)
    {
      var cx := RowStart(cy);
      while cx * ny < nx * (ny - cy)
        invariant n + |RowFrom(nx, ny, cy, cx)| + |RowsFrom(nx, ny, cy + 1)| == TermCount(nx, ny)
        decreases nx * (ny - cy) - cx * ny
      {
        MulSucc(cx, ny);
        n := n + 1;
        cx := cx + 1;
      }
      cy := cy + 1;
    }
  }

  /** The rows from cy on are the tail of the scan. */
  lemma {:induction false} RowsSuffix(nx: nat, ny: nat, cy: nat)
    requires cy <= ny
    ensures |RowsFrom(nx, ny, cy)| <= TermCount(nx, ny)
    ensures ScanOrder(nx, ny)[TermCount(nx, ny) - |RowsFrom(nx, ny, cy)|..] == RowsFrom(nx, ny, cy)
    decreases cy
  {
    if cy > 0 {
      RowsSuffix(nx, ny, cy - 1);
      var whole := RowsFrom(nx, ny, cy - 1);
      var row := RowFrom(nx, ny, cy - 1, RowStart(cy - 1));
      assert whole == row + RowsFrom(nx, ny, cy);
      var k := TermCount(nx, ny) - |whole|;
      assert ScanOrder(nx, ny)[k + |row|..] == ScanOrder(nx, ny)[k..][|row|..];
    }
  }

  /** Row cy from c on is the tail of row cy from s on, for s <= c. */
  lemma {:induction false} RowSuffix(nx: nat, ny: nat, cy: nat, s: nat, c: nat)
    requires cy < ny && s <= c
    ensures |RowFrom(nx, ny, cy, c)| <= |RowFrom(nx, ny, cy, s)|
    ensures RowFrom(nx, ny, cy, s)[|RowFrom(nx, ny, cy, s)| - |RowFrom(nx, ny, cy, c)|..] == RowFrom(nx, ny, cy, c)
    decreases c - s
  {
    if s < c {
      if s * ny < nx * (ny - cy) {
        MulSucc(s, ny);
        RowSuffix(nx, ny, cy, s + 1, c);
        var r := RowFrom(nx, ny, cy, s + 1);
        assert RowFrom(nx, ny, cy, s) == [(s, cy)] + r;
        assert RowFrom(nx, ny, cy, s)[|RowFrom(nx, ny, cy, s)| - |RowFrom(nx, ny, cy, c)|..]
            == r[|r| - |RowFrom(nx, ny, cy, c)|..];
      } else {
        RowEnded(nx, ny, cy, s, c);
      }
    }
  }

  /** Once the cutoff fails at cx, the rest of the row from any rc >= cx is empty. */
  lemma RowEnded(nx: nat, ny: nat, cy: nat, cx: nat, rc: nat)
    requires cy < ny && cx <= rc && cx * ny >= nx * (ny - cy)
    ensures RowFrom(nx, ny, cy, rc) == []
  {
    MulMonotone(cx, rc, ny);
  }

  /**
   * The scan cursor of the encoder: when n terms precede row cy from cx on
   * and (cx, cy) passes the cutoff, (cx, cy) is the n-th term of the scan.
   */
  lemma ScanAt(nx: nat, ny: nat, n: nat, cy: nat, cx: nat)
    requires cy < ny && RowStart(cy) <= cx < RowEnd(nx, ny, cy)
    requires n + (RowEnd(nx, ny, cy) - cx) + |RowsFrom(nx, ny, cy + 1)| == TermCount(nx, ny)
    ensures n < TermCount(nx, ny) && ScanOrder(nx, ny)[n] == (cx, cy)
  {
    RowLength(nx, ny, cy, cx);
    RowsSuffix(nx, ny, cy);
    RowSuffix(nx, ny, cy, RowStart(cy), cx);
    var row := RowFrom(nx, ny, cy, RowStart(cy));
    var tail := RowFrom(nx, ny, cy, cx);
    var k := TermCount(nx, ny) - |RowsFrom(nx, ny, cy)|;
    assert RowsFrom(nx, ny, cy) == row + RowsFrom(nx, ny, cy + 1);
    assert tail[0] == (cx, cy);
    assert n == k + (|row| - |tail|);
    assert ScanOrder(nx, ny)[k..][|row| - |tail|] == row[|row| - |tail|];
  }

  /** The first cx at which row cy fails the cutoff: the row is 0 .. RowEnd - 1. */
  function RowEnd(nx: nat, ny: nat, cy: nat): nat
    requires cy < ny
  {
    |RowFrom(nx, ny, cy, 0)|
  }

  /** The cutoff of row cy holds exactly below RowEnd. */
  lemma RowCut(nx: nat, ny: nat, cy: nat, cx: nat)
    requires cy < ny
    ensures cx * ny < nx * (ny - cy) <==> cx < RowEnd(nx, ny, cy)
  {
    var w := RowEnd(nx, ny, cy);
    RowFromShape(nx, ny, cy, 0);
    if cx < w {
      assert RowFrom(nx, ny, cy, 0)[cx] == (cx, cy);
    } else {
      MulMonotone(w, cx, ny);
    }
  }

  /** Row cy from cx on has RowEnd - cx terms (none from RowEnd on). */
  lemma RowLength(nx: nat, ny: nat, cy: nat, cx: nat)
    requires cy < ny
    ensures cx * ny < nx * (ny - cy) <==> cx < RowEnd(nx, ny, cy)
    ensures |RowFrom(nx, ny, cy, cx)| == if cx < RowEnd(nx, ny, cy) then RowEnd(nx, ny, cy) - cx else 0
  {
    RowCut(nx, ny, cy, cx);
    RowFromShape(nx, ny, cy, cx);
    var len := |RowFrom(nx, ny, cy, cx)|;
    RowCut(nx, ny, cy, cx + len);
    if len > 0 {
      assert RowFrom(nx, ny, cy, cx)[len - 1] == (cx + len - 1, cy);
      RowCut(nx, ny, cy, cx + len - 1);
    }
  }

  /** The AC terms still to come in a row that ends at w, once the scan stands at cx. */
  function Left(cy: nat, cx: nat, w: nat): nat {
    var c := if cx < RowStart(cy) then RowStart(cy) else cx;
    if c < w then w - c else 0
  }

  /** (cx + 1) * ny == cx * ny + ny, the step of the inner loops' measure. */
  lemma MulSucc(cx: nat, ny: nat)
    ensures (cx + 1) * ny == cx * ny + ny
  {
  }
}
