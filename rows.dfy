/**
  Row-by-row enumeration.  Every layout strategy builds its coordinate list by appending
  one row after another; `Flatten` is that concatenation, and the lemmas below say where
  each row's elements end up in the flat list.
 */
module Rows {

  /** The rows concatenated in order (the last row is appended last). */
  function Flatten<T>(rows: seq<seq<T>>): seq<T>
  {
    if rows == [] then [] else Flatten(rows[..|rows| - 1]) + rows[|rows| - 1]
  }

  /** The sum of the row lengths. */
  function TotalLength<T>(rows: seq<seq<T>>): nat
  {
    if rows == [] then 0 else TotalLength(rows[..|rows| - 1]) + |rows[|rows| - 1]|
  }

  /** Appending row `y` to the first `y` rows gives the first `y + 1` rows. */
  lemma FlattenSnoc<T>(rows: seq<seq<T>>, y: nat)
    requires y < |rows|
    ensures Flatten(rows[..y + 1]) == Flatten(rows[..y]) + rows[y]
    ensures TotalLength(rows[..y + 1]) == TotalLength(rows[..y]) + |rows[y]|
  {
    assert rows[..y + 1][..y] == rows[..y];
  }

  lemma {:induction false} FlattenLength<T>(rows: seq<seq<T>>)
    ensures |Flatten(rows)| == TotalLength(rows)
  {
    if rows != [] {
      FlattenLength(rows[..|rows| - 1]);
    }
  }

  /** Element `x` of row `y` sits at the row's offset (the length of the rows before it) plus `x`. */
  lemma {:induction false} FlattenAt<T>(rows: seq<seq<T>>, y: nat, x: nat)
    requires y < |rows| && x < |rows[y]|
    ensures TotalLength(rows[..y]) + x < |Flatten(rows)|
    ensures Flatten(rows)[TotalLength(rows[..y]) + x] == rows[y][x]
  {
    var n := |rows| - 1;
    var init := rows[..n];
    FlattenLength(init);
    if y == n {
      assert rows[..y] == init;
    } else {
      assert init[..y] == rows[..y];
      FlattenAt(init, y, x);
    }
  }

  /** An element is in the flat list exactly when it is in one of the rows. */
  lemma {:induction false} FlattenMember<T>(rows: seq<seq<T>>, c: T)
    ensures c in Flatten(rows) <==> exists y :: 0 <= y < |rows| && c in rows[y]
  {
    if rows != [] {
      var n := |rows| - 1;
      var init := rows[..n];
      FlattenMember(init, c);
      assert Flatten(rows) == Flatten(init) + rows[n];
      if c in Flatten(rows) {
        if c !in Flatten(init) {
          assert c in rows[n];
        } else {
          var y :| 0 <= y < |init| && c in init[y];
          assert c in rows[y];
        }
      }
      if exists y :: 0 <= y < |rows| && c in rows[y] {
        var y :| 0 <= y < |rows| && c in rows[y];
        if y < n {
          assert c in init[y];
        }
      }
    }
  }

  /** Rows all of width `w`: the flat list has |rows| * w elements. */
  lemma {:induction false} UniformTotal<T>(rows: seq<seq<T>>, w: nat)
    requires forall y :: 0 <= y < |rows| ==> |rows[y]| == w
    ensures TotalLength(rows) == |rows| * w
  {
    if rows != [] {
      UniformTotal(rows[..|rows| - 1], w);
    }
  }

  /** Rows all of width `w`: element `x` of row `y` is at index y * w + x. */
  lemma UniformAt<T>(rows: seq<seq<T>>, w: nat, y: nat, x: nat)
    requires forall k :: 0 <= k < |rows| ==> |rows[k]| == w
    requires y < |rows| && x < w
    ensures |Flatten(rows)| == |rows| * w
    ensures y * w + x < |Flatten(rows)| && Flatten(rows)[y * w + x] == rows[y][x]
  {
    FlattenLength(rows);
    UniformTotal(rows, w);
    UniformTotal(rows[..y], w);
    FlattenAt(rows, y, x);
  }
}
