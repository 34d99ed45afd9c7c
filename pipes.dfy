/** The pipe field: an ordered list of rectangles that is scrolled, extended by
    one top/bottom pair at a time and pruned, once per tick. */
module Pipes {
  import opened Config
  import opened Geometry

  /** The upper half of a pair whose top pipe is `top` high, entering at the right edge. */
  function TopPipe(top: int): (r: Rect) {
    Rect(Width, 0, PipeWidth, top)
  }

  /** The lower half of the same pair: it fills the field from the gap down. */
  function BottomPipe(top: int): (r: Rect) {
    var bottomHeight := Height - PipeGap - top;
    Rect(Width, Height - bottomHeight, PipeWidth, bottomHeight)
  }

  function SpawnPair(top: int): (r: seq<Rect>)
    requires ValidDraw(top)
    ensures |r| == 2 && IsPair(r[0], r[1]) && r[0].x == r[1].x == Width
    ensures r[0].h == top && r[0].h + PipeGap + r[1].h == Height
  {
    [TopPipe(top), BottomPipe(top)]
  }

  /** Two rectangles that were spawned together: same column, the top one starts at
      the top of the field with a height from the random range, the bottom one starts
      PipeGap below it and ends at the bottom of the field. */
  predicate IsPair(t: Rect, b: Rect) {
    && t.x == b.x
    && t.w == PipeWidth && b.w == PipeWidth
    && t.y == 0 && ValidDraw(t.h)
    && b.y == t.h + PipeGap && b.h == Height - PipeGap - t.h
  }

  /** The list is a sequence of whole pairs, top half first. */
  predicate Paired(s: seq<Rect>)
    decreases |s|
  {
    if |s| == 0 then true
    else |s| >= 2 && IsPair(s[0], s[1]) && Paired(s[2..])
  }

  /** Older pipes come first, and older pipes are further left. */
  predicate Sorted(s: seq<Rect>) {
    forall i, j :: 0 <= i < j < |s| ==> s[i].x <= s[j].x
  }

  /** Every pipe's left edge lies in the half-open range (lo, hi]. */
  predicate XWithin(s: seq<Rect>, lo: int, hi: int) {
    forall i :: 0 <= i < |s| ==> lo < s[i].x <= hi
  }

  /** Every pipe still has part of its width inside the field, and none is right of it. */
  predicate InField(s: seq<Rect>) {
    XWithin(s, -PipeWidth, Width)
  }

  /** The invariant of the pipe list between ticks. The list is never empty
      (the spawn test reads its last element) and its newest pipe is not yet
      PipeInterval away from the right edge. */
  predicate WellFormed(s: seq<Rect>) {
    && |s| > 0
    && s[|s| - 1].x >= Width - PipeInterval
    && Sorted(s)
    && InField(s)
    && Paired(s)
  }

  function Shift(p: Rect): (r: Rect) {
    p.(x := p.x - 1)
  }

  /** Every pipe moved one unit to the left. */
  function Scrolled(s: seq<Rect>): (r: seq<Rect>)
    ensures |r| == |s|
    ensures forall i :: 0 <= i < |s| ==>
      r[i].x == s[i].x - 1 && r[i].y == s[i].y && r[i].w == s[i].w && r[i].h == s[i].h
  {
    seq(|s|, i requires 0 <= i < |s| => Shift(s[i]))
  }

  /** The spawn step: a new pair goes at the end exactly when the newest pipe has
      moved further than PipeInterval from the right edge. */
  function MaybeSpawn(s: seq<Rect>, top: int): (r: seq<Rect>)
    requires |s| > 0 && ValidDraw(top)
    ensures |r| == |s| || |r| == |s| + 2
    ensures r[..|s|] == s
    ensures |r| == |s| + 2 <==> s[|s| - 1].x < Width - PipeInterval
    ensures |r| == |s| + 2 ==> r[|s|..] == SpawnPair(top)
  {
    if s[|s| - 1].x < Width - PipeInterval then s + SpawnPair(top) else s
  }

  /** The pipes that are kept: those whose left edge is right of -PipeWidth. */
  function Prune(s: seq<Rect>): (r: seq<Rect>)
    ensures |r| <= |s|
    ensures forall i :: 0 <= i < |r| ==> r[i].x > -PipeWidth
  {
    if s == [] then []
    else if s[0].x > -PipeWidth then [s[0]] + Prune(s[1..])
    else Prune(s[1..])
  }

  /** One tick of the pipe field: scroll, maybe spawn, prune. */
  function Advance(s: seq<Rect>, top: int): (r: seq<Rect>)
    requires |s| > 0 && ValidDraw(top)
  {
    Prune(MaybeSpawn(Scrolled(s), top))
  }

  /** Pruning keeps the relative order: it distributes over concatenation. */
  lemma {:induction false} PruneAppend(a: seq<Rect>, b: seq<Rect>)
    ensures Prune(a + b) == Prune(a) + Prune(b)
  {
    if a == [] {
      assert a + b == b;
    } else {
      assert (a + b)[0] == a[0];
      assert (a + b)[1..] == a[1..] + b;
      PruneAppend(a[1..], b);
    }
  }

  /** Pruning keeps exactly the pipes whose left edge is right of -PipeWidth. */
  lemma {:induction false} PruneMembers(s: seq<Rect>, p: Rect)
    ensures p in Prune(s) <==> p in s && p.x > -PipeWidth
  {
    if s != [] {
      PruneMembers(s[1..], p);
      assert s == [s[0]] + s[1..];
    }
  }

  /** A list in which every pipe is kept is left unchanged. */
  lemma {:induction false} PruneKeepsAll(s: seq<Rect>)
    requires forall i :: 0 <= i < |s| ==> s[i].x > -PipeWidth
    ensures Prune(s) == s
  {
    if s != [] {
      PruneKeepsAll(s[1..]);
    }
  }

  /** The newest pipe, when it is kept, stays the newest. */
  lemma {:induction false} PruneKeepsLast(s: seq<Rect>)
    requires |s| > 0 && s[|s| - 1].x > -PipeWidth
    ensures |Prune(s)| > 0 && Prune(s)[|Prune(s)| - 1] == s[|s| - 1]
  {
    var n := |s|;
    assert s == s[..n - 1] + [s[n - 1]];
    PruneAppend(s[..n - 1], [s[n - 1]]);
    assert Prune([s[n - 1]]) == [s[n - 1]];
  }

  /** On a sorted list the pruned pipes form a prefix: pruning drops the oldest pipes. */
  lemma {:induction false} PruneSortedIsSuffix(s: seq<Rect>)
    requires Sorted(s)
    ensures |Prune(s)| <= |s| && Prune(s) == s[|s| - |Prune(s)|..]
  {
    if s == [] {
    } else if s[0].x > -PipeWidth {
      PruneKeepsAll(s);
    } else {
      PruneSortedIsSuffix(s[1..]);
    }
  }

  lemma {:induction false} PairedAppend(a: seq<Rect>, b: seq<Rect>)
    requires Paired(a) && Paired(b)
    ensures Paired(a + b)
    decreases |a|
  {
    if a == [] {
      assert a + b == b;
    } else {
      assert (a + b)[2..] == a[2..] + b;
      PairedAppend(a[2..], b);
    }
  }

  lemma {:induction false} ScrolledPaired(s: seq<Rect>)
    requires Paired(s)
    ensures Paired(Scrolled(s))
    decreases |s|
  {
    if s != [] {
      assert Scrolled(s)[2..] == Scrolled(s[2..]);
      ScrolledPaired(s[2..]);
    }
  }

  /** The two halves of a pair share their x, so pruning keeps or drops them together. */
  lemma {:induction false} PrunePaired(s: seq<Rect>)
    requires Paired(s)
    ensures Paired(Prune(s))
    decreases |s|
  {
    if s != [] {
      assert s == s[..2] + s[2..];
      PruneAppend(s[..2], s[2..]);
      assert s[..2][1..] == [s[1]];
      assert Prune(s[..2]) == [] || Prune(s[..2]) == s[..2];
      PrunePaired(s[2..]);
      if Prune(s[..2]) != [] {
        assert (s[..2] + Prune(s[2..]))[2..] == Prune(s[2..]);
      }
    }
  }

  /** Every pipe of a paired list lies vertically within the field. */
  lemma {:induction false} PairedWithinHeight(s: seq<Rect>)
    requires Paired(s)
    ensures forall i :: 0 <= i < |s| ==> 0 <= s[i].y && s[i].y + s[i].h <= Height
    decreases |s|
  {
    if s != [] {
      PairedWithinHeight(s[2..]);
      forall i | 2 <= i < |s|
        ensures 0 <= s[i].y && s[i].y + s[i].h <= Height
      {
        assert s[i] == s[2..][i - 2];
      }
    }
  }

  /** The pipe-field invariant holds for the initial pair. */
  lemma {:induction false} InitialWellFormed(top: int)
    requires ValidDraw(top)
    ensures WellFormed(SpawnPair(top))
  {
  }

  /** The shape of the list between the scroll and the spawn step. */
  predicate ScrolledShape(s: seq<Rect>) {
    && |s| > 0 && s[|s| - 1].x >= Width - PipeInterval - 1
    && Sorted(s) && Paired(s) && XWithin(s, -PipeWidth - 1, Width - 1)
  }

  /** The shape of the list between the spawn and the prune step. */
  predicate SpawnedShape(s: seq<Rect>) {
    && |s| > 0 && s[|s| - 1].x >= Width - PipeInterval
    && Sorted(s) && Paired(s) && XWithin(s, -PipeWidth - 1, Width)
  }

  /** Scrolling keeps order and pairing and moves every pipe one unit left. */
  lemma {:induction false} ScrollStep(s: seq<Rect>)
    requires WellFormed(s)
    ensures ScrolledShape(Scrolled(s))
  {
    var r := Scrolled(s);
    assert |r| == |s| && r[|r| - 1].x == s[|s| - 1].x - 1;
    ScrolledPaired(s);
    ScrolledSorted(s);
    ScrolledWithin(s, -PipeWidth, Width);
  }

  lemma {:induction false} ScrolledSorted(s: seq<Rect>)
    requires Sorted(s)
    ensures Sorted(Scrolled(s))
  {
  }

  lemma {:induction false} ScrolledWithin(s: seq<Rect>, lo: int, hi: int)
    requires XWithin(s, lo, hi)
    ensures XWithin(Scrolled(s), lo - 1, hi - 1)
  {
  }

  /** Spawning appends a pair at the right edge, which is right of every scrolled pipe. */
  lemma {:induction false} SpawnStep(s: seq<Rect>, top: int)
    requires ScrolledShape(s) && ValidDraw(top)
    ensures SpawnedShape(MaybeSpawn(s, top))
  {
    var r := MaybeSpawn(s, top);
    if |r| > |s| {
      var pair := SpawnPair(top);
      assert r == s + pair;
      InitialWellFormed(top);
      PairedAppend(s, pair);
      assert Sorted(r) by {
        forall i, j | 0 <= i < j < |r| ensures r[i].x <= r[j].x {
          if j >= |s| {
            assert r[j] == pair[j - |s|];
          } else {
            assert r[i] == s[i] && r[j] == s[j];
          }
        }
      }
      assert XWithin(r, -PipeWidth - 1, Width) by {
        forall i | 0 <= i < |r| ensures -PipeWidth - 1 < r[i].x <= Width {
          if i >= |s| {
            assert r[i] == pair[i - |s|];
          } else {
            assert r[i] == s[i];
          }
        }
      }
    } else {
      assert r == s;
    }
  }

  /** Pruning keeps the newest pipe, hence the list stays non-empty, and it drops
      exactly the pipes that left the field. */
  lemma {:induction false} PruneStep(s: seq<Rect>)
    requires SpawnedShape(s)
    ensures WellFormed(Prune(s))
  {
    var n := |s|;
    var r := Prune(s);
    PruneSortedIsSuffix(s);
    var k := n - |r|;
    assert r == s[k..];
    assert Sorted(r) by {
      forall i, j | 0 <= i < j < |r| ensures r[i].x <= r[j].x {
        assert r[i] == s[k + i] && r[j] == s[k + j];
      }
    }
    assert InField(r) by {
      forall i | 0 <= i < |r| ensures -PipeWidth < r[i].x <= Width {
        assert r[i] == s[k + i];
      }
    }
    PruneKeepsLast(s);
    PrunePaired(s);
  }

  /** The pipe-field invariant is kept by every tick. */
  lemma {:induction false} AdvanceKeepsWellFormed(s: seq<Rect>, top: int)
    requires WellFormed(s) && ValidDraw(top)
    ensures WellFormed(Advance(s, top))
  {
    ScrollStep(s);
    SpawnStep(Scrolled(s), top);
    PruneStep(MaybeSpawn(Scrolled(s), top));
  }

  /** A bird entirely above or entirely below the field never collides with a
      well-formed pipe list: leaving the field vertically does not end the game. */
  lemma {:induction false} OffFieldNeverCollides(y: real, s: seq<Rect>)
    requires Paired(s)
    requires RectCoord(y) <= -BirdSize || RectCoord(y) >= Height
    ensures !Collides(y, s)
  {
    PairedWithinHeight(s);
  }
}
