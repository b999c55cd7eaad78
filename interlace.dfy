/** The row order of an interlaced GIF image: the rows arrive in four
    passes, every eighth row from row 0, every eighth from row 4, every
    fourth from row 2 and every second from row 1 (appendix E of the GIF89a
    specification). `setPixels` turns the i-th row received into a
    destination line. */
module Interlace {
  import opened GifFormat

  /** The first row of each pass. */
  function PassStart(pass: int): int {
    if pass == 1 then 0 else if pass == 2 then 4 else if pass == 3 then 2 else 1
  }

  /** The row step of each pass. */
  function PassStep(pass: int): nat {
    if pass <= 2 then 8 else if pass == 3 then 4 else 2
  }

  /** `start`, `start + step`, ... below `h`. */
  function Run(start: int, step: nat, h: int): seq<int>
    requires step > 0
    decreases h - start
  {
    if start >= h then [] else [start] + Run(start + step, step, h)
  }

  /** The rows of passes `pass` to 4, in order. */
  function Passes(pass: int, h: int): seq<int>
    requires 1 <= pass <= 5
    decreases 5 - pass
  {
    if pass == 5 then [] else Run(PassStart(pass), PassStep(pass), h) + Passes(pass + 1, h)
  }

  /** The line each received row of an interlaced image of `h` rows belongs
      on, in the order the rows arrive. */
  function InterlacedRows(h: int): seq<int> {
    Passes(1, h)
  }

  /** The pass that carries row `r`. */
  function PassOf(r: int): int {
    if r % 8 == 0 then 1 else if r % 8 == 4 then 2 else if r % 4 == 2 then 3 else 4
  }

  /** Moving by one step keeps the remainder. */
  lemma ModStep(a: int, step: nat)
    requires step > 0
    ensures (a - step) % step == a % step
  {
    var q, m := (a - step) / step, (a - step) % step;
    assert a - step == step * q + m;
    assert a == step * (q + 1) + m;
    DivModUnique(a, step, q + 1, m);
  }

  /** A run holds exactly the rows from its start, below `h`, a whole
      number of steps on. */
  lemma {:induction false} RunMembers(start: int, step: nat, h: int, r: int)
    requires step > 0
    ensures r in Run(start, step, h) <==> start <= r < h && (r - start) % step == 0
    decreases h - start
  {
    if start < h {
      RunMembers(start + step, step, h, r);
      ModStep(r - start, step);
      if start < r < start + step {
        assert 0 < r - start < step;
      }
    }
  }

  /** A run is strictly increasing, and starts at its start. */
  lemma {:induction false} RunIncreasing(start: int, step: nat, h: int)
    requires step > 0
    ensures forall i, j :: 0 <= i < j < |Run(start, step, h)| ==> Run(start, step, h)[i] < Run(start, step, h)[j]
    ensures forall i :: 0 <= i < |Run(start, step, h)| ==> Run(start, step, h)[i] >= start
    decreases h - start
  {
    if start < h {
      RunIncreasing(start + step, step, h);
    }
  }

  /** A whole number of steps from `s` is a remainder of `s`. */
  lemma ModShift(r: int, s: int, step: nat)
    requires 0 <= s < step
    ensures (r - s) % step == 0 <==> r % step == s
  {
    var q, m := r / step, r % step;
    if m == s {
      DivModUnique(r - s, step, q, 0);
    } else if (r - s) % step == 0 {
      DivModUnique(r, step, (r - s) / step, s);
    }
  }

  /** The remainders by 4 and by 2 follow from the remainder by 8. */
  lemma Mod8(r: int)
    ensures r % 4 == r % 8 % 4 && r % 2 == r % 8 % 2
  {
    var q, m := r / 8, r % 8;
    DivModUnique(r, 4, 2 * q + m / 4, m % 4);
    DivModUnique(r, 2, 4 * q + m / 2, m % 2);
  }

  /** The rows of a pass are those whose pass it is. */
  lemma PassRows(pass: int, h: int, r: int)
    requires 1 <= pass <= 4
    ensures r in Run(PassStart(pass), PassStep(pass), h) <==> 0 <= r < h && PassOf(r) == pass
  {
    RunMembers(PassStart(pass), PassStep(pass), h, r);
    ModShift(r, PassStart(pass), PassStep(pass));
    Mod8(r);
  }

  /** Passes `pass` to 4 hold the rows carried by those passes. */
  lemma {:induction false} PassesMembers(pass: int, h: int, r: int)
    requires 1 <= pass <= 5
    ensures r in Passes(pass, h) <==> 0 <= r < h && pass <= PassOf(r)
    decreases 5 - pass
  {
    if pass < 5 {
      PassRows(pass, h, r);
      PassesMembers(pass + 1, h, r);
    }
  }

  /** No row arrives twice. */
  lemma {:induction false} PassesDistinct(pass: int, h: int)
    requires 1 <= pass <= 5
    ensures forall i, j :: 0 <= i < j < |Passes(pass, h)| ==> Passes(pass, h)[i] != Passes(pass, h)[j]
    decreases 5 - pass
  {
    if pass < 5 {
      var run, rest := Run(PassStart(pass), PassStep(pass), h), Passes(pass + 1, h);
      var all := Passes(pass, h);
      assert all == run + rest;
      RunIncreasing(PassStart(pass), PassStep(pass), h);
      PassesDistinct(pass + 1, h);
      forall i, j | 0 <= i < |run| <= j < |all|
        ensures all[i] != all[j]
      {
        assert all[i] in run && all[j] == rest[j - |run|] && all[j] in rest;
        PassRows(pass, h, all[i]);
        PassesMembers(pass + 1, h, all[j]);
      }
    }
  }

  /** The numbers below `h`. */
  ghost function Below(h: nat): set<int> {
    if h == 0 then {} else Below(h - 1) + {h - 1}
  }

  lemma {:induction false} BelowMembers(h: nat, r: int)
    ensures r in Below(h) <==> 0 <= r < h
  {
    if h > 0 {
      BelowMembers(h - 1, r);
    }
  }

  lemma {:induction false} BelowSize(h: nat)
    ensures |Below(h)| == h
  {
    if h > 0 {
      BelowSize(h - 1);
      BelowMembers(h - 1, h - 1);
    }
  }

  /** A sequence without repetitions is as long as the set of its elements. */
  lemma {:induction false} DistinctSize(s: seq<int>)
    requires forall i, j :: 0 <= i < j < |s| ==> s[i] != s[j]
    ensures |set x | x in s| == |s|
  {
    if |s| > 0 {
      var front := s[..|s| - 1];
      DistinctSize(front);
      assert (set x | x in s) == (set x | x in front) + {s[|s| - 1]};
      assert s[|s| - 1] !in front;
    }
  }

  /** A sequence without repetitions that holds exactly the numbers below
      `h` is a permutation of them. */
  lemma PermutationOfBelow(s: seq<int>, h: nat)
    requires forall i, j :: 0 <= i < j < |s| ==> s[i] != s[j]
    requires forall r :: r in s <==> 0 <= r < h
    ensures |s| == h
    ensures forall i :: 0 <= i < |s| ==> 0 <= s[i] < h
  {
    forall r
      ensures r in Below(h) <==> 0 <= r < h
    {
      BelowMembers(h, r);
    }
    assert (set x | x in s) == Below(h);
    DistinctSize(s);
    BelowSize(h);
    forall i | 0 <= i < |s|
      ensures 0 <= s[i] < h
    {
      assert s[i] in s;
    }
  }

  /** The rows of an interlaced image arrive once each: the order is a
      permutation of the lines `0 .. h - 1`. */
  lemma InterlacedRowsPermutation(h: nat)
    ensures |InterlacedRows(h)| == h
    ensures forall i :: 0 <= i < h ==> 0 <= InterlacedRows(h)[i] < h
    ensures forall i, j :: 0 <= i < j < h ==> InterlacedRows(h)[i] != InterlacedRows(h)[j]
    ensures forall r :: 0 <= r < h ==> r in InterlacedRows(h)
  {
    var rows := InterlacedRows(h);
    PassesDistinct(1, h);
    forall r
      ensures r in rows <==> 0 <= r < h
    {
      PassesMembers(1, h, r);
    }
    PermutationOfBelow(rows, h);
  }

  /** The pass switch of `setPixels` as written: the new `(iline, inc)`
      after the pass counter has been increased to `pass`. */
  function SwitchPass(pass: int, inc: int, iline: int): (int, int) {
    if pass == 2 then (4, inc)
    else if pass == 3 then (2, 4)
    else if pass == 4 then (1, 2)
    else (iline, inc)
  }

  /** The destination lines `setPixels` computes for rows `i ..` of an
      interlaced image of `h` rows, as written: a row that finds the pass
      exhausted moves on by one pass only, even when the next pass is
      empty too. */
  function AsWrittenFrom(h: int, i: int, pass: int, inc: int, iline: int): seq<int>
    decreases h - i
  {
    if i >= h then []
    else
      var next := if iline >= h then SwitchPass(pass + 1, inc, iline) else (iline, inc);
      var pass' := if iline >= h then pass + 1 else pass;
      [next.0] + AsWrittenFrom(h, i + 1, pass', next.1, next.0 + next.1)
  }

  function AsWrittenRows(h: int): seq<int> {
    AsWrittenFrom(h, 0, 1, 8, 0)
  }

  /** With two, three or four rows, the code as written puts the second
      row on line 4, outside the image, and leaves a line of the image
      unwritten (line 1, or line 3 of four); the intended order puts every
      row on a line of the image. */
  lemma InterlaceAsWrittenMisplaces(h: int)
    requires 2 <= h <= 4
    ensures |AsWrittenRows(h)| == h && AsWrittenRows(h)[1] == 4 >= h
    ensures (if h == 4 then 3 else 1) !in AsWrittenRows(h)
    ensures InterlacedRows(h)[1] < h && (if h == 4 then 3 else 1) in InterlacedRows(h)
  {
    InterlacedRowsPermutation(h);
    var rows := AsWrittenRows(h);
    assert rows == [0] + AsWrittenFrom(h, 1, 1, 8, 8);
    assert AsWrittenFrom(h, 1, 1, 8, 8) == [4] + AsWrittenFrom(h, 2, 2, 8, 12);
    if h == 2 {
      assert rows == [0, 4];
    } else {
      assert AsWrittenFrom(h, 2, 2, 8, 12) == [2] + AsWrittenFrom(h, 3, 3, 4, 6);
      if h == 3 {
        assert rows == [0, 4, 2];
      } else {
        assert AsWrittenFrom(h, 3, 3, 4, 6) == [1] + AsWrittenFrom(h, 4, 4, 2, 3);
        assert rows == [0, 4, 2, 1];
      }
    }
  }
}
