/** Order-preserving filters over sequences, stated for any element predicate so the line
    passes can reuse them with the line tests they need. */
module Sequences {

  /** The elements of `s` that satisfy `keep`, in order. */
  function Filter<T>(s: seq<T>, keep: T -> bool): seq<T>
    decreases |s|
  {
    if s == [] then []
    else
      var n := |s| - 1;
      Filter(s[..n], keep) + (if keep(s[n]) then [s[n]] else [])
  }

  /** Filtering is a homomorphism of concatenation. */
  lemma {:induction false} FilterAppend<T>(a: seq<T>, b: seq<T>, keep: T -> bool)
    ensures Filter(a + b, keep) == Filter(a, keep) + Filter(b, keep)
    decreases |b|
  {
    if b == [] {
      assert a + b == a;
    } else {
      var n := |b| - 1;
      var s := a + b;
      assert s[..|s| - 1] == a + b[..n];
      assert s[|s| - 1] == b[n];
      FilterAppend(a, b[..n], keep);
    }
  }

  /** One more element of the input, one step of the filtering loop. */
  lemma FilterStep<T>(s: seq<T>, i: nat, keep: T -> bool)
    requires i < |s|
    ensures Filter(s[..i + 1], keep) == Filter(s[..i], keep) + (if keep(s[i]) then [s[i]] else [])
  {
    assert s[..i + 1][..i] == s[..i];
  }

  lemma FilterSingle<T>(x: T, keep: T -> bool)
    ensures Filter([x], keep) == if keep(x) then [x] else []
  {
    assert [x][..0] == [];
  }

  /** The output holds exactly the elements of the input that satisfy `keep`. */
  lemma {:induction false} FilterMembers<T>(s: seq<T>, keep: T -> bool)
    ensures forall x :: x in Filter(s, keep) <==> x in s && keep(x)
    decreases |s|
  {
    if s != [] {
      var n := |s| - 1;
      FilterMembers(s[..n], keep);
      assert s == s[..n] + [s[n]];
    }
  }

  /** Filtering keeps everything when every element satisfies `keep`. */
  lemma {:induction false} FilterAll<T>(s: seq<T>, keep: T -> bool)
    requires forall i | 0 <= i < |s| :: keep(s[i])
    ensures Filter(s, keep) == s
    decreases |s|
  {
    if s != [] {
      var n := |s| - 1;
      var init := s[..n];
      forall i | 0 <= i < n ensures keep(init[i]) {
        assert init[i] == s[i];
      }
      FilterAll(init, keep);
      assert Filter(s, keep) == Filter(init, keep) + [s[n]];
      assert init + [s[n]] == s;
    }
  }

  /** Filters that agree on the elements of `s` pick the same elements. */
  lemma {:induction false} FilterCongruent<T>(s: seq<T>, p: T -> bool, q: T -> bool)
    requires forall i | 0 <= i < |s| :: p(s[i]) == q(s[i])
    ensures Filter(s, p) == Filter(s, q)
    decreases |s|
  {
    if s != [] {
      FilterCongruent(s[..|s| - 1], p, q);
    }
  }

  function Not<T>(p: T -> bool): T -> bool {
    x => !p(x)
  }

  /** The collapse only drops elements. */
  lemma {:induction false} CollapseSubset<T>(s: seq<T>, p: T -> bool)
    ensures forall x | x in Collapse(s, p) :: x in s
    decreases |s|
  {
    if s != [] {
      var n := |s| - 1;
      CollapseSubset(s[..n], p);
      assert forall x | x in s[..n] :: x in s;
    }
  }

  /** No two neighbours both satisfy `p`. */
  predicate NoRepeats<T>(s: seq<T>, p: T -> bool) {
    forall i | 0 < i < |s| :: !(p(s[i - 1]) && p(s[i]))
  }

  /** `s` without every element that satisfies `p` and follows one that does. */
  function Collapse<T>(s: seq<T>, p: T -> bool): seq<T>
    decreases |s|
  {
    if s == [] then []
    else
      var n := |s| - 1;
      Collapse(s[..n], p) + (if n > 0 && p(s[n - 1]) && p(s[n]) then [] else [s[n]])
  }

  /** One more element of the input, one step of the collapsing loop. */
  lemma CollapseStep<T>(s: seq<T>, i: nat, p: T -> bool)
    requires i < |s|
    ensures Collapse(s[..i + 1], p)
      == Collapse(s[..i], p) + (if i > 0 && p(s[i - 1]) && p(s[i]) then [] else [s[i]])
  {
    assert s[..i + 1][..i] == s[..i];
  }

  lemma {:induction false} CollapseLast<T>(s: seq<T>, p: T -> bool)
    requires s != []
    ensures Collapse(s, p) != []
    ensures p(Collapse(s, p)[|Collapse(s, p)| - 1]) == p(s[|s| - 1])
    decreases |s|
  {
    var n := |s| - 1;
    if n > 0 {
      CollapseLast(s[..n], p);
    }
  }

  /** After the collapse no two neighbours satisfy `p`, including runs already in the input. */
  lemma {:induction false} CollapseNoRepeats<T>(s: seq<T>, p: T -> bool)
    ensures NoRepeats(Collapse(s, p), p)
    decreases |s|
  {
    if s != [] {
      var n := |s| - 1;
      CollapseNoRepeats(s[..n], p);
      if n > 0 {
        CollapseLast(s[..n], p);
      }
    }
  }

  /** The collapse keeps every element that does not satisfy `p`, in order. */
  lemma {:induction false} CollapseKeepsOthers<T>(s: seq<T>, p: T -> bool)
    ensures Filter(Collapse(s, p), Not(p)) == Filter(s, Not(p))
    decreases |s|
  {
    if s != [] {
      var n := |s| - 1;
      var c := Collapse(s[..n], p);
      CollapseKeepsOthers(s[..n], p);
      var tail := if n > 0 && p(s[n - 1]) && p(s[n]) then [] else [s[n]];
      var kept := if Not(p)(s[n]) then [s[n]] else [];
      assert Collapse(s, p) == c + tail;
      assert Filter(s, Not(p)) == Filter(s[..n], Not(p)) + kept;
      FilterAppend(c, tail, Not(p));
      assert Not(p)(s[n]) == !p(s[n]);
      if tail == [] {
        assert kept == [];
        assert Filter(tail, Not(p)) == [];
      } else {
        FilterSingle(s[n], Not(p));
      }
    }
  }

  /** An element that is kept and does not satisfy `p` survives the filter and the collapse. */
  lemma CollapseKeeps<T>(s: seq<T>, keep: T -> bool, p: T -> bool, x: T)
    requires x in s && keep(x) && !p(x)
    ensures x in Collapse(Filter(s, keep), p)
  {
    var kept := Filter(s, keep);
    FilterMembers(s, keep);
    CollapseKeepsOthers(kept, p);
    FilterMembers(kept, Not(p));
    FilterMembers(Collapse(kept, p), Not(p));
  }

  /** What holds no repeated neighbour passes unchanged, so the collapse is idempotent. */
  lemma {:induction false} CollapseUnchanged<T>(s: seq<T>, p: T -> bool)
    requires NoRepeats(s, p)
    ensures Collapse(s, p) == s
    decreases |s|
  {
    if s != [] {
      var n := |s| - 1;
      CollapseUnchanged(s[..n], p);
      assert s[..n] + [s[n]] == s;
    }
  }

  lemma CollapseIdempotent<T>(s: seq<T>, p: T -> bool)
    ensures Collapse(Collapse(s, p), p) == Collapse(s, p)
  {
    CollapseNoRepeats(s, p);
    CollapseUnchanged(Collapse(s, p), p);
  }

  /** A prefix of the tail, with the head put back, is a prefix. */
  lemma ConsPrefix<T>(s: seq<T>, k: nat, x: seq<T>, y: seq<T>, z: seq<T>)
    requires k < |s| && x == [s[0]] + y && y == s[1..][..k] + z
    ensures x == s[..k + 1] + z && s[1..][k..] == s[k + 1..]
  {
    assert [s[0]] + s[1..][..k] == s[..k + 1];
  }

  /** Text spliced in after a prefix of a suffix of the tail agrees with the original up to the splice. */
  lemma SpliceAgrees<T>(s: seq<T>, m: nat, k: nat, out: seq<T>, y: seq<T>, z: seq<T>, tail: seq<T>)
    requires 0 < |s| && m + k < |s|
    requires out == [s[0]] + y && y == s[1..][..m] + z && z == s[1..][m..][..k] + tail
    ensures 1 + m + k <= |out| && forall i | 0 <= i < 1 + m + k :: out[i] == s[i]
  {
    assert out == s[..1 + m + k] + tail;
  }

  lemma Associate3<T>(a: seq<T>, b: seq<T>, c: seq<T>)
    ensures a + b + c == a + (b + c)
  {
  }

  lemma Associate<T>(a: seq<T>, b: seq<T>, c: seq<T>, d: seq<T>)
    ensures a + b + c + d == a + (b + c + d)
  {
  }

  /** The backward scan `while j > lo and skip(s[j]): j -= 1`, started at `j`. */
  function ScanBack<T>(s: seq<T>, j: int, lo: int, skip: T -> bool): (r: int)
    requires -1 <= j < |s| && -1 <= lo
    ensures r <= j && (j <= lo ==> r == j) && (j > lo ==> lo <= r)
    ensures r > lo ==> !skip(s[r])
    decreases j + 1
  {
    if j > lo && skip(s[j]) then ScanBack(s, j - 1, lo, skip) else j
  }

  /** Everything the backward scan passes over is skippable. */
  lemma {:induction false} ScanBackSkipped<T>(s: seq<T>, j: int, lo: int, skip: T -> bool)
    requires -1 <= j < |s| && -1 <= lo
    ensures forall k | ScanBack(s, j, lo, skip) < k <= j :: skip(s[k])
    decreases j + 1
  {
    if j > lo && skip(s[j]) {
      ScanBackSkipped(s, j - 1, lo, skip);
    }
  }

  /** The forward scan `while i < len(s) and not stop(s[i]): i += 1`, started at `i`. */
  function ScanForward<T>(s: seq<T>, i: nat, stop: T -> bool): (r: nat)
    requires i <= |s|
    ensures i <= r <= |s| && (r < |s| ==> stop(s[r]))
    decreases |s| - i
  {
    if i < |s| && !stop(s[i]) then ScanForward(s, i + 1, stop) else i
  }

  /** Nothing the forward scan passes over stops it. */
  lemma {:induction false} ScanForwardPassed<T>(s: seq<T>, i: nat, stop: T -> bool)
    requires i <= |s|
    ensures forall k | i <= k < ScanForward(s, i, stop) :: !stop(s[k])
    decreases |s| - i
  {
    if i < |s| && !stop(s[i]) {
      ScanForwardPassed(s, i + 1, stop);
    }
  }

  lemma TakeStep<T>(s: seq<T>, i: nat)
    requires i < |s|
    ensures s[..i + 1] == s[..i] + [s[i]]
  {
  }

  /** `t` inserted into `s` before position `p`, that is `s[..p] + t + s[p..]` (`SpliceIs`).
      Each element of the result is described by its own position only, so that these facts
      never produce new positions of the result. */
  function Splice<T>(s: seq<T>, p: nat, t: seq<T>): (r: seq<T>)
    requires p <= |s|
    ensures |r| == |s| + |t|
    ensures forall i {:trigger r[i]} | 0 <= i < p :: r[i] == s[i]
    ensures forall i {:trigger r[i]} | p <= i < p + |t| :: r[i] == t[i - p]
    ensures forall i {:trigger r[i]} | p + |t| <= i < |r| :: r[i] == s[i - |t|]
  {
    seq(|s| + |t|, i requires 0 <= i < |s| + |t| => if i < p then s[i] else if i < p + |t| then t[i - p] else s[i - |t|])
  }

  lemma SpliceIs<T>(s: seq<T>, p: nat, t: seq<T>)
    requires p <= |s|
    ensures Splice(s, p, t) == s[..p] + t + s[p..]
  {
  }

  /** The inserted part sits at `p`. */
  lemma SpliceMiddle<T>(s: seq<T>, p: nat, t: seq<T>)
    requires p <= |s|
    ensures Splice(s, p, t)[p..p + |t|] == t
  {
  }
}
