/** The order in which a scan with `swap_remove` takes matches out of a list (src/vm/scheduler.rs:270-281): on the
    list of flags that say which entries match. */
module WakeOrder {

  /** The positions of the matches from `i` up to `m`, in order. */
  function Hits(b: seq<bool>, i: nat, m: nat): (r: seq<nat>)
    requires m <= |b|
    ensures forall j :: 0 <= j < |r| ==> i <= r[j] < m
    decreases m - i
  {
    if i >= m then [] else if b[i] then [i] + Hits(b, i + 1, m) else Hits(b, i + 1, m)
  }

  /** What the scan takes out, by position in the original list: `m` entries are left, the one at `i` came from
      position `c`, and those after it are where they were. */
  function Scan(b: seq<bool>, i: nat, m: nat, c: nat): (r: seq<nat>)
    requires m <= |b| && (i < m ==> c < |b|)
    ensures forall j :: 0 <= j < |r| ==> r[j] < |b|
    decreases m - i
  {
    if i >= m then []
    else if !b[c] then Scan(b, i + 1, m, i + 1)
    else if i == m - 1 then [c]
    else [c] + Scan(b, i, m - 1, m - 1)
  }

  /** When match number `j` is to come out, the entry at `m - j` has been moved up: it is no match, or it is that
      one or comes before it. */
  predicate KeptAt(b: seq<bool>, h: seq<nat>, m: nat, j: nat)
    requires j < |h| && m <= |b|
  {
    1 <= j <= m ==> !b[m - j] || h[j] >= m - j
  }

  predicate OrderKept(b: seq<bool>, h: seq<nat>, m: nat)
    requires m <= |b|
  {
    forall j: nat :: j < |h| ==> KeptAt(b, h, m, j)
  }

  lemma {:induction false} HitsEnd(b: seq<bool>, i: nat, m: nat)
    requires i < m <= |b|
    ensures Hits(b, i, m) == Hits(b, i, m - 1) + if b[m - 1] then [m - 1] else []
    decreases m - i
  {
    if i < m - 1 {
      HitsEnd(b, i + 1, m);
    }
  }

  /** Once no match is left, none comes out. */
  lemma {:induction false} NoneLeft(b: seq<bool>, i: nat, m: nat, c: nat)
    requires m <= |b| && (i < m ==> c < |b| && !b[c]) && Hits(b, i + 1, m) == []
    ensures Scan(b, i, m, c) == []
    decreases m - i
  {
    if i + 1 < m {
      assert !b[i + 1];
      NoneLeft(b, i + 1, m, i + 1);
    }
  }

  lemma {:induction false} ScanOrder(b: seq<bool>, i: nat, m: nat)
    requires m <= |b|
    ensures Scan(b, i, m, i) == Hits(b, i, m) <==> OrderKept(b, Hits(b, i, m), m)
    decreases m - i
  {
    hide OrderKept, KeptAt;
    if i >= m {
      KeptIfFew(b, Hits(b, i, m), m);
    } else if !b[i] {
      ScanOrder(b, i + 1, m);
    } else if i == m - 1 {
      KeptIfFew(b, Hits(b, i, m), m);
    } else if b[m - 1] {
      MatchAtEnd(b, i, m);
    } else {
      GapFilled(b, i, m);
      ScanOrder(b, i + 1, m - 1);
      SameTail(i, Scan(b, i + 1, m - 1, i + 1), Hits(b, i + 1, m - 1));
    }
  }

  lemma SameTail(x: nat, s: seq<nat>, t: seq<nat>)
    ensures [x] + s == [x] + t <==> s == t
  {
    if [x] + s == [x] + t {
      assert s == ([x] + s)[1..] == ([x] + t)[1..] == t;
    }
  }

  lemma KeptIfFew(b: seq<bool>, h: seq<nat>, m: nat)
    requires |h| <= 1 && m <= |b|
    ensures OrderKept(b, h, m)
  {
  }

  /** The last entry, which is no match, fills the gap: the scan goes on as on a list without it. */
  lemma GapFilled(b: seq<bool>, i: nat, m: nat)
    requires i + 1 < m <= |b| && b[i] && !b[m - 1]
    ensures Scan(b, i, m, i) == [i] + Scan(b, i + 1, m - 1, i + 1)
    ensures Hits(b, i, m) == [i] + Hits(b, i + 1, m - 1)
    ensures OrderKept(b, Hits(b, i, m), m) <==> OrderKept(b, Hits(b, i + 1, m - 1), m - 1)
  {
    hide OrderKept;
    HitsEnd(b, i + 1, m);
    KeptByOne(b, i, Hits(b, i + 1, m - 1), m);
  }

  lemma KeptByOne(b: seq<bool>, i: nat, g: seq<nat>, m: nat)
    requires 1 < m <= |b| && !b[m - 1]
    ensures OrderKept(b, [i] + g, m) <==> OrderKept(b, g, m - 1)
  {
    var h := [i] + g;
    var n := m - 1;
    if OrderKept(b, h, m) {
      forall j: nat | j < |g| ensures KeptAt(b, g, n, j) {
        assert KeptAt(b, h, m, j + 1) && h[j + 1] == g[j];
      }
    }
    if OrderKept(b, g, m - 1) {
      forall j: nat | j < |h| ensures KeptAt(b, h, m, j) {
        if j > 0 {
          assert KeptAt(b, g, m - 1, j - 1) && h[j] == g[j - 1];
        }
      }
    }
  }

  /** The last entry is a match and overtakes every other one that is left. */
  lemma MatchAtEnd(b: seq<bool>, i: nat, m: nat)
    requires i + 1 < m <= |b| && b[i] && b[m - 1]
    ensures Scan(b, i, m, i) == Hits(b, i, m) <==> OrderKept(b, Hits(b, i, m), m)
  {
    hide OrderKept;
    var between, more := Hits(b, i + 1, m - 1), Scan(b, i, m - 1, m - 1);
    HitsEnd(b, i + 1, m);
    assert Scan(b, i, m, i) == [i] + more && more != [] && more[0] == m - 1;
    assert Hits(b, i, m) == [i] + (between + [m - 1]);
    SameTail(i, more, between + [m - 1]);
    if between == [] {
      LastMatch(b, i, m);
      PairKept(b, i, m);
      assert [i] + (between + [m - 1]) == [i, m - 1] && between + [m - 1] == more;
    } else {
      NotKept(b, i, between, m);
      assert (between + [m - 1])[0] == between[0];
    }
  }

  lemma PairKept(b: seq<bool>, i: nat, m: nat)
    requires 0 < m <= |b|
    ensures OrderKept(b, [i, m - 1], m)
  {
  }

  lemma NotKept(b: seq<bool>, i: nat, between: seq<nat>, m: nat)
    requires 0 < m <= |b| && b[m - 1] && between != [] && between[0] < m - 1
    ensures !OrderKept(b, [i] + (between + [m - 1]), m)
  {
    var h := [i] + (between + [m - 1]);
    assert h[1] == between[0];
    assert !KeptAt(b, h, m, 1);
  }

  lemma LastMatch(b: seq<bool>, i: nat, m: nat)
    requires i + 1 < m <= |b| && b[m - 1] && Hits(b, i + 1, m - 1) == []
    ensures Scan(b, i, m - 1, m - 1) == [m - 1]
  {
    if i + 1 < m - 1 {
      HitsEnd(b, i + 1, m - 1);
      NoneLeft(b, i, m - 2, m - 2);
    }
  }

  lemma {:induction false} AllHits(b: seq<bool>, i: nat)
    requires i <= |b| && forall k :: 0 <= k < |b| ==> b[k]
    ensures |Hits(b, i, |b|)| == |b| - i && forall j :: 0 <= j < |b| - i ==> Hits(b, i, |b|)[j] == i + j
    decreases |b| - i
  {
    if i < |b| {
      AllHits(b, i + 1);
    }
  }
}
