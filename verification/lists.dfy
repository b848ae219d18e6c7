/** What it means to filter a list, to collect from it, and to rearrange it. */
module Lists {
  import opened Wrappers

  /** `after` is `before` without the elements `dropped` holds of, in the same order: `at` tells where
      each element comes from. */
  ghost predicate Selected<T(!new)>(before: seq<T>, after: seq<T>, dropped: T -> bool, at: seq<nat>) {
    && ComesFrom(before, after, dropped, at)
    && (forall i, j :: 0 <= i < j < |at| ==> at[i] < at[j])
    && (forall k :: 0 <= k < |before| && !dropped(before[k]) ==> k in at)
  }

  ghost predicate ComesFrom<T(!new)>(before: seq<T>, after: seq<T>, dropped: T -> bool, at: seq<nat>) {
    && |at| == |after|
    && forall i :: 0 <= i < |at| ==> at[i] < |before| && after[i] == before[at[i]] && !dropped(after[i])
  }

  function Shifted(at: seq<nat>): (r: seq<nat>)
    ensures |r| == |at| && forall i :: 0 <= i < |at| ==> r[i] == at[i] + 1
  {
    seq(|at|, i requires 0 <= i < |at| => at[i] + 1)
  }

  function Head<T>(before: seq<T>, dropped: T -> bool): seq<T>
    requires before != []
  {
    if dropped(before[0]) then [] else [before[0]]
  }

  lemma SelectedOneMore<T(!new)>(before: seq<T>, after: seq<T>, dropped: T -> bool, at: seq<nat>)
      returns (more: seq<nat>)
    requires before != [] && Selected(before[1..], after, dropped, at)
    ensures Selected(before, Head(before, dropped) + after, dropped, more)
  {
    more := (if dropped(before[0]) then [] else [0]) + Shifted(at);
    StillComesFrom(before, after, dropped, at);
    forall k | 0 <= k < |before| && !dropped(before[k]) ensures k in more {
      if k == 0 {
        assert more[0] == 0;
      } else {
        KeptIsSelected(before, dropped, at, k);
      }
    }
  }

  lemma StillComesFrom<T(!new)>(before: seq<T>, after: seq<T>, dropped: T -> bool, at: seq<nat>)
    requires before != [] && ComesFrom(before[1..], after, dropped, at)
    ensures ComesFrom(before, Head(before, dropped) + after, dropped,
                      (if dropped(before[0]) then [] else [0]) + Shifted(at))
  {
    var shifted := Shifted(at);
    assert forall i :: 0 <= i < |at| ==> before[1..][at[i]] == before[shifted[i]];
    if dropped(before[0]) {
      assert Head(before, dropped) + after == after;
    }
  }

  lemma KeptIsSelected<T(!new)>(before: seq<T>, dropped: T -> bool, at: seq<nat>, k: nat)
    requires 0 < k < |before| && !dropped(before[k])
    requires forall j :: 0 <= j < |before| - 1 && !dropped(before[1..][j]) ==> j in at
    ensures k in Shifted(at)
  {
    assert before[1..][k - 1] == before[k];
    var i :| 0 <= i < |at| && at[i] == k - 1;
    assert Shifted(at)[i] == k;
  }

  lemma SelectedPlusOne<T(!new)>(before: seq<T>, x: T, after: seq<T>, dropped: T -> bool, at: seq<nat>)
      returns (more: seq<nat>)
    requires Selected(before, after, dropped, at)
    ensures Selected(before + [x], if dropped(x) then after else after + [x], dropped, more)
  {
    var all := before + [x];
    assert forall i :: 0 <= i < |before| ==> all[i] == before[i];
    if dropped(x) {
      more := at;
      assert ComesFrom(all, after, dropped, more);
    } else {
      more := at + [|before|];
      assert more[|at|] == |before|;
      assert ComesFrom(all, after + [x], dropped, more);
    }
    forall k | 0 <= k < |all| && !dropped(all[k]) ensures k in more {
      if k < |before| {
        var i :| 0 <= i < |at| && at[i] == k;
        assert more[i] == k;
      }
    }
  }

  /** `after` has one element for each that counts in `before`, in the same order: `at` tells which is whose. */
  ghost predicate Collected<S(!new), T(!new)>(before: seq<S>, after: seq<T>, counts: S -> bool, gives: (S, T) -> bool,
      at: seq<nat>) {
    && |at| == |after|
    && (forall i :: 0 <= i < |at| ==> at[i] < |before|)
    && (forall i :: 0 <= i < |at| ==> counts(before[at[i]]) && gives(before[at[i]], after[i]))
    && (forall i, j :: 0 <= i < j < |at| ==> at[i] < at[j])
    && (forall k :: 0 <= k < |before| && counts(before[k]) ==> k in at)
  }

  function Listed<T>(y: Option<T>): seq<T> {
    if y.Some? then [y.value] else []
  }

  lemma CollectedPlusOne<S(!new), T(!new)>(before: seq<S>, x: S, after: seq<T>, y: Option<T>, counts: S -> bool,
      gives: (S, T) -> bool, at: seq<nat>) returns (more: seq<nat>)
    requires Collected(before, after, counts, gives, at)
    requires (y.Some? <==> counts(x)) && (y.Some? ==> gives(x, y.value))
    ensures Collected(before + [x], after + Listed(y), counts, gives, more)
  {
    var all := before + [x];
    assert forall k :: 0 <= k < |before| ==> all[k] == before[k];
    more := at;
    if y.Some? {
      more := at + [|before|];
      assert more[|at|] == |before| && all[|before|] == x;
    }
    forall k | 0 <= k < |all| && counts(all[k]) ensures k in more {
      if k < |before| {
        var i :| 0 <= i < |at| && at[i] == k;
        assert more[i] == k;
      }
    }
  }

  /** The places of `b`'s elements in `a`, each place once. */
  ghost predicate Rearranged<T(!new)>(a: seq<T>, b: seq<T>, at: seq<nat>) {
    && |at| == |a| == |b|
    && (forall i :: 0 <= i < |at| ==> at[i] < |a|)
    && (forall i :: 0 <= i < |at| ==> a[at[i]] == b[i])
    && (forall i, j :: 0 <= i < j < |at| ==> at[i] != at[j])
  }

  function Past(at: seq<nat>, j: nat): (r: seq<nat>)
    ensures |r| == |at| && forall i :: 0 <= i < |at| ==> r[i] == if at[i] < j then at[i] else at[i] + 1
  {
    seq(|at|, i requires 0 <= i < |at| => if at[i] < j then at[i] else at[i] + 1)
  }

  lemma WithoutOne<T>(a: seq<T>, b: seq<T>, j: nat)
    requires multiset(a) == multiset(b) && b != [] && j < |a| && a[j] == b[|b| - 1]
    ensures multiset(a[..j] + a[j + 1..]) == multiset(b[..|b| - 1])
  {
    var last := |b| - 1;
    assert b == b[..last] + [b[last]];
    assert multiset(b[..last]) == multiset(b) - multiset{b[last]};
    assert a == a[..j] + [a[j]] + a[j + 1..];
    assert multiset(a[..j] + a[j + 1..]) == multiset(a) - multiset{a[j]};
  }

  /** Lists of the same elements, counting repetitions, are rearrangements of each other. */
  lemma {:induction false} SameElementsRearranged<T(!new)>(a: seq<T>, b: seq<T>) returns (at: seq<nat>)
    requires multiset(a) == multiset(b)
    ensures Rearranged(a, b, at)
    decreases b
  {
    if b == [] {
      assert |multiset(a)| == 0;
      at := [];
    } else {
      var last := |b| - 1;
      assert b[last] in multiset(b);
      var j :| 0 <= j < |a| && a[j] == b[last];
      var rest := a[..j] + a[j + 1..];
      WithoutOne(a, b, j);
      var places := SameElementsRearranged(rest, b[..last]);
      at := Past(places, j) + [j];
      assert forall i :: 0 <= i < last ==> a[at[i]] == rest[places[i]];
    }
  }
}
