/**
  Generic sequence operations that the dataframe expressions of the
  application reduce to: "first row where ..." (`.iloc[0]` of a boolean
  mask) and "drop repeated rows, keeping the first" (`drop_duplicates`,
  `unique`).
*/
module Seqs {
  import opened Wrappers

  /** No element occurs twice. */
  predicate Distinct<T(==)>(s: seq<T>) {
    forall i, j :: 0 <= i < j < |s| ==> s[i] != s[j]
  }

  /** The index of the first element, in sequence order, that satisfies `p`. */
  function FirstWhere<T>(s: seq<T>, p: T -> bool): (r: Option<nat>)
    ensures r.Some? ==> r.value < |s| && p(s[r.value])
    ensures r.Some? ==> forall j :: 0 <= j < r.value ==> !p(s[j])
    ensures r.None? <==> forall j :: 0 <= j < |s| ==> !p(s[j])
  {
    if |s| == 0 then None
    else if p(s[0]) then Some(0)
    else match FirstWhere(s[1..], p)
      case None => None
      case Some(i) => Some(i + 1)
  }

  /** The element found by `FirstWhere`, if any. */
  function FirstElement<T>(s: seq<T>, p: T -> bool): Option<T> {
    match FirstWhere(s, p)
    case None => None
    case Some(i) => Some(s[i])
  }

  /** A position that satisfies `p` with none before it is the one `FirstWhere` finds. */
  lemma FirstWhereIs<T>(s: seq<T>, p: T -> bool, i: nat)
    requires i < |s| && p(s[i])
    requires forall j :: 0 <= j < i ==> !p(s[j])
    ensures FirstWhere(s, p) == Some(i)
  {
  }

  /**
    Removes repeated elements, keeping the first occurrence of each, in the
    order of first occurrence (pandas `drop_duplicates()` and `unique()`).
  */
  function Dedup<T(==)>(s: seq<T>): (r: seq<T>)
    ensures forall i :: 0 <= i < |r| ==> r[i] in s
    ensures forall i :: 0 <= i < |s| ==> s[i] in r
    ensures Distinct(r)
  {
    if |s| == 0 then []
    else
      var d := Dedup(s[..|s| - 1]);
      var last := s[|s| - 1];
      assert s == s[..|s| - 1] + [last];
      if last in d then d else d + [last]
  }

  /** In a sequence without repetitions every member occurs exactly once. */
  lemma {:induction false} DistinctCounts<T>(s: seq<T>)
    requires Distinct(s)
    ensures forall x :: multiset(s)[x] == if x in s then 1 else 0
  {
    if |s| > 0 {
      var init, last := s[..|s| - 1], s[|s| - 1];
      assert s == init + [last];
      DistinctCounts(init);
      assert last !in init;
      forall x ensures multiset(s)[x] == if x in s then 1 else 0 {
        assert multiset(s) == multiset(init) + multiset{last};
        assert x in s <==> x in init || x == last;
      }
    }
  }

  /**
    Dropping repetitions keeps the first element that satisfies any
    predicate: the first match of `p` in `Dedup(s)` is the first match in `s`.
  */
  lemma {:induction false} DedupKeepsFirst<T>(s: seq<T>, p: T -> bool)
    ensures FirstElement(Dedup(s), p) == FirstElement(s, p)
  {
    if |s| > 0 {
      var init, last := s[..|s| - 1], s[|s| - 1];
      assert s == init + [last];
      DedupKeepsFirst(init, p);
      if FirstWhere(init, p).Some? {
        FirstMatchSurvivesAppend(init, last, p);
      } else {
        NoMatchBeforeLast(init, last, p);
      }
    }
  }

  /** `Dedup` of a sequence extended by one element. */
  lemma DedupAppend<T>(init: seq<T>, last: T)
    ensures Dedup(init + [last]) == if last in Dedup(init) then Dedup(init) else Dedup(init) + [last]
  {
    var s := init + [last];
    assert s[..|s| - 1] == init;
  }

  /** Appending an element changes neither first match once the prefix has one. */
  lemma FirstMatchSurvivesAppend<T>(init: seq<T>, last: T, p: T -> bool)
    requires FirstWhere(init, p).Some?
    requires FirstElement(Dedup(init), p) == FirstElement(init, p)
    ensures FirstElement(Dedup(init + [last]), p) == FirstElement(init + [last], p)
  {
    var s := init + [last];
    var d := Dedup(init);
    var ds := Dedup(s);
    DedupAppend(init, last);
    var i := FirstWhere(init, p).value;
    assert forall j :: 0 <= j <= i ==> s[j] == init[j];
    FirstWhereIs(s, p, i);
    var k := FirstWhere(d, p).value;
    assert forall j :: 0 <= j <= k ==> ds[j] == d[j];
    FirstWhereIs(ds, p, k);
  }

  /** When the prefix has no match, the appended element decides both first matches. */
  lemma NoMatchBeforeLast<T>(init: seq<T>, last: T, p: T -> bool)
    requires forall j :: 0 <= j < |init| ==> !p(init[j])
    ensures FirstElement(Dedup(init + [last]), p) == FirstElement(init + [last], p)
  {
    DedupAppend(init, last);
    NoMatchInDedup(init, p);
    if p(last) {
      LastIsFirstMatch(init, last, p);
      assert last !in Dedup(init);
      LastIsFirstMatch(Dedup(init), last, p);
    } else {
      NoMatchInAppend(init, last, p);
      NoMatchInAppend(Dedup(init), last, p);
    }
  }

  lemma NoMatchInDedup<T>(s: seq<T>, p: T -> bool)
    requires forall j :: 0 <= j < |s| ==> !p(s[j])
    ensures forall j :: 0 <= j < |Dedup(s)| ==> !p(Dedup(s)[j])
  {
    var d := Dedup(s);
    forall j | 0 <= j < |d| ensures !p(d[j]) {
      var k :| 0 <= k < |s| && s[k] == d[j];
    }
  }

  lemma LastIsFirstMatch<T>(init: seq<T>, last: T, p: T -> bool)
    requires forall j :: 0 <= j < |init| ==> !p(init[j])
    requires p(last)
    ensures FirstElement(init + [last], p) == Some(last)
  {
    FirstWhereIs(init + [last], p, |init|);
  }

  lemma NoMatchInAppend<T>(init: seq<T>, last: T, p: T -> bool)
    requires forall j :: 0 <= j < |init| ==> !p(init[j])
    requires !p(last)
    ensures FirstElement(init + [last], p) == None
  {
    var s := init + [last];
    forall j | 0 <= j < |s| ensures !p(s[j]) {
      if j < |init| { assert s[j] == init[j]; }
    }
  }
}
