/** Sorting strings by code unit, as the default array sort does. */
module SortedText {

  /** Lexicographic order, shorter prefixes first. */
  predicate AtMost(a: string, b: string) {
    a == "" || (b != "" && (a[0] < b[0] || (a[0] == b[0] && AtMost(a[1..], b[1..]))))
  }

  lemma {:induction false} Total(a: string, b: string)
    ensures AtMost(a, b) || AtMost(b, a)
  {
    if a != "" && b != "" && a[0] == b[0] { Total(a[1..], b[1..]); }
  }

  lemma {:induction false} Transitive(a: string, b: string, c: string)
    requires AtMost(a, b) && AtMost(b, c)
    ensures AtMost(a, c)
  {
    if a != "" && a[0] == b[0] && b[0] == c[0] { Transitive(a[1..], b[1..], c[1..]); }
  }

  lemma {:induction false} Antisymmetric(a: string, b: string)
    requires AtMost(a, b) && AtMost(b, a)
    ensures a == b
  {
    if a != "" {
      Antisymmetric(a[1..], b[1..]);
      assert a == [a[0]] + a[1..] && b == [b[0]] + b[1..];
    }
  }

  ghost predicate Sorted(texts: seq<string>) {
    forall i, j :: 0 <= i < j < |texts| ==> AtMost(texts[i], texts[j])
  }

  function Insert(text: string, sorted: seq<string>): (r: seq<string>)
    ensures multiset(r) == multiset(sorted) + multiset{text}
  {
    if sorted == [] || AtMost(text, sorted[0]) then [text] + sorted
    else
      assert sorted == [sorted[0]] + sorted[1..];
      [sorted[0]] + Insert(text, sorted[1..])
  }

  function Sort(texts: seq<string>): (r: seq<string>)
    ensures multiset(r) == multiset(texts)
  {
    if texts == [] then []
    else
      assert texts == [texts[0]] + texts[1..];
      Insert(texts[0], Sort(texts[1..]))
  }

  lemma {:induction false} InsertKeepsSorted(text: string, sorted: seq<string>)
    requires Sorted(sorted)
    ensures Sorted(Insert(text, sorted))
  {
    var r := Insert(text, sorted);
    if sorted == [] {
    } else if AtMost(text, sorted[0]) {
      forall j | 0 <= j < |sorted| ensures AtMost(text, sorted[j]) {
        if j > 0 { Transitive(text, sorted[0], sorted[j]); }
      }
    } else {
      Total(text, sorted[0]);
      InsertKeepsSorted(text, sorted[1..]);
      forall j | 0 < j < |r| ensures AtMost(r[0], r[j]) {
        assert r[j] in multiset(r[1..]) && r[1..] == Insert(text, sorted[1..]);
        assert r[j] == text || r[j] in sorted[1..];
      }
    }
  }

  lemma {:induction false} SortSorts(texts: seq<string>)
    ensures Sorted(Sort(texts))
  {
    if texts != [] {
      SortSorts(texts[1..]);
      InsertKeepsSorted(texts[0], Sort(texts[1..]));
    }
  }

  lemma AtMostItself(a: string)
    ensures AtMost(a, a)
  {
    Total(a, a);
  }

  lemma FirstIsLeast(texts: seq<string>, text: string)
    requires Sorted(texts) && text in texts
    ensures AtMost(texts[0], text)
  {
    AtMostItself(text);
  }

  lemma SameFirst(a: seq<string>, b: seq<string>)
    requires Sorted(a) && Sorted(b) && multiset(a) == multiset(b) && a != [] && b != []
    ensures a[0] == b[0]
  {
    assert b[0] in multiset(a) && a[0] in multiset(b);
    FirstIsLeast(a, b[0]);
    FirstIsLeast(b, a[0]);
    Antisymmetric(a[0], b[0]);
  }

  lemma FirstTakenAway(texts: seq<string>)
    requires texts != []
    ensures multiset(texts[1..]) == multiset(texts) - multiset{texts[0]}
  {
    assert texts == [texts[0]] + texts[1..];
  }

  lemma SameLength(a: seq<string>, b: seq<string>)
    requires multiset(a) == multiset(b)
    ensures |a| == |b|
  {
    assert |multiset(a)| == |a| && |multiset(b)| == |b|;
  }

  /** There is one sorted arrangement of a multiset of strings. */
  lemma {:induction false} SortedIsUnique(a: seq<string>, b: seq<string>)
    requires Sorted(a) && Sorted(b) && multiset(a) == multiset(b)
    ensures a == b
    decreases |a|
  {
    SameLength(a, b);
    if a != [] {
      SameFirst(a, b);
      FirstTakenAway(a);
      FirstTakenAway(b);
      SortedIsUnique(a[1..], b[1..]);
      assert a == [a[0]] + a[1..] && b == [b[0]] + b[1..];
    }
  }
}
