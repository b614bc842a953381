/** The list of potentially misspelled words: original spellings kept in
    case-insensitive order, an exact duplicate never stored twice, and a word
    placed after every word that ties with it case-insensitively. */
module Candidates {
  import opened CaseFold

  /** Case-insensitively non-decreasing. */
  predicate Sorted(s: seq<string>) {
    forall i, j :: 0 <= i < j < |s| ==> AtMost(s[i], s[j])
  }

  /** No two entries are exactly (case-sensitively) equal. */
  predicate Distinct(s: seq<string>) {
    forall i, j :: 0 <= i < j < |s| ==> s[i] != s[j]
  }

  predicate Valid(s: seq<string>) { Sorted(s) && Distinct(s) }

  /** Where the scan places `w`: before the first entry that compares
      case-insensitively greater, or at the end. */
  function Position(s: seq<string>, w: string): (k: nat)
    ensures k <= |s|
    ensures forall j :: 0 <= j < k ==> AtMost(s[j], w)
    ensures k < |s| ==> CompareIgnoreCase(s[k], w) > 0
  {
    if s == [] || CompareIgnoreCase(s[0], w) > 0 then 0 else 1 + Position(s[1..], w)
  }

  /** The scan of the source's misspelling branch: stop without change at an
      exact match, insert before the first case-insensitively greater entry,
      append when there is none. */
  function Insert(s: seq<string>, w: string): (r: seq<string>)
  {
    if s == [] then [w]
    else if s[0] == w then s
    else if CompareIgnoreCase(s[0], w) > 0 then [w] + s
    else [s[0]] + Insert(s[1..], w)
  }

  /** Inserting adds `w` and nothing else. */
  lemma {:induction false} InsertElements(s: seq<string>, w: string)
    ensures forall x :: x in Insert(s, w) <==> x in s || x == w
  {
    if s != [] && s[0] != w && CompareIgnoreCase(s[0], w) <= 0 {
      InsertElements(s[1..], w);
      assert s == [s[0]] + s[1..];
    }
  }

  /** One step of the scan: an entry that neither equals `w` nor compares
      greater is passed over. */
  lemma InsertScanStep(s: seq<string>, i: nat, w: string)
    requires i < |s| && s[i] != w && CompareIgnoreCase(s[i], w) <= 0
    ensures s[..i] + Insert(s[i..], w) == s[..i + 1] + Insert(s[i + 1..], w)
  {
    assert s[i..][0] == s[i] && s[i..][1..] == s[i + 1..];
    assert s[..i + 1] == s[..i] + [s[i]];
  }

  /** Where the scan stops: at an exact match nothing changes; at an entry
      that compares greater, `w` goes in front of it. */
  lemma InsertScanStop(s: seq<string>, i: nat, w: string)
    requires i < |s|
    ensures s[i] == w ==> s[..i] + Insert(s[i..], w) == s
    ensures s[i] != w && CompareIgnoreCase(s[i], w) > 0 ==>
              s[..i] + Insert(s[i..], w) == s[..i] + [w] + s[i..]
  {
    assert s[i..][0] == s[i];
    assert s[..i] + s[i..] == s;
  }

  /** In a sorted list every entry after a greater one is greater too, so the
      scan cannot miss an exact duplicate: re-inserting it changes nothing. */
  lemma {:induction false} InsertPresent(s: seq<string>, w: string)
    requires Sorted(s) && w in s
    ensures Insert(s, w) == s
  {
    if s[0] != w {
      var j :| 0 <= j < |s| && s[j] == w;
      assert AtMost(s[0], s[j]);
      InsertPresent(s[1..], w);
    }
  }

  /** An absent word goes in at `Position`: after every entry that ties with
      it or sorts before it, before every entry that sorts after it. */
  lemma {:induction false} InsertAbsent(s: seq<string>, w: string)
    requires w !in s
    ensures Insert(s, w) == s[..Position(s, w)] + [w] + s[Position(s, w)..]
  {
    if s != [] && CompareIgnoreCase(s[0], w) <= 0 {
      InsertAbsent(s[1..], w);
      assert s[1..][..Position(s[1..], w)] == s[1..Position(s, w)];
      assert s[1..][Position(s[1..], w)..] == s[Position(s, w)..];
    }
  }

  /** Arrival order: in a sorted list, a new word goes in after every entry
      it ties with case-insensitively. */
  lemma ArrivalOrder(s: seq<string>, w: string, j: nat)
    requires Sorted(s) && w !in s && j < |s| && CompareIgnoreCase(s[j], w) == 0
    ensures j < Position(s, w)
  {
    var k := Position(s, w);
    if k < j {
      assert AtMost(s[k], s[j]);
      CompareTransitive(s[k], s[j], w);
    }
  }

  /** Inserting keeps the list sorted. */
  lemma {:induction false} InsertKeepsSorted(s: seq<string>, w: string)
    requires Sorted(s)
    ensures Sorted(Insert(s, w))
  {
    if s == [] {
    } else if s[0] == w {
    } else if CompareIgnoreCase(s[0], w) > 0 {
      CompareAntisymmetric(s[0], w);
      forall j | 0 <= j < |s| ensures AtMost(w, s[j]) {
        if j > 0 {
          CompareTransitive(w, s[0], s[j]);
        }
      }
    } else {
      InsertKeepsSorted(s[1..], w);
      InsertElements(s[1..], w);
      var t := Insert(s[1..], w);
      forall j | 0 <= j < |t| ensures AtMost(s[0], t[j]) {
        assert t[j] in t;
      }
    }
  }

  /** The entries of the list after an absent word went in at `k`. */
  lemma InsertAbsentAt(s: seq<string>, w: string, i: nat)
    requires w !in s && i <= |s|
    ensures |Insert(s, w)| == |s| + 1
    ensures var k := Position(s, w);
            Insert(s, w)[i] == if i < k then s[i] else if i == k then w else s[i - 1]
  {
    InsertAbsent(s, w);
  }

  /** Inserting into a valid list never stores an exact duplicate. */
  lemma InsertKeepsDistinct(s: seq<string>, w: string)
    requires Valid(s)
    ensures Distinct(Insert(s, w))
  {
    if w in s {
      InsertPresent(s, w);
    } else {
      InsertAbsent(s, w);
      var r := Insert(s, w);
      assert |r| == |s| + 1;
      forall i, j | 0 <= i < j < |r| ensures r[i] != r[j] {
        InsertAbsentAt(s, w, i);
        InsertAbsentAt(s, w, j);
      }
    }
  }

  /** The list's invariant survives every insertion, and `w` is in it. */
  lemma InsertKeepsValid(s: seq<string>, w: string)
    requires Valid(s)
    ensures Valid(Insert(s, w))
    ensures w in Insert(s, w)
  {
    InsertKeepsSorted(s, w);
    InsertKeepsDistinct(s, w);
    InsertElements(s, w);
  }

  /** In a sorted list, insertion adds one copy of `w` when it is absent and
      nothing when it is present. */
  lemma {:induction false} InsertMultiset(s: seq<string>, w: string)
    requires Sorted(s)
    ensures w in s ==> multiset(Insert(s, w)) == multiset(s)
    ensures w !in s ==> multiset(Insert(s, w)) == multiset(s) + multiset{w}
  {
    if w in s {
      InsertPresent(s, w);
    } else if s == [] {
    } else if CompareIgnoreCase(s[0], w) > 0 {
      assert Insert(s, w) == [w] + s;
    } else {
      var t := Insert(s[1..], w);
      assert Insert(s, w) == [s[0]] + t;
      assert s == [s[0]] + s[1..];
      assert Sorted(s[1..]) && w !in s[1..];
      InsertMultiset(s[1..], w);
      assert multiset(t) == multiset(s[1..]) + multiset{w};
    }
  }

  /** `cat` then `Cat`: tied words keep their arrival order. */
  lemma ArrivalOrderExample()
    ensures Insert(Insert([], "cat"), "Cat") == ["cat", "Cat"]
    ensures Insert(Insert([], "Cat"), "cat") == ["Cat", "cat"]
    ensures Insert(["apple", "zebra"], "Mango") == ["apple", "Mango", "zebra"]
  {
    FoldedEqualCompareZero("cat", "Cat");
    FoldedEqualCompareZero("Cat", "cat");
  }

  /** The entries separated by ", ". */
  function Join(s: seq<string>): string
  {
    if s == [] then ""
    else if |s| == 1 then s[0]
    else s[0] + ", " + Join(s[1..])
  }

  /** The list's rendering, `[a, b, c]`. */
  function Render(s: seq<string>): (r: string)
    ensures |r| >= 2 && r[0] == '[' && r[|r| - 1] == ']'
  {
    "[" + Join(s) + "]"
  }

  /** Appending an entry adds ", " and the entry before the closing bracket. */
  lemma {:induction false} JoinSnoc(s: seq<string>, w: string)
    requires s != []
    ensures Join(s + [w]) == Join(s) + ", " + w
  {
    if |s| == 1 {
      assert s + [w] == [s[0], w];
      assert [s[0], w][1..] == [w];
    } else {
      assert (s + [w])[1..] == s[1..] + [w];
      JoinSnoc(s[1..], w);
    }
  }

  lemma RenderExamples()
    ensures Render([]) == "[]"
    ensures Render(["apple"]) == "[apple]"
    ensures Render(["apple", "zebra"]) == "[apple, zebra]"
  {
    assert ["apple", "zebra"] == ["apple"] + ["zebra"];
    JoinSnoc(["apple"], "zebra");
  }
}
