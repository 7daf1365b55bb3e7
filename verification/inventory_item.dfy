/**
 * The inventory item record: five fields updated in place through setters,
 * and a natural ordering that compares names only, ignoring case
 * (Java's `String.compareToIgnoreCase`, restricted to ASCII case folding).
 */
module Inventory {
  import opened Wrappers
  import opened JavaInt
  import opened Text

  /** The field values of an item at one moment: what the remote store serialises. */
  datatype ItemValue = ItemValue(id: Option<string>, name: string, description: string, quantity: Int32, tag: string)

  /**
   * Java's `compareToIgnoreCase` on ASCII text: the difference of the first
   * pair of folded characters that differ, or else the difference of the lengths.
   */
  function CompareIgnoreCase(a: string, b: string): (r: int)
    ensures r == 0 ==> |a| == |b|
    ensures r == 0 ==> forall i :: 0 <= i < |a| ==> FoldChar(a[i]) == FoldChar(b[i])
    decreases |a|
  {
    if a == [] || b == [] then |a| - |b|
    else if FoldChar(a[0]) != FoldChar(b[0]) then FoldChar(a[0]) as int - FoldChar(b[0]) as int
    else CompareIgnoreCase(a[1..], b[1..])
  }

  /** The sign of the comparison is the lexicographic order of the case-folded names. */
  lemma {:induction false} CompareIgnoreCaseMeaning(a: string, b: string)
    ensures CompareIgnoreCase(a, b) == 0 <==> FoldCase(a) == FoldCase(b)
    ensures CompareIgnoreCase(a, b) < 0 <==> LexLess(FoldCase(a), FoldCase(b))
    decreases |a|
  {
    var fa, fb := FoldCase(a), FoldCase(b);
    LexLessEmpty(fa, fb);
    if a != [] && b != [] {
      if FoldChar(a[0]) != FoldChar(b[0]) {
        LexLessHead(fa, fb);
      } else {
        CompareIgnoreCaseMeaning(a[1..], b[1..]);
        LexLessTail(fa, fb);
        assert fa == [fa[0]] + fa[1..] && fb == [fb[0]] + fb[1..];
      }
    }
  }

  /** Swapping the operands negates the result exactly. */
  lemma {:induction false} CompareIgnoreCaseAntisymmetric(a: string, b: string)
    ensures CompareIgnoreCase(a, b) == -CompareIgnoreCase(b, a)
    decreases |a|
  {
    if a != [] && b != [] && FoldChar(a[0]) == FoldChar(b[0]) {
      CompareIgnoreCaseAntisymmetric(a[1..], b[1..]);
    }
  }

  /** Every name compares equal to itself. */
  lemma {:induction false} CompareIgnoreCaseReflexive(a: string)
    ensures CompareIgnoreCase(a, a) == 0
  {
    CompareIgnoreCaseMeaning(a, a);
  }

  /** "Not after" is transitive, so the ordering is a total preorder on names. */
  lemma CompareIgnoreCaseTransitive(a: string, b: string, c: string)
    requires CompareIgnoreCase(a, b) <= 0 && CompareIgnoreCase(b, c) <= 0
    ensures CompareIgnoreCase(a, c) <= 0
  {
    CompareIgnoreCaseMeaning(a, b);
    CompareIgnoreCaseMeaning(b, c);
    CompareIgnoreCaseMeaning(a, c);
    if CompareIgnoreCase(a, b) < 0 && CompareIgnoreCase(b, c) < 0 {
      LexLessTransitive(FoldCase(a), FoldCase(b), FoldCase(c));
    }
  }

  /** The names in the test suite's ordering checks. */
  lemma NameOrderingExamples()
    ensures CompareIgnoreCase("Test Item", "Alpha Item") > 0
    ensures CompareIgnoreCase("Test Item", "Zulu Item") < 0
  {
    assert FoldChar('T') == 't' && FoldChar('A') == 'a' && FoldChar('Z') == 'z';
  }

  /** Names that differ only in letter case compare equal. */
  lemma CaseOnlyDifferenceExample(a: string, b: string)
    requires a == "Test Item" && b == "test item"
    ensures CompareIgnoreCase(a, b) == 0
  {
    CompareIgnoreCaseMeaning(a, b);
    forall i | 0 <= i < 9
      ensures FoldChar(a[i]) == FoldChar(b[i])
    {
      if i == 0 || i == 5 {
      } else {
        assert a[i] == b[i];
      }
    }
    assert FoldCase(a) == FoldCase(b);
  }

  lemma LambdaOrderingExamples()
    ensures CompareIgnoreCase("Alpha Item", "Lambda Item") < 0
    ensures CompareIgnoreCase("Test Item", "Lambda Item") > 0
    ensures CompareIgnoreCase("Zulu Item", "Lambda Item") > 0
  {
    assert FoldChar('T') == 't' && FoldChar('A') == 'a' && FoldChar('Z') == 'z' && FoldChar('L') == 'l';
  }

  class InventoryItem {
    var id: Option<string>
    var name: string
    var description: string
    var quantity: Int32
    var tag: string

    /** The four-argument constructor; its assignment `this.id = id` reads the field itself, so the id stays null. */
    constructor (name: string, description: string, quantity: Int32, tag: string)
      ensures this.id == None
      ensures this.name == name && this.description == description
      ensures this.quantity == quantity && this.tag == tag
    {
      this.id := None;
      this.name := name;
      this.description := description;
      this.quantity := quantity;
      this.tag := tag;
    }

    /** The current field values. */
    function Snapshot(): ItemValue
      reads this
    {
      ItemValue(id, name, description, quantity, tag)
    }

    method SetId(id: Option<string>)
      modifies this
      ensures Snapshot() == old(Snapshot()).(id := id)
    {
      this.id := id;
    }

    method SetName(name: string)
      modifies this
      ensures Snapshot() == old(Snapshot()).(name := name)
    {
      this.name := name;
    }

    method SetDescription(description: string)
      modifies this
      ensures Snapshot() == old(Snapshot()).(description := description)
    {
      this.description := description;
    }

    method SetQuantity(quantity: Int32)
      modifies this
      ensures Snapshot() == old(Snapshot()).(quantity := quantity)
    {
      this.quantity := quantity;
    }

    method SetTag(tag: string)
      modifies this
      ensures Snapshot() == old(Snapshot()).(tag := tag)
    {
      this.tag := tag;
    }

    /** `compareTo`: looks at the two names only, and orders them by their case-folded text. */
    function CompareTo(o: InventoryItem): (r: int)
      reads this, o
      ensures r == CompareIgnoreCase(name, o.name)
      ensures r == 0 <==> FoldCase(name) == FoldCase(o.name)
      ensures r < 0 <==> LexLess(FoldCase(name), FoldCase(o.name))
    {
      CompareIgnoreCaseMeaning(name, o.name);
      CompareIgnoreCase(name, o.name)
    }
  }

  /** The comparison test: an item renamed to "Test Item" compares equal to one created with that name. */
  method RenamedItemComparesEqual() returns (r: int)
    ensures r == 0
  {
    var item := new InventoryItem("Test Item", "Test Description", 10, "Test Tag");
    var another := new InventoryItem("Another Item", "Description", 5, "Tag");
    another.SetName("Test Item");
    r := item.CompareTo(another);
    CompareIgnoreCaseReflexive("Test Item");
  }

  /** Every pair of items, in order, compares as "not after". */
  ghost predicate SortedByName(s: seq<ItemValue>) {
    forall i, j :: 0 <= i < j < |s| ==> CompareIgnoreCase(s[i].name, s[j].name) <= 0
  }

  /** Inserts `x` before the first item it does not come after. */
  function InsertByName(x: ItemValue, ys: seq<ItemValue>): (r: seq<ItemValue>)
    ensures multiset(r) == multiset(ys) + multiset{x}
  {
    if ys == [] then [x]
    else if CompareIgnoreCase(x.name, ys[0].name) <= 0 then [x] + ys
    else
      assert ys == [ys[0]] + ys[1..];
      [ys[0]] + InsertByName(x, ys[1..])
  }

  /** A stable insertion sort by `compareTo`, standing for Java's `List.sort`. */
  function SortByName(xs: seq<ItemValue>): (r: seq<ItemValue>)
    ensures multiset(r) == multiset(xs)
  {
    if xs == [] then []
    else
      assert xs == [xs[0]] + xs[1..];
      InsertByName(xs[0], SortByName(xs[1..]))
  }

  lemma {:induction false} InsertByNameSorted(x: ItemValue, ys: seq<ItemValue>)
    requires SortedByName(ys)
    ensures SortedByName(InsertByName(x, ys))
  {
    if ys == [] {
    } else if CompareIgnoreCase(x.name, ys[0].name) <= 0 {
      var r := [x] + ys;
      forall i, j | 0 <= i < j < |r|
        ensures CompareIgnoreCase(r[i].name, r[j].name) <= 0
      {
        if i == 0 && j > 1 {
          CompareIgnoreCaseTransitive(x.name, ys[0].name, ys[j - 1].name);
        }
      }
    } else {
      var rest := InsertByName(x, ys[1..]);
      InsertByNameSorted(x, ys[1..]);
      var r := [ys[0]] + rest;
      CompareIgnoreCaseAntisymmetric(x.name, ys[0].name);
      forall j | 0 < j < |r|
        ensures CompareIgnoreCase(ys[0].name, r[j].name) <= 0
      {
        assert r[j] in multiset(rest);
        if r[j] != x {
          assert r[j] in multiset(ys[1..]);
          var k :| 0 <= k < |ys[1..]| && ys[1..][k] == r[j];
          assert ys[k + 1] == r[j];
        }
      }
    }
  }

  /** Sorting yields a sorted permutation of its input. */
  lemma {:induction false} SortByNameCorrect(xs: seq<ItemValue>)
    ensures SortedByName(SortByName(xs))
    ensures multiset(SortByName(xs)) == multiset(xs)
  {
    if xs != [] {
      SortByNameCorrect(xs[1..]);
      InsertByNameSorted(xs[0], SortByName(xs[1..]));
      assert xs == [xs[0]] + xs[1..];
    }
  }

  /** The sorting test, first half: Alpha, Test and Zulu sort in that order. */
  lemma SortThreeScenario(alpha: ItemValue, test: ItemValue, zulu: ItemValue)
    requires alpha.name == "Alpha Item" && test.name == "Test Item" && zulu.name == "Zulu Item"
    ensures SortByName([alpha, test, zulu]) == [alpha, test, zulu]
  {
    NameOrderingExamples();
    CompareIgnoreCaseAntisymmetric("Alpha Item", "Test Item");
    assert [alpha, test, zulu][1..] == [test, zulu] && [test, zulu][1..] == [zulu];
    assert SortByName([zulu]) == [zulu] by { assert [zulu][1..] == []; }
    assert SortByName([test, zulu]) == [test, zulu];
  }

  lemma SortTailScenario(test: ItemValue, zulu: ItemValue, lambda: ItemValue)
    requires test.name == "Test Item" && zulu.name == "Zulu Item" && lambda.name == "Lambda Item"
    ensures SortByName([test, zulu, lambda]) == [lambda, test, zulu]
  {
    LambdaOrderingExamples();
    NameOrderingExamples();
    assert [test, zulu, lambda][1..] == [zulu, lambda] && [zulu, lambda][1..] == [lambda];
    assert SortByName([lambda]) == [lambda] by { assert [lambda][1..] == []; }
    assert SortByName([zulu, lambda]) == [lambda, zulu] by {
      assert [lambda][1..] == [];
      assert InsertByName(zulu, [lambda]) == [lambda] + InsertByName(zulu, []);
    }
    assert InsertByName(test, [lambda, zulu]) == [lambda] + InsertByName(test, [zulu]) by {
      assert [lambda, zulu][1..] == [zulu];
    }
  }

  /** The sorting test, second half: once Lambda is appended, the order is Alpha, Lambda, Test, Zulu. */
  lemma SortFourScenario(alpha: ItemValue, test: ItemValue, zulu: ItemValue, lambda: ItemValue)
    requires alpha.name == "Alpha Item" && test.name == "Test Item"
    requires zulu.name == "Zulu Item" && lambda.name == "Lambda Item"
    ensures SortByName([alpha] + [test, zulu, lambda]) == [alpha, lambda, test, zulu]
  {
    var tail := [test, zulu, lambda];
    SortTailScenario(test, zulu, lambda);
    LambdaOrderingExamples();
    SortByNameCons(alpha, tail);
    InsertByNameFront(alpha, [lambda, test, zulu]);
  }

  lemma SortByNameCons(x: ItemValue, xs: seq<ItemValue>)
    ensures SortByName([x] + xs) == InsertByName(x, SortByName(xs))
  {
    assert ([x] + xs)[1..] == xs;
  }

  lemma InsertByNameFront(x: ItemValue, ys: seq<ItemValue>)
    requires ys != [] && CompareIgnoreCase(x.name, ys[0].name) <= 0
    ensures InsertByName(x, ys) == [x] + ys
  {
  }
}
