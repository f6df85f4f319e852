/**
 * The help center (src/components/helpcenter.tsx): the search over the
 * question catalogue, the result count, and the accordion's single open
 * section.
 */
module HelpCenter {
  import opened Text
  import opened Wrappers

  datatype Item = Item(question: string, answer: string, tags: Option<seq<string>>)

  datatype Category = Category(title: string, content: seq<Item>)

  /** One block of the result list: a category title and its matching items. */
  datatype Hit = Hit(category: string, items: seq<Item>)

  datatype Page = Page(query: string, results: seq<Hit>, showResults: bool, openSection: Option<nat>)

  const MinQueryLength: nat := 2

  /** Some tag contains the (lower-cased) query, ignoring case. */
  predicate TagMatches(tags: seq<string>, lq: string) {
    exists i :: 0 <= i < |tags| && Contains(Lower(tags[i]), lq)
  }

  /** The question, the answer or one of the tags contains the query, ignoring case. */
  predicate Matches(item: Item, q: string) {
    var lq := Lower(q);
    Contains(Lower(item.question), lq) ||
    Contains(Lower(item.answer), lq) ||
    (item.tags.Some? && TagMatches(item.tags.value, lq))
  }

  /** `a` is `b` with some elements dropped, the rest in order. */
  predicate Subsequence<T(==)>(a: seq<T>, b: seq<T>)
    decreases |b|
  {
    if |a| == 0 then true
    else if |b| == 0 then false
    else if a[|a| - 1] == b[|b| - 1] then Subsequence(a[..|a| - 1], b[..|b| - 1])
    else Subsequence(a, b[..|b| - 1])
  }

  /** `content.filter(matches)`. */
  function FilterItems(items: seq<Item>, q: string): (r: seq<Item>)
    ensures forall x :: x in r <==> x in items && Matches(x, q)
  {
    if |items| == 0 then []
    else
      var rest := FilterItems(items[..|items| - 1], q);
      var x := items[|items| - 1];
      assert forall y :: y in items <==> y in items[..|items| - 1] || y == x;
      if Matches(x, q) then rest + [x] else rest
  }

  /** The number of items that match, counted directly. */
  function CountMatching(items: seq<Item>, q: string): nat {
    if |items| == 0 then 0
    else CountMatching(items[..|items| - 1], q) + (if Matches(items[|items| - 1], q) then 1 else 0)
  }

  /** The filter keeps exactly the matching items, in catalogue order. */
  lemma {:induction false} FilterKeepsOrder(items: seq<Item>, q: string)
    ensures Subsequence(FilterItems(items, q), items)
    ensures |FilterItems(items, q)| == CountMatching(items, q)
  {
    if |items| > 0 {
      var init := items[..|items| - 1];
      FilterKeepsOrder(init, q);
      var x := items[|items| - 1];
      var r := FilterItems(items, q);
      if Matches(x, q) {
        assert r[..|r| - 1] == FilterItems(init, q);
      } else {
        SubsequenceSnoc(r, init, x);
      }
    }
  }

  lemma {:induction false} SubsequenceSnoc<T>(a: seq<T>, b: seq<T>, x: T)
    requires Subsequence(a, b)
    ensures Subsequence(a, b + [x])
    decreases |b|, 1
  {
    if |a| > 0 && a[|a| - 1] != x {
      assert (b + [x])[..|b|] == b;
    } else if |a| > 0 {
      assert (b + [x])[..|b|] == b;
      SubsequenceDropLast(a, b);
    }
  }

  lemma {:induction false} SubsequenceDropLast<T>(a: seq<T>, b: seq<T>)
    requires |a| > 0 && Subsequence(a, b)
    ensures Subsequence(a[..|a| - 1], b)
    decreases |b|, 0
  {
    if a[|a| - 1] == b[|b| - 1] {
      SubsequenceSnoc(a[..|a| - 1], b[..|b| - 1], b[|b| - 1]);
      assert b[..|b| - 1] + [b[|b| - 1]] == b;
    } else {
      SubsequenceDropLast(a, b[..|b| - 1]);
      SubsequenceSnoc(a[..|a| - 1], b[..|b| - 1], b[|b| - 1]);
      assert b[..|b| - 1] + [b[|b| - 1]] == b;
    }
  }

  /** Every category, filtered, with the categories left empty dropped. */
  function Search(cs: seq<Category>, q: string): (r: seq<Hit>)
    ensures |r| <= |cs|
    ensures forall i :: 0 <= i < |r| ==> |r[i].items| > 0
  {
    if |cs| == 0 then []
    else
      var rest := Search(cs[..|cs| - 1], q);
      var c := cs[|cs| - 1];
      var items := FilterItems(c.content, q);
      if |items| > 0 then rest + [Hit(c.title, items)] else rest
  }

  /** Every category, filtered, none dropped: the blocks `Search` chooses from. */
  function AllHits(cs: seq<Category>, q: string): (r: seq<Hit>)
    ensures |r| == |cs|
  {
    if |cs| == 0 then []
    else AllHits(cs[..|cs| - 1], q) + [Hit(cs[|cs| - 1].title, FilterItems(cs[|cs| - 1].content, q))]
  }

  /** The result blocks follow the catalogue's category order: dropping the empty ones reorders nothing. */
  lemma {:induction false} SearchKeepsOrder(cs: seq<Category>, q: string)
    ensures Subsequence(Search(cs, q), AllHits(cs, q))
  {
    if |cs| > 0 {
      var init := cs[..|cs| - 1];
      SearchKeepsOrder(init, q);
      var c := cs[|cs| - 1];
      var h := Hit(c.title, FilterItems(c.content, q));
      var all := AllHits(cs, q);
      assert all == AllHits(init, q) + [h];
      assert all[..|all| - 1] == AllHits(init, q);
      var r := Search(cs, q);
      if |h.items| > 0 {
        assert r == Search(init, q) + [h];
        assert r[..|r| - 1] == Search(init, q);
      } else {
        SubsequenceSnoc(Search(init, q), AllHits(init, q), h);
      }
    }
  }

  /** The "(n resultados)" figure: the items summed over the result blocks. */
  function ResultCount(hits: seq<Hit>): nat {
    if |hits| == 0 then 0 else ResultCount(hits[..|hits| - 1]) + |hits[|hits| - 1].items|
  }

  /** The matching items over the whole catalogue, counted directly. */
  function TotalMatching(cs: seq<Category>, q: string): nat {
    if |cs| == 0 then 0 else TotalMatching(cs[..|cs| - 1], q) + CountMatching(cs[|cs| - 1].content, q)
  }

  lemma {:induction false} ResultCountIsMatchCount(cs: seq<Category>, q: string)
    ensures ResultCount(Search(cs, q)) == TotalMatching(cs, q)
  {
    if |cs| > 0 {
      ResultCountIsMatchCount(cs[..|cs| - 1], q);
      FilterKeepsOrder(cs[|cs| - 1].content, q);
      var rest := Search(cs[..|cs| - 1], q);
      var items := FilterItems(cs[|cs| - 1].content, q);
      if |items| > 0 {
        assert (rest + [Hit(cs[|cs| - 1].title, items)])[..|rest|] == rest;
      }
    }
  }

  /** A result block lists only matching items, each from a category of that title. */
  lemma {:induction false} SearchSound(cs: seq<Category>, q: string)
    ensures forall h, x :: h in Search(cs, q) && x in h.items ==>
      Matches(x, q) && exists c :: c in cs && c.title == h.category && x in c.content
  {
    if |cs| > 0 {
      var init := cs[..|cs| - 1];
      SearchSound(init, q);
      var c := cs[|cs| - 1];
      var rest := Search(init, q);
      forall h, x | h in Search(cs, q) && x in h.items
        ensures Matches(x, q) && exists d :: d in cs && d.title == h.category && x in d.content
      {
        var items := FilterItems(c.content, q);
        assert Search(cs, q) == if |items| > 0 then rest + [Hit(c.title, items)] else rest;
        if h in rest {
          assert Matches(x, q) && exists d :: d in init && d.title == h.category && x in d.content;
          var d :| d in init && d.title == h.category && x in d.content;
          assert d in cs;
        } else {
          assert h == Hit(c.title, items);
          assert c in cs;
        }
      }
    }
  }

  /** Every matching item of every category appears under that category's title. */
  lemma {:induction false} SearchComplete(cs: seq<Category>, q: string)
    ensures forall c, x :: c in cs && x in c.content && Matches(x, q) ==>
      exists h :: h in Search(cs, q) && h.category == c.title && x in h.items
  {
    if |cs| > 0 {
      var init := cs[..|cs| - 1];
      SearchComplete(init, q);
      var c := cs[|cs| - 1];
      var r := Search(cs, q);
      var rest := Search(init, q);
      assert forall h :: h in rest ==> h in r;
      forall d, x | d in cs && x in d.content && Matches(x, q)
        ensures exists h :: h in r && h.category == d.title && x in h.items
      {
        if d in init {
          var h :| h in rest && h.category == d.title && x in h.items;
          assert h in r;
        } else {
          assert d == c;
          assert Hit(c.title, FilterItems(c.content, q)) in r;
        }
      }
    }
  }

  /** Upper and lower case in the query make no difference. */
  lemma QueryCaseIgnored(item: Item, q: string)
    ensures Matches(item, Lower(q)) == Matches(item, q)
  {
    assert Lower(Lower(q)) == Lower(q);
  }

  /** The search effect run when the query changes: short queries hide the results and keep the old ones. */
  function OnQuery(p: Page, cs: seq<Category>, q: string): (r: Page)
    ensures r.query == q && r.openSection == p.openSection
    ensures r.showResults <==> |q| >= MinQueryLength
    ensures |q| < MinQueryLength ==> r.results == p.results
    ensures |q| >= MinQueryLength ==> ResultCount(r.results) == TotalMatching(cs, q)
  {
    if |q| >= MinQueryLength then
      ResultCountIsMatchCount(cs, q);
      p.(query := q, results := Search(cs, q), showResults := true)
    else p.(query := q, showResults := false)
  }

  /** Both clear buttons: empty the query, which hides the results. */
  function ClearSearch(p: Page, cs: seq<Category>): (r: Page)
    ensures r.query == "" && !r.showResults
  {
    OnQuery(p, cs, "")
  }

  /** The result panel shows only with the results on and at least one block. */
  predicate ResultsVisible(p: Page) {
    p.showResults && |p.results| > 0
  }

  /** `handleToggle`: clicking the open section closes it, any other opens it. */
  function HandleToggle(open: Option<nat>, index: nat): (r: Option<nat>)
    ensures r == Some(index) <==> open != Some(index)
    ensures r.None? <==> open == Some(index)
  {
    if open == Some(index) then None else Some(index)
  }

  /** Two clicks on the same section restore a closed or that-section-open accordion. */
  lemma ToggleTwice(open: Option<nat>, index: nat)
    requires open.None? || open == Some(index)
    ensures HandleToggle(HandleToggle(open, index), index) == open
  {
  }

  /** At most one section is open: after any click only the clicked one can be. */
  lemma ToggleOpensOnlyClicked(open: Option<nat>, index: nat, other: nat)
    requires other != index
    ensures HandleToggle(open, index) != Some(other)
  {
  }
}
