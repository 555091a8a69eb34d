/** The simpler catalog page: all items are rendered as cards, and the search
    button re-renders only the items whose name or description contains the
    lower-cased search term. */
module Catalog {
  import opened Text
  import opened Games

  /** The markup of one `<article class="card">`: the item's name and description. */
  datatype Article = Article(heading: string, text: string)

  /** `container` shows exactly `items`: one article per item, in order. */
  predicate Shows(container: seq<Article>, items: seq<Game>) {
    |container| == |items|
    && forall i :: 0 <= i < |items| ==> container[i] == Article(items[i].nome, items[i].descricao)
  }

  /** The filter predicate of `iniciarBusca`. The term is lower-cased by the
      caller but not trimmed, so its spaces take part in the test. */
  predicate Matches(item: Game, term: string)
    ensures term == [] ==> Matches(item, term)
    ensures Matches(item, term) ==> |term| <= |item.nome| || |term| <= |item.descricao|
  {
    Contains(Lower(item.nome), term) || Contains(Lower(item.descricao), term)
  }

  /** `xs` is `ys` with some elements left out, the rest in their order. */
  predicate IsSubsequence<T(==)>(xs: seq<T>, ys: seq<T>)
    decreases |ys|
  {
    xs == [] || (ys != [] && ((xs[0] == ys[0] && IsSubsequence(xs[1..], ys[1..])) || IsSubsequence(xs, ys[1..])))
  }

  /** `todosOsDados.filter(...)`: the items that match, in their original order. */
  function Filter(items: seq<Game>, term: string): (r: seq<Game>)
    ensures IsSubsequence(r, items)
    ensures forall x :: x in r <==> x in items && Matches(x, term)
  {
    if items == [] then []
    else
      var rest := Filter(items[1..], term);
      if Matches(items[0], term) then [items[0]] + rest else rest
  }

  /** A subsequence is never longer than the sequence it comes from. */
  lemma {:induction false} SubsequenceNoLonger<T>(xs: seq<T>, ys: seq<T>)
    requires IsSubsequence(xs, ys)
    ensures |xs| <= |ys|
    decreases |ys|
  {
    if xs != [] {
      if xs[0] == ys[0] && IsSubsequence(xs[1..], ys[1..]) {
        SubsequenceNoLonger(xs[1..], ys[1..]);
      } else {
        SubsequenceNoLonger(xs, ys[1..]);
      }
    }
  }

  /** The filter keeps every copy of a matching item and no copy of any other. */
  lemma {:induction false} FilterCounts(items: seq<Game>, term: string, x: Game)
    ensures multiset(Filter(items, term))[x] == if Matches(x, term) then multiset(items)[x] else 0
  {
    if items != [] {
      FilterCounts(items[1..], term, x);
      assert items == [items[0]] + items[1..];
    }
  }

  /** The result is never longer than the data. */
  lemma FilterNoLonger(items: seq<Game>, term: string)
    ensures |Filter(items, term)| <= |items|
  {
    SubsequenceNoLonger(Filter(items, term), items);
  }

  /** An empty term matches everything: all items come back, in order. */
  lemma {:induction false} EmptyTermKeepsAll(items: seq<Game>)
    ensures Filter(items, "") == items
  {
    if items != [] {
      EmptyTermKeepsAll(items[1..]);
    }
  }

  /** Filtering the result again with the same term changes nothing. */
  lemma {:induction false} FilterIdempotent(items: seq<Game>, term: string)
    ensures Filter(Filter(items, term), term) == Filter(items, term)
  {
    if items != [] {
      FilterIdempotent(items[1..], term);
    }
  }

  const Zelda := Game(1, "Zelda", "Nintendo", 1986, "aventura", ["NES"])

  lemma ZeldaLowered()
    ensures Lower(Zelda.nome) == "zelda" && Lower(Zelda.descricao) == "aventura"
  {
  }

  /** Because the term is not trimmed, a leading space can hide an item whose
      name is otherwise found: " zelda" does not match "Zelda". */
  lemma UntrimmedTermMisses()
    ensures Matches(Zelda, "zelda") && !Matches(Zelda, " zelda")
  {
    ZeldaLowered();
    assert OccursAt(Lower(Zelda.nome), "zelda", 0);
    ContainsIffOccurs(Lower(Zelda.nome), "zelda");
    MissingCharNotContained(Lower(Zelda.nome), " zelda", 0);
    MissingCharNotContained(Lower(Zelda.descricao), " zelda", 0);
  }

  /** The page's state: `todosOsDados` and the cards in `.card-container`. */
  class CatalogPage {
    var data: seq<Game>
    var container: seq<Article>

    constructor ()
      ensures data == [] && container == []
    {
      data, container := [], [];
    }

    /** `exibirDados`: the container is cleared, then one article per item is appended, in order. */
    method Display(dados: seq<Game>)
      modifies this`container
      ensures Shows(container, dados)
    {
      container := [];
      var i := 0;
      while i < |dados|
        invariant 0 <= i <= |dados|
        invariant Shows(container, dados[..i])
      {
        container := container + [Article(dados[i].nome, dados[i].descricao)];
        i := i + 1;
      }
    }

    /** A successful `carregarDados`: the data is replaced, then all of it is displayed. */
    method Loaded(dados: seq<Game>)
      modifies this
      ensures data == dados && Shows(container, dados)
    {
      data := dados;
      Display(data);
    }

    /** `iniciarBusca` with `input` in the search box: the items matching the
        lower-cased (untrimmed) input are displayed; the data is unchanged. */
    method Search(input: string)
      modifies this`container
      ensures Shows(container, Filter(data, Lower(input)))
    {
      var term := Lower(input);
      var filtered := Filter(data, term);
      Display(filtered);
    }
  }
}
