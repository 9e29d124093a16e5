// The post feed shared by the category, tag and notes pages: the post
// record, the `filter` step, the in-place newest-first `sort`, the count
// label and the list rendering with its empty-list placeholder.

module Feed {
  import opened Wrappers

  /** One post of the feed. `date` is the post date as a timestamp; `tags`,
      `category` and `subcategory` may be absent. */
  datatype Post = Post(
    title: string,
    date: int,
    url: string,
    tags: Option<seq<string>>,
    category: Option<string>,
    subcategory: Option<string>)

  /** A query-string parameter counts as given when it is present and
      non-empty (both `null` and `""` are falsy). */
  predicate Given(param: Option<string>) {
    param.Some? && param.value != ""
  }

  /** `Array.prototype.filter`: the posts that `keep` accepts. */
  function Filter(s: seq<Post>, keep: Post -> bool): (r: seq<Post>)
    ensures |r| <= |s|
    ensures forall x :: x in r <==> x in s && keep(x)
    ensures forall x :: keep(x) ==> multiset(r)[x] == multiset(s)[x]
    ensures forall x :: !keep(x) ==> multiset(r)[x] == 0
  {
    if s == [] then []
    else
      var r0 := Filter(s[..|s| - 1], keep);
      var last := s[|s| - 1];
      assert s == s[..|s| - 1] + [last];
      if keep(last) then r0 + [last] else r0
  }

  /** Two filters that agree on every post of `s` keep the same posts. */
  lemma {:induction false} FilterSameVerdicts(s: seq<Post>, f: Post -> bool, g: Post -> bool)
    requires forall x :: x in s ==> f(x) == g(x)
    ensures Filter(s, f) == Filter(s, g)
  {
    if s != [] {
      FilterSameVerdicts(s[..|s| - 1], f, g);
    }
  }

  /** Newest first: dates never increase along the sequence. */
  predicate NewestFirst(s: seq<Post>) {
    forall i, j :: 0 <= i < j < |s| ==> s[i].date >= s[j].date
  }

  /** Newest first everywhere except possibly around position `k`, which
      is newer than everything after it. */
  predicate NewestFirstBut(s: seq<Post>, k: int, hi: int)
    requires 0 <= k <= hi < |s|
  {
    && (forall i, j :: 0 <= i < j <= hi && i != k && j != k ==> s[i].date >= s[j].date)
    && (forall j :: k < j <= hi ==> s[k].date > s[j].date)
  }

  /** Exchanging two adjacent posts keeps the same posts. */
  lemma SwapKeepsPosts(s: seq<Post>, j: int)
    requires 0 < j < |s|
    ensures multiset(s[j - 1 := s[j]][j := s[j - 1]]) == multiset(s)
  {
    var t := s[j - 1 := s[j]][j := s[j - 1]];
    assert s == s[..j - 1] + [s[j - 1], s[j]] + s[j + 1..];
    assert t == s[..j - 1] + [s[j], s[j - 1]] + s[j + 1..];
  }

  /** Moving the newer post at `j` one place left keeps the invariant of
      the insertion step. */
  lemma SwapStep(s: seq<Post>, j: int, hi: int)
    requires 0 < j <= hi < |s| && NewestFirstBut(s, j, hi) && s[j - 1].date < s[j].date
    ensures NewestFirstBut(s[j - 1 := s[j]][j := s[j - 1]], j - 1, hi)
  {
  }

  /** A newest-first prefix followed by one more post is the start state of
      the insertion step. */
  lemma InsertionStart(s: seq<Post>, hi: int)
    requires 0 <= hi < |s| && NewestFirst(s[..hi])
    ensures NewestFirstBut(s, hi, hi)
  {
    assert forall i, j :: 0 <= i < j < hi ==> s[..hi][i] == s[i] && s[..hi][j] == s[j];
  }

  /** The insertion step ends when the moved post is not newer than its
      left neighbour; the prefix through `hi` is then newest first. */
  lemma InsertionEnd(s: seq<Post>, j: int, hi: int)
    requires 0 <= j <= hi < |s| && NewestFirstBut(s, j, hi)
    requires j == 0 || s[j - 1].date >= s[j].date
    ensures NewestFirst(s[..hi + 1])
  {
    forall x, y | 0 <= x < y <= hi
      ensures s[x].date >= s[y].date
    {
      if x == j {
      } else if y == j {
        assert s[x].date >= s[j - 1].date;
      }
    }
  }

  /** One insertion step: the post at `i` moves left past every older post
      before it, so the prefix through `i` becomes newest first. */
  method InsertNewest(a: array<Post>, i: int)
    requires 0 <= i < a.Length && NewestFirst(a[..i])
    modifies a
    ensures NewestFirst(a[..i + 1])
    ensures multiset(a[..]) == multiset(old(a[..]))
  {
    InsertionStart(a[..], i);
    var j := i;
    while j > 0 && a[j - 1].date < a[j].date
      invariant 0 <= j <= i
      invariant NewestFirstBut(a[..], j, i)
      invariant multiset(a[..]) == multiset(old(a[..]))
    {
      ghost var before := a[..];
      SwapStep(before, j, i);
      SwapKeepsPosts(before, j);
      a[j - 1], a[j] := a[j], a[j - 1];
      assert a[..] == before[j - 1 := before[j]][j := before[j - 1]];
      j := j - 1;
    }
    InsertionEnd(a[..], j, i);
  }

  /** The comparator `(a, b) => b.date - a.date` applied by an in-place
      sort: afterwards the array is newest first and holds the same posts. */
  method SortNewestFirst(a: array<Post>)
    modifies a
    ensures NewestFirst(a[..])
    ensures multiset(a[..]) == multiset(old(a[..]))
  {
    var i := 0;
    while i < a.Length
      invariant 0 <= i <= a.Length
      invariant NewestFirst(a[..i])
      invariant multiset(a[..]) == multiset(old(a[..]))
    {
      InsertNewest(a, i);
      i := i + 1;
    }
    assert a[..a.Length] == a[..];
  }

  /** The sorted copy a page displays: the same posts, newest first. */
  method SortedCopy(s: seq<Post>) returns (r: seq<Post>)
    ensures NewestFirst(r)
    ensures multiset(r) == multiset(s)
  {
    if |s| == 0 {
      return [];
    }
    var a := new Post[|s|](i requires 0 <= i < |s| => s[i]);
    assert a[..] == s;
    SortNewestFirst(a);
    r := a[..];
  }

  /** A rendered post card: the tag badges are the first three tags, or
      none when the post has no tags. */
  datatype Card = Card(title: string, url: string, date: int, badges: seq<string>)

  function CardOf(p: Post): (c: Card)
    ensures c.title == p.title && c.url == p.url && c.date == p.date
    ensures |c.badges| <= 3
    ensures p.tags.None? ==> c.badges == []
    ensures p.tags.Some? ==> |c.badges| == if |p.tags.value| < 3 then |p.tags.value| else 3
    ensures p.tags.Some? ==> c.badges == p.tags.value[..|c.badges|]
  {
    var badges := match p.tags
      case None => []
      case Some(ts) => if |ts| < 3 then ts else ts[..3];
    Card(p.title, p.url, p.date, badges)
  }

  /** What a list container shows: the empty-list placeholder with its
      heading, the cards, or an error box. */
  datatype Content = Placeholder(heading: string) | Cards(cards: seq<Card>) | ErrorBox(message: string)

  /** The list rendering: the placeholder exactly when there is nothing to
      show, otherwise one card per post in the given order. */
  function Listing(posts: seq<Post>, emptyHeading: string): (r: Content)
    ensures r.Placeholder? <==> posts == []
    ensures r.Placeholder? ==> r.heading == emptyHeading
    ensures !r.ErrorBox?
    ensures r.Cards? ==> |r.cards| == |posts| && forall i :: 0 <= i < |posts| ==> r.cards[i] == CardOf(posts[i])
  {
    if |posts| == 0 then Placeholder(emptyHeading)
    else Cards(seq(|posts|, i requires 0 <= i < |posts| => CardOf(posts[i])))
  }

  /** `displayPosts` / `displayNotes`: a missing container is left alone. */
  function Display(container: Option<Content>, posts: seq<Post>, emptyHeading: string): (r: Option<Content>)
    ensures r.Some? <==> container.Some?
    ensures r.Some? ==> (r.value.Placeholder? <==> posts == []) && !r.value.ErrorBox?
    ensures r.Some? && r.value.Cards? ==> |r.value.cards| == |posts|
  {
    if container.Some? then Some(Listing(posts, emptyHeading)) else None
  }
}
