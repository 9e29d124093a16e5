// The client-side search box: a query of at least two characters shows the
// posts whose title, first paragraph or a badge contains it (ignoring
// case), hides the rest and reports the count; a shorter query shows every
// post and hides the report.

module BlogSearch {
  import opened Wrappers
  import opened Text

  /** A `.blog-item` / `.blog-card` element: the text of its first h5/h6 and
      of its first paragraph when present, its badge texts and its style. */
  datatype PostCard = PostCard(
    title: Option<string>,
    paragraph: Option<string>,
    badges: seq<string>,
    display: string,
    opacity: string)

  /** The results message element: its text and whether it is displayed. */
  datatype Message = Message(text: string, visible: bool)

  /** The message after `hideSearchResults`: hidden when present. */
  function Hide(m: Option<Message>): (r: Option<Message>)
    ensures r.Some? <==> m.Some?
    ensures r.Some? ==> r.value.text == m.value.text && !r.value.visible
  {
    if m.Some? then Some(m.value.(visible := false)) else None
  }

  /** The shortest query that filters, in UTF-16 code units. */
  const MinQueryLength := 2

  /** The texts a post is searched in: title and first paragraph, each
      `""` when missing, then the badges. */
  function SearchedTexts(p: PostCard): seq<string> {
    [p.title.GetOr(""), p.paragraph.GetOr("")] + p.badges
  }

  /** The match test: the lower-cased query occurs in one of the searched
      texts, lower-cased. */
  predicate IsMatch(p: PostCard, query: string)
    ensures IsMatch(p, query) <==>
      exists j :: 0 <= j < |SearchedTexts(p)| && Contains(Lower(SearchedTexts(p)[j]), Lower(query))
  {
    var q := Lower(query);
    var texts := SearchedTexts(p);
    assert texts[0] == p.title.GetOr("") && texts[1] == p.paragraph.GetOr("");
    assert forall j :: 2 <= j < |texts| ==> texts[j] == p.badges[j - 2];
    assert forall i {:trigger p.badges[i]} :: 0 <= i < |p.badges| ==>
      Contains(Lower(p.badges[i]), q) == Contains(Lower(texts[i + 2]), q);
    || Contains(Lower(p.title.GetOr("")), q)
    || Contains(Lower(p.paragraph.GetOr("")), q)
    || exists i :: 0 <= i < |p.badges| && Contains(Lower(p.badges[i]), q)
  }

  function Shown(p: PostCard): PostCard {
    p.(display := "block", opacity := "1")
  }

  function Hidden(p: PostCard): PostCard {
    p.(display := "none", opacity := "0.5")
  }

  /** The style one post gets from a search. */
  function Mark(p: PostCard, query: string): PostCard {
    if IsMatch(p, query) then Shown(p) else Hidden(p)
  }

  /** A missing title or paragraph never matches a query long enough to
      filter: only the badges of a post with neither can make it match. */
  lemma MissingTextNeverMatches(p: PostCard, query: string)
    requires Utf16Length(query) >= MinQueryLength && p.title.None? && p.paragraph.None?
    ensures IsMatch(p, query) <==> exists i :: 0 <= i < |p.badges| && Contains(Lower(p.badges[i]), Lower(query))
  {
    EmptyContainsOnlyEmpty(Lower(query));
  }

  /** The number of matching posts, counted left to right. */
  function MatchCount(posts: seq<PostCard>, query: string): (r: nat)
    ensures r <= |posts|
  {
    if posts == [] then 0
    else MatchCount(posts[..|posts| - 1], query) + if IsMatch(posts[|posts| - 1], query) then 1 else 0
  }

  /** The count is zero exactly when nothing matches, and the number of
      posts exactly when everything does. */
  lemma {:induction false} MatchCountExtremes(posts: seq<PostCard>, query: string)
    ensures MatchCount(posts, query) == 0 <==> forall i :: 0 <= i < |posts| ==> !IsMatch(posts[i], query)
    ensures MatchCount(posts, query) == |posts| <==> forall i :: 0 <= i < |posts| ==> IsMatch(posts[i], query)
  {
    if posts != [] {
      var init := posts[..|posts| - 1];
      MatchCountExtremes(init, query);
      assert forall i :: 0 <= i < |init| ==> init[i] == posts[i];
    }
  }

  /** Counting one more post of a prefix adds that post's verdict. */
  lemma MatchCountStep(posts: seq<PostCard>, query: string, i: nat)
    requires i < |posts|
    ensures MatchCount(posts[..i + 1], query) == MatchCount(posts[..i], query) + if IsMatch(posts[i], query) then 1 else 0
  {
    assert posts[..i + 1][..i] == posts[..i];
  }

  /** The posts after a search: matches shown, the rest hidden, nothing
      else changed. */
  function Searched(posts: seq<PostCard>, query: string): (r: seq<PostCard>)
    ensures |r| == |posts|
    ensures forall i :: 0 <= i < |posts| ==>
      && r[i].title == posts[i].title && r[i].paragraph == posts[i].paragraph && r[i].badges == posts[i].badges
      && (IsMatch(posts[i], query) ==> r[i].display == "block" && r[i].opacity == "1")
      && (!IsMatch(posts[i], query) ==> r[i].display == "none" && r[i].opacity == "0.5")
  {
    seq(|posts|, i requires 0 <= i < |posts| => Mark(posts[i], query))
  }

  /** The posts after `showAllPosts`: every one shown, nothing else changed. */
  function AllShown(posts: seq<PostCard>): (r: seq<PostCard>)
    ensures |r| == |posts|
    ensures forall i :: 0 <= i < |posts| ==> r[i] == posts[i].(display := "block", opacity := "1")
  {
    seq(|posts|, i requires 0 <= i < |posts| => Shown(posts[i]))
  }

  /** How many posts are displayed. */
  function DisplayedCount(posts: seq<PostCard>): nat {
    if posts == [] then 0
    else DisplayedCount(posts[..|posts| - 1]) + if posts[|posts| - 1].display == "block" then 1 else 0
  }

  /** The reported count is the number of posts the search leaves displayed. */
  lemma {:induction false} ReportedCountIsDisplayed(posts: seq<PostCard>, query: string)
    ensures DisplayedCount(Searched(posts, query)) == MatchCount(posts, query)
  {
    if posts != [] {
      var init := posts[..|posts| - 1];
      ReportedCountIsDisplayed(init, query);
      assert Searched(posts, query)[..|posts| - 1] == Searched(init, query);
    }
  }

  /** The message of `showSearchResults`, without its icon and layout
      whitespace. */
  function ResultsText(count: nat, query: string): (r: string)
    ensures StartsWith(r, "Found ")
    ensures |r| >= |query| + 2 && r[|r| - 1] == '"' && r[|r| - |query| - 2] == '"'
    ensures r[|r| - |query| - 1..|r| - 1] == query
    ensures var l := CountLabel(count, "result");
      |r| == 6 + |l| + 6 + |query| + 1 && r[6..6 + |l|] == l && r[6 + |l|..6 + |l| + 6] == " for \""
  {
    "Found " + CountLabel(count, "result") + " for \"" + query + "\""
  }

  /** The message reads back its count. */
  lemma ResultsTextCount(count: nat, query: string)
    ensures var m := ResultsText(count, query);
      StartsWith(m, "Found ") && DigitsValue(LeadingDigits(m[6..])) == count
  {
    var m := ResultsText(count, query);
    var d := Decimal(count);
    var rest := " result" + (if count != 1 then "s" else "") + " for \"" + query + "\"";
    assert m == "Found " + (d + rest);
    assert m[6..] == d + rest;
    LeadingDigitsOfDigitsThen(d, rest);
    DecimalRoundTrip(count);
  }

  /** The message says `results` exactly when the count is not one. */
  lemma ResultsTextPlural(count: nat, query: string)
    ensures var m := ResultsText(count, query);
      var l := CountLabel(count, "result");
      && m[6..6 + |l|] == l
      && (m[6 + |l| - 1] == 's' <==> count != 1)
  {
    var l := CountLabel(count, "result");
    var m := ResultsText(count, query);
    assert m == "Found " + l + (" for \"" + query + "\"");
    CountLabelPlural(count, "result");
  }

  class SearchPage {
    var input: string
    var posts: seq<PostCard>
    var message: Option<Message>
    const hasButton: bool

    constructor(input: string, posts: seq<PostCard>, hasButton: bool)
      ensures this.input == input && this.posts == posts && this.message == None
      ensures this.hasButton == hasButton
    {
      this.input := input;
      this.posts := posts;
      this.message := None;
      this.hasButton := hasButton;
    }

    /** `hideSearchResults`: an existing message is hidden. */
    method HideSearchResults()
      modifies this
      ensures message == Hide(old(message))
      ensures posts == old(posts) && input == old(input)
    {
      if message.Some? {
        message := Some(message.value.(visible := false));
      }
    }

    /** `showAllPosts`: every post shown, the message hidden. */
    method ShowAllPosts()
      modifies this
      ensures posts == AllShown(old(posts))
      ensures message == Hide(old(message))
      ensures input == old(input)
    {
      var i := 0;
      while i < |posts|
        invariant 0 <= i <= |posts| == |old(posts)|
        invariant forall k :: 0 <= k < i ==> posts[k] == Shown(old(posts)[k])
        invariant forall k :: i <= k < |posts| ==> posts[k] == old(posts)[k]
        invariant message == old(message) && input == old(input)
      {
        posts := posts[i := posts[i].(display := "block", opacity := "1")];
        i := i + 1;
      }
      HideSearchResults();
    }

    /** One post of the `forEach` of `performSearch`: shown when it
        matches, hidden otherwise. */
    method MarkPost(i: nat, query: string) returns (matched: bool)
      requires i < |posts|
      modifies this
      ensures matched == IsMatch(old(posts)[i], query)
      ensures posts == old(posts)[i := Mark(old(posts)[i], query)]
      ensures message == old(message) && input == old(input)
    {
      var post := posts[i];
      matched := IsMatch(post, query);
      if matched {
        posts := posts[i := post.(display := "block", opacity := "1")];
      } else {
        posts := posts[i := post.(display := "none", opacity := "0.5")];
      }
    }

    /** The `forEach` of `performSearch`: each post shown or hidden by the
        match test, and the matches counted. */
    method MarkMatches(query: string) returns (foundCount: nat)
      modifies this
      ensures posts == Searched(old(posts), query)
      ensures foundCount == MatchCount(old(posts), query)
      ensures message == old(message) && input == old(input)
    {
      ghost var posts0 := posts;
      foundCount := 0;
      var i := 0;
      while i < |posts|
        invariant 0 <= i <= |posts| == |posts0|
        invariant forall k :: 0 <= k < i ==> posts[k] == Mark(posts0[k], query)
        invariant forall k :: i <= k < |posts| ==> posts[k] == posts0[k]
        invariant foundCount == MatchCount(posts0[..i], query)
        invariant message == old(message) && input == old(input)
      {
        MatchCountStep(posts0, query, i);
        var matched := MarkPost(i, query);
        if matched {
          foundCount := foundCount + 1;
        }
        i := i + 1;
      }
      assert posts0[..|posts|] == posts0;
      assert posts == Searched(posts0, query);
    }

    /** `performSearch`: a short query shows everything; otherwise each post
        is shown or hidden by the match test and the message reports the
        number of matches. */
    method PerformSearch(query: string) returns (foundCount: nat)
      modifies this
      ensures Utf16Length(query) < MinQueryLength ==>
        && posts == AllShown(old(posts)) && foundCount == 0
        && message == Hide(old(message))
      ensures Utf16Length(query) >= MinQueryLength ==>
        && posts == Searched(old(posts), query)
        && foundCount == MatchCount(old(posts), query)
        && message == Some(Message(ResultsText(foundCount, query), true))
      ensures input == old(input)
    {
      if Utf16Length(query) < MinQueryLength {
        ShowAllPosts();
        return 0;
      }
      foundCount := MarkMatches(query);
      message := Some(Message(ResultsText(foundCount, query), true));
    }

    /** Typing: the new input value, trimmed, is searched. */
    method OnInput(value: string) returns (foundCount: nat)
      modifies this
      ensures input == value
      ensures Utf16Length(Trim(value)) >= MinQueryLength ==>
        && posts == Searched(old(posts), Trim(value)) && foundCount == MatchCount(old(posts), Trim(value))
        && message == Some(Message(ResultsText(foundCount, Trim(value)), true))
      ensures Utf16Length(Trim(value)) < MinQueryLength ==>
        posts == AllShown(old(posts)) && foundCount == 0 && message == Hide(old(message))
    {
      input := value;
      foundCount := PerformSearch(Trim(input));
    }

    /** The search button, when there is one, searches the trimmed input. */
    method OnSearchClick() returns (foundCount: nat)
      modifies this
      ensures !hasButton ==> posts == old(posts) && message == old(message) && foundCount == 0
      ensures hasButton && Utf16Length(Trim(input)) >= MinQueryLength ==>
        && posts == Searched(old(posts), Trim(input)) && foundCount == MatchCount(old(posts), Trim(input))
        && message == Some(Message(ResultsText(foundCount, Trim(input)), true))
      ensures hasButton && Utf16Length(Trim(input)) < MinQueryLength ==>
        posts == AllShown(old(posts)) && foundCount == 0 && message == Hide(old(message))
      ensures input == old(input)
    {
      foundCount := 0;
      if hasButton {
        foundCount := PerformSearch(Trim(input));
      }
    }

    /** Enter searches the trimmed input; other keys change nothing. */
    method OnKeyPress(key: string) returns (foundCount: nat)
      modifies this
      ensures key != "Enter" ==> posts == old(posts) && message == old(message) && foundCount == 0
      ensures key == "Enter" && Utf16Length(Trim(input)) >= MinQueryLength ==>
        && posts == Searched(old(posts), Trim(input)) && foundCount == MatchCount(old(posts), Trim(input))
        && message == Some(Message(ResultsText(foundCount, Trim(input)), true))
      ensures key == "Enter" && Utf16Length(Trim(input)) < MinQueryLength ==>
        posts == AllShown(old(posts)) && foundCount == 0 && message == Hide(old(message))
      ensures input == old(input)
    {
      foundCount := 0;
      if key == "Enter" {
        foundCount := PerformSearch(Trim(input));
      }
    }

    /** Escape empties the input and shows every post. */
    method OnKeyDown(key: string)
      modifies this
      ensures key != "Escape" ==> input == old(input) && posts == old(posts) && message == old(message)
      ensures key == "Escape" ==>
        && input == "" && posts == AllShown(old(posts))
        && message == Hide(old(message))
    {
      if key == "Escape" {
        input := "";
        ShowAllPosts();
      }
    }
  }
}
