// The category and tag pages: filter the feed by the query-string
// parameter, sort newest first, write the title, the name, the post count
// label and the list; a missing parameter shows an error box instead.

module BlogPages {
  import opened Wrappers
  import opened Text
  import opened Feed

  /** The category filter compares exactly, case included. */
  predicate InCategory(p: Post, category: string) {
    p.category == Some(category)
  }

  /** The tag filter: the post has tags and one of them equals the
      parameter once both are lower-cased. */
  predicate HasTag(p: Post, tag: string) {
    p.tags.Some? && exists i :: 0 <= i < |p.tags.value| && Lower(p.tags.value[i]) == Lower(tag)
  }

  /** The posts of one category. */
  function CategoryPosts(posts: seq<Post>, category: string): (r: seq<Post>)
    ensures forall x :: x in r <==> x in posts && x.category == Some(category)
    ensures forall x: Post :: x.category == Some(category) ==> multiset(r)[x] == multiset(posts)[x]
  {
    Filter(posts, p => InCategory(p, category))
  }

  /** The posts carrying one tag, ignoring case. */
  function TagPosts(posts: seq<Post>, tag: string): (r: seq<Post>)
    ensures forall x :: x in r <==> x in posts && HasTag(x, tag)
    ensures forall x :: HasTag(x, tag) ==> multiset(r)[x] == multiset(posts)[x]
  {
    Filter(posts, p => HasTag(p, tag))
  }

  /** The tag page finds the same posts whatever the case of the parameter. */
  lemma TagFilterIgnoresCase(posts: seq<Post>, tag: string)
    ensures TagPosts(posts, tag) == TagPosts(posts, Lower(tag))
  {
    LowerIdempotent(tag);
    FilterSameVerdicts(posts, p => HasTag(p, tag), p => HasTag(p, Lower(tag)));
  }

  class BlogPage {
    var title: string
    var categoryName: Option<string>
    var tagName: Option<string>
    var postCount: Option<string>
    var categoryPosts: Option<Content>
    var tagPosts: Option<Content>

    constructor(title: string, categoryName: Option<string>, tagName: Option<string>,
                postCount: Option<string>, categoryPosts: Option<Content>, tagPosts: Option<Content>)
      ensures this.title == title && this.categoryName == categoryName && this.tagName == tagName
      ensures this.postCount == postCount && this.categoryPosts == categoryPosts && this.tagPosts == tagPosts
    {
      this.title := title;
      this.categoryName := categoryName;
      this.tagName := tagName;
      this.postCount := postCount;
      this.categoryPosts := categoryPosts;
      this.tagPosts := tagPosts;
    }

    /** `showError`: the error box goes into the category container, or the
        tag container when there is no category container. */
    method ShowError(message: string)
      modifies this
      ensures old(categoryPosts).Some? ==> categoryPosts == Some(ErrorBox(message)) && tagPosts == old(tagPosts)
      ensures old(categoryPosts).None? ==> categoryPosts == None && tagPosts == (if old(tagPosts).Some? then Some(ErrorBox(message)) else None)
      ensures title == old(title) && categoryName == old(categoryName) && tagName == old(tagName) && postCount == old(postCount)
    {
      if categoryPosts.Some? {
        categoryPosts := Some(ErrorBox(message));
      } else if tagPosts.Some? {
        tagPosts := Some(ErrorBox(message));
      }
    }

    /** `handleCategoryPage`: with a category, the title, the name, the
        count label and the list show the category's posts newest first;
        without one, only the error box changes. */
    method HandleCategoryPage(category: Option<string>, posts: seq<Post>) returns (shown: seq<Post>)
      modifies this
      ensures !Given(category) ==>
        && shown == [] && title == old(title) && categoryName == old(categoryName)
        && tagName == old(tagName) && postCount == old(postCount)
        && (old(categoryPosts).Some? ==> categoryPosts == Some(ErrorBox("Category parameter is missing")) && tagPosts == old(tagPosts))
        && (old(categoryPosts).None? ==> categoryPosts == None && tagPosts == (if old(tagPosts).Some? then Some(ErrorBox("Category parameter is missing")) else None))
      ensures Given(category) ==>
        && NewestFirst(shown) && multiset(shown) == multiset(CategoryPosts(posts, category.value))
        && title == "Category: " + category.value + " - Blog"
        && categoryName == (if old(categoryName).Some? then Some(category.value) else None)
        && tagName == old(tagName)
        && postCount == (if old(postCount).Some? then Some(CountLabel(|shown|, "post")) else None)
        && categoryPosts == Display(old(categoryPosts), shown, "No posts found")
        && tagPosts == old(tagPosts)
    {
      if !Given(category) {
        ShowError("Category parameter is missing");
        return [];
      }
      var c := category.value;
      title := "Category: " + c + " - Blog";
      if categoryName.Some? {
        categoryName := Some(c);
      }
      shown := SortedCopy(CategoryPosts(posts, c));
      if postCount.Some? {
        postCount := Some(CountLabel(|shown|, "post"));
      }
      categoryPosts := Display(categoryPosts, shown, "No posts found");
    }

    /** `handleTagPage`: with a tag, the title, the name, the count label
        and the list show the tagged posts newest first; without one, only
        the error box changes. */
    method HandleTagPage(tag: Option<string>, posts: seq<Post>) returns (shown: seq<Post>)
      modifies this
      ensures !Given(tag) ==>
        && shown == [] && title == old(title) && categoryName == old(categoryName)
        && tagName == old(tagName) && postCount == old(postCount)
        && (old(categoryPosts).Some? ==> categoryPosts == Some(ErrorBox("Tag parameter is missing")) && tagPosts == old(tagPosts))
        && (old(categoryPosts).None? ==> categoryPosts == None && tagPosts == (if old(tagPosts).Some? then Some(ErrorBox("Tag parameter is missing")) else None))
      ensures Given(tag) ==>
        && NewestFirst(shown) && multiset(shown) == multiset(TagPosts(posts, tag.value))
        && title == "Tag: " + tag.value + " - Blog"
        && tagName == (if old(tagName).Some? then Some(tag.value) else None)
        && categoryName == old(categoryName)
        && postCount == (if old(postCount).Some? then Some(CountLabel(|shown|, "post")) else None)
        && tagPosts == Display(old(tagPosts), shown, "No posts found")
        && categoryPosts == old(categoryPosts)
    {
      if !Given(tag) {
        ShowError("Tag parameter is missing");
        return [];
      }
      var t := tag.value;
      title := "Tag: " + t + " - Blog";
      if tagName.Some? {
        tagName := Some(t);
      }
      shown := SortedCopy(TagPosts(posts, t));
      if postCount.Some? {
        postCount := Some(CountLabel(|shown|, "post"));
      }
      tagPosts := Display(tagPosts, shown, "No posts found");
    }
  }
}
