// The notes page: the feed restricted to the `notes` category, optionally
// narrowed to a subcategory path prefix, sorted newest first, with a count
// label and the list (or the "No notes found" placeholder).

module BlogNotes {
  import opened Wrappers
  import opened Text
  import opened Feed

  predicate IsNote(p: Post) {
    p.category == Some("notes")
  }

  /** A note under the path: its subcategory begins with the path. */
  predicate InNotesPath(p: Post, path: string) {
    IsNote(p) && p.subcategory.Some? && StartsWith(p.subcategory.value, path)
  }

  /** Reading `subcategory.startsWith` on a note that has no subcategory
      throws before anything is written. */
  predicate NoteWithoutSubcategory(posts: seq<Post>) {
    exists i :: 0 <= i < |posts| && IsNote(posts[i]) && posts[i].subcategory.None?
  }

  /** The filter step of `loadNotesByCategory`. With a given path the notes
      whose subcategory starts with it, or the type error a note without
      subcategory raises; without one, every note. */
  function NotesFilter(posts: seq<Post>, path: Option<string>): (r: Result<seq<Post>, string>)
    ensures r.Failure? <==> Given(path) && NoteWithoutSubcategory(posts)
    ensures r.Success? && !Given(path) ==> forall x :: x in r.value <==> x in posts && IsNote(x)
    ensures r.Success? && Given(path) ==> forall x :: x in r.value <==> x in posts && InNotesPath(x, path.value)
    ensures r.Success? && !Given(path) ==> forall x :: IsNote(x) ==> multiset(r.value)[x] == multiset(posts)[x]
    ensures r.Success? && Given(path) ==>
      forall x :: InNotesPath(x, path.value) ==> multiset(r.value)[x] == multiset(posts)[x]
    ensures r.Success? ==> forall x :: !IsNote(x) ==> multiset(r.value)[x] == 0
  {
    if Given(path) then
      if NoteWithoutSubcategory(posts) then Failure("TypeError")
      else Success(Filter(posts, p => InNotesPath(p, path.value)))
    else Success(Filter(posts, IsNote))
  }

  /** Every note under a path is also among all the notes, as often. */
  lemma PathFilterWithinAllNotes(posts: seq<Post>, path: string)
    requires NotesFilter(posts, Some(path)).Success?
    ensures multiset(NotesFilter(posts, Some(path)).value) <= multiset(NotesFilter(posts, None).value)
  {
    var narrow := NotesFilter(posts, Some(path)).value;
    var all := NotesFilter(posts, None).value;
    forall x ensures multiset(narrow)[x] <= multiset(all)[x] {
      if IsNote(x) && path != "" {
        assert multiset(narrow)[x] <= multiset(posts)[x];
      }
    }
  }

  /** A string that starts with `p + q` starts with `p`. */
  lemma StartsWithLonger(s: string, p: string, q: string)
    requires StartsWith(s, p + q)
    ensures StartsWith(s, p)
  {
    assert s[..|p|] == (p + q)[..|p|];
  }

  /** Narrowing the path narrows the notes: a note under `path + more` is a
      note under `path`. */
  lemma LongerPathNarrows(posts: seq<Post>, path: string, more: string, x: Post)
    requires NotesFilter(posts, Some(path + more)).Success?
    requires x in NotesFilter(posts, Some(path + more)).value
    ensures NotesFilter(posts, Some(path)).Success? && x in NotesFilter(posts, Some(path)).value
  {
    if path != "" {
      assert path + more != "";
      StartsWithLonger(x.subcategory.value, path, more);
    }
  }

  /** The path a subcategory link loads: category slug, `/`, subcategory slug. */
  function SubcategoryPath(category: string, subcategory: string): (r: string)
    ensures r != "" && StartsWith(r, category + "/")
    ensures r[|category| + 1..] == subcategory
  {
    category + "/" + subcategory
  }

  class NotesPage {
    var notesCount: Option<string>
    var notesList: Option<Content>

    constructor(notesCount: Option<string>, notesList: Option<Content>)
      ensures this.notesCount == notesCount && this.notesList == notesList
    {
      this.notesCount := notesCount;
      this.notesList := notesList;
    }

    /** `loadNotesByCategory`: on success the count label and the list show
        the filtered notes newest first; when the filter throws, nothing is
        written. */
    method LoadNotesByCategory(posts: seq<Post>, path: Option<string>) returns (shown: Result<seq<Post>, string>)
      modifies this
      ensures NotesFilter(posts, path).Failure? ==>
        shown == NotesFilter(posts, path) && notesCount == old(notesCount) && notesList == old(notesList)
      ensures NotesFilter(posts, path).Success? ==>
        && shown.Success? && NewestFirst(shown.value)
        && multiset(shown.value) == multiset(NotesFilter(posts, path).value)
        && notesCount == (if old(notesCount).Some? then Some(CountLabel(|shown.value|, "note")) else None)
        && notesList == Display(old(notesList), shown.value, "No notes found")
    {
      var filtered := NotesFilter(posts, path);
      if filtered.Failure? {
        return filtered;
      }
      var sorted := SortedCopy(filtered.value);
      if notesCount.Some? {
        notesCount := Some(CountLabel(|sorted|, "note"));
      }
      notesList := Display(notesList, sorted, "No notes found");
      shown := Success(sorted);
    }

    /** A click on a subcategory link loads the notes under its path. */
    method OnSubcategoryClick(posts: seq<Post>, category: string, subcategory: string)
      returns (shown: Result<seq<Post>, string>)
      modifies this
      ensures var path := Some(SubcategoryPath(category, subcategory));
        && (NotesFilter(posts, path).Failure? ==>
              shown == NotesFilter(posts, path) && notesCount == old(notesCount) && notesList == old(notesList))
        && (NotesFilter(posts, path).Success? ==>
              && shown.Success? && NewestFirst(shown.value)
              && multiset(shown.value) == multiset(NotesFilter(posts, path).value)
              && notesCount == (if old(notesCount).Some? then Some(CountLabel(|shown.value|, "note")) else None)
              && notesList == Display(old(notesList), shown.value, "No notes found"))
    {
      shown := LoadNotesByCategory(posts, Some(SubcategoryPath(category, subcategory)));
    }
  }
}
