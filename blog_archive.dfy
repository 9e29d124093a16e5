// The archive page: with a `year` parameter, the title and the heading name
// the year and each timeline block is shown exactly when its trimmed h3
// heading equals the year.

module BlogArchive {
  import opened Wrappers
  import opened Text
  import opened Feed

  /** A `.timeline-year` block: the text of its h3, if it has one, and its
      display style. */
  datatype TimelineBlock = TimelineBlock(heading: Option<string>, display: string)

  /** The display one block gets from the year filter. */
  function YearDisplay(b: TimelineBlock, year: string): (r: TimelineBlock)
    ensures r.heading == b.heading
    ensures b.heading.None? ==> r == b
    ensures b.heading.Some? ==> (r.display == "block" <==> Trim(b.heading.value) == year)
    ensures b.heading.Some? ==> (r.display == "none" <==> Trim(b.heading.value) != year)
  {
    match b.heading
    case None => b
    case Some(h) => b.(display := if Trim(h) != year then "none" else "block")
  }

  /** Every block after the year filter. */
  function YearFiltered(blocks: seq<TimelineBlock>, year: string): (r: seq<TimelineBlock>)
    ensures |r| == |blocks|
    ensures forall i :: 0 <= i < |blocks| ==> r[i] == YearDisplay(blocks[i], year)
  {
    seq(|blocks|, i requires 0 <= i < |blocks| => YearDisplay(blocks[i], year))
  }

  /** Filtering twice by the same year is filtering once. */
  lemma YearFilterIdempotent(blocks: seq<TimelineBlock>, year: string)
    ensures YearFiltered(YearFiltered(blocks, year), year) == YearFiltered(blocks, year)
  {
    var once := YearFiltered(blocks, year);
    assert forall i :: 0 <= i < |blocks| ==> YearDisplay(once[i], year) == once[i];
  }

  /** Only the heading side is trimmed: a year given with surrounding
      whitespace matches no heading, so every block with a heading is
      hidden. */
  lemma PaddedYearHidesAll(blocks: seq<TimelineBlock>, year: string, i: int)
    requires year != [] && (IsSpace(year[0]) || IsSpace(year[|year| - 1]))
    requires 0 <= i < |blocks| && blocks[i].heading.Some?
    ensures YearFiltered(blocks, year)[i].display == "none"
  {
  }

  class ArchivePage {
    var title: string
    var heading: Option<string>
    var blocks: seq<TimelineBlock>

    constructor(title: string, heading: Option<string>, blocks: seq<TimelineBlock>)
      ensures this.title == title && this.heading == heading && this.blocks == blocks
    {
      this.title := title;
      this.heading := heading;
      this.blocks := blocks;
    }

    /** `filterPostsByYear`: one pass over the blocks setting each display. */
    method FilterPostsByYear(year: string)
      modifies this
      ensures blocks == YearFiltered(old(blocks), year)
      ensures title == old(title) && heading == old(heading)
    {
      var i := 0;
      while i < |blocks|
        invariant 0 <= i <= |blocks| == |old(blocks)|
        invariant forall k :: 0 <= k < i ==> blocks[k] == YearDisplay(old(blocks)[k], year)
        invariant forall k :: i <= k < |blocks| ==> blocks[k] == old(blocks)[k]
        invariant title == old(title) && heading == old(heading)
      {
        var block := blocks[i];
        if block.heading.Some? {
          var yearText := Trim(block.heading.value);
          if yearText != year {
            blocks := blocks[i := block.(display := "none")];
          } else {
            blocks := blocks[i := block.(display := "block")];
          }
        }
        i := i + 1;
      }
    }

    /** `handleArchivePage`: without a year nothing changes; with one, the
        title, the heading and the blocks follow it. */
    method HandleArchivePage(year: Option<string>)
      modifies this
      ensures !Given(year) ==> title == old(title) && heading == old(heading) && blocks == old(blocks)
      ensures Given(year) ==>
        && title == "Archive: " + year.value + " - Blog"
        && heading == (if old(heading).Some? then Some("Blog Archive: " + year.value) else None)
        && blocks == YearFiltered(old(blocks), year.value)
    {
      if Given(year) {
        var y := year.value;
        title := "Archive: " + y + " - Blog";
        if heading.Some? {
          heading := Some("Blog Archive: " + y);
        }
        FilterPostsByYear(y);
      }
    }
  }
}
