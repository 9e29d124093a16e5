// The page-view counter: a map from url to count (absent means 0), the
// increment of the current post's count, the number formatter with its
// K/M suffixes, and the badges that display counts.

module BlogViews {
  import opened Wrappers
  import opened Text

  /** `getViews`: the stored count, or 0 for an absent url. */
  function GetViews(views: map<string, nat>, url: string): (r: nat)
    ensures url in views ==> r == views[url]
    ensures url !in views ==> r == 0
  {
    if url in views then views[url] else 0
  }

  /** The map after one increment of `url`. */
  function Incremented(views: map<string, nat>, url: string): (r: map<string, nat>)
    ensures GetViews(r, url) == GetViews(views, url) + 1
    ensures forall u :: u != url ==> GetViews(r, u) == GetViews(views, u)
    ensures r.Keys == views.Keys + {url}
  {
    views[url := GetViews(views, url) + 1]
  }

  /** `n / unit` rounded half up to one decimal place, in tenths. */
  function Tenths(n: nat, unit: nat): (t: nat)
    requires unit > 0
    ensures 2 * t * unit <= 20 * n + unit < 2 * (t + 1) * unit
  {
    (20 * n + unit) / (2 * unit)
  }

  /** A count of tenths written with one decimal place. */
  function OneDecimal(t: nat): string {
    Decimal(t / 10) + "." + [DigitChar(t % 10)]
  }

  /** `formatViews`: plain digits below a thousand, thousands with a `K`
      below a million, millions with an `M` from there on. */
  function FormatViews(v: nat): (r: string)
    ensures r != []
    ensures v < 1000 ==> CanonicalDigits(r)
    ensures 1000 <= v < 1000000 ==> r[|r| - 1] == 'K'
    ensures 1000000 <= v ==> r[|r| - 1] == 'M'
  {
    if v < 1000 then Decimal(v)
    else if v < 1000000 then OneDecimal(Tenths(v, 1000)) + "K"
    else OneDecimal(Tenths(v, 1000000)) + "M"
  }

  /** Below a thousand the display reads back as the count itself. */
  lemma FormatSmallRoundTrip(v: nat)
    requires v < 1000
    ensures DigitsValue(FormatViews(v)) == v
  {
    DecimalRoundTrip(v);
  }

  /** Below a thousand the display is `toString`: the one canonical digit
      string that denotes the count. */
  lemma FormatSmallIsToString(v: nat, s: string)
    requires v < 1000 && CanonicalDigits(s) && DigitsValue(s) == v
    ensures FormatViews(v) == s
  {
    CanonicalDigitsUnique(s, v);
  }

  /** From a thousand on, the digits before the point are the count in
      thousands (or millions), rounded to one decimal. */
  lemma FormatLargeLeadingDigits(v: nat)
    requires 1000 <= v
    ensures var unit := if v < 1000000 then 1000 else 1000000;
      DigitsValue(LeadingDigits(FormatViews(v))) == Tenths(v, unit) / 10
  {
    var unit := if v < 1000000 then 1000 else 1000000;
    var t := Tenths(v, unit);
    var suffix := if v < 1000000 then "K" else "M";
    var d := Decimal(t / 10);
    var rest := "." + [DigitChar(t % 10)] + suffix;
    assert FormatViews(v) == d + rest;
    LeadingDigitsOfDigitsThen(d, rest);
    DecimalRoundTrip(t / 10);
  }

  /** An element with a `data-url` attribute (absent: `None`) and its text. */
  datatype Badge = Badge(url: Option<string>, text: string)

  /** The badges after `updateDisplay(url)` wrote `text` into every badge
      whose `data-url` is `url`. */
  function WithText(badges: seq<Badge>, url: string, text: string): (r: seq<Badge>)
    ensures |r| == |badges|
    ensures forall i :: 0 <= i < |badges| ==> r[i].url == badges[i].url
    ensures forall i :: 0 <= i < |badges| && badges[i].url == Some(url) ==> r[i].text == text
    ensures forall i :: 0 <= i < |badges| && badges[i].url != Some(url) ==> r[i] == badges[i]
  {
    seq(|badges|, i requires 0 <= i < |badges| =>
      if badges[i].url == Some(url) then badges[i].(text := text) else badges[i])
  }

  /** Every badge with a `data-url` showing the formatted count of its url. */
  function AllDisplayed(badges: seq<Badge>, views: map<string, nat>): (r: seq<Badge>)
    ensures |r| == |badges|
    ensures forall i :: 0 <= i < |badges| ==> r[i].url == badges[i].url
    ensures forall i :: 0 <= i < |badges| && badges[i].url.Some? ==>
      r[i].text == FormatViews(GetViews(views, badges[i].url.value))
    ensures forall i :: 0 <= i < |badges| && badges[i].url.None? ==> r[i] == badges[i]
  {
    seq(|badges|, i requires 0 <= i < |badges| =>
      if badges[i].url.Some? then badges[i].(text := FormatViews(GetViews(views, badges[i].url.value)))
      else badges[i])
  }

  /** Refreshing every badge twice is refreshing once. */
  lemma AllDisplayedIdempotent(badges: seq<Badge>, views: map<string, nat>)
    ensures AllDisplayed(AllDisplayed(badges, views), views) == AllDisplayed(badges, views)
  {
  }

  /** Updating one url after a full refresh with the same counts changes
      nothing. */
  lemma UpdateAfterRefreshIsNoop(badges: seq<Badge>, views: map<string, nat>, url: string)
    ensures var all := AllDisplayed(badges, views);
      WithText(all, url, FormatViews(GetViews(views, url))) == all
  {
    var all := AllDisplayed(badges, views);
    var r := WithText(all, url, FormatViews(GetViews(views, url)));
    forall i | 0 <= i < |all| ensures r[i] == all[i] {
      if all[i].url == Some(url) {
        assert badges[i].url == Some(url);
      }
    }
  }

  /** The section of the site whose pages count as blog posts. */
  const PostPathMarker := "/blogs/categories/"

  class ViewsCounter {
    var views: map<string, nat>
    var badges: seq<Badge>

    /** Load the stored counts, refresh every badge, then count the visit
        when the path is a blog post, keyed by the path itself. */
    constructor(stored: map<string, nat>, badges: seq<Badge>, pathname: string)
      ensures views == if Contains(pathname, PostPathMarker) then Incremented(stored, pathname) else stored
      ensures !Contains(pathname, PostPathMarker) ==> this.badges == AllDisplayed(badges, stored)
      ensures Contains(pathname, PostPathMarker) ==>
        this.badges == WithText(AllDisplayed(badges, stored), pathname, FormatViews(GetViews(stored, pathname) + 1))
    {
      views := stored;
      this.badges := badges;
      new;
      UpdateAllDisplays();
      if Contains(pathname, PostPathMarker) {
        IncrementViews(pathname);
      }
    }

    /** `incrementViews`: one more view of `url`, then its badges updated. */
    method IncrementViews(url: string)
      modifies this
      ensures views == Incremented(old(views), url)
      ensures badges == WithText(old(badges), url, FormatViews(GetViews(old(views), url) + 1))
    {
      if url !in views || views[url] == 0 {
        views := views[url := 0];
      }
      views := views[url := views[url] + 1];
      UpdateDisplay(url);
    }

    /** `updateDisplay`: every badge of `url` shows its formatted count. */
    method UpdateDisplay(url: string)
      modifies this
      ensures views == old(views)
      ensures badges == WithText(old(badges), url, FormatViews(GetViews(views, url)))
    {
      var text := FormatViews(GetViews(views, url));
      var i := 0;
      while i < |badges|
        invariant 0 <= i <= |badges| == |old(badges)|
        invariant views == old(views)
        invariant forall k :: 0 <= k < i ==> badges[k] == WithText(old(badges), url, text)[k]
        invariant forall k :: i <= k < |badges| ==> badges[k] == old(badges)[k]
      {
        if badges[i].url == Some(url) {
          badges := badges[i := badges[i].(text := text)];
        }
        i := i + 1;
      }
    }

    /** `updateAllDisplays`: `updateDisplay` for the url of each badge in
        turn, which leaves every badge showing its own url's count. */
    method UpdateAllDisplays()
      modifies this
      ensures views == old(views)
      ensures badges == AllDisplayed(old(badges), views)
    {
      var i := 0;
      while i < |badges|
        invariant 0 <= i <= |badges| == |old(badges)|
        invariant views == old(views)
        invariant forall k :: 0 <= k < |badges| ==> badges[k].url == old(badges)[k].url
        invariant forall k :: 0 <= k < |badges| && badges[k].url.None? ==> badges[k] == old(badges)[k]
        invariant forall k :: 0 <= k < i && badges[k].url.Some? ==>
          badges[k].text == FormatViews(GetViews(views, badges[k].url.value))
      {
        if badges[i].url.Some? {
          UpdateDisplay(badges[i].url.value);
        }
        i := i + 1;
      }
    }
  }
}
