/** `extract_media_data`: the image URLs and the video URL of a property page
    (data-pipeline/scrapers/portal_inmobiliario.py:820-865). */
module Media {
  import opened Wrappers
  import opened Models
  import opened Pages

  /** How many matches of an image selector are read (`images[:10]`). */
  const ImagesPerSelector := 10

  /** `images[:10]`. */
  function FirstImages(got: seq<SrcRead>): (r: seq<SrcRead>)
    ensures |r| <= ImagesPerSelector && r <= got
    ensures |got| <= ImagesPerSelector ==> r == got
  {
    if |got| <= ImagesPerSelector then got else got[..ImagesPerSelector]
  }

  /** `src and src.startswith('http') and src not in image_urls`. */
  predicate Wanted(urls: seq<string>, src: Option<string>) {
    src.Some? && "http" <= src.value && src.value !in urls
  }

  /** The URLs every kept list satisfies: each starts with `http` and none
      occurs twice. */
  predicate GoodUrls(urls: seq<string>) {
    && (forall i | 0 <= i < |urls| :: "http" <= urls[i])
    && (forall i, j | 0 <= i < j < |urls| :: urls[i] != urls[j])
  }

  /** The reads of one selector's matches, from the list `urls` collected so
      far: the new list, and whether a read raised, which ends the selector. */
  function GroupReads(urls: seq<string>, got: seq<SrcRead>): (seq<string>, bool)
    decreases |got|
  {
    if got == [] then (urls, false)
    else if got[0].SrcRaised? then (urls, true)
    else
      var next := if Wanted(urls, got[0].src) then urls + [got[0].src.value] else urls;
      GroupReads(next, got[1..])
  }

  /** The selector loop: after a selector whose reads all succeeded, a
      non-empty list ends the loop; after one whose read raised, the loop goes
      on with what was appended. */
  function ImagePass(urls: seq<string>, groups: seq<seq<SrcRead>>): seq<string>
    decreases |groups|
  {
    if groups == [] then urls
    else
      var (next, raised) := GroupReads(urls, FirstImages(groups[0]));
      if !raised && next != [] then next else ImagePass(next, groups[1..])
  }

  /** The video loop: the first truthy `src` is used. */
  function VideoLoop(p: PropertyRecord, srcs: seq<Option<string>>): PropertyRecord
    decreases |srcs|
  {
    if srcs == [] then p
    else if srcs[0].Some? && srcs[0].value != "" then p.(videoUrl := srcs[0].value)
    else VideoLoop(p, srcs[1..])
  }

  /** The whole pass: the image list always replaces `image_urls`, then the
      video loop runs. */
  function MediaData(p: PropertyRecord, page: DetailPage): PropertyRecord {
    VideoLoop(p.(imageUrls := Some(ImagePass([], page.imageGroups))), page.videoSrcs)
  }

  // ---------------------------------------------------------------------------
  // Properties

  /** A selector's reads keep the list good, only append to it, and append
      at most one URL per read. */
  lemma {:induction false} GroupReadsGood(urls: seq<string>, got: seq<SrcRead>)
    requires GoodUrls(urls)
    ensures GoodUrls(GroupReads(urls, got).0)
    ensures urls <= GroupReads(urls, got).0
    ensures |GroupReads(urls, got).0| <= |urls| + |got|
    decreases |got|
  {
    if got != [] && got[0].Src? {
      var next := if Wanted(urls, got[0].src) then urls + [got[0].src.value] else urls;
      assert GoodUrls(next);
      GroupReadsGood(next, got[1..]);
    }
  }

  /** The image list the pass keeps is good whenever it starts good. */
  lemma {:induction false} ImagePassGood(urls: seq<string>, groups: seq<seq<SrcRead>>)
    requires GoodUrls(urls)
    ensures GoodUrls(ImagePass(urls, groups))
    ensures urls <= ImagePass(urls, groups)
    decreases |groups|
  {
    if groups != [] {
      GroupReadsGood(urls, FirstImages(groups[0]));
      var (next, raised) := GroupReads(urls, FirstImages(groups[0]));
      if raised || next == [] {
        ImagePassGood(next, groups[1..]);
      }
    }
  }

  /** No read raises. */
  predicate NoneRaised(groups: seq<seq<SrcRead>>) {
    forall g, k | 0 <= g < |groups| && 0 <= k < |groups[g]| :: groups[g][k].Src?
  }

  /** Reads that do not raise report that no read raised, keep the list
      collected so far, and leave every `http` source they read in the list. */
  lemma {:induction false} GroupReadsComplete(urls: seq<string>, got: seq<SrcRead>)
    requires forall k | 0 <= k < |got| :: got[k].Src?
    ensures !GroupReads(urls, got).1
    ensures urls <= GroupReads(urls, got).0
    ensures forall k | 0 <= k < |got| && got[k].src.Some? && "http" <= got[k].src.value ::
      got[k].src.value in GroupReads(urls, got).0
    decreases |got|
  {
    if got != [] {
      var next := if Wanted(urls, got[0].src) then urls + [got[0].src.value] else urls;
      var rest := got[1..];
      GroupReadsComplete(next, rest);
      var r := GroupReads(urls, got).0;
      assert r == GroupReads(next, rest).0;
      forall k | 0 <= k < |got| && got[k].src.Some? && "http" <= got[k].src.value
        ensures got[k].src.value in r
      {
        if k == 0 {
          assert got[0].src.value in next;
          assert next <= r;
        } else {
          assert got[k] == rest[k - 1];
        }
      }
    }
  }

  /** When no read raises, the first selector that yields a URL gives the
      whole list, so it holds at most ten URLs. */
  lemma {:induction false} ImagePassAtMostTen(groups: seq<seq<SrcRead>>)
    requires NoneRaised(groups)
    ensures |ImagePass([], groups)| <= ImagesPerSelector
    decreases |groups|
  {
    if groups != [] {
      var got := FirstImages(groups[0]);
      assert forall k | 0 <= k < |got| :: got[k] == groups[0][k];
      GroupReadsComplete([], got);
      GroupReadsGood([], got);
      var (next, raised) := GroupReads([], got);
      if next == [] {
        assert NoneRaised(groups[1..]) by {
          forall g, k | 0 <= g < |groups[1..]| && 0 <= k < |groups[1..][g]|
            ensures groups[1..][g][k].Src?
          {
            assert groups[1..][g] == groups[g + 1];
          }
        }
        ImagePassAtMostTen(groups[1..]);
      }
    }
  }

  /** A selector whose read raises keeps what it appended and the loop goes
      on, so the list can mix URLs from two selectors; the bound of ten holds
      only when no read raises. */
  lemma RaisedSelectorKeeps(a: string, b: string)
    requires "http" <= a && "http" <= b && a != b
    ensures ImagePass([], [[Src(Some(a)), SrcRaised], [Src(Some(b))]]) == [a, b]
  {
    var first := [Src(Some(a)), SrcRaised];
    assert FirstImages(first) == first;
    assert first[1..] == [SrcRaised];
    assert GroupReads([a], [SrcRaised]) == ([a], true);
    assert Wanted([], first[0].src);
    var none: seq<string> := [];
    assert none + [a] == [a];
    assert GroupReads(none, first) == GroupReads([a], first[1..]);
    var second := [Src(Some(b))];
    assert FirstImages(second) == second;
    assert second[1..] == [];
    assert GroupReads([a, b], []) == ([a, b], false);
    assert GroupReads([a], second) == GroupReads([a] + [b], second[1..]);
    assert ImagePass([a, b], []) == [a, b];
    var groups := [first, second];
    assert groups[1..] == [second];
    assert ImagePass([], groups) == ImagePass([a], [second]);
  }

  /** The video loop uses the first truthy source and only that one. */
  lemma {:induction false} VideoLoopFirst(p: PropertyRecord, srcs: seq<Option<string>>, k: nat)
    requires k < |srcs| && srcs[k].Some? && srcs[k].value != ""
    requires forall i | 0 <= i < k :: srcs[i].None? || srcs[i].value == ""
    ensures VideoLoop(p, srcs) == p.(videoUrl := srcs[k].value)
    decreases k
  {
    if k > 0 {
      assert srcs[1..][k - 1] == srcs[k];
      VideoLoopFirst(p, srcs[1..], k - 1);
    }
  }

  /** Without a truthy source the record is left as it was. */
  lemma {:induction false} VideoLoopNone(p: PropertyRecord, srcs: seq<Option<string>>)
    requires forall i | 0 <= i < |srcs| :: srcs[i].None? || srcs[i].value == ""
    ensures VideoLoop(p, srcs) == p
    decreases |srcs|
  {
    if srcs != [] {
      VideoLoopNone(p, srcs[1..]);
    }
  }

  /** The pass changes only the image list and the video URL, and the image
      list it stores starts with `http` everywhere and has no duplicates. */
  lemma MediaDataFacts(p: PropertyRecord, page: DetailPage)
    ensures var r := MediaData(p, page);
      && r.(imageUrls := p.imageUrls, videoUrl := p.videoUrl) == p
      && r.imageUrls == Some(ImagePass([], page.imageGroups))
      && GoodUrls(r.imageUrls.value)
  {
    VideoLoopFrame(p.(imageUrls := Some(ImagePass([], page.imageGroups))), page.videoSrcs);
    ImagePassGood([], page.imageGroups);
  }

  /** The video loop touches the video URL only. */
  lemma {:induction false} VideoLoopFrame(p: PropertyRecord, srcs: seq<Option<string>>)
    ensures VideoLoop(p, srcs).(videoUrl := p.videoUrl) == p
    decreases |srcs|
  {
    if srcs != [] {
      VideoLoopFrame(p, srcs[1..]);
    }
  }

  // ---------------------------------------------------------------------------
  // The pass on the record object

  /** The image selector loop. */
  method CollectImages(groups: seq<seq<SrcRead>>) returns (urls: seq<string>)
    ensures urls == ImagePass([], groups)
  {
    urls := [];
    var g := 0;
    while g < |groups|
      invariant 0 <= g <= |groups|
      invariant ImagePass([], groups) == ImagePass(urls, groups[g..])
    {
      assert groups[g..][1..] == groups[g + 1..];
      var got := FirstImages(groups[g]);
      ghost var start := urls;
      var raised := false;
      var j := 0;
      while j < |got| && !raised
        invariant 0 <= j <= |got|
        invariant GroupReads(start, got) == if raised then (urls, true) else GroupReads(urls, got[j..])
        decreases |got| - j, if raised then 0 else 1
      {
        assert got[j..][1..] == got[j + 1..];
        match got[j] {
          case SrcRaised =>
            raised := true;
          case Src(src) =>
            if Wanted(urls, src) {
              urls := urls + [src.value];
            }
            j := j + 1;
        }
      }
      if !raised && urls != [] {
        return;
      }
      g := g + 1;
    }
  }

  /** `extract_media_data` on the record object. */
  method ExtractMediaData(page: DetailPage, p: PropertyData)
    modifies p
    ensures p.fields == MediaData(old(p.fields), page)
  {
    var urls := CollectImages(page.imageGroups);
    p.fields := p.fields.(imageUrls := Some(urls));
    var srcs := page.videoSrcs;
    var i := 0;
    while i < |srcs|
      invariant 0 <= i <= |srcs|
      invariant MediaData(old(p.fields), page) == VideoLoop(p.fields, srcs[i..])
    {
      assert srcs[i..][1..] == srcs[i + 1..];
      if srcs[i].Some? && srcs[i].value != "" {
        p.fields := p.fields.(videoUrl := srcs[i].value);
        break;
      }
      i := i + 1;
    }
  }
}
