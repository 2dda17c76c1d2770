/**
 * The compute step of the handler on a cache miss: the fetched page's
 * matches are extracted, and the default renderer lays out a 1200 x 628
 * card.  Fetching, text measurement and JPEG encoding are parameters.
 */
module Pipeline {
  import opened Js
  import opened Metadata
  import opened Layout
  import opened CardCache

  const CardWidth: int := 1200
  const CardHeight: int := 628

  /** The layout of a card, or None when extraction throws and the handler
      fails before anything is drawn. */
  function CardLayout(ms: seq<MetaMatch>, titleCapture: Option<string>, srcs: seq<string>,
                      fixedText: JsVal, h: Heights, loads: string -> bool): (r: Option<seq<Drawable>>)
    ensures r.None? <==> titleCapture.None?
    ensures r.Some? ==>
              r.value == Plan(fixedText, CardWidth, CardHeight, Extract(ms, titleCapture, srcs).meta, h, loads)
    ensures r.Some? ==> |r.value| >= 3
  {
    match Extract(ms, titleCapture, srcs)
    case Err(_) => None
    case Ok(meta) => Some(Plan(fixedText, CardWidth, CardHeight, meta, h, loads))
  }

  /** The regex matches of a fetched page. */
  datatype Page = Page(metas: seq<MetaMatch>, titleCapture: Option<string>, srcs: seq<string>)

  /** The miss branch as the cache's compute step: fetch `${url}${path}`,
      extract its metadata, lay out the card with the measured heights and
      encode it.  It fails, and the handler with it, when the fetch fails or
      the page has no `<title>`. */
  function Compute(fetch: string -> Option<Page>, fixedText: JsVal, measure: PageMeta -> Heights,
                   loads: string -> bool, encode: seq<Drawable> -> Bytes, path: string): (r: Option<Bytes>)
    ensures r.None? <==> fetch(path).None? || fetch(path).value.titleCapture.None?
    ensures r.Some? ==>
              var page := fetch(path).value;
              var meta := Extract(page.metas, page.titleCapture, page.srcs).meta;
              r.value == encode(Plan(fixedText, CardWidth, CardHeight, meta, measure(meta), loads))
  {
    match fetch(path)
    case None => None
    case Some(page) =>
      match Extract(page.metas, page.titleCapture, page.srcs)
      case Err(_) => None
      case Ok(meta) => Some(encode(Plan(fixedText, CardWidth, CardHeight, meta, measure(meta), loads)))
  }

  /** A request whose page cannot be fetched or has no `<title>` stores
      nothing: a hit still returns the stored card, a render returns no body. */
  lemma FailedPageStoresNothing(files: map<string, Bytes>, dev: bool, path: string,
                                fetch: string -> Option<Page>, fixedText: JsVal, measure: PageMeta -> Heights,
                                loads: string -> bool, encode: seq<Drawable> -> Bytes)
    requires fetch(path).None? || fetch(path).value.titleCapture.None?
    ensures var s := Serve(files, dev, path, Compute(fetch, fixedText, measure, loads, encode, path));
            && s.files == files
            && (s.rendered <==> CacheKey(path) !in files || dev)
            && (s.rendered ==> s.body == None)
  {
  }

  /** On a miss, a fetched page with a `<title>` has its encoded card stored
      under the path's file name and returned. */
  lemma TitledPageStored(files: map<string, Bytes>, dev: bool, path: string,
                         fetch: string -> Option<Page>, fixedText: JsVal, measure: PageMeta -> Heights,
                         loads: string -> bool, encode: seq<Drawable> -> Bytes)
    requires fetch(path).Some? && fetch(path).value.titleCapture.Some?
    requires CacheKey(path) !in files || dev
    ensures var page := fetch(path).value;
            var meta := Extract(page.metas, page.titleCapture, page.srcs).meta;
            var card := encode(Plan(fixedText, CardWidth, CardHeight, meta, measure(meta), loads));
            var s := Serve(files, dev, path, Compute(fetch, fixedText, measure, loads, encode, path));
            && s.rendered && s.body == Some(card)
            && CacheKey(path) in s.files && s.files[CacheKey(path)] == card
  {
  }

  /** The handler of a server whose compute step is `Compute`, on a page that
      cannot be fetched or has no `<title>`. */
  method HandleFailedPage(c: Cache, path: string, fetch: string -> Option<Page>, fixedText: JsVal,
                          measure: PageMeta -> Heights, loads: string -> bool, encode: seq<Drawable> -> Bytes)
    returns (body: Option<Bytes>)
    requires path != ""
    requires fetch(path).None? || fetch(path).value.titleCapture.None?
    modifies c
    ensures c.files == old(c.files)
    ensures CacheKey(path) !in old(c.files) || c.dev ==> body == None
    ensures CacheKey(path) in old(c.files) && !c.dev ==> body == Some(old(c.files)[CacheKey(path)])
  {
    body := c.Handle(Some(path), p => Compute(fetch, fixedText, measure, loads, encode, p));
    FailedPageStoresNothing(old(c.files), c.dev, path, fetch, fixedText, measure, loads, encode);
  }

  /** A page with a non-empty title, one `og:description` meta tag and one
      photo yields exactly that title, description and image. */
  lemma TitleDescriptionPhotoMeta(t: string, d: string, photo: string)
    requires t != "" && d != "" && HasImageExtension(photo)
    ensures Extract([MetaMatch("og:description", d)], Some(t), [photo])
         == Ok(PageMeta(Str(t), [photo], Str(t), Undefined, Undefined, Str(d)))
  {
    var ms := [MetaMatch("og:description", d)];
    var m1: map<string, string> := map[]["og:description" := d];
    assert ms[1..] == [];
    assert Assign(m1, ms[1..]) == m1;
    assert MetaMap(ms) == m1;
    assert KeepImages([photo]) == [photo];
  }

  /** Such a page is laid out from exactly that record. */
  lemma TitleDescriptionPhotoLayout(t: string, d: string, photo: string, fixedText: JsVal, h: Heights, loads: string -> bool)
    requires t != "" && d != "" && HasImageExtension(photo)
    ensures CardLayout([MetaMatch("og:description", d)], Some(t), [photo], fixedText, h, loads)
         == Some(Plan(fixedText, CardWidth, CardHeight, PageMeta(Str(t), [photo], Str(t), Undefined, Undefined, Str(d)), h, loads))
  {
    TitleDescriptionPhotoMeta(t, d, photo);
  }

  /** The plan for such a page's metadata, element by element. */
  lemma TitleDescriptionPhotoPlan(t: string, d: string, photo: string, fixedText: JsVal, h: Heights, loads: string -> bool)
    requires t != "" && d != "" && photo != ""
    requires !("/_ipx" <= photo) && loads(photo)
    ensures var meta := PageMeta(Str(t), [photo], Str(t), Undefined, Undefined, Str(d));
            Plan(fixedText, CardWidth, CardHeight, meta, h, loads)
              == [Picture(photo), TopTintBox(h), CaptionLabel(fixedText, CardWidth, h),
                  WatermarkLabel(meta, CardWidth, h), TitleLabel(meta, CardWidth, h),
                  DescTintBox(meta, CardHeight, h), DescriptionLabel(meta, CardWidth, h)]
  {
    var meta := PageMeta(Str(t), [photo], Str(t), Undefined, Undefined, Str(d));
    assert StripIpx(photo) == photo;
    var ac := AfterCaption(fixedText, CardWidth, meta, h, loads);
    assert ac == [Picture(photo), TopTintBox(h), CaptionLabel(fixedText, CardWidth, h)];
    var aw := AfterWatermark(fixedText, CardWidth, meta, h, loads);
    assert aw == ac + [WatermarkLabel(meta, CardWidth, h)];
    var asub := AfterSubtitle(fixedText, CardWidth, meta, h, loads);
    assert asub == aw + [TitleLabel(meta, CardWidth, h)];
  }

  /** The card of such a page (the scenario of `/blog/hello-world`, titled
      "Hello World" with description "A post" and photo `/img/photo.jpg`):
      the photo, the top tint and the caption, then the title as both the
      watermark and the readable title at the top of the stack, then the
      description 100 below the title's bottom over its tint box; no section
      and no subtitle. */
  lemma TitleDescriptionPhotoCard(t: string, d: string, photo: string, fixedText: JsVal, h: Heights, loads: string -> bool)
    requires t != "" && d != "" && HasImageExtension(photo)
    requires !("/_ipx" <= photo) && loads(photo)
    ensures CardLayout([MetaMatch("og:description", d)], Some(t), [photo], fixedText, h, loads)
         == Some([Picture(photo),
                  Box(TopTint, 0, 0, 1200, h.caption + 60),
                  Label(Caption, CaptionText(fixedText), 50, 30, 1100, h.caption),
                  Label(Watermark, t, 0, -30, 1100, h.watermark),
                  Label(Title, t, 50, 120, 1100, h.title),
                  Box(DescTint, 0, 170 + h.title, 1200, 528 - h.title),
                  Label(Description, d, 50, 220 + h.title, 900, h.description)])
  {
    var meta := PageMeta(Str(t), [photo], Str(t), Undefined, Undefined, Str(d));
    var plan := Plan(fixedText, CardWidth, CardHeight, meta, h, loads);
    assert TitleTop(meta, h) == 120 && DescTop(meta, h) == 220 + h.title;
    assert TopTintBox(h) == Box(TopTint, 0, 0, 1200, h.caption + 60);
    assert CaptionLabel(fixedText, CardWidth, h) == Label(Caption, CaptionText(fixedText), 50, 30, 1100, h.caption);
    assert WatermarkLabel(meta, CardWidth, h) == Label(Watermark, t, 0, -30, 1100, h.watermark);
    assert TitleLabel(meta, CardWidth, h) == Label(Title, t, 50, 120, 1100, h.title);
    assert DescTintBox(meta, CardHeight, h) == Box(DescTint, 0, 170 + h.title, 1200, 528 - h.title);
    assert DescriptionLabel(meta, CardWidth, h) == Label(Description, d, 50, 220 + h.title, 900, h.description);
    assert |photo| >= 4;
    TitleDescriptionPhotoLayout(t, d, photo, fixedText, h, loads);
    TitleDescriptionPhotoPlan(t, d, photo, fixedText, h, loads);
  }
}
