/**
 * The geometry of the default card renderer (defaultImageRenderer).
 *
 * Drawing is not modelled: the canvas is the sequence of objects added to
 * it, in the order they are added.  Text boxes carry the height the text
 * measurer reports (taken as an input, `height || 0` being a non-negative
 * number); whether the background image file loads is an input too.
 */
module Layout {
  import opened Js
  import opened Metadata

  // ---------------------------------------------------------------------
  // The image path: `/_ipx` optimiser URLs lose their first three segments

  function SlashIndex(s: string): (i: nat)
    ensures i <= |s|
    ensures i < |s| ==> s[i] == '/'
    ensures forall j :: 0 <= j < i ==> s[j] != '/'
  {
    if s == [] || s[0] == '/' then 0 else 1 + SlashIndex(s[1..])
  }

  /** `s.split('/')`: never empty, and no part holds a slash. */
  function Split(s: string): (parts: seq<string>)
    ensures |parts| >= 1
    ensures forall k :: 0 <= k < |parts| ==> '/' !in parts[k]
    decreases |s|
  {
    var i := SlashIndex(s);
    if i == |s| then [s] else [s[..i]] + Split(s[i + 1..])
  }

  /** `parts.join('/')`. */
  function Join(parts: seq<string>): string {
    if parts == [] then ""
    else if |parts| == 1 then parts[0]
    else parts[0] + "/" + Join(parts[1..])
  }

  /** Joining slash-free parts puts exactly one slash per gap between parts. */
  lemma {:induction false} JoinSeparators(parts: seq<string>)
    requires forall k :: 0 <= k < |parts| ==> '/' !in parts[k]
    ensures multiset(Join(parts))['/'] == if parts == [] then 0 else |parts| - 1
    decreases |parts|
  {
    if |parts| > 1 {
      var tail := parts[1..];
      assert forall k :: 0 <= k < |tail| ==> tail[k] == parts[k + 1];
      JoinSeparators(tail);
      assert '/' !in parts[0];
    }
  }

  /** The slash of each gap: the join is the join of the parts before the gap,
      a slash, and the join of the parts after it. */
  lemma {:induction false} JoinAt(parts: seq<string>, k: nat)
    requires 0 < k < |parts|
    ensures Join(parts) == Join(parts[..k]) + "/" + Join(parts[k..])
    decreases k
  {
    if k > 1 {
      var tail := parts[1..];
      JoinAt(tail, k - 1);
      assert tail[..k - 1] == parts[..k][1..];
      assert tail[k - 1..] == parts[k..];
    }
  }

  /** Joining the parts of a split gives the string back. */
  lemma {:induction false} JoinSplit(s: string)
    ensures Join(Split(s)) == s
    decreases |s|
  {
    var i := SlashIndex(s);
    if i < |s| {
      var rest := Split(s[i + 1..]);
      JoinSplit(s[i + 1..]);
      assert Split(s) == [s[..i]] + rest;
      assert ([s[..i]] + rest)[1..] == rest;
      assert s == s[..i] + "/" + s[i + 1..];
    }
  }

  /** Splitting a join of slash-free parts gives the parts back. */
  lemma {:induction false} SplitJoin(parts: seq<string>)
    requires |parts| >= 1
    requires forall k :: 0 <= k < |parts| ==> '/' !in parts[k]
    ensures Split(Join(parts)) == parts
    decreases |parts|
  {
    if |parts| == 1 {
      SplitWhole(parts[0]);
    } else {
      var tail := parts[1..];
      assert forall k :: 0 <= k < |tail| ==> tail[k] == parts[k + 1];
      SplitJoin(tail);
      SplitSegment(parts[0], Join(tail));
      assert parts == [parts[0]] + tail;
    }
  }

  lemma SplitSegment(a: string, b: string)
    requires '/' !in a
    ensures Split(a + "/" + b) == [a] + Split(b)
  {
    var s := a + "/" + b;
    var i := SlashIndex(s);
    assert s[|a|] == '/';
    assert i == |a|;
    assert s[..i] == a;
    assert s[i + 1..] == b;
  }

  lemma SplitWhole(a: string)
    requires '/' !in a
    ensures Split(a) == [a]
  {
    assert SlashIndex(a) == |a|;
  }

  /** The text after the n-th slash, or "" when there are fewer slashes. */
  function AfterSlashes(s: string, n: nat): string
    decreases n
  {
    if n == 0 then s
    else
      var i := SlashIndex(s);
      if i == |s| then "" else AfterSlashes(s[i + 1..], n - 1)
  }

  /** The text after the n-th slash is a suffix of the string. */
  lemma {:induction false} AfterSlashesSuffix(s: string, n: nat)
    ensures |AfterSlashes(s, n)| <= |s| && AfterSlashes(s, n) == s[|s| - |AfterSlashes(s, n)|..]
    decreases n
  {
    if n > 0 {
      var i := SlashIndex(s);
      if i < |s| {
        var t := s[i + 1..];
        AfterSlashesSuffix(t, n - 1);
        var r := AfterSlashes(t, n - 1);
        assert AfterSlashes(s, n) == r;
        var k := |t| - |r|;
        assert |s| - |r| == i + 1 + k;
        assert t[k..] == s[i + 1 + k..];
      }
    }
  }

  /** Dropping n parts of a split and joining the rest keeps the text after
      the n-th slash. */
  lemma {:induction false} JoinDropped(s: string, n: nat)
    ensures var parts := Split(s);
            Join(if |parts| <= n then [] else parts[n..]) == AfterSlashes(s, n)
    decreases n
  {
    if n == 0 {
      JoinSplit(s);
    } else {
      var i := SlashIndex(s);
      if i < |s| {
        var t := s[i + 1..];
        var rest := Split(t);
        assert Split(s) == [s[..i]] + rest;
        assert AfterSlashes(s, n) == AfterSlashes(t, n - 1);
        JoinDropped(t, n - 1);
        if |rest| >= n {
          assert ([s[..i]] + rest)[n..] == rest[n - 1..];
        }
      } else {
        assert Split(s) == [s];
        assert AfterSlashes(s, n) == "";
      }
    }
  }

  /** `imgPath.split('/').splice(3).join('/')` when the path starts with `/_ipx`. */
  function StripIpx(p: string): string {
    if "/_ipx" <= p then
      var parts := Split(p);
      Join(if |parts| <= 3 then [] else parts[3..])
    else p
  }

  /** An `/_ipx` path keeps what follows its third slash, a suffix of the
      path; any other path is unchanged. */
  lemma StripIpxAfterThirdSlash(p: string)
    ensures StripIpx(p) == if "/_ipx" <= p then AfterSlashes(p, 3) else p
    ensures |StripIpx(p)| <= |p| && StripIpx(p) == p[|p| - |StripIpx(p)|..]
  {
    if "/_ipx" <= p {
      var parts := Split(p);
      assert StripIpx(p) == Join(if |parts| <= 3 then [] else parts[3..]);
      JoinDropped(p, 3);
      AfterSlashesSuffix(p, 3);
    }
  }

  lemma SplitIpxPath(modifiers: string, rest: string)
    requires '/' !in modifiers
    ensures Split("/_ipx/" + modifiers + "/" + rest) == [""] + (["_ipx"] + ([modifiers] + Split(rest)))
  {
    var tail := modifiers + "/" + rest;
    var inner := "_ipx" + "/" + tail;
    assert "" + "/" + inner == "/_ipx/" + modifiers + "/" + rest;
    SplitSegment("", inner);
    SplitSegment("_ipx", tail);
    SplitSegment(modifiers, rest);
  }

  /** `/_ipx/<modifiers>/<rest>` becomes `<rest>`, e.g. `/_ipx/w_100/img/a.jpg`
      becomes `img/a.jpg`. */
  lemma StripIpxDropsThreeSegments(modifiers: string, rest: string)
    requires '/' !in modifiers
    ensures StripIpx("/_ipx/" + modifiers + "/" + rest) == rest
  {
    var p := "/_ipx/" + modifiers + "/" + rest;
    assert p[..5] == "/_ipx";
    SplitIpxPath(modifiers, rest);
    var parts := Split(p);
    assert parts[3..] == Split(rest);
    JoinSplit(rest);
  }

  /** With fewer than three slashes nothing is left of an `/_ipx` path. */
  lemma StripIpxTooShort(x: string, y: string)
    requires '/' !in x && '/' !in y
    ensures StripIpx("/_ipx" + x) == ""
    ensures StripIpx("/_ipx" + x + "/" + y) == ""
  {
    var p, q := "/_ipx" + x, "/_ipx" + x + "/" + y;
    assert p == "" + "/" + ("_ipx" + x);
    assert '/' !in "_ipx" + x;
    SplitSegment("", "_ipx" + x);
    SplitWhole("_ipx" + x);
    assert q == "" + "/" + ("_ipx" + x + "/" + y);
    SplitSegment("", "_ipx" + x + "/" + y);
    SplitSegment("_ipx" + x, y);
    SplitWhole(y);
    assert "/_ipx" <= p;
    assert "/_ipx" <= q;
  }

  // ---------------------------------------------------------------------
  // The canvas objects

  /** What an object on the card is for; the declaration order is the paint order. */
  datatype Role = Background | TopTint | Caption | Section | Watermark | Title | Subtitle | DescTint | Description

  function Rank(r: Role): nat {
    match r
    case Background => 0
    case TopTint => 1
    case Caption => 2
    case Section => 3
    case Watermark => 4
    case Title => 5
    case Subtitle => 6
    case DescTint => 7
    case Description => 8
  }

  /** The blurred, scaled and centred picture keeps only its file path here. */
  datatype Drawable =
    | Picture(path: string)
    | Box(role: Role, left: int, top: int, width: int, height: int)
    | Label(role: Role, text: string, left: int, top: int, width: int, height: int)

  function RoleOf(d: Drawable): Role {
    if d.Picture? then Background else d.role
  }

  /** The measured heights of the six text boxes. */
  datatype Heights = Heights(caption: nat, section: nat, watermark: nat, title: nat, subtitle: nat, description: nat)

  // ---------------------------------------------------------------------
  // The plan in closed form

  const CaptionTop: int := 30
  const StackTop: int := CaptionTop + 90

  function TitleTop(m: PageMeta, h: Heights): int {
    StackTop + (if Truthy(m.section) then h.section else 0)
  }

  function SubtitleTop(m: PageMeta, h: Heights): int {
    TitleTop(m, h) + (if Truthy(m.cleanTitle) then h.title else 0)
  }

  function DescTop(m: PageMeta, h: Heights): int {
    SubtitleTop(m, h) + (if Truthy(m.subTitle) then 80 + h.subtitle else 100)
  }

  function BackgroundLayer(images: seq<string>, loads: string -> bool): seq<Drawable> {
    if |images| > 0 && images[0] != "" && loads(StripIpx(images[0])) then [Picture(StripIpx(images[0]))] else []
  }

  function CaptionText(fixedText: JsVal): string {
    ToJsString(Or(fixedText, Str("")))
  }

  function Optional(present: bool, d: Drawable): seq<Drawable> {
    if present then [d] else []
  }

  function TopTintBox(h: Heights): Drawable {
    Box(TopTint, 0, 0, 1200, h.caption + 60)
  }

  function CaptionLabel(fixedText: JsVal, canvasWidth: int, h: Heights): Drawable {
    Label(Caption, CaptionText(fixedText), 50, CaptionTop, canvasWidth - 100, h.caption)
  }

  function SectionLabel(m: PageMeta, canvasWidth: int, h: Heights): Drawable {
    Label(Section, ToJsString(m.section), 50, StackTop, canvasWidth - 300, h.section)
  }

  function WatermarkLabel(m: PageMeta, canvasWidth: int, h: Heights): Drawable {
    Label(Watermark, ToJsString(m.cleanTitle), 0, -30, canvasWidth - 100, h.watermark)
  }

  function TitleLabel(m: PageMeta, canvasWidth: int, h: Heights): Drawable {
    Label(Title, ToJsString(m.cleanTitle), 50, TitleTop(m, h), canvasWidth - 100, h.title)
  }

  function SubtitleLabel(m: PageMeta, canvasWidth: int, h: Heights): Drawable {
    Label(Subtitle, ToJsString(m.subTitle), 50, SubtitleTop(m, h), canvasWidth - 100, h.subtitle)
  }

  function DescTintBox(m: PageMeta, canvasHeight: int, h: Heights): Drawable {
    Box(DescTint, 0, DescTop(m, h) - 50, 1200, canvasHeight - DescTop(m, h) + 120)
  }

  function DescriptionLabel(m: PageMeta, canvasWidth: int, h: Heights): Drawable {
    Label(Description, ToJsString(m.desc), 50, DescTop(m, h), canvasWidth - 300, h.description)
  }

  /** The canvas once the caption is added. */
  function AfterCaption(fixedText: JsVal, canvasWidth: int, m: PageMeta, h: Heights, loads: string -> bool): seq<Drawable> {
    BackgroundLayer(m.images, loads) + [TopTintBox(h)] + [CaptionLabel(fixedText, canvasWidth, h)]
  }

  /** The canvas once the watermark title is added. */
  function AfterWatermark(fixedText: JsVal, canvasWidth: int, m: PageMeta, h: Heights, loads: string -> bool): seq<Drawable> {
    AfterCaption(fixedText, canvasWidth, m, h, loads)
    + Optional(Truthy(m.section), SectionLabel(m, canvasWidth, h))
    + [WatermarkLabel(m, canvasWidth, h)]
  }

  /** The canvas once the subtitle step is done. */
  function AfterSubtitle(fixedText: JsVal, canvasWidth: int, m: PageMeta, h: Heights, loads: string -> bool): seq<Drawable> {
    AfterWatermark(fixedText, canvasWidth, m, h, loads)
    + Optional(Truthy(m.cleanTitle), TitleLabel(m, canvasWidth, h))
    + Optional(Truthy(m.subTitle), SubtitleLabel(m, canvasWidth, h))
  }

  /** Everything the default renderer adds to the canvas, in order. */
  function Plan(fixedText: JsVal, canvasWidth: int, canvasHeight: int, m: PageMeta, h: Heights, loads: string -> bool): seq<Drawable> {
    AfterSubtitle(fixedText, canvasWidth, m, h, loads)
    + Optional(Truthy(m.desc), DescTintBox(m, canvasHeight, h))
    + Optional(Truthy(m.desc), DescriptionLabel(m, canvasWidth, h))
  }

  // ---------------------------------------------------------------------
  // The renderer: a cursor moved step by step

  /** The background step: the first image, `/_ipx`-stripped, when it is
      non-empty and loads. */
  method AddBackground(images: seq<string>, loads: string -> bool) returns (canvas: seq<Drawable>)
    ensures canvas == BackgroundLayer(images, loads)
  {
    canvas := [];
    if |images| > 0 {
      var imgPath := images[0];
      if imgPath != "" {
        if "/_ipx" <= imgPath {
          var parts := Split(imgPath);
          imgPath := Join(if |parts| <= 3 then [] else parts[3..]);
        }
        if loads(imgPath) {
          canvas := canvas + [Picture(imgPath)];
        }
      }
    }
  }

  method DefaultImageRenderer(fixedText: JsVal, canvasWidth: int, canvasHeight: int, m: PageMeta, h: Heights, loads: string -> bool)
    returns (canvas: seq<Drawable>)
    ensures canvas == Plan(fixedText, canvasWidth, canvasHeight, m, h, loads)
  {
    canvas := AddBackground(m.images, loads);
    ghost var plan := BackgroundLayer(m.images, loads);

    var textTop := 30;
    var bioText := Label(Caption, ToJsString(Or(fixedText, Str(""))), 50, textTop, canvasWidth - 100, h.caption);
    textTop := textTop + 90;
    var bgBoxTop := Box(TopTint, 0, 0, 1200, h.caption + 60);
    canvas := canvas + [bgBoxTop];
    canvas := canvas + [bioText];
    plan := plan + [bgBoxTop] + [bioText];
    assert plan == AfterCaption(fixedText, canvasWidth, m, h, loads);

    var sectTitle := Label(Section, ToJsString(m.section), 50, textTop, canvasWidth - 300, h.section);
    if Truthy(m.section) {
      canvas := canvas + [sectTitle];
      textTop := textTop + h.section;
    }
    plan := plan + Optional(Truthy(m.section), sectTitle);
    assert canvas == plan && textTop == TitleTop(m, h);

    var titleTextBG := Label(Watermark, ToJsString(m.cleanTitle), 0, -30, canvasWidth - 100, h.watermark);
    canvas := canvas + [titleTextBG];
    plan := plan + [titleTextBG];
    assert plan == AfterWatermark(fixedText, canvasWidth, m, h, loads);

    var titleText := Label(Title, ToJsString(m.cleanTitle), 50, textTop, canvasWidth - 100, h.title);
    if Truthy(m.cleanTitle) {
      canvas := canvas + [titleText];
      textTop := textTop + h.title;
    }
    plan := plan + Optional(Truthy(m.cleanTitle), titleText);
    assert canvas == plan && textTop == SubtitleTop(m, h);

    var subTitleText := Label(Subtitle, ToJsString(m.subTitle), 50, textTop, canvasWidth - 100, h.subtitle);
    if Truthy(m.subTitle) {
      canvas := canvas + [subTitleText];
      textTop := textTop + 80 + h.subtitle;
    } else {
      textTop := textTop + 80 + 20;
    }
    plan := plan + Optional(Truthy(m.subTitle), subTitleText);
    assert canvas == plan && textTop == DescTop(m, h);

    var bgBox := Box(DescTint, 0, textTop - 50, 1200, canvasHeight - textTop + 120);
    var descText := Label(Description, ToJsString(m.desc), 50, textTop, canvasWidth - 300, h.description);
    if Truthy(m.desc) {
      canvas := canvas + [bgBox];
      canvas := canvas + [descText];
    }
    plan := plan + Optional(Truthy(m.desc), bgBox) + Optional(Truthy(m.desc), descText);
    assert canvas == plan;
  }

  // ---------------------------------------------------------------------
  // Properties of the plan

  /** The top tint, the caption and the watermark are always drawn; every
      other layer adds one object when present, the description two. */
  lemma PlanSize(fixedText: JsVal, canvasWidth: int, canvasHeight: int, m: PageMeta, h: Heights, loads: string -> bool)
    ensures var plan := Plan(fixedText, canvasWidth, canvasHeight, m, h, loads);
            && |plan| == 3 + |BackgroundLayer(m.images, loads)|
                         + (if Truthy(m.section) then 1 else 0) + (if Truthy(m.cleanTitle) then 1 else 0)
                         + (if Truthy(m.subTitle) then 1 else 0) + (if Truthy(m.desc) then 2 else 0)
            && 3 <= |plan| <= 9
  {
  }

  /** Every object is painted after all objects of a lower rank. */
  ghost predicate PaintOrdered(ps: seq<Drawable>) {
    forall i, j :: 0 <= i < j < |ps| ==> Rank(RoleOf(ps[i])) < Rank(RoleOf(ps[j]))
  }

  /** Appending objects of ranks in [lo, hi) after objects of ranks below lo. */
  lemma OrderedAppend(a: seq<Drawable>, b: seq<Drawable>, lo: nat, hi: nat)
    requires lo <= hi
    requires PaintOrdered(a) && forall x :: x in a ==> Rank(RoleOf(x)) < lo
    requires |b| <= 1 && forall y :: y in b ==> lo <= Rank(RoleOf(y)) < hi
    ensures PaintOrdered(a + b) && forall x :: x in a + b ==> Rank(RoleOf(x)) < hi
  {
    var c := a + b;
    forall i, j | 0 <= i < j < |c| ensures Rank(RoleOf(c[i])) < Rank(RoleOf(c[j])) {
      if j < |a| {
        assert c[i] == a[i] && c[j] == a[j];
      } else {
        assert c[i] == a[i] && a[i] in a;
        assert c[j] == b[j - |a|] && b[j - |a|] in b;
      }
    }
  }

  /** The text boxes that stack under the running cursor. */
  predicate Stacked(d: Drawable) {
    d.Label? && (d.role == Section || d.role == Title || d.role == Subtitle || d.role == Description)
  }

  /** A stacked box never starts above the bottom of an earlier one. */
  ghost predicate NoOverlap(ps: seq<Drawable>) {
    forall i, j :: 0 <= i < j < |ps| && Stacked(ps[i]) && Stacked(ps[j]) ==> ps[i].top + ps[i].height <= ps[j].top
  }

  /** Appending boxes that start at or below c after boxes that end at or above c. */
  lemma StackAppend(a: seq<Drawable>, b: seq<Drawable>, c: int, c': int)
    requires NoOverlap(a) && forall x :: x in a && Stacked(x) ==> x.top + x.height <= c
    requires |b| <= 1 && forall y :: y in b && Stacked(y) ==> c <= y.top && y.top + y.height <= c'
    requires c <= c'
    ensures NoOverlap(a + b) && forall x :: x in a + b && Stacked(x) ==> x.top + x.height <= c'
  {
    var s := a + b;
    forall i, j | 0 <= i < j < |s| && Stacked(s[i]) && Stacked(s[j]) ensures s[i].top + s[i].height <= s[j].top {
      if j < |a| {
        assert s[i] == a[i] && s[j] == a[j];
      } else {
        assert s[i] == a[i] && a[i] in a;
        assert s[j] == b[j - |a|] && b[j - |a|] in b;
      }
    }
  }

  lemma OrderedAfterCaption(fixedText: JsVal, canvasWidth: int, m: PageMeta, h: Heights, loads: string -> bool)
    ensures var p := AfterCaption(fixedText, canvasWidth, m, h, loads);
            PaintOrdered(p) && forall x :: x in p ==> Rank(RoleOf(x)) < 3
  {
    var p0 := BackgroundLayer(m.images, loads);
    OrderedAppend(p0, [TopTintBox(h)], 1, 2);
    OrderedAppend(p0 + [TopTintBox(h)], [CaptionLabel(fixedText, canvasWidth, h)], 2, 3);
  }

  lemma OrderedAfterWatermark(fixedText: JsVal, canvasWidth: int, m: PageMeta, h: Heights, loads: string -> bool)
    ensures var p := AfterWatermark(fixedText, canvasWidth, m, h, loads);
            PaintOrdered(p) && forall x :: x in p ==> Rank(RoleOf(x)) < 5
  {
    var p2 := AfterCaption(fixedText, canvasWidth, m, h, loads);
    var sect := Optional(Truthy(m.section), SectionLabel(m, canvasWidth, h));
    OrderedAfterCaption(fixedText, canvasWidth, m, h, loads);
    OrderedAppend(p2, sect, 3, 4);
    OrderedAppend(p2 + sect, [WatermarkLabel(m, canvasWidth, h)], 4, 5);
  }

  lemma OrderedAfterSubtitle(fixedText: JsVal, canvasWidth: int, m: PageMeta, h: Heights, loads: string -> bool)
    ensures var p := AfterSubtitle(fixedText, canvasWidth, m, h, loads);
            PaintOrdered(p) && forall x :: x in p ==> Rank(RoleOf(x)) < 7
  {
    var p4 := AfterWatermark(fixedText, canvasWidth, m, h, loads);
    var title := Optional(Truthy(m.cleanTitle), TitleLabel(m, canvasWidth, h));
    OrderedAfterWatermark(fixedText, canvasWidth, m, h, loads);
    OrderedAppend(p4, title, 5, 6);
    OrderedAppend(p4 + title, Optional(Truthy(m.subTitle), SubtitleLabel(m, canvasWidth, h)), 6, 7);
  }

  /** The objects are added in the fixed painter's order: background image,
      top tint, caption, section, watermark, title, subtitle, description
      tint, description; each at most once. */
  lemma PaintersOrder(fixedText: JsVal, canvasWidth: int, canvasHeight: int, m: PageMeta, h: Heights, loads: string -> bool)
    ensures PaintOrdered(Plan(fixedText, canvasWidth, canvasHeight, m, h, loads))
  {
    var p6 := AfterSubtitle(fixedText, canvasWidth, m, h, loads);
    var tint := Optional(Truthy(m.desc), DescTintBox(m, canvasHeight, h));
    OrderedAfterSubtitle(fixedText, canvasWidth, m, h, loads);
    OrderedAppend(p6, tint, 7, 8);
    OrderedAppend(p6 + tint, Optional(Truthy(m.desc), DescriptionLabel(m, canvasWidth, h)), 8, 9);
  }

  lemma StackAfterWatermark(fixedText: JsVal, canvasWidth: int, m: PageMeta, h: Heights, loads: string -> bool)
    ensures var p := AfterWatermark(fixedText, canvasWidth, m, h, loads);
            NoOverlap(p) && forall x :: x in p && Stacked(x) ==> StackTop <= x.top && x.top + x.height <= TitleTop(m, h)
  {
    var p2 := AfterCaption(fixedText, canvasWidth, m, h, loads);
    var sect := Optional(Truthy(m.section), SectionLabel(m, canvasWidth, h));
    assert NoOverlap(p2) && forall x :: x in p2 ==> !Stacked(x);
    StackAppend(p2, sect, StackTop, TitleTop(m, h));
    StackAppend(p2 + sect, [WatermarkLabel(m, canvasWidth, h)], TitleTop(m, h), TitleTop(m, h));
  }

  lemma StackAfterSubtitle(fixedText: JsVal, canvasWidth: int, m: PageMeta, h: Heights, loads: string -> bool)
    ensures var p := AfterSubtitle(fixedText, canvasWidth, m, h, loads);
            NoOverlap(p) && forall x :: x in p && Stacked(x) ==> StackTop <= x.top && x.top + x.height <= DescTop(m, h)
  {
    var p4 := AfterWatermark(fixedText, canvasWidth, m, h, loads);
    var title := Optional(Truthy(m.cleanTitle), TitleLabel(m, canvasWidth, h));
    StackAfterWatermark(fixedText, canvasWidth, m, h, loads);
    StackAppend(p4, title, TitleTop(m, h), SubtitleTop(m, h));
    StackAppend(p4 + title, Optional(Truthy(m.subTitle), SubtitleLabel(m, canvasWidth, h)), SubtitleTop(m, h), DescTop(m, h));
  }

  /** Stacked text boxes start at or below the cursor's origin 120 and never
      overlap: each starts at or below the bottom of every earlier one. */
  lemma StackedTextNoOverlap(fixedText: JsVal, canvasWidth: int, canvasHeight: int, m: PageMeta, h: Heights, loads: string -> bool)
    ensures var plan := Plan(fixedText, canvasWidth, canvasHeight, m, h, loads);
            && NoOverlap(plan)
            && forall x :: x in plan && Stacked(x) ==> StackTop <= x.top
  {
    var p6 := AfterSubtitle(fixedText, canvasWidth, m, h, loads);
    var tint := Optional(Truthy(m.desc), DescTintBox(m, canvasHeight, h));
    var desc := Optional(Truthy(m.desc), DescriptionLabel(m, canvasWidth, h));
    StackAfterSubtitle(fixedText, canvasWidth, m, h, loads);
    StackAppend(p6, tint, DescTop(m, h), DescTop(m, h));
    StackAppend(p6 + tint, desc, DescTop(m, h), DescTop(m, h) + h.description);
  }

  /** The caption at 30 clears the stack, which starts at 120 or lower, when it
      is at most 90 high; a taller caption runs into a present section. */
  lemma CaptionAgainstStack(fixedText: JsVal, canvasWidth: int, canvasHeight: int, m: PageMeta, h: Heights, loads: string -> bool)
    ensures var plan := Plan(fixedText, canvasWidth, canvasHeight, m, h, loads);
            var caption := CaptionLabel(fixedText, canvasWidth, h);
            && caption in plan && caption.top == 30
            && (h.caption <= 90 ==> forall x :: x in plan && Stacked(x) ==> caption.top + caption.height <= x.top)
            && (h.caption > 90 && Truthy(m.section) ==>
                  exists x :: x in plan && Stacked(x) && x.top < caption.top + caption.height)
  {
    StackedTextNoOverlap(fixedText, canvasWidth, canvasHeight, m, h, loads);
    if Truthy(m.section) {
      assert SectionLabel(m, canvasWidth, h) in AfterWatermark(fixedText, canvasWidth, m, h, loads);
    }
  }

  /** The only boxes are the top tint and, with a description, its tint. */
  lemma PlanBoxes(fixedText: JsVal, canvasWidth: int, canvasHeight: int, m: PageMeta, h: Heights, loads: string -> bool)
    ensures forall x :: x in Plan(fixedText, canvasWidth, canvasHeight, m, h, loads) && x.Box? ==>
              x == TopTintBox(h) || (Truthy(m.desc) && x == DescTintBox(m, canvasHeight, h))
  {
    var ac := AfterCaption(fixedText, canvasWidth, m, h, loads);
    var aw := AfterWatermark(fixedText, canvasWidth, m, h, loads);
    var asub := AfterSubtitle(fixedText, canvasWidth, m, h, loads);
    assert forall x :: x in ac && x.Box? ==> x == TopTintBox(h);
    assert forall x :: x in aw && x.Box? ==> x == TopTintBox(h);
    assert forall x :: x in asub && x.Box? ==> x == TopTintBox(h);
  }

  /** Both tint boxes span the full 1200 pixels from the left edge; the top
      one is the caption's height plus 60 high, and the description tint
      starts 50 above the description and always ends at canvasHeight + 70. */
  lemma TintBoxes(fixedText: JsVal, canvasWidth: int, canvasHeight: int, m: PageMeta, h: Heights, loads: string -> bool)
    ensures var plan := Plan(fixedText, canvasWidth, canvasHeight, m, h, loads);
            && (forall x :: x in plan && x.Box? ==> x.left == 0 && x.width == 1200)
            && (forall x :: x in plan && x.Box? && x.role == TopTint ==> x.top == 0 && x.height == h.caption + 60)
            && (forall x :: x in plan && x.Box? && x.role == DescTint ==>
                  x.top + x.height == canvasHeight + 70
                  && DescriptionLabel(m, canvasWidth, h) in plan
                  && DescriptionLabel(m, canvasWidth, h).top == x.top + 50)
            && ((exists x :: x in plan && x.Box? && x.role == TopTint))
            && ((exists x :: x in plan && x.Box? && x.role == DescTint) <==> Truthy(m.desc))
  {
    var plan := Plan(fixedText, canvasWidth, canvasHeight, m, h, loads);
    PlanBoxes(fixedText, canvasWidth, canvasHeight, m, h, loads);
    assert TopTintBox(h) in AfterCaption(fixedText, canvasWidth, m, h, loads);
    assert TopTintBox(h) in plan;
    if Truthy(m.desc) {
      assert DescTintBox(m, canvasHeight, h) in plan;
      assert DescriptionLabel(m, canvasWidth, h) in plan;
    }
  }

  /** The optional layers are present exactly when their value is truthy
      (the picture: when there is a first image that loads); the watermark,
      showing `${cleanTitle}` even when that is `false`, is always there. */
  lemma LayerPresence(fixedText: JsVal, canvasWidth: int, canvasHeight: int, m: PageMeta, h: Heights, loads: string -> bool)
    ensures var plan := Plan(fixedText, canvasWidth, canvasHeight, m, h, loads);
            && Label(Watermark, ToJsString(m.cleanTitle), 0, -30, canvasWidth - 100, h.watermark) in plan
            && ((exists x :: x in plan && RoleOf(x) == Section) <==> Truthy(m.section))
            && ((exists x :: x in plan && RoleOf(x) == Title) <==> Truthy(m.cleanTitle))
            && ((exists x :: x in plan && RoleOf(x) == Subtitle) <==> Truthy(m.subTitle))
            && ((exists x :: x in plan && RoleOf(x) == Description) <==> Truthy(m.desc))
  {
    var plan := Plan(fixedText, canvasWidth, canvasHeight, m, h, loads);
    assert WatermarkLabel(m, canvasWidth, h) in AfterWatermark(fixedText, canvasWidth, m, h, loads);
    assert WatermarkLabel(m, canvasWidth, h) in plan;
    if Truthy(m.section) {
      assert SectionLabel(m, canvasWidth, h) in AfterWatermark(fixedText, canvasWidth, m, h, loads);
      assert SectionLabel(m, canvasWidth, h) in plan;
    }
    if Truthy(m.cleanTitle) {
      assert TitleLabel(m, canvasWidth, h) in AfterSubtitle(fixedText, canvasWidth, m, h, loads);
      assert TitleLabel(m, canvasWidth, h) in plan;
    }
    if Truthy(m.subTitle) {
      assert SubtitleLabel(m, canvasWidth, h) in AfterSubtitle(fixedText, canvasWidth, m, h, loads);
      assert SubtitleLabel(m, canvasWidth, h) in plan;
    }
    if Truthy(m.desc) {
      assert DescriptionLabel(m, canvasWidth, h) in plan;
    }
  }

  /** Only the first image is used, and it is painted first: as its
      `/_ipx`-stripped path when it is non-empty and loads, otherwise not at all. */
  lemma BackgroundImage(fixedText: JsVal, canvasWidth: int, canvasHeight: int, m: PageMeta, h: Heights, loads: string -> bool)
    ensures var plan := Plan(fixedText, canvasWidth, canvasHeight, m, h, loads);
            if |m.images| > 0 && m.images[0] != "" && loads(StripIpx(m.images[0])) then
              plan[0] == Picture(StripIpx(m.images[0]))
              && forall i :: 1 <= i < |plan| ==> !plan[i].Picture?
            else
              forall i :: 0 <= i < |plan| ==> !plan[i].Picture?
  {
    var plan := Plan(fixedText, canvasWidth, canvasHeight, m, h, loads);
    var bg := BackgroundLayer(m.images, loads);
    var ac := AfterCaption(fixedText, canvasWidth, m, h, loads);
    var aw := AfterWatermark(fixedText, canvasWidth, m, h, loads);
    var asub := AfterSubtitle(fixedText, canvasWidth, m, h, loads);
    assert ac[0] == if |bg| == 1 then bg[0] else TopTintBox(h);
    assert aw[0] == ac[0];
    assert asub[0] == aw[0];
    assert plan[0] == asub[0];
    PaintersOrder(fixedText, canvasWidth, canvasHeight, m, h, loads);
    forall i | 1 <= i < |plan| ensures !plan[i].Picture? {
      assert Rank(RoleOf(plan[0])) < Rank(RoleOf(plan[i]));
    }
  }
}
