/**
 * Metadata extraction from a fetched page (DSIGenerator.getMetaData).
 *
 * The regular expressions of the source are not modelled: their matches are
 * the inputs.  A `<meta>` match contributes its name/property value as `key`
 * and its content value as `content`, in document order; the first `<title>`
 * match contributes its capture (None when the page has no `<title>` at
 * all); every `<img src="...">` match contributes its source string.
 */
module Metadata {
  import opened Js

  datatype MetaMatch = MetaMatch(key: string, content: string)

  /** The record getMetaData resolves. */
  datatype PageMeta = PageMeta(
    title: JsVal,
    images: seq<string>,
    cleanTitle: JsVal,
    subTitle: JsVal,
    section: JsVal,
    desc: JsVal)

  /** Reading index 1 of the missing first `<title>` match throws. */
  datatype ExtractError = TitleMissing

  datatype Extracted = Ok(meta: PageMeta) | Err(error: ExtractError)

  // ---------------------------------------------------------------------
  // The meta dictionary

  /** Assigns every match to the dictionary, first match first. */
  function Assign(acc: map<string, string>, ms: seq<MetaMatch>): (r: map<string, string>)
    ensures forall k :: k in acc ==> k in r
    ensures forall i :: 0 <= i < |ms| ==> ms[i].key in r
    decreases |ms|
  {
    if ms == [] then acc
    else
      var r := Assign(acc[ms[0].key := ms[0].content], ms[1..]);
      assert forall i :: 1 <= i < |ms| ==> ms[i] == ms[1..][i - 1];
      r
  }

  /** The `values` dictionary built from an empty object: its keys are
      exactly the keys of the matches. */
  function MetaMap(ms: seq<MetaMatch>): (r: map<string, string>)
    ensures forall k :: k in r <==> exists i :: 0 <= i < |ms| && ms[i].key == k
  {
    AssignKeysAll(map[], ms);
    Assign(map[], ms)
  }

  /** `values[k]`: the stored string, or `undefined` for a key never assigned. */
  function Lookup(values: map<string, string>, k: string): (r: JsVal)
    ensures r != False
    ensures r == Undefined <==> k !in values
    ensures k in values ==> r == Str(values[k])
  {
    if k in values then Str(values[k]) else Undefined
  }

  lemma {:induction false} AssignKeys(acc: map<string, string>, ms: seq<MetaMatch>, k: string)
    ensures k in Assign(acc, ms) <==> k in acc || exists i :: 0 <= i < |ms| && ms[i].key == k
    decreases |ms|
  {
    if ms != [] {
      AssignKeys(acc[ms[0].key := ms[0].content], ms[1..], k);
      if exists i :: 0 <= i < |ms| && ms[i].key == k {
        var i :| 0 <= i < |ms| && ms[i].key == k;
        if i > 0 {
          assert ms[1..][i - 1].key == k;
        }
      }
      forall i | 0 <= i < |ms| - 1 && ms[1..][i].key == k
        ensures exists j :: 0 <= j < |ms| && ms[j].key == k
      {
        assert ms[i + 1].key == k;
      }
    }
  }

  lemma AssignKeysAll(acc: map<string, string>, ms: seq<MetaMatch>)
    ensures forall k :: k in Assign(acc, ms) <==> k in acc || exists i :: 0 <= i < |ms| && ms[i].key == k
  {
    forall k ensures k in Assign(acc, ms) <==> k in acc || exists i :: 0 <= i < |ms| && ms[i].key == k {
      AssignKeys(acc, ms, k);
    }
  }

  lemma {:induction false} AssignKeeps(acc: map<string, string>, ms: seq<MetaMatch>, k: string)
    requires k in acc
    requires forall i :: 0 <= i < |ms| ==> ms[i].key != k
    ensures k in Assign(acc, ms) && Assign(acc, ms)[k] == acc[k]
    decreases |ms|
  {
    if ms != [] {
      assert ms[0].key != k;
      forall i | 0 <= i < |ms[1..]| ensures ms[1..][i].key != k {
        assert ms[1..][i] == ms[i + 1];
      }
      AssignKeeps(acc[ms[0].key := ms[0].content], ms[1..], k);
    }
  }

  lemma {:induction false} AssignLastWins(acc: map<string, string>, ms: seq<MetaMatch>, i: nat)
    requires i < |ms|
    requires forall j :: i < j < |ms| ==> ms[j].key != ms[i].key
    ensures ms[i].key in Assign(acc, ms) && Assign(acc, ms)[ms[i].key] == ms[i].content
    decreases |ms|
  {
    var next := acc[ms[0].key := ms[0].content];
    if i == 0 {
      forall j | 0 <= j < |ms[1..]| ensures ms[1..][j].key != ms[0].key {
        assert ms[1..][j] == ms[j + 1];
      }
      AssignKeeps(next, ms[1..], ms[0].key);
    } else {
      forall j | i - 1 < j < |ms[1..]| ensures ms[1..][j].key != ms[1..][i - 1].key {
        assert ms[1..][j] == ms[j + 1];
      }
      AssignLastWins(next, ms[1..], i - 1);
    }
  }

  /** For a repeated key the content of its last match is stored. */
  lemma MetaMapLastWins(ms: seq<MetaMatch>, i: nat)
    requires i < |ms|
    requires forall j :: i < j < |ms| ==> ms[j].key != ms[i].key
    ensures Lookup(MetaMap(ms), ms[i].key) == Str(ms[i].content)
  {
    AssignLastWins(map[], ms, i);
  }

  /** The `for` loop over the meta matches. */
  method CollectMeta(ms: seq<MetaMatch>) returns (values: map<string, string>)
    ensures values == MetaMap(ms)
    ensures forall k :: k in values <==> exists i :: 0 <= i < |ms| && ms[i].key == k
  {
    values := map[];
    var i := 0;
    while i < |ms|
      invariant 0 <= i <= |ms|
      invariant Assign(values, ms[i..]) == MetaMap(ms)
    {
      assert ms[i..][1..] == ms[i + 1..];
      values := values[ms[i].key := ms[i].content];
      i := i + 1;
    }
    assert ms[i..] == [];
  }

  // ---------------------------------------------------------------------
  // Image candidates

  /** JavaScript's `.` does not match these. */
  predicate IsLineTerminator(c: char) {
    c == '\n' || c == '\r' || c == '\U{2028}' || c == '\U{2029}'
  }

  function LowerChar(c: char): char {
    if 'A' <= c <= 'Z' then (c as int + 32) as char else c
  }

  function Lower(s: string): (r: string)
    ensures |r| == |s|
    ensures forall i :: 0 <= i < |s| ==> r[i] == LowerChar(s[i])
  {
    seq(|s|, i requires 0 <= i < |s| => LowerChar(s[i]))
  }

  /** `v.toLowerCase().match(/(.jpg|.png|.gif)$/)`: any character other than a
      line terminator, then one of the three extensions, at the very end. */
  predicate HasImageExtension(v: string)
    ensures HasImageExtension(v) <==>
              |v| >= 4 && !IsLineTerminator(v[|v| - 4]) && Lower(v[|v| - 3..]) in {"jpg", "png", "gif"}
  {
    var l := Lower(v);
    assert |v| >= 4 ==> l[|l| - 3..] == Lower(v[|v| - 3..]);
    |l| >= 4 && !IsLineTerminator(l[|l| - 4]) && l[|l| - 3..] in {"jpg", "png", "gif"}
  }

  /** Lower-casing twice is lower-casing once. */
  lemma LowerIdempotent(v: string)
    ensures Lower(Lower(v)) == Lower(v)
  {
  }

  /** The filter does not see case: a source is kept exactly when its
      lower-cased form is. */
  lemma ImageExtensionIgnoresCase(v: string)
    ensures HasImageExtension(v) <==> HasImageExtension(Lower(v))
  {
    LowerIdempotent(v);
  }

  /** The `filter` over the `<img src>` captures. */
  function KeepImages(srcs: seq<string>): (r: seq<string>)
    ensures |r| <= |srcs|
    ensures forall x :: x in r ==> x in srcs && HasImageExtension(x)
  {
    if srcs == [] then []
    else if HasImageExtension(srcs[0]) then [srcs[0]] + KeepImages(srcs[1..])
    else KeepImages(srcs[1..])
  }

  /** A source is kept exactly when it is on the page and has an image extension. */
  lemma {:induction false} KeepImagesMember(srcs: seq<string>, x: string)
    ensures x in KeepImages(srcs) <==> x in srcs && HasImageExtension(x)
    decreases |srcs|
  {
    if srcs != [] {
      KeepImagesMember(srcs[1..], x);
      assert srcs == [srcs[0]] + srcs[1..];
    }
  }

  /** Filtering commutes with concatenation: the order of the page is kept. */
  lemma {:induction false} KeepImagesConcat(a: seq<string>, b: seq<string>)
    ensures KeepImages(a + b) == KeepImages(a) + KeepImages(b)
    decreases |a|
  {
    if a != [] {
      assert (a + b)[0] == a[0];
      assert (a + b)[1..] == a[1..] + b;
      KeepImagesConcat(a[1..], b);
    } else {
      assert a + b == b;
    }
  }

  /** Duplicates are kept: every accepted source occurs as often as on the page. */
  lemma {:induction false} KeepImagesCount(srcs: seq<string>, x: string)
    ensures multiset(KeepImages(srcs))[x] == if HasImageExtension(x) then multiset(srcs)[x] else 0
    decreases |srcs|
  {
    if srcs != [] {
      KeepImagesCount(srcs[1..], x);
      assert srcs == [srcs[0]] + srcs[1..];
    }
  }

  /** Any character but a line terminator, then `jpg`, `png` or `gif` in any
      ASCII case, ends a source the filter accepts. */
  lemma ImageSuffixAccepted(stem: string, c: char, ext: string)
    requires !IsLineTerminator(c) && |ext| == 3 && Lower(ext) in {"jpg", "png", "gif"}
    ensures HasImageExtension(stem + [c] + ext)
  {
    var v := stem + [c] + ext;
    assert v[|v| - 4] == c;
    assert v[|v| - 3..] == ext;
  }

  /** Such a source is kept in place, wherever it sits on the page. */
  lemma ImageSuffixKept(before: seq<string>, stem: string, c: char, ext: string, after: seq<string>)
    requires !IsLineTerminator(c) && |ext| == 3 && Lower(ext) in {"jpg", "png", "gif"}
    ensures var v := stem + [c] + ext;
            KeepImages(before + [v] + after) == KeepImages(before) + [v] + KeepImages(after)
  {
    var v := stem + [c] + ext;
    ImageSuffixAccepted(stem, c, ext);
    var one := [v];
    assert one[1..] == [];
    assert KeepImages(one) == one;
    KeepImagesConcat(before + one, after);
    KeepImagesConcat(before, one);
  }

  lemma KeepImagesExample()
    ensures KeepImages(["A.PNG", "b.txt", "C.jpg"]) == ["A.PNG", "C.jpg"]
    ensures HasImageExtension("xjpg") && !HasImageExtension("a.jpeg")
  {
    var s := ["A.PNG", "b.txt", "C.jpg"];
    assert Lower("A.PNG")[2..] == "png";
    assert Lower("b.txt")[2..] == "txt";
    assert Lower("C.jpg")[2..] == "jpg";
    assert Lower("xjpg")[1..] == "jpg";
    assert Lower("a.jpeg")[3..] == "peg";
    assert s[1..][1..] == ["C.jpg"];
  }

  // ---------------------------------------------------------------------
  // The record

  /** `title[1] ? title[1] : false` for the first `<title>` match. */
  function PageTitle(capture: string): (r: JsVal)
    ensures capture != "" ==> r == Str(capture)
    ensures capture == "" ==> r == False
    ensures Truthy(r) <==> capture != ""
  {
    if capture != "" then Str(capture) else False
  }

  /** What getMetaData resolves, or the error it fails with. */
  function Extract(ms: seq<MetaMatch>, titleCapture: Option<string>, srcs: seq<string>): (r: Extracted)
    ensures r.Err? <==> titleCapture.None?
  {
    match titleCapture
    case None => Err(TitleMissing)
    case Some(t) =>
      var title := PageTitle(t);
      var values := MetaMap(ms);
      Ok(PageMeta(
        title,
        KeepImages(srcs),
        Or(Or(Lookup(values, "clean:title"), Lookup(values, "title")), title),
        Or(Lookup(values, "clean:subtitle"), Lookup(values, "subtitle")),
        Or(Lookup(values, "clean:section"), Lookup(values, "section")),
        Or(Lookup(values, "og:description"), Lookup(values, "description"))))
  }

  /** getMetaData: the title first, then the dictionary loop, then the images. */
  method GetMetaData(ms: seq<MetaMatch>, titleCapture: Option<string>, srcs: seq<string>) returns (r: Extracted)
    ensures r == Extract(ms, titleCapture, srcs)
  {
    if titleCapture.None? {
      return Err(TitleMissing);
    }
    var title := PageTitle(titleCapture.value);
    var values := CollectMeta(ms);
    var images := KeepImages(srcs);
    r := Ok(PageMeta(
      title,
      images,
      Or(Or(Lookup(values, "clean:title"), Lookup(values, "title")), title),
      Or(Lookup(values, "clean:subtitle"), Lookup(values, "subtitle")),
      Or(Lookup(values, "clean:section"), Lookup(values, "section")),
      Or(Lookup(values, "og:description"), Lookup(values, "description"))));
  }

  /** Resolution of a two-key chain: the first key holding a non-empty string
      wins; an empty string falls through exactly like an absent key. */
  predicate Chain(values: map<string, string>, first: string, second: string, fallback: JsVal, r: JsVal) {
    if first in values && values[first] != "" then r == Str(values[first])
    else if second in values && values[second] != "" then r == Str(values[second])
    else r == fallback
  }

  lemma FieldChains(ms: seq<MetaMatch>, t: string, srcs: seq<string>)
    ensures var m := Extract(ms, Some(t), srcs).meta;
            var v := MetaMap(ms);
            && m.title == PageTitle(t)
            && m.images == KeepImages(srcs)
            && Chain(v, "clean:title", "title", PageTitle(t), m.cleanTitle)
            && Chain(v, "clean:subtitle", "subtitle", Lookup(v, "subtitle"), m.subTitle)
            && Chain(v, "clean:section", "section", Lookup(v, "section"), m.section)
            && Chain(v, "og:description", "description", Lookup(v, "description"), m.desc)
  {
  }

  /** The last non-empty `clean:title` overrides every other title source. */
  lemma CleanTitleOverride(ms: seq<MetaMatch>, t: string, srcs: seq<string>, i: nat)
    requires i < |ms| && ms[i].key == "clean:title" && ms[i].content != ""
    requires forall j :: i < j < |ms| ==> ms[j].key != "clean:title"
    ensures Extract(ms, Some(t), srcs).meta.cleanTitle == Str(ms[i].content)
  {
    MetaMapLastWins(ms, i);
  }

  /** Without `clean:title` and `title` meta tags the page title is used. */
  lemma CleanTitleFromPageTitle(ms: seq<MetaMatch>, t: string, srcs: seq<string>)
    requires forall i :: 0 <= i < |ms| ==> ms[i].key != "clean:title" && ms[i].key != "title"
    ensures Extract(ms, Some(t), srcs).meta.cleanTitle == PageTitle(t)
  {
  }

  /** cleanTitle is never `undefined`, and is falsy only when all three sources are. */
  lemma CleanTitleDefined(ms: seq<MetaMatch>, t: string, srcs: seq<string>)
    ensures var m := Extract(ms, Some(t), srcs).meta;
            var v := MetaMap(ms);
            && m.cleanTitle != Undefined
            && (Truthy(m.cleanTitle) <==> Truthy(Lookup(v, "clean:title")) || Truthy(Lookup(v, "title")) || t != "")
  {
  }
}
