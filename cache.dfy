/**
 * The on-disk card cache of the event handler: the request path becomes a
 * file name, and the handler regenerates the card only when that file is
 * absent or the server runs in development mode.
 *
 * The cache directory is a map from file name to the bytes stored in it.
 * The compute step (fetch the page, extract its metadata, lay out and encode
 * the card) is a parameter: it yields the JPEG bytes, or None when it
 * throws.  Pipeline.Compute is that step, failing exactly when the fetch
 * fails or the page has no `<title>`.
 */
module CardCache {
  import opened Js

  type Bytes = seq<bv8>

  // ---------------------------------------------------------------------
  // The cache key

  /** `path.replaceAll('/', '__')`. */
  function Escape(path: string): (r: string)
    ensures '/' !in r
    ensures |r| >= |path|
  {
    if path == [] then []
    else (if path[0] == '/' then "__" else [path[0]]) + Escape(path[1..])
  }

  /** The inverse reading of an escaped name: every `__` back to `/`. */
  function Unescape(k: string): string
    decreases |k|
  {
    if k == [] then []
    else if |k| >= 2 && k[0] == '_' && k[1] == '_' then "/" + Unescape(k[2..])
    else [k[0]] + Unescape(k[1..])
  }

  /** The cache file name of a request path. */
  function CacheKey(path: string): (k: string)
    ensures '/' !in k
    ensures |k| >= 4 && k[|k| - 4..] == ".jpg"
  {
    Escape(path) + ".jpg"
  }

  lemma {:induction false} UnescapeEscape(s: string)
    requires '_' !in s
    ensures Unescape(Escape(s)) == s
    decreases |s|
  {
    if s != [] {
      var rest := Escape(s[1..]);
      UnescapeEscape(s[1..]);
      if s[0] == '/' {
        assert Escape(s) == "__" + rest;
        assert ("__" + rest)[2..] == rest;
      } else {
        assert Escape(s) == [s[0]] + rest;
        assert ([s[0]] + rest)[1..] == rest;
      }
      assert s == [s[0]] + s[1..];
    }
  }

  /** Paths without an underscore never share a cache file. */
  lemma CacheKeyInjective(p: string, q: string)
    requires '_' !in p && '_' !in q
    requires CacheKey(p) == CacheKey(q)
    ensures p == q
  {
    var kp, kq := CacheKey(p), CacheKey(q);
    assert kp[..|kp| - 4] == Escape(p);
    assert kq[..|kq| - 4] == Escape(q);
    UnescapeEscape(p);
    UnescapeEscape(q);
  }

  /** Escaping works character by character. */
  lemma {:induction false} EscapeConcat(a: string, b: string)
    ensures Escape(a + b) == Escape(a) + Escape(b)
    decreases |a|
  {
    if a == [] {
      assert a + b == b;
    } else {
      var ab := a + b;
      assert ab[0] == a[0] && ab[1..] == a[1..] + b;
      var first := if a[0] == '/' then "__" else [a[0]];
      assert Escape(ab) == first + Escape(a[1..] + b);
      EscapeConcat(a[1..], b);
      assert Escape(a) == first + Escape(a[1..]);
      assert first + (Escape(a[1..]) + Escape(b)) == (first + Escape(a[1..])) + Escape(b);
    }
  }

  /** A segment without a slash is its own escape. */
  lemma {:induction false} EscapeSegment(s: string)
    requires '/' !in s
    ensures Escape(s) == s
    decreases |s|
  {
    if s != [] {
      EscapeSegment(s[1..]);
      assert s == [s[0]] + s[1..];
    }
  }

  /** A path of two segments: each `/` becomes `__`, e.g. `/blog/hello-world`
      is stored as `__blog__hello-world.jpg`. */
  lemma CacheKeyOfSegments(a: string, b: string)
    requires '/' !in a && '/' !in b
    ensures CacheKey("/" + a + "/" + b) == "__" + a + "__" + b + ".jpg"
  {
    EscapeFour("/", a, "/", b);
    EscapeSegment(a);
    EscapeSegment(b);
    assert Escape("/") == "__";
  }

  predicate HasDoubleUnderscore(s: string) {
    exists i :: 0 <= i < |s| - 1 && s[i] == '_' && s[i + 1] == '_'
  }

  lemma EscapeFour(w: string, x: string, y: string, z: string)
    ensures Escape(w + x + y + z) == Escape(w) + Escape(x) + Escape(y) + Escape(z)
  {
    EscapeConcat(w + x + y, z);
    EscapeConcat(w + x, y);
    EscapeConcat(w, x);
  }

  lemma EscapeMovesUnderscore(a: string, b: string)
    ensures Escape("/" + a + "_/" + b) == Escape("/" + a + "/_" + b)
  {
    EscapeFour("/", a, "_/", b);
    EscapeFour("/", a, "/_", b);
    assert Escape("_/") == "___";
    assert Escape("/_") == "___";
  }

  lemma NoDoubleUnderscoreAround(a: string, b: string, mid: string)
    requires '_' !in a && '_' !in b
    requires mid == "_/" || mid == "/_"
    ensures !HasDoubleUnderscore("/" + a + mid + b)
  {
    var p := "/" + a + mid + b;
    assert forall i :: 0 <= i < |p| - 1 && p[i] == '_' ==> p[i + 1] != '_';
  }

  /** Without the underscore restriction two distinct paths, neither holding
      `__`, share a file: `/a_/b` and `/a/_b` both become `__a___b.jpg`. */
  lemma CacheKeyCollision(a: string, b: string)
    requires '/' !in a && '/' !in b && '_' !in a && '_' !in b
    ensures var p, q := "/" + a + "_/" + b, "/" + a + "/_" + b;
            && p != q
            && !HasDoubleUnderscore(p) && !HasDoubleUnderscore(q)
            && CacheKey(p) == CacheKey(q)
  {
    var p, q := "/" + a + "_/" + b, "/" + a + "/_" + b;
    assert p[|a| + 1] == '_' && q[|a| + 1] == '/';
    EscapeMovesUnderscore(a, b);
    NoDoubleUnderscoreAround(a, b, "_/");
    NoDoubleUnderscoreAround(a, b, "/_");
  }

  // ---------------------------------------------------------------------
  // The hit/miss decision

  /** The new directory contents, the response body, and whether the compute step ran. */
  datatype Served = Served(files: map<string, Bytes>, body: Option<Bytes>, rendered: bool)

  /** One request for `path` against the directory `files`; `computed` is
      what the compute step would produce. */
  function Serve(files: map<string, Bytes>, dev: bool, path: string, computed: Option<Bytes>): (r: Served)
    ensures r.rendered <==> CacheKey(path) !in files || dev
    ensures !r.rendered ==> r.body == Some(files[CacheKey(path)]) && r.files == files
    ensures r.rendered ==> r.body == computed
    ensures r.rendered && computed.None? ==> r.files == files
    ensures r.rendered && computed.Some? ==> CacheKey(path) in r.files && r.files[CacheKey(path)] == computed.value
    ensures forall k :: k != CacheKey(path) ==> (k in r.files <==> k in files)
    ensures forall k :: k != CacheKey(path) && k in files ==> r.files[k] == files[k]
  {
    var key := CacheKey(path);
    if key in files && !dev then Served(files, Some(files[key]), false)
    else match computed
      case None => Served(files, None, true)
      case Some(b) => Served(files[key := b], Some(b), true)
  }

  /** Outside development mode a second request for the same path is a hit
      and returns the bytes of the first, whatever the compute step would yield now. */
  lemma SecondCallHits(files: map<string, Bytes>, path: string, first: Bytes, second: Option<Bytes>)
    ensures var r1 := Serve(files, false, path, Some(first));
            var r2 := Serve(r1.files, false, path, second);
            && !r2.rendered && r2.body == r1.body && r2.files == r1.files
  {
  }

  /** In development mode every request recomputes, even on a present file. */
  lemma DevAlwaysRenders(files: map<string, Bytes>, path: string, computed: Option<Bytes>)
    requires CacheKey(path) in files
    ensures Serve(files, true, path, computed).rendered
    ensures Serve(files, true, path, computed).body == computed
  {
  }

  /** The cache directory of one server process. */
  class Cache {
    var files: map<string, Bytes>
    const dev: bool
    /** How many times the compute step has run. */
    var renders: nat

    /** Startup: the directory is removed and recreated empty. */
    constructor (dev: bool)
      ensures files == map[] && this.dev == dev && renders == 0
    {
      files := map[];
      this.dev := dev;
      renders := 0;
    }

    /** The cache branch of the handler for one path. */
    method GetOrCreate(path: string, compute: string -> Option<Bytes>) returns (body: Option<Bytes>)
      modifies this
      ensures var s := Serve(old(files), dev, path, compute(path));
              && files == s.files && body == s.body
              && renders == old(renders) + (if s.rendered then 1 else 0)
    {
      var key := CacheKey(path);
      if key !in files || dev {
        renders := renders + 1;
        var jpg := compute(path);
        if jpg.Some? {
          files := files[key := jpg.value];
        }
        body := jpg;
      } else {
        body := Some(files[key]);
      }
    }

    /** The event handler: a missing or empty `path` query yields no body and changes nothing. */
    method Handle(query: Option<string>, compute: string -> Option<Bytes>) returns (body: Option<Bytes>)
      modifies this
      ensures (query.None? || query.value == "") ==>
                body == None && files == old(files) && renders == old(renders)
      ensures query.Some? && query.value != "" ==>
                var s := Serve(old(files), dev, query.value, compute(query.value));
                && files == s.files && body == s.body
                && renders == old(renders) + (if s.rendered then 1 else 0)
    {
      if query.Some? && query.value != "" {
        body := GetOrCreate(query.value, compute);
      } else {
        body := None;
      }
    }
  }

  /** A client: two requests for one path outside development mode compute once. */
  method TwoRequests(path: string, compute: string -> Option<Bytes>) returns (first: Option<Bytes>, second: Option<Bytes>, renders: nat)
    requires path != "" && compute(path).Some?
    ensures first == second == compute(path)
    ensures renders == 1
  {
    var c := new Cache(false);
    first := c.Handle(Some(path), compute);
    second := c.Handle(Some(path), compute);
    renders := c.renders;
  }
}
