/**
 * What `json()` turns one feed entry into: the resize rule of
 * `image_resize`, the optional HTTPS rewrite of the URL, and the list of
 * records built from the whole feed.
 */
module Transform {
  import opened Php

  /** The data of one feed entry: its first media content node and its description. */
  datatype Entry = Entry(url: string, width: nat, height: nat, caption: string)

  /** One stored record `[URL, width, height, caption]`. */
  datatype Record = Record(url: string, width: nat, height: nat, caption: string)

  // ---------------------------------------------------------------------
  // Resize rule

  /**
   * `round(width * (maxHeight / height))` with exact arithmetic: the
   * integer nearest to `width * maxHeight / height`, halves rounded up
   * (away from zero, since the quotient is never negative).
   */
  function RoundedScale(width: nat, height: nat, maxHeight: nat): (r: nat)
    requires height > 0
    ensures -(height as int) < 2 * (height * r - width * maxHeight) <= height
  {
    var n := 2 * width * maxHeight + height;
    var d := 2 * height;
    var q := n / d;
    assert n == d * q + n % d && 0 <= n % d < d;
    q
  }

  /** At most one integer lies that close to the exact quotient. */
  lemma RoundingIsUnique(width: nat, height: nat, maxHeight: nat, r: int)
    requires height > 0
    requires -(height as int) < 2 * (height * r - width * maxHeight) <= height
    ensures r == RoundedScale(width, height, maxHeight)
  {
    var q := RoundedScale(width, height, maxHeight);
    var d := r - q;
    assert height * r - height * q == height * d;
    assert -(height as int) < height * d < height;
    if d >= 1 {
      MulMonotone(height, 1, d);
    } else if d <= -1 {
      MulMonotone(height, d, -1);
    }
  }

  /**
   * `image_resize`: an image taller than `maxHeight` is brought down to
   * that height, a square one to `maxHeight` by `maxHeight`, any other
   * scaled by `maxHeight / height`; anything else is left as it is.
   */
  function Resized(width: nat, height: nat, maxHeight: nat): (r: (nat, nat))
    ensures height > maxHeight ==> r.1 == maxHeight
    ensures height <= maxHeight ==> r == (width, height)
    ensures r.1 <= height
  {
    if height > maxHeight then
      if height == width then (maxHeight, maxHeight)
      else (RoundedScale(width, height, maxHeight), maxHeight)
    else (width, height)
  }

  lemma ResizeSquare(side: nat, maxHeight: nat)
    requires side > maxHeight
    ensures Resized(side, side, maxHeight) == (maxHeight, maxHeight)
  {
  }

  /** The square branch gives what the proportional formula would have given. */
  lemma SquareBranchAgreesWithScale(side: nat, maxHeight: nat)
    requires side > maxHeight
    ensures RoundedScale(side, side, maxHeight) == maxHeight
  {
    RoundingIsUnique(side, side, maxHeight, maxHeight);
  }

  /** A resized image keeps its aspect ratio to within half a pixel of width. */
  lemma ResizeKeepsAspect(width: nat, height: nat, maxHeight: nat)
    requires height > maxHeight
    ensures var (w, h) := Resized(width, height, maxHeight);
      -(height as int) < 2 * (height * w - width * h) <= height
  {
  }

  lemma MulMonotone(a: nat, b: int, c: int)
    requires b <= c
    ensures a * b <= a * c
  {
    assert a * c - a * b == a * (c - b);
  }

  /** Scaling down to a smaller height never widens the image. */
  lemma ScaleNeverWidens(width: nat, height: nat, maxHeight: nat)
    requires height > maxHeight
    ensures RoundedScale(width, height, maxHeight) <= width
  {
    var r := RoundedScale(width, height, maxHeight);
    if r > width {
      MulMonotone(height, width + 1, r);
      MulMonotone(width, maxHeight, height);
    }
  }

  /** Neither the width nor the height ever grows. */
  lemma ResizeNeverGrows(width: nat, height: nat, maxHeight: nat)
    ensures Resized(width, height, maxHeight).0 <= width
    ensures Resized(width, height, maxHeight).1 <= height
  {
    if height > maxHeight && height != width {
      ScaleNeverWidens(width, height, maxHeight);
    }
  }

  /** Resizing a resized image changes nothing. */
  lemma ResizeIdempotent(width: nat, height: nat, maxHeight: nat)
    ensures var (w, h) := Resized(width, height, maxHeight);
      Resized(w, h, maxHeight) == (w, h)
  {
  }

  // ---------------------------------------------------------------------
  // HTTPS rewrite

  /** `str_replace("http", "https", $url)`. */
  function Upgrade(url: string): (r: string)
    ensures |r| >= |url|
    ensures |url| < 4 ==> r == url
  {
    StrReplace("http", "https", url)
  }

  /** Reading `s` from its start, `p` comes out of the rewrite unless the rewrite starts with an `h`. */
  lemma {:induction false} UpgradePrefix(s: string, p: string)
    requires forall k :: 0 <= k < |p| ==> p[k] != 'h'
    requires |p| <= |Upgrade(s)| && Upgrade(s)[..|p|] == p
    ensures |p| <= |s| && s[..|p|] == p
    decreases |p|
  {
    if |p| > 0 {
      assert Upgrade(s)[0] == p[0];
      assert !(|s| >= 4 && s[..4] == "http");
      assert |s| > 0;
      var t := Upgrade(s[1..]);
      assert Upgrade(s) == [s[0]] + t;
      assert t[..|p| - 1] == p[1..];
      UpgradePrefix(s[1..], p[1..]);
    }
  }

  /**
   * Replacing `https` back by `http` undoes the rewrite, so no two URLs
   * are rewritten to the same one.
   */
  lemma {:induction false} UpgradeIsReversible(url: string)
    ensures StrReplace("https", "http", Upgrade(url)) == url
    decreases |url|
  {
    var u := Upgrade(url);
    if |url| >= 4 && url[..4] == "http" {
      var rest := Upgrade(url[4..]);
      assert u == "https" + rest;
      assert u[..5] == "https" && u[5..] == rest;
      UpgradeIsReversible(url[4..]);
    } else if |url| > 0 {
      var rest := Upgrade(url[1..]);
      assert u == [url[0]] + rest;
      if |u| >= 5 && u[..5] == "https" {
        assert u[1..5] == rest[..4];
        assert rest[..4] == "ttps";
        UpgradePrefix(url[1..], "ttps");
        assert false;
      }
      assert u[1..] == rest;
      UpgradeIsReversible(url[1..]);
    }
  }

  /** A character other than `h` cannot start an occurrence, so it passes through. */
  lemma UpgradeSkipsNonH(c: char, s: string)
    requires c != 'h'
    ensures Upgrade([c] + s) == [c] + Upgrade(s)
  {
    var u := [c] + s;
    assert u[1..] == s;
    if |u| >= 4 {
      assert u[..4][0] == c;
    }
  }

  /** The rewrite is not idempotent: an `https` URL gains a second `s`. */
  lemma UpgradeOfHttpsUrl(rest: string)
    ensures Upgrade("https://" + rest) == "httpss://" + Upgrade(rest)
  {
    var s3 := "://" + rest;
    UpgradeOfScheme(rest);
    UpgradeSkipsNonH('s', s3);
    assert "https://" + rest == "http" + (['s'] + s3);
    assert "s://" + rest == ['s'] + s3;
  }

  /** A plain `http` URL moves to `https`, and the rest of it is rewritten on its own. */
  lemma UpgradeOfHttpUrl(rest: string)
    ensures Upgrade("http://" + rest) == "https://" + Upgrade(rest)
  {
    var s3 := "://" + rest;
    UpgradeOfScheme(rest);
    assert "http://" + rest == "http" + s3;
  }

  /** The part after a scheme name passes through, then an occurrence at the front is replaced. */
  lemma UpgradeOfScheme(rest: string)
    ensures Upgrade("://" + rest) == "://" + Upgrade(rest)
    ensures forall t :: Upgrade("http" + t) == "https" + Upgrade(t)
  {
    var s1 := ['/'] + rest;
    var s2 := ['/'] + s1;
    var s3 := [':'] + s2;
    UpgradeSkipsNonH('/', rest);
    UpgradeSkipsNonH('/', s1);
    UpgradeSkipsNonH(':', s2);
    assert "://" + rest == s3;
    forall t ensures Upgrade("http" + t) == "https" + Upgrade(t) {
      assert ("http" + t)[..4] == "http" && ("http" + t)[4..] == t;
    }
  }

  /** A URL holding no `http` after its scheme comes out with exactly the scheme changed. */
  lemma UpgradeOfPlainHttpUrl(rest: string)
    requires forall k :: 0 <= k <= |rest| ==> !OccursAt("http", rest, k)
    ensures Upgrade("http://" + rest) == "https://" + rest
    ensures Upgrade("https://" + rest) == "httpss://" + rest
  {
    UpgradeOfHttpUrl(rest);
    UpgradeOfHttpsUrl(rest);
    StrReplaceNoOccurrence("http", "https", rest);
  }

  // ---------------------------------------------------------------------
  // Feed to records

  /** The record `json()` appends for one entry. */
  function ToRecord(e: Entry, useHttps: bool, maxHeight: nat): (r: Record)
    ensures r.caption == e.caption
    ensures r.height <= e.height
    ensures e.height > maxHeight ==> r.height == maxHeight
    ensures e.height <= maxHeight ==> r.width == e.width && r.height == e.height
    ensures !useHttps ==> r.url == e.url
    ensures |r.url| >= |e.url|
  {
    var (w, h) := Resized(e.width, e.height, maxHeight);
    Record(if useHttps then Upgrade(e.url) else e.url, w, h, e.caption)
  }

  /** The records `json()` appends for a list of entries, in feed order. */
  function Records(entries: seq<Entry>, useHttps: bool, maxHeight: nat): (r: seq<Record>)
    ensures |r| == |entries|
  {
    if entries == [] then []
    else [ToRecord(entries[0], useHttps, maxHeight)] + Records(entries[1..], useHttps, maxHeight)
  }

  /** The `k`-th record is built from the `k`-th entry alone. */
  lemma {:induction false} RecordsAt(entries: seq<Entry>, useHttps: bool, maxHeight: nat, k: nat)
    requires k < |entries|
    ensures Records(entries, useHttps, maxHeight)[k] == ToRecord(entries[k], useHttps, maxHeight)
  {
    if k > 0 {
      RecordsAt(entries[1..], useHttps, maxHeight, k - 1);
    }
  }

  /** The records of a concatenated feed are the concatenated records. */
  lemma {:induction false} RecordsAppend(a: seq<Entry>, b: seq<Entry>, useHttps: bool, maxHeight: nat)
    ensures Records(a + b, useHttps, maxHeight) == Records(a, useHttps, maxHeight) + Records(b, useHttps, maxHeight)
  {
    if a == [] {
      assert a + b == b;
    } else {
      assert (a + b)[1..] == a[1..] + b;
      RecordsAppend(a[1..], b, useHttps, maxHeight);
    }
  }

  /** Extending a feed prefix by one entry adds that entry's record. */
  lemma RecordsExtend(entries: seq<Entry>, i: nat, useHttps: bool, maxHeight: nat)
    requires i < |entries|
    ensures Records(entries[..i + 1], useHttps, maxHeight)
      == Records(entries[..i], useHttps, maxHeight) + [ToRecord(entries[i], useHttps, maxHeight)]
  {
    assert entries[..i + 1] == entries[..i] + [entries[i]];
    RecordsAppend(entries[..i], [entries[i]], useHttps, maxHeight);
  }

  /** Each resized record is bounded by `maxHeight`, and without HTTPS keeps the entry's URL. */
  lemma RecordsBounded(entries: seq<Entry>, useHttps: bool, maxHeight: nat, k: nat)
    requires k < |entries|
    ensures var r := Records(entries, useHttps, maxHeight)[k];
      && r.height <= entries[k].height
      && r.width <= entries[k].width
      && (entries[k].height > maxHeight ==> r.height == maxHeight)
      && r.caption == entries[k].caption
      && (!useHttps ==> r.url == entries[k].url)
      && (useHttps ==> r.url == Upgrade(entries[k].url))
  {
    RecordsAt(entries, useHttps, maxHeight, k);
    ResizeNeverGrows(entries[k].width, entries[k].height, maxHeight);
  }
}
