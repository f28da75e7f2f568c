/**
  Selection of a video's image URLs from its CSV row (video_creator.py):
  the row's columns are visited in `sorted` order, and the value of every
  column whose lower-cased name starts with "image" and that passes the URL
  check is appended to `images`.

  The URL check (`validators.url`) is an uninterpreted predicate `isUrl`.
*/
module Columns {

  /** Python 2 `a < b` on `str`: lexicographic by character code, a proper prefix first. */
  predicate Less(a: string, b: string)
    decreases |a|
  {
    if a == [] then b != []
    else if b == [] then false
    else if a[0] != b[0] then a[0] < b[0]
    else Less(a[1..], b[1..])
  }

  lemma {:induction false} LessIrreflexive(a: string)
    ensures !Less(a, a)
    decreases |a|
  {
    if a != [] {
      LessIrreflexive(a[1..]);
    }
  }

  lemma {:induction false} LessTotal(a: string, b: string)
    requires a != b
    ensures Less(a, b) || Less(b, a)
    decreases |a|
  {
    if a != [] && b != [] && a[0] == b[0] {
      assert a == [a[0]] + a[1..] && b == [b[0]] + b[1..];
      LessTotal(a[1..], b[1..]);
    }
  }

  lemma {:induction false} LessAsymmetric(a: string, b: string)
    requires Less(a, b)
    ensures !Less(b, a)
    decreases |a|
  {
    if a != [] && b != [] && a[0] == b[0] {
      LessAsymmetric(a[1..], b[1..]);
    }
  }

  /** `k.lower()` on a Python 2 `str`: only the ASCII letters A-Z change. */
  function LowerChar(c: char): char {
    if 'A' <= c <= 'Z' then (c as int + 32) as char else c
  }

  function Lower(s: string): (r: string)
    ensures |r| == |s|
    ensures forall i :: 0 <= i < |s| ==> r[i] == LowerChar(s[i])
  {
    seq(|s|, i requires 0 <= i < |s| => LowerChar(s[i]))
  }

  /** `k.lower().startswith('image')` */
  predicate IsImageKey(k: string) {
    "image" <= Lower(k)
  }

  lemma ImageKeyCaseInsensitive(k: string)
    ensures IsImageKey(k) <==>
              |k| >= 5 && LowerChar(k[0]) == 'i' && LowerChar(k[1]) == 'm' && LowerChar(k[2]) == 'a'
              && LowerChar(k[3]) == 'g' && LowerChar(k[4]) == 'e'
  {
  }

  /** Strictly ascending in Python's string order. */
  predicate StrictlySorted(ks: seq<string>) {
    forall i, j :: 0 <= i < j < |ks| ==> Less(ks[i], ks[j])
  }

  /** The column whose value `images` gets, for a row and the URL check. */
  predicate Selected(row: map<string, string>, isUrl: string -> bool, k: string) {
    k in row && IsImageKey(k) && isUrl(row[k])
  }

  /** Every finite non-empty set of names has a least one in Python's order. */
  lemma {:induction false} MinimumExists(names: set<string>)
    requires names != {}
    ensures exists m :: m in names && forall n :: n in names ==> n == m || Less(m, n)
    decreases names
  {
    var x :| x in names;
    if names != {x} {
      MinimumExists(names - {x});
      var m :| m in names - {x} && forall n :: n in names - {x} ==> n == m || Less(m, n);
      if Less(m, x) {
        assert forall n :: n in names ==> n == m || Less(m, n);
      } else {
        LessTotal(m, x);
        forall n | n in names && n != x
          ensures Less(x, n)
        {
          LessTransitive(x, m, n);
        }
      }
    }
  }

  lemma {:induction false} LessTransitive(a: string, b: string, c: string)
    requires Less(a, b) && (b == c || Less(b, c))
    ensures Less(a, c)
    decreases |a|
  {
    if b != c && a != [] && a[0] == b[0] && b[0] == c[0] {
      LessTransitive(a[1..], b[1..], c[1..]);
    }
  }

  /**
    The images loop: `for k in sorted(video)`, keeping `video[k]` when the
    column is an image column and its value a URL. The keys are visited in
    ascending order by taking the least of those not yet visited.
    `columns` names, in order, the columns whose values were appended.
  */
  method SelectImages(row: map<string, string>, isUrl: string -> bool)
    returns (images: seq<string>, ghost columns: seq<string>)
    ensures forall v :: v in images ==> exists k :: Selected(row, isUrl, k) && row[k] == v
    ensures forall k :: Selected(row, isUrl, k) ==> row[k] in images
    ensures StrictlySorted(columns)
    ensures forall k :: k in columns <==> Selected(row, isUrl, k)
    ensures |images| == |columns|
    ensures forall i :: 0 <= i < |images| ==> columns[i] in row && images[i] == row[columns[i]]
  {
    images, columns := [], [];
    var remaining := row.Keys;
    ghost var visited: set<string> := {};
    while remaining != {}
      invariant remaining <= row.Keys
      invariant forall k :: k in row ==> (k in visited <==> k !in remaining)
      invariant forall k :: k in columns <==> k in visited && Selected(row, isUrl, k)
      invariant StrictlySorted(columns)
      invariant forall a, b :: a in columns && b in remaining ==> Less(a, b)
      invariant |images| == |columns|
      invariant forall i :: 0 <= i < |images| ==> columns[i] in row && images[i] == row[columns[i]]
      decreases remaining
    {
      MinimumExists(remaining);
      var k :| k in remaining && forall n :: n in remaining ==> n == k || Less(k, n);
      if IsImageKey(k) && isUrl(row[k]) {
        images := images + [row[k]];
        columns := columns + [k];
      }
      visited := visited + {k};
      remaining := remaining - {k};
    }
  }

  /**
    Two strictly ascending lists of the same names are equal: the order the
    columns are visited in, and so the list of images, is determined by the row.
  */
  lemma {:induction false} SortedEnumerationUnique(a: seq<string>, b: seq<string>)
    requires StrictlySorted(a) && StrictlySorted(b)
    requires forall k :: k in a <==> k in b
    ensures a == b
    decreases |a|
  {
    assert a != [] ==> a[0] in b;
    assert b != [] ==> b[0] in a;
    if a != [] && b != [] {
      if a[0] != b[0] {
        var i :| 0 <= i < |b| && b[i] == a[0];
        var j :| 0 <= j < |a| && a[j] == b[0];
        assert Less(b[0], a[0]) && Less(a[0], b[0]);
        LessAsymmetric(a[0], b[0]);
      }
      forall k
        ensures k in a[1..] <==> k in b[1..]
      {
        if k in a[1..] {
          var i :| 1 <= i < |a| && a[i] == k;
          assert Less(a[0], k);
          LessIrreflexive(k);
          assert a[i] in a;
          var j :| 0 <= j < |b| && b[j] == k;
          assert j != 0 && b[1..][j - 1] == k;
        }
        if k in b[1..] {
          var i :| 1 <= i < |b| && b[i] == k;
          assert Less(b[0], k);
          LessIrreflexive(k);
          assert b[i] in b;
          var j :| 0 <= j < |a| && a[j] == k;
          assert j != 0 && a[1..][j - 1] == k;
        }
      }
      SortedEnumerationUnique(a[1..], b[1..]);
    }
  }

  /**
    A row with columns Title, Image2, image1, ImageXYZ (not a URL) and Tags:
    upper case sorts before lower case, so Image2's URL comes first.
  */
  lemma MixedCaseColumnsOrder(row: map<string, string>, isUrl: string -> bool,
                              columns: seq<string>)
    requires row.Keys == {"Title", "Image2", "image1", "ImageXYZ", "Tags"}
    requires isUrl(row["Image2"]) && isUrl(row["image1"]) && !isUrl(row["ImageXYZ"])
    requires StrictlySorted(columns)
    requires forall k :: k in columns <==> Selected(row, isUrl, k)
    ensures columns == ["Image2", "image1"]
  {
    var expected := ["Image2", "image1"];
    assert Less("Image2", "image1");
    assert IsImageKey("Image2") by { ImageKeyCaseInsensitive("Image2"); }
    assert IsImageKey("image1") by { ImageKeyCaseInsensitive("image1"); }
    assert !IsImageKey("Title") by { ImageKeyCaseInsensitive("Title"); }
    assert !IsImageKey("Tags") by { ImageKeyCaseInsensitive("Tags"); }
    forall k
      ensures k in expected <==> Selected(row, isUrl, k)
    {
    }
    SortedEnumerationUnique(columns, expected);
  }
}
