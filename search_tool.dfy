/** The read-only tool surface offered to the conversational layer: parsing
    a comma-separated keyword string, defaulting `k`, and projecting products
    into `ProductInfo` records. The service's list-based `knnSearch` and
    `findSimilarProducts` are passed in as functions. */
module SearchTool {
  import opened Base
  import opened Entity
  import opened Service

  // ---------------------------------------------------------------------
  // String.trim: strips leading and trailing characters up to U+0020

  /** The first index from `i` on holding a character above U+0020, or
      `|s|`: the loop that advances the start of `String.trim`. */
  function SkipBlanks(s: string, i: nat): (k: nat)
    requires i <= |s|
    ensures i <= k <= |s|
    ensures forall m :: i <= m < k ==> s[m] <= ' '
    ensures k < |s| ==> s[k] > ' '
    decreases |s| - i
  {
    if i < |s| && s[i] <= ' ' then SkipBlanks(s, i + 1) else i
  }

  /** The end index once characters up to U+0020 are dropped from before
      `j`, without passing `lo`: the loop that retreats the end. */
  function SkipBlanksBack(s: string, lo: nat, j: nat): (k: nat)
    requires lo <= j <= |s|
    ensures lo <= k <= j
    ensures forall m :: k <= m < j ==> s[m] <= ' '
    ensures k > lo ==> s[k - 1] > ' '
  {
    if lo < j && s[j - 1] <= ' ' then SkipBlanksBack(s, lo, j - 1) else j
  }

  /** Every character of `s` before `i` and from `j` on is up to U+0020. */
  predicate BlankOutside(s: string, i: nat, j: nat)
    requires i <= j <= |s|
  {
    (forall k :: 0 <= k < i ==> s[k] <= ' ') && (forall k :: j <= k < |s| ==> s[k] <= ' ')
  }

  /** `String.trim`: the piece of `s` left once a prefix and a suffix of
      characters up to U+0020 are cut off; it neither starts nor ends with
      such a character, and it is empty exactly when `s` holds nothing else. */
  function Trim(s: string): (r: string)
    ensures exists i, j :: 0 <= i <= j <= |s| && r == s[i..j] && BlankOutside(s, i, j)
    ensures r != [] ==> r[0] > ' ' && r[|r| - 1] > ' '
    ensures r == [] <==> forall i :: 0 <= i < |s| ==> s[i] <= ' '
  {
    var i := SkipBlanks(s, 0);
    var j := SkipBlanksBack(s, i, |s|);
    assert BlankOutside(s, i, j);
    s[i..j]
  }

  /** Any piece of `s` with only characters up to U+0020 around it, and
      none at either end of it, is `Trim(s)`: the contract determines `Trim`. */
  lemma TrimUnique(s: string, i: nat, j: nat)
    requires i <= j <= |s| && BlankOutside(s, i, j)
    requires i < j ==> s[i] > ' ' && s[j - 1] > ' '
    ensures Trim(s) == s[i..j]
  {
    var i0 := SkipBlanks(s, 0);
    var j0 := SkipBlanksBack(s, i0, |s|);
    if Trim(s) != [] {
      assert s[i0] == Trim(s)[0] && s[j0 - 1] == Trim(s)[j0 - i0 - 1];
      CutPointsUnique(s, i, j, i0, j0);
    }
  }

  /** Two cuts of `s` with only characters up to U+0020 outside them, the
      second with a non-blank first and last character, are the same cut. */
  lemma CutPointsUnique(s: string, i: nat, j: nat, i0: nat, j0: nat)
    requires i <= j <= |s| && BlankOutside(s, i, j)
    requires i < j ==> s[i] > ' ' && s[j - 1] > ' '
    requires i0 < j0 <= |s| && BlankOutside(s, i0, j0)
    requires s[i0] > ' ' && s[j0 - 1] > ' '
    ensures i == i0 && j == j0
  {
  }

  /** A keyword as the tool hands it on: non-empty, comma-free, and without
      leading or trailing characters up to U+0020. */
  predicate IsCleanKeyword(w: string) {
    w != [] && ',' !in w && w[0] > ' ' && w[|w| - 1] > ' '
  }

  lemma TrimClean(w: string)
    requires IsCleanKeyword(w)
    ensures Trim(w) == w
  {
  }

  // ---------------------------------------------------------------------
  // String.split(",")

  /** Every comma-separated segment of `s`, empty ones included. */
  function Split(s: string): (r: seq<string>)
    ensures |r| >= 1
    ensures forall i :: 0 <= i < |r| ==> ',' !in r[i]
  {
    if s == [] then [""]
    else
      var rest := Split(s[1..]);
      if s[0] == ',' then [""] + rest
      else [[s[0]] + rest[0]] + rest[1..]
  }

  /** The rule `String.split` applies to its segments: empty segments at
      the end are dropped, and nothing else. */
  function DropTrailingEmpty(parts: seq<string>): (r: seq<string>)
    ensures |r| <= |parts| && r == parts[..|r|]
    ensures forall i :: |r| <= i < |parts| ==> parts[i] == ""
    ensures r != [] ==> r[|r| - 1] != ""
  {
    if parts != [] && parts[|parts| - 1] == "" then DropTrailingEmpty(parts[..|parts| - 1]) else parts
  }

  /** `String.split(",")`: the input itself when it has no comma, otherwise
      its segments with the trailing empty ones removed. */
  function JavaSplit(s: string): (r: seq<string>)
    ensures ',' !in s ==> r == [s]
    ensures forall i :: 0 <= i < |r| ==> ',' !in r[i]
    ensures ',' in s && r != [] ==> r[|r| - 1] != ""
    ensures ',' in s ==> |r| <= |Split(s)| && r == Split(s)[..|r|]
    ensures ',' in s ==> forall i :: |r| <= i < |Split(s)| ==> Split(s)[i] == ""
  {
    if ',' !in s then [s] else DropTrailingEmpty(Split(s))
  }

  /** Each segment trimmed and the empty ones dropped, order kept. */
  function TrimNonBlank(parts: seq<string>): (r: seq<string>)
    ensures (forall i :: 0 <= i < |parts| ==> ',' !in parts[i]) ==>
              forall j :: 0 <= j < |r| ==> IsCleanKeyword(r[j])
  {
    if parts == [] then []
    else
      var t := Trim(parts[0]);
      (if t == [] then [] else [t]) + TrimNonBlank(parts[1..])
  }

  /** The keyword list `searchProducts` builds from its string argument;
      every keyword in it is clean. */
  function ParseKeywords(keywords: string): (r: seq<string>)
    ensures forall j :: 0 <= j < |r| ==> IsCleanKeyword(r[j])
  {
    TrimNonBlank(JavaSplit(keywords))
  }

  // ---------------------------------------------------------------------
  // Properties of the parse

  lemma {:induction false} SplitNoComma(s: string)
    requires ',' !in s
    ensures Split(s) == [s]
  {
    if s != [] {
      SplitNoComma(s[1..]);
      assert s == [s[0]] + s[1..];
    }
  }

  /** A comma cuts the input into the segments before it and after it. */
  lemma {:induction false} SplitAtComma(a: string, b: string)
    ensures Split(a + "," + b) == Split(a) + Split(b)
  {
    if a == [] {
      assert a + "," + b == [','] + b;
      assert (a + "," + b)[1..] == b;
    } else {
      assert (a + "," + b)[0] == a[0];
      assert (a + "," + b)[1..] == a[1..] + "," + b;
      SplitAtComma(a[1..], b);
    }
  }

  lemma {:induction false} TrimNonBlankAppend(a: seq<string>, b: seq<string>)
    ensures TrimNonBlank(a + b) == TrimNonBlank(a) + TrimNonBlank(b)
  {
    if a == [] {
      assert a + b == b;
    } else {
      assert (a + b)[0] == a[0];
      assert (a + b)[1..] == a[1..] + b;
      TrimNonBlankAppend(a[1..], b);
    }
  }

  /** Java's dropping of trailing empty segments makes no difference once
      blank segments are filtered out. */
  lemma {:induction false} TrimNonBlankDropTrailing(parts: seq<string>)
    ensures TrimNonBlank(DropTrailingEmpty(parts)) == TrimNonBlank(parts)
  {
    if parts != [] && parts[|parts| - 1] == "" {
      var init := parts[..|parts| - 1];
      assert parts == init + [""];
      calc {
        TrimNonBlank(DropTrailingEmpty(parts));
        TrimNonBlank(DropTrailingEmpty(init));
        { TrimNonBlankDropTrailing(init); }
        TrimNonBlank(init);
        { TrimNonBlankOfEmpty(); }
        TrimNonBlank(init) + TrimNonBlank([""]);
        { TrimNonBlankAppend(init, [""]); }
        TrimNonBlank(parts);
      }
    }
  }

  lemma TrimNonBlankOfEmpty()
    ensures TrimNonBlank([""]) == []
  {
    assert Trim("") == [];
    assert [""][1..] == [];
  }

  /** The parsed list is, in order, the trimmed non-blank comma-separated
      segments of the whole input. */
  lemma ParseKeywordsSegments(keywords: string)
    ensures ParseKeywords(keywords) == TrimNonBlank(Split(keywords))
  {
    if ',' !in keywords {
      SplitNoComma(keywords);
    } else {
      TrimNonBlankDropTrailing(Split(keywords));
    }
  }

  /** Input without a comma yields its trimmed text, or nothing when blank. */
  lemma ParseKeywordsSegment(s: string)
    requires ',' !in s
    ensures ParseKeywords(s) == if Trim(s) == [] then [] else [Trim(s)]
  {
    assert JavaSplit(s) == [s];
    assert [s][1..] == [];
    assert TrimNonBlank([s]) == (if Trim(s) == [] then [] else [Trim(s)]) + TrimNonBlank([]);
  }

  /** The keywords before a comma come first, then those after it. */
  lemma ParseKeywordsAtComma(a: string, b: string)
    ensures ParseKeywords(a + "," + b) == ParseKeywords(a) + ParseKeywords(b)
  {
    ParseKeywordsSegments(a + "," + b);
    ParseKeywordsSegments(a);
    ParseKeywordsSegments(b);
    SplitAtComma(a, b);
    TrimNonBlankAppend(Split(a), Split(b));
  }

  /** The index of the first comma. */
  function FirstComma(s: string): (i: nat)
    requires ',' in s
    ensures i < |s| && s[i] == ',' && ',' !in s[..i]
  {
    if s[0] == ',' then 0 else FirstComma(s[1..]) + 1
  }

  /** The parse is empty exactly when the input holds only commas and
      characters up to U+0020 (the empty string included). */
  lemma {:induction false} ParseKeywordsEmpty(s: string)
    ensures ParseKeywords(s) == [] <==> Blank(s)
    decreases |s|
  {
    if ',' !in s {
      ParseKeywordsSegment(s);
    } else {
      var c := FirstComma(s);
      var a, b := s[..c], s[c + 1..];
      assert s == a + "," + b;
      ParseKeywordsAtComma(a, b);
      ParseKeywordsSegment(a);
      ParseKeywordsEmpty(b);
      BlankAtComma(a, b);
    }
  }

  /** Only commas and characters up to U+0020. */
  predicate Blank(s: string) {
    forall i :: 0 <= i < |s| ==> s[i] <= ' ' || s[i] == ','
  }

  lemma BlankAtComma(a: string, b: string)
    ensures Blank(a + "," + b) <==> Blank(a) && Blank(b)
  {
    var s := a + "," + b;
    if Blank(a) && Blank(b) {
      forall i | 0 <= i < |s| ensures s[i] <= ' ' || s[i] == ',' {
        if i > |a| {
          assert s[i] == b[i - |a| - 1];
        }
      }
    }
    if Blank(s) {
      forall i | 0 <= i < |b| ensures b[i] <= ' ' || b[i] == ',' {
        assert b[i] == s[|a| + 1 + i];
      }
      forall i | 0 <= i < |a| ensures a[i] <= ' ' || a[i] == ',' {
        assert a[i] == s[i];
      }
    }
  }

  /** Keywords joined with commas. */
  function JoinComma(ks: seq<string>): string
  {
    if ks == [] then ""
    else if |ks| == 1 then ks[0]
    else ks[0] + "," + JoinComma(ks[1..])
  }

  /** Clean keywords joined with commas parse back to the same list. */
  lemma {:induction false} ParseJoinRoundTrip(ks: seq<string>)
    requires forall i :: 0 <= i < |ks| ==> IsCleanKeyword(ks[i])
    ensures ParseKeywords(JoinComma(ks)) == ks
  {
    if ks == [] {
      ParseKeywordsSegment("");
    } else if |ks| == 1 {
      TrimClean(ks[0]);
      ParseKeywordsSegment(ks[0]);
    } else {
      ParseJoinRoundTrip(ks[1..]);
      ParseKeywordsAtComma(ks[0], JoinComma(ks[1..]));
      TrimClean(ks[0]);
      ParseKeywordsSegment(ks[0]);
    }
  }

  // ---------------------------------------------------------------------
  // k and the projection

  /** The tool's default for `k`: a non-positive value becomes 5. */
  function DefaultK(k: int32): (r: int32)
    ensures r > 0
    ensures k > 0 ==> r == k
    ensures k <= 0 ==> r == 5
  {
    if k <= 0 then 5 else k
  }

  datatype ProductInfo = ProductInfo(id: int, name: string, keywords: seq<string>)

  function ToInfo(p: ProductData): ProductInfo
  {
    ProductInfo(p.id, p.name, p.keywords)
  }

  /** One `ProductInfo` per product, in the same order, copying the id, the
      name and the keyword texts in list order. */
  function ToInfos(ps: seq<ProductData>): (r: seq<ProductInfo>)
    ensures |r| == |ps|
    ensures forall i :: 0 <= i < |ps| ==>
              r[i].id == ps[i].id && r[i].name == ps[i].name && r[i].keywords == ps[i].keywords
  {
    if ps == [] then [] else [ToInfo(ps[0])] + ToInfos(ps[1..])
  }

  /** `searchProducts`: the service is asked with the parsed keywords and the
      defaulted `k`; what it returns is projected in order. */
  function SearchProducts(keywords: string, k: int32,
                          knnSearch: (seq<string>, int32) -> seq<ProductData>): (r: seq<ProductInfo>)
    ensures var found := knnSearch(ParseKeywords(keywords), DefaultK(k));
            && |r| == |found|
            && forall i :: 0 <= i < |found| ==>
                 r[i].id == found[i].id && r[i].name == found[i].name && r[i].keywords == found[i].keywords
  {
    var keywordList := ParseKeywords(keywords);
    ToInfos(knnSearch(keywordList, DefaultK(k)))
  }

  /** `findSimilarProducts`: the service is asked with the id and the
      defaulted `k`; what it returns is projected in order. */
  function FindSimilarProducts(productId: int, k: int32,
                               findSimilar: (int, int32) -> seq<ProductData>): (r: seq<ProductInfo>)
    ensures var found := findSimilar(productId, DefaultK(k));
            && |r| == |found|
            && forall i :: 0 <= i < |found| ==>
                 r[i].id == found[i].id && r[i].name == found[i].name && r[i].keywords == found[i].keywords
  {
    ToInfos(findSimilar(productId, DefaultK(k)))
  }

  /** `getProductById`: absent (Java's null) when the store lacks the id,
      and otherwise that product's projection. */
  function GetProductById(service: ProductService, productId: int): (r: Option<ProductInfo>)
    reads service
    ensures r.None? <==> productId !in service.products
    ensures r.Some? ==> r.value == ProductInfo(service.products[productId].id,
                                               service.products[productId].name,
                                               service.products[productId].keywords)
  {
    match service.FindById(productId)
    case Some(p) => Some(ToInfo(p))
    case None => None
  }

  /** `getAllProducts`: projects every product of `findAll`, in its order. */
  function GetAllProducts(all: seq<ProductData>): (r: seq<ProductInfo>)
    ensures |r| == |all|
    ensures forall i :: 0 <= i < |all| ==> r[i] == ProductInfo(all[i].id, all[i].name, all[i].keywords)
  {
    ToInfos(all)
  }
}
