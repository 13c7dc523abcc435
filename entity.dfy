/** The persisted product entity and its keyword entity. A product owns an
    ordered list of keyword objects; each keyword points back at the product
    that owns it, and `addKeyword`/`removeKeyword` keep that back-reference. */
module Entity {
  import opened Base

  /** A product row as the product store keeps it: id, name and the ordered
      keyword texts. This is also what callers receive from the service. */
  datatype ProductData = ProductData(id: int, name: string, keywords: seq<string>)

  class ProductKeyword {
    var product: Product?
    var keyword: string

    constructor (keyword: string)
      ensures this.keyword == keyword
      ensures product == null
    {
      this.keyword := keyword;
      product := null;
    }

    method SetProduct(product: Product?)
      modifies this`product
      ensures this.product == product
      ensures keyword == old(keyword)
    {
      this.product := product;
    }

    method SetKeyword(keyword: string)
      modifies this`keyword
      ensures this.keyword == keyword
      ensures product == old(product)
    {
      this.keyword := keyword;
    }
  }

  class Product {
    /** Assigned by the product store on the first save (`None` is Java's null). */
    var id: Option<int>
    var name: string
    var keywords: seq<ProductKeyword>

    constructor ()
      ensures id == None && name == "" && keywords == []
    {
      id := None;
      name := "";
      keywords := [];
    }

    /** The keyword texts in list order. */
    function Texts(): seq<string>
      reads this`keywords, keywords
    {
      var ks := keywords;
      seq(|ks|, i requires 0 <= i < |ks| reads ks => ks[i].keyword)
    }

    /** Every keyword in the list points back at this product. */
    ghost predicate Owned()
      reads this, keywords
    {
      forall k :: k in keywords ==> k.product == this
    }

    /** The row the product store keeps for this entity once it has an id. */
    function Data(): ProductData
      reads this, keywords
      requires id.Some?
    {
      ProductData(id.value, name, Texts())
    }

    method SetName(name: string)
      modifies this`name
      ensures this.name == name
    {
      this.name := name;
    }

    method AddKeyword(kw: ProductKeyword)
      modifies this`keywords, kw`product
      ensures keywords == old(keywords) + [kw]
      ensures kw.product == this
      ensures Texts() == old(Texts()) + [kw.keyword]
      ensures old(Owned()) ==> Owned()
    {
      keywords := keywords + [kw];
      kw.SetProduct(this);
    }

    /** Removes the first occurrence of `kw` (by reference: the keyword entity
        defines no equality of its own) and clears its owner. */
    method RemoveKeyword(kw: ProductKeyword)
      modifies this`keywords, kw`product
      ensures keywords == RemoveFirst(old(keywords), kw)
      ensures kw.product == null
      ensures kw !in old(keywords) ==> keywords == old(keywords)
      ensures old(Owned()) && kw !in keywords ==> Owned()
    {
      if kw !in keywords {
        RemoveFirstAbsent(keywords, kw);
      }
      RemoveFirstCount(keywords, kw);
      ghost var before := keywords;
      keywords := RemoveFirst(keywords, kw);
      forall k | k in keywords ensures k in before {
        assert k in multiset(keywords);
      }
      kw.SetProduct(null);
    }

    method AddKeywordText(text: string)
      modifies this`keywords
      ensures |keywords| == |old(keywords)| + 1
      ensures keywords[..|old(keywords)|] == old(keywords)
      ensures fresh(keywords[|old(keywords)|])
      ensures keywords[|old(keywords)|].keyword == text
      ensures keywords[|old(keywords)|].product == this
      ensures Texts() == old(Texts()) + [text]
      ensures old(Owned()) ==> Owned()
    {
      var kw := new ProductKeyword(text);
      AddKeyword(kw);
    }

    /** `getKeywords().clear()`: the list is emptied; the removed keyword
        objects keep their owner field (the store deletes them as orphans). */
    method ClearKeywords()
      modifies this`keywords
      ensures keywords == []
    {
      keywords := [];
    }
  }

  /** `List.remove(Object)`: drops the first element equal to `x`, if any. */
  function RemoveFirst<T(==)>(s: seq<T>, x: T): (r: seq<T>)
    ensures |r| == if x in s then |s| - 1 else |s|
  {
    if s == [] then []
    else if s[0] == x then s[1..]
    else [s[0]] + RemoveFirst(s[1..], x)
  }

  /** When `x` first occurs at `i`, exactly that element is removed and the
      others keep their order. */
  lemma {:induction false} RemoveFirstAt<T>(s: seq<T>, x: T, i: nat)
    requires i < |s| && s[i] == x && x !in s[..i]
    ensures RemoveFirst(s, x) == s[..i] + s[i + 1..]
  {
    if i > 0 {
      assert s[0] in s[..i];
      assert s[1..][..i - 1] == s[1..i];
      RemoveFirstAt(s[1..], x, i - 1);
    }
  }

  /** Removing an element that is not there changes nothing. */
  lemma {:induction false} RemoveFirstAbsent<T>(s: seq<T>, x: T)
    requires x !in s
    ensures RemoveFirst(s, x) == s
  {
    if s != [] {
      assert x !in s[1..];
      RemoveFirstAbsent(s[1..], x);
    }
  }

  /** Whatever `x` is, exactly one occurrence of it disappears if it is there. */
  lemma {:induction false} RemoveFirstCount<T>(s: seq<T>, x: T)
    ensures multiset(RemoveFirst(s, x)) == multiset(s) - multiset{x}
  {
    if s != [] {
      assert s == [s[0]] + s[1..];
      RemoveFirstCount(s[1..], x);
    }
  }
}
