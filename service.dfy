/** The product service: a product store (id → name and ordered keywords)
    and a vector-document store (id → embedding) kept in step by `create`,
    `update` and `delete`, plus the kNN search that joins search hits back to
    products. The embedding model and the search engine are parameters of the
    service: `embed` maps one text to its vector of the model's fixed
    dimension, `search` answers a kNN query over the document store. */
module Service {
  import opened Base
  import opened VectorMath
  import opened Entity

  /** A vector document; `embedding` is `None` while it is Java's null. */
  datatype ProductDocument = ProductDocument(id: int, embedding: Option<seq<real>>)

  /** One write to one of the two stores, for stating the order of writes. */
  datatype StoreWrite =
    | SaveProduct(id: int)
    | SaveDocument(id: int)
    | DeleteProduct(id: int)
    | DeleteDocument(id: int)

  /** The kNN search the service sends to the search engine. */
  datatype KnnQuery = KnnQuery(queryVector: seq<real>, field: string, k: int32, numCandidates: int32)

  /** The runtime exception `update` throws for an unknown id. */
  datatype Error = NotFound(id: int)

  /** `forEach(product::addKeyword)`: appends one keyword entity per text. */
  method AppendKeywords(product: Product, texts: seq<string>)
    modifies product`keywords
    ensures product.Texts() == old(product.Texts()) + texts
    ensures old(product.Owned()) ==> product.Owned()
  {
    var i := 0;
    while i < |texts|
      invariant 0 <= i <= |texts|
      invariant product.Texts() == old(product.Texts()) + texts[..i]
      invariant old(product.Owned()) ==> product.Owned()
    {
      product.AddKeywordText(texts[i]);
      assert texts[..i + 1] == texts[..i] + [texts[i]];
      i := i + 1;
    }
  }

  /** The product store handing out a stored row as an entity object. */
  method Hydrate(row: ProductData) returns (product: Product)
    ensures fresh(product)
    ensures product.id == Some(row.id) && product.Data() == row
    ensures product.Owned()
  {
    product := new Product();
    product.id := Some(row.id);
    product.SetName(row.name);
    AppendKeywords(product, row.keywords);
  }

  /** The entity part of `update`: the stored product is loaded, renamed,
      its keyword list cleared and refilled in order; the result is the row
      saved for it. */
  method ReplaceContents(row: ProductData, name: string, keywords: seq<string>) returns (saved: ProductData)
    ensures saved == ProductData(row.id, name, keywords)
  {
    var product := Hydrate(row);
    product.SetName(name);
    product.ClearKeywords();
    assert product.Texts() == [];
    AppendKeywords(product, keywords);
    saved := product.Data();
  }

  /** The ids of the documents, in hit order. */
  function DocumentIds(docs: seq<ProductDocument>): (ids: seq<int>)
    ensures |ids| == |docs|
    ensures forall i :: 0 <= i < |docs| ==> ids[i] == docs[i].id
  {
    seq(|docs|, i requires 0 <= i < |docs| => docs[i].id)
  }

  /** `ids.stream().map(productMap::get).filter(Objects::nonNull)`: the stored
      product of each hit id, in hit order, skipping ids the store lacks. */
  function JoinHits(ids: seq<int>, products: map<int, ProductData>): (r: seq<ProductData>)
    ensures |r| <= |ids|
  {
    if ids == [] then []
    else (if ids[0] in products then [products[ids[0]]] else []) + JoinHits(ids[1..], products)
  }

  /** A single hit yields its product when stored, and nothing otherwise. */
  lemma JoinHitsOne(id: int, products: map<int, ProductData>)
    ensures JoinHits([id], products) == if id in products then [products[id]] else []
  {
    assert [id][1..] == [];
  }

  /** Joining distributes over concatenation of hit lists: products of earlier
      hits come before products of later hits. With `JoinHitsOne` this pins
      the join down completely. */
  lemma {:induction false} JoinHitsAppend(a: seq<int>, b: seq<int>, products: map<int, ProductData>)
    ensures JoinHits(a + b, products) == JoinHits(a, products) + JoinHits(b, products)
  {
    if a != [] {
      assert (a + b)[0] == a[0];
      assert (a + b)[1..] == a[1..] + b;
      JoinHitsAppend(a[1..], b, products);
    } else {
      assert a + b == b;
    }
  }

  /** A product is in the result exactly when some hit id names it. */
  lemma {:induction false} JoinHitsMembers(ids: seq<int>, products: map<int, ProductData>, p: ProductData)
    ensures p in JoinHits(ids, products) <==>
            exists i :: 0 <= i < |ids| && ids[i] in products && products[ids[i]] == p
  {
    if ids != [] {
      JoinHitsMembers(ids[1..], products, p);
      if exists i :: 0 <= i < |ids| && ids[i] in products && products[ids[i]] == p {
        var i :| 0 <= i < |ids| && ids[i] in products && products[ids[i]] == p;
        if i > 0 {
          assert ids[1..][i - 1] == ids[i];
        }
      }
      if exists i :: 0 <= i < |ids[1..]| && ids[1..][i] in products && products[ids[1..][i]] == p {
        var i :| 0 <= i < |ids[1..]| && ids[1..][i] in products && products[ids[1..][i]] == p;
        assert ids[i + 1] == ids[1..][i];
      }
    }
  }

  /** When every hit is still stored, the result is one product per hit, in
      hit order. */
  lemma {:induction false} JoinHitsAllPresent(ids: seq<int>, products: map<int, ProductData>)
    requires forall i :: 0 <= i < |ids| ==> ids[i] in products
    ensures |JoinHits(ids, products)| == |ids|
    ensures forall i :: 0 <= i < |ids| ==> JoinHits(ids, products)[i] == products[ids[i]]
  {
    if ids != [] {
      JoinHitsAllPresent(ids[1..], products);
    }
  }

  /** Every product the join returns is stored under its own id; so once
      an id is deleted, no search returns that product again. */
  lemma JoinHitsOnlyStored(ids: seq<int>, products: map<int, ProductData>, p: ProductData)
    requires forall id :: id in products ==> products[id].id == id
    requires p in JoinHits(ids, products)
    ensures p.id in products && products[p.id] == p
  {
    JoinHitsMembers(ids, products, p);
    var i :| 0 <= i < |ids| && ids[i] in products && products[ids[i]] == p;
    assert products[ids[i]].id == ids[i];
  }

  /** `f` applied to each element, in order. */
  function MapSeq<A, B>(f: A -> B, s: seq<A>): (r: seq<B>)
    ensures |r| == |s| && forall i :: 0 <= i < |s| ==> r[i] == f(s[i])
  {
    seq(|s|, i requires 0 <= i < |s| => f(s[i]))
  }

  /** Reordering the input reorders the mapped output the same way. */
  lemma {:induction false} MapSeqPermutation<A, B>(f: A -> B, a: seq<A>, b: seq<A>)
    requires multiset(a) == multiset(b)
    ensures multiset(MapSeq(f, a)) == multiset(MapSeq(f, b))
  {
    assert |a| == |multiset(a)| == |multiset(b)| == |b|;
    if |a| > 0 {
      var n := |a| - 1;
      assert a[n] in multiset(b);
      var p :| 0 <= p < |b| && b[p] == a[n];
      MultisetRemoveAt(a, n);
      MultisetRemoveAt(b, p);
      MapSeqPermutation(f, a[..n] + a[n + 1..], b[..p] + b[p + 1..]);
      MapSeqRemoveAt(f, a, n);
      MapSeqRemoveAt(f, b, p);
      MultisetCancel(MapSeq(f, a), MapSeq(f, b), n, p);
    }
  }

  /** Sequences agreeing at `p` and `q` whose rests are permutations of each
      other are permutations of each other. */
  lemma MultisetCancel<T>(x: seq<T>, y: seq<T>, p: nat, q: nat)
    requires p < |x| && q < |y| && x[p] == y[q]
    requires multiset(x[..p] + x[p + 1..]) == multiset(y[..q] + y[q + 1..])
    ensures multiset(x) == multiset(y)
  {
    assert x == x[..p] + [x[p]] + x[p + 1..];
    assert y == y[..q] + [y[q]] + y[q + 1..];
    assert multiset(x) == multiset(x[..p] + x[p + 1..]) + multiset{x[p]};
    assert multiset(y) == multiset(y[..q] + y[q + 1..]) + multiset{y[q]};
  }

  /** Mapping commutes with removing the element at `p`. */
  lemma MapSeqRemoveAt<A, B>(f: A -> B, s: seq<A>, p: nat)
    requires p < |s|
    ensures MapSeq(f, s[..p] + s[p + 1..]) == MapSeq(f, s)[..p] + MapSeq(f, s)[p + 1..]
  {
  }

  class ProductService {
    /** The product store. */
    var products: map<int, ProductData>
    /** The vector-document store. */
    var documents: map<int, ProductDocument>
    /** The next value of the product store's identity column. */
    var nextId: int
    /** Every store write so far, oldest first. */
    ghost var trace: seq<StoreWrite>

    /** The embedding model's dimension and the model itself. */
    const dimension: nat
    const embed: string -> seq<real>
    /** The search engine: its answer to a kNN query over the document store. */
    const search: (map<int, ProductDocument>, KnnQuery) -> seq<ProductDocument>

    /** The embedding model yields vectors of one fixed dimension. */
    ghost predicate FixedDimension() {
      forall t :: |embed(t)| == dimension
    }

    /** `embeddingModel.embed(keywords)`: one vector per text, in order. */
    function Embed(keywords: seq<string>): (vectors: seq<seq<real>>)
      requires FixedDimension()
      ensures |vectors| == |keywords|
      ensures forall i :: 0 <= i < |keywords| ==> vectors[i] == embed(keywords[i])
      ensures Uniform(vectors, dimension) && Conforming(vectors)
    {
      MapSeq(embed, keywords)
    }

    /** The embedding a document gets for a keyword list: the mean of the
        keywords' embeddings. */
    function KeywordEmbedding(keywords: seq<string>): (r: seq<real>)
      requires FixedDimension()
      ensures |r| == if keywords == [] then 0 else dimension
    {
      Mean(Embed(keywords))
    }

    /** A document's embedding does not depend on the order of the keywords:
        any reordering of the list gives the same mean. */
    lemma KeywordEmbeddingReorder(a: seq<string>, b: seq<string>)
      requires FixedDimension()
      requires multiset(a) == multiset(b)
      ensures KeywordEmbedding(a) == KeywordEmbedding(b)
    {
      MapSeqPermutation(embed, a, b);
      MeanPermutation(Embed(a), Embed(b), dimension);
    }

    /** Each store keys its entries by their own id, and the identity
        column is ahead of every stored id. */
    ghost predicate StoreShape()
      reads this
    {
      && FixedDimension()
      && 1 <= nextId
      && (forall id :: id in products ==> products[id].id == id && id < nextId)
      && (forall id :: id in documents ==> documents[id].id == id)
    }

    /** The two stores hold the same ids, every document has an embedding,
        and a product with keywords has the mean of their embeddings as its
        document's embedding. */
    ghost predicate InStep()
      reads this
      requires FixedDimension()
    {
      && documents.Keys == products.Keys
      && (forall id :: id in documents ==> documents[id].embedding.Some?)
      && (forall id :: id in products && products[id].keywords != [] ==>
            id in documents && documents[id].embedding == Some(KeywordEmbedding(products[id].keywords)))
    }

    ghost predicate Valid()
      reads this
    {
      StoreShape() && InStep()
    }

    constructor (dimension: nat, embed: string -> seq<real>,
                 search: (map<int, ProductDocument>, KnnQuery) -> seq<ProductDocument>)
      requires forall t :: |embed(t)| == dimension
      ensures Valid()
      ensures this.dimension == dimension && this.embed == embed && this.search == search
      ensures products == map[] && documents == map[] && nextId == 1 && trace == []
    {
      this.dimension := dimension;
      this.embed := embed;
      this.search := search;
      products := map[];
      documents := map[];
      nextId := 1;
      trace := [];
    }

    /** `_create`: builds a new entity with the name and one keyword entity
        per text, then saves it, which assigns the next id. */
    method CreateEntity(name: string, keywords: seq<string>) returns (saved: ProductData)
      requires StoreShape()
      modifies this`products, this`nextId, this`trace
      ensures StoreShape()
      ensures saved == ProductData(old(nextId), name, keywords)
      ensures saved.id !in old(products)
      ensures products == old(products)[saved.id := saved]
      ensures nextId == old(nextId) + 1
      ensures trace == old(trace) + [SaveProduct(saved.id)]
    {
      var product := new Product();
      product.SetName(name);
      assert product.Texts() == [];
      AppendKeywords(product, keywords);
      product.id := Some(nextId);
      saved := product.Data();
      products := products[nextId := saved];
      nextId := nextId + 1;
      trace := trace + [SaveProduct(saved.id)];
    }

    /** `create`: saves the product first, then a document under the
        product's new id holding the mean of its keyword embeddings. */
    method Create(name: string, keywords: seq<string>) returns (product: ProductData)
      requires Valid()
      modifies this
      ensures Valid()
      ensures product == ProductData(old(nextId), name, keywords)
      ensures product.id !in old(products)
      ensures products == old(products)[product.id := product]
      ensures documents == old(documents)[product.id :=
                ProductDocument(product.id, Some(KeywordEmbedding(keywords)))]
      ensures nextId == old(nextId) + 1
      ensures trace == old(trace) + [SaveProduct(product.id), SaveDocument(product.id)]
    {
      product := CreateEntity(name, keywords);
      var embeddings := Embed(keywords);
      var average := CalculateAverage(embeddings);
      var doc := ProductDocument(product.id, Some(average));
      documents := documents[product.id := doc];
      trace := trace + [SaveDocument(product.id)];
    }

    function FindById(id: int): (r: Option<ProductData>)
      reads this
      ensures r.Some? <==> id in products
      ensures r.Some? ==> r.value == products[id]
    {
      if id in products then Some(products[id]) else None
    }

    function FindDocumentById(id: int): (r: Option<ProductDocument>)
      reads this
      ensures r.Some? <==> id in documents
      ensures r.Some? ==> r.value == documents[id]
    {
      if id in documents then Some(documents[id]) else None
    }

    /** `update`: fails for an unknown id; otherwise replaces the name and
        the whole keyword list, saves the product, and saves the document
        under that id, with a recomputed embedding only when the new list is
        non-empty (an empty list keeps the previous embedding). */
    method Update(id: int, name: string, keywords: seq<string>) returns (r: Result<ProductData, Error>)
      requires Valid()
      modifies this
      ensures Valid()
      ensures nextId == old(nextId)
      ensures id !in old(products) ==>
                && r == Failure(NotFound(id))
                && products == old(products) && documents == old(documents)
                && trace == old(trace)
      ensures id in old(products) ==>
                && r == Success(ProductData(id, name, keywords))
                && products == old(products)[id := ProductData(id, name, keywords)]
                && documents == old(documents)[id := ProductDocument(id,
                     if keywords != [] then Some(KeywordEmbedding(keywords))
                     else old(documents)[id].embedding)]
                && trace == old(trace) + [SaveProduct(id), SaveDocument(id)]
    {
      if id !in products {
        return Failure(NotFound(id));
      }
      var saved := ReplaceContents(products[id], name, keywords);
      products := products[id := saved];
      trace := trace + [SaveProduct(id)];
      SaveUpdatedDocument(saved.id, keywords);
      r := Success(saved);
    }

    /** The document half of `update`: the stored document, or a fresh one
        without embedding, gets the id, a recomputed embedding when the new
        keyword list is non-empty, and is saved. */
    method SaveUpdatedDocument(id: int, keywords: seq<string>)
      requires FixedDimension()
      modifies this`documents, this`trace
      ensures documents == old(documents)[id := ProductDocument(id,
                if keywords != [] then Some(KeywordEmbedding(keywords))
                else if id in old(documents) then old(documents)[id].embedding
                else None)]
      ensures trace == old(trace) + [SaveDocument(id)]
    {
      var doc := if id in documents then documents[id] else ProductDocument(id, None);
      doc := doc.(id := id);
      if keywords != [] {
        var embeddings := Embed(keywords);
        var average := CalculateAverage(embeddings);
        doc := doc.(embedding := Some(average));
      }
      documents := documents[id := doc];
      trace := trace + [SaveDocument(id)];
    }

    /** `delete`: removes `id` from the product store, then from the
        document store; an absent id is no error. */
    method Delete(id: int)
      requires Valid()
      modifies this
      ensures Valid()
      ensures products == old(products) - {id}
      ensures documents == old(documents) - {id}
      ensures nextId == old(nextId)
      ensures trace == old(trace) + [DeleteProduct(id), DeleteDocument(id)]
    {
      products := products - {id};
      trace := trace + [DeleteProduct(id)];
      documents := documents - {id};
      trace := trace + [DeleteDocument(id)];
    }

    /** `knnSearchByVector`: sends the vector, the field, `k` and the number
        of candidates to the search engine and returns the hit documents. */
    method KnnSearchByVector(queryVector: array<real>, field: string, k: int32, numCandidates: int32)
      returns (docs: seq<ProductDocument>)
      ensures docs == search(documents, KnnQuery(queryVector[..], field, k, numCandidates))
    {
      var vectorList := ToFloatList(queryVector);
      assert vectorList == queryVector[..];
      docs := search(documents, KnnQuery(vectorList, field, k, numCandidates));
    }

    /** `knnSearch(String, int)`: embeds the query, asks for `k` neighbours
        among `k * 2` candidates (Java int arithmetic) on the "embedding"
        field, and joins the hits back to stored products in hit order. */
    method KnnSearch(query: string, k: int32) returns (result: seq<ProductData>)
      ensures var hits := search(documents, KnnQuery(embed(query), "embedding", k, WrapInt32(k * 2)));
              && result == JoinHits(DocumentIds(hits), products)
              && |result| <= |hits|
    {
      var vector := embed(query);
      var queryEmbedding := new real[|vector|](i requires 0 <= i < |vector| => vector[i]);
      assert queryEmbedding[..] == vector;
      var docs := KnnSearchByVector(queryEmbedding, "embedding", k, WrapInt32(k * 2));
      var ids := DocumentIds(docs);
      result := JoinHits(ids, products);
    }
  }

  /** For every `k` from -2^30 up to 2^30 - 1 the candidate count is
      exactly twice `k`. */
  lemma NumCandidatesDoubles(k: int32)
    requires -0x4000_0000 <= k < 0x4000_0000
    ensures WrapInt32(k * 2) == 2 * k
  {
  }

  /** From 2^30 on, `k * 2` overflows Java's int: it wraps by 2^32 and
      turns negative. */
  lemma NumCandidatesOverflows(k: int32)
    requires k >= 0x4000_0000
    ensures WrapInt32(k * 2) == 2 * k - 0x1_0000_0000 < 0
  {
  }
}
