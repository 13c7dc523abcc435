# Product catalogue service — Dafny model

This project models the product catalogue of a Spring application: the
product service that keeps a product store (id → name and ordered keyword
list) and a vector-document store (id → keyword embedding) in step, the
`Product`/`ProductKeyword` entity pair with its back-reference, the
read-only search tool offered to a language model, and the outcome-to-status
rules of the REST controller.

Layout, one module per file:

- `base.dfy` (`Base`): `Option`, `Result`, Java's 32-bit `int` with its
  wrap-around.
- `vector_math.dfy` (`VectorMath`): `calculateAverage` and `toFloatList` as
  array loops, the mean they compute, and its properties.
- `entity.dfy` (`Entity`): the `Product` and `ProductKeyword` classes with
  fields updated in place, and the stored row `ProductData`.
- `service.dfy` (`Service`): the `ProductService` class holding both stores
  as maps; `create`, `update`, `delete` as methods that keep the two stores
  in step; the kNN hit join.
- `search_tool.dfy` (`SearchTool`): keyword-string parsing with Java's
  `String.split(",")` and `String.trim` semantics, `k` defaulting, and the
  `ProductInfo` projection.
- `controller.dfy` (`Controller`): the `SearchRequest` default and the
  mapping from service outcome to HTTP status.

Modelling choices:

- The stores hold values. Inside `create` and `update`, entity objects are
  built through the entity methods and saved as a `ProductData` snapshot.
  `create` starts from `new Product()`. `update` starts from the stored row
  loaded as an entity.
- The embedding model is the service's `embed: string -> seq<real>`, with
  one fixed dimension for every text. A list of texts is embedded one text
  at a time, in order.
- Elasticsearch is the service's `search` function. It takes the document
  store and the kNN query, and returns the hit documents. Its ranking is
  not modelled.
- The product store's identity column is the counter `nextId`.
- The ghost `trace` records every write to either store in order. This
  states that the product is saved before its document, and that
  `delete` removes the product row first.
- `ProductService.Valid()` is proved preserved by every operation. It holds
  that:
  - both stores hold the same ids;
  - each entry is keyed by its own id;
  - every stored document has an embedding (none is null);
  - every product with keywords has, as its document's embedding, the
    mean of its keyword embeddings.
- Floats are `real`. Java's `int` parameters are `int32`, and `k * 2` wraps
  around as Java's does.

Behaviour of the code that the model keeps as it is:

- `create` with an empty keyword list still stores a document. Its
  embedding is the length-0 vector.
- `update` with an empty keyword list keeps the previous embedding.
- `calculateAverage` does not check that the vectors have equal length.
- `searchProducts` (ProductSearchTool.java:30-35) and the controller's search endpoint (ProductController.java:67) do not treat an empty keyword list specially. Both hand an empty list on to the list-based `knnSearch(List<String>, int)`, which has no body in the service, so what it answers is not modelled (BackApplicationTests.java:250-254 expects an empty result).

## Model

| member | source | states |
|---|---|---|
| VectorMath.Mean | src/main/java/com/back/product/service/ProductService.java:139-156 | the mean of an empty list is the length-0 vector; otherwise it has the first vector's length |
| VectorMath.CalculateAverage | src/main/java/com/back/product/service/ProductService.java:139-156 | the summing and dividing loops yield exactly the element-wise mean: component i is the sum of component i over all vectors divided by their count, and the empty list gives the length-0 vector |
| VectorMath.ToFloatList | src/main/java/com/back/product/service/ProductService.java:131-137 | the list has the array's length and holds array[i] at i |
| VectorMath.MeanOfCopies | src/main/java/com/back/product/service/ProductService.java:142-155 | the mean of n > 0 copies of one vector is that vector |
| VectorMath.MeanOfOne | src/main/java/com/back/product/service/ProductService.java:142-155 | a single input vector is returned unchanged |
| VectorMath.ColumnSumAppend | src/main/java/com/back/product/service/ProductService.java:145-149 | the column sum over a concatenation is the sum of the parts |
| VectorMath.ColumnSumPermutation | src/main/java/com/back/product/service/ProductService.java:145-149 | the column sum does not depend on the order of the vectors |
| VectorMath.MeanPermutation | src/main/java/com/back/product/service/ProductService.java:139-156 | reordering equally long vectors does not change their mean |
| Entity.ProductKeyword.constructor | src/main/java/com/back/product/entity/ProductKeyword.java:26-28 | stores the given text unchanged; a new keyword has no owning product |
| Entity.ProductKeyword.SetProduct | src/main/java/com/back/product/entity/ProductKeyword.java:16-19 | changes only the owner and keeps the text |
| Entity.ProductKeyword.SetKeyword | src/main/java/com/back/product/entity/ProductKeyword.java:21-24 | changes only the text and keeps the owner |
| Entity.Product.constructor | src/main/java/com/back/product/entity/Product.java:12-24 | a new product has no id and an empty keyword list |
| Entity.Product.SetName | src/main/java/com/back/product/entity/Product.java:17-20 | the name becomes the given one |
| Entity.Product.AddKeyword | src/main/java/com/back/product/entity/Product.java:26-29 | appends the keyword at the end, keeps earlier entries in order, sets the keyword's owner to this product, and keeps every keyword's back-reference |
| Entity.Product.RemoveKeyword | src/main/java/com/back/product/entity/Product.java:31-34 | removes the first occurrence by reference, clears the keyword's owner, leaves the list unchanged when the keyword is absent, and keeps the back-references of the rest |
| Entity.Product.AddKeywordText | src/main/java/com/back/product/entity/Product.java:36-39 | appends exactly one new keyword whose text is the given one and whose owner is this product |
| Entity.Product.ClearKeywords | src/main/java/com/back/product/service/ProductService.java:71 | the keyword list becomes empty |
| Entity.RemoveFirst | src/main/java/com/back/product/entity/Product.java:32 | `List.remove(Object)`: one element shorter exactly when the element occurs, otherwise the same length |
| Entity.RemoveFirstAt | src/main/java/com/back/product/entity/Product.java:32 | when the first occurrence is at i, exactly element i goes and the others keep their order |
| Entity.RemoveFirstAbsent | src/main/java/com/back/product/entity/Product.java:32 | removing an absent element changes nothing |
| Entity.RemoveFirstCount | src/main/java/com/back/product/entity/Product.java:32 | removal takes away exactly one occurrence, if any |
| Service.AppendKeywords | src/main/java/com/back/product/service/ProductService.java:39 | adding each text in turn gives a keyword list whose texts are the old ones followed by the given list, in order, all owned by the product |
| Service.Hydrate | src/main/java/com/back/product/service/ProductService.java:67-68 | the loaded entity has the stored row's id, name and keyword texts, and owns its keywords |
| Service.ReplaceContents | src/main/java/com/back/product/service/ProductService.java:70-74 | the saved row has the same id, the new name, and exactly the new keyword list: the old list is replaced, not merged |
| Service.DocumentIds | src/main/java/com/back/product/service/ProductService.java:98 | one id per hit document, in hit order |
| Service.JoinHits | src/main/java/com/back/product/service/ProductService.java:101-108 | the join never returns more items than there were hits |
| Service.JoinHitsOne | src/main/java/com/back/product/service/ProductService.java:105-107 | a single hit yields its stored product, or nothing when the store lacks it |
| Service.JoinHitsAppend | src/main/java/com/back/product/service/ProductService.java:105-108 | products of earlier hits come before products of later hits |
| Service.JoinHitsMembers | src/main/java/com/back/product/service/ProductService.java:101-108 | a product is in the result exactly when some hit id names it in the store |
| Service.JoinHitsAllPresent | src/main/java/com/back/product/service/ProductService.java:101-108 | when every hit is stored, the result is one product per hit, in hit order |
| Service.JoinHitsOnlyStored | src/main/java/com/back/product/service/ProductService.java:101-108 | every returned product is stored under its own id, so a deleted product is never returned |
| Service.MapSeqPermutation | src/main/java/com/back/product/service/ProductService.java:45 | reordering the texts reorders their embeddings the same way |
| Service.ProductService.Embed | src/main/java/com/back/product/service/ProductService.java:45 | one embedding per keyword, in keyword order, each the model's embedding of that keyword and of the model's dimension |
| Service.ProductService.KeywordEmbedding | src/main/java/com/back/product/service/ProductService.java:45-47 | the embedding computed for a keyword list has the model's dimension, or length 0 for the empty list |
| Service.ProductService.KeywordEmbeddingReorder | src/main/java/com/back/product/service/ProductService.java:45-47 | the stored embedding does not depend on the order of the keywords |
| Service.ProductService.constructor | src/main/java/com/back/product/service/ProductService.java:24-33 | both stores start empty and in step |
| Service.ProductService.CreateEntity | src/main/java/com/back/product/service/ProductService.java:35-41 | saves a new row with the next id, the given name and exactly the given keywords in order; no existing row is touched |
| Service.ProductService.Create | src/main/java/com/back/product/service/ProductService.java:43-51 | the product row is saved first, then a document under the new id holding the mean of the keyword embeddings; both stores stay in step |
| Service.ProductService.FindById | src/main/java/com/back/product/service/ProductService.java:53-55 | present exactly when the product store has the id, with that row |
| Service.ProductService.FindDocumentById | src/main/java/com/back/product/service/ProductService.java:61-63 | present exactly when the document store has the id, with that document |
| Service.ProductService.Update | src/main/java/com/back/product/service/ProductService.java:66-87 | An unknown id fails with NotFound and changes neither store. Otherwise the name and the whole keyword list are replaced and the product is saved first, then the document under that id. The embedding is recomputed only for a non-empty list; an empty list keeps the previous embedding. |
| Service.ProductService.SaveUpdatedDocument | src/main/java/com/back/product/service/ProductService.java:76-85 | the stored document, or a new one without embedding, is saved under the id; its embedding is recomputed only for a non-empty keyword list |
| Service.ProductService.Delete | src/main/java/com/back/product/service/ProductService.java:89-93 | removes the id from the product store, then from the document store, leaving every other id untouched |
| Service.ProductService.KnnSearchByVector | src/main/java/com/back/product/service/ProductService.java:111-129 | the search engine is asked with the vector's contents, the field, k and the candidate count, and its hit documents are returned |
| Service.ProductService.KnnSearch | src/main/java/com/back/product/service/ProductService.java:95-109 | embeds the query, asks for k neighbours among k * 2 candidates (with int wrap-around), and returns the stored products of the hits in hit order, never more than there were hits |
| Service.NumCandidatesDoubles | src/main/java/com/back/product/service/ProductService.java:97 | for every k from -2^30 to 2^30 - 1 the candidate count is exactly 2k |
| Service.NumCandidatesOverflows | src/main/java/com/back/product/service/ProductService.java:97 | for every k from 2^30 on the candidate count is 2k - 2^32, which is negative |
| SearchTool.SkipBlanks | src/main/java/com/back/product/tool/ProductSearchTool.java:31 | the start index of `String.trim`: everything skipped is up to U+0020, and the character it stops at is above U+0020 |
| SearchTool.SkipBlanksBack | src/main/java/com/back/product/tool/ProductSearchTool.java:31 | the end index of `String.trim`: everything dropped is up to U+0020, it never passes the start, and the character before it is above U+0020 |
| SearchTool.Trim | src/main/java/com/back/product/tool/ProductSearchTool.java:31 | the result is the piece of the input left once a prefix and a suffix of characters up to U+0020 are cut off; it neither starts nor ends with such a character, and it is empty exactly when the input holds nothing else |
| SearchTool.TrimUnique | src/main/java/com/back/product/tool/ProductSearchTool.java:31 | any piece of the input with only characters up to U+0020 around it and none at its ends is the trimmed result, so the contract of Trim determines it |
| SearchTool.Split | src/main/java/com/back/product/tool/ProductSearchTool.java:30 | every comma-separated segment, empty ones included: at least one segment, none containing a comma |
| SearchTool.JavaSplit | src/main/java/com/back/product/tool/ProductSearchTool.java:30 | `String.split(",")`: the input itself when it has no comma; no segment holds a comma; with a comma in the input, the result is the comma-separated segments with only the empty ones at the end removed, so its last segment is non-empty |
| SearchTool.DropTrailingEmpty | src/main/java/com/back/product/tool/ProductSearchTool.java:30 | a prefix of the segments, everything dropped is empty, and the last segment kept is non-empty |
| SearchTool.TrimNonBlank | src/main/java/com/back/product/tool/ProductSearchTool.java:31-32 | trimmed comma-free segments filtered for emptiness are all clean keywords |
| SearchTool.ParseKeywords | src/main/java/com/back/product/tool/ProductSearchTool.java:30-33 | every parsed keyword is non-empty, comma-free, and without leading or trailing characters up to U+0020 |
| SearchTool.SplitAtComma | src/main/java/com/back/product/tool/ProductSearchTool.java:30 | a comma cuts the input into the segments before it and those after it |
| SearchTool.TrimNonBlankDropTrailing | src/main/java/com/back/product/tool/ProductSearchTool.java:30-32 | dropping Java's trailing empty segments makes no difference after blank filtering |
| SearchTool.ParseKeywordsSegments | src/main/java/com/back/product/tool/ProductSearchTool.java:30-33 | the parse is exactly the trimmed non-blank comma-separated segments, left to right |
| SearchTool.ParseKeywordsSegment | src/main/java/com/back/product/tool/ProductSearchTool.java:30-33 | input without a comma gives its trimmed text, or nothing when blank |
| SearchTool.ParseKeywordsAtComma | src/main/java/com/back/product/tool/ProductSearchTool.java:30-33 | the keywords before a comma come first, then those after it |
| SearchTool.ParseKeywordsEmpty | src/main/java/com/back/product/tool/ProductSearchTool.java:30-33 | the parse is empty exactly when the input holds only commas and characters up to U+0020, the empty input included |
| SearchTool.ParseJoinRoundTrip | src/main/java/com/back/product/tool/ProductSearchTool.java:30-33 | clean keywords joined with commas parse back to the same list |
| SearchTool.DefaultK | src/main/java/com/back/product/tool/ProductSearchTool.java:28 | a non-positive k becomes 5 and a positive k passes unchanged |
| SearchTool.ToInfos | src/main/java/com/back/product/tool/ProductSearchTool.java:37-45 | one ProductInfo per product, in the same order, copying the id, the name and the keyword texts |
| SearchTool.SearchProducts | src/main/java/com/back/product/tool/ProductSearchTool.java:24-46 | the service is asked with the parsed keywords and the defaulted k, and its products are projected one to one, in order |
| SearchTool.FindSimilarProducts | src/main/java/com/back/product/tool/ProductSearchTool.java:49-66 | the service is asked with the id and the defaulted k, and its products are projected one to one, in order |
| SearchTool.GetProductById | src/main/java/com/back/product/tool/ProductSearchTool.java:69-81 | absent exactly when the store lacks the id, otherwise that product's projection |
| SearchTool.GetAllProducts | src/main/java/com/back/product/tool/ProductSearchTool.java:84-94 | every product of the list is projected, preserving order and count |
| Controller.NewSearchRequest | src/main/java/com/back/product/controller/ProductController.java:93-97 | a k up to 0 becomes 10 and a positive k is kept |
| Controller.FindById | src/main/java/com/back/product/controller/ProductController.java:34-38 | 200 with the product exactly when it is stored, otherwise 404 without body |
| Controller.CatchAsNotFound | src/main/java/com/back/product/controller/ProductController.java:48-53 | 200 with the value exactly when the call succeeded, 404 without body on an exception |
| Controller.Create | src/main/java/com/back/product/controller/ProductController.java:27-30 | always 200 with the created product |
| Controller.Update | src/main/java/com/back/product/controller/ProductController.java:47-54 | 404 exactly when the id is unknown, with the store unchanged; otherwise 200 with the updated product |
| Controller.Delete | src/main/java/com/back/product/controller/ProductController.java:58-61 | always 204, and the id is gone from both stores |
| Controller.SimilarK | src/main/java/com/back/product/controller/ProductController.java:74 | 5 when the parameter is omitted or empty, otherwise the given value as it is |
| Controller.FindSimilarProducts | src/main/java/com/back/product/controller/ProductController.java:72-81 | asks the service with the defaulted k; 404 on a service exception, 200 with its list otherwise |

## Left out

- The embedding model and Elasticsearch are parameters. The kNN ranking, network failures of the embedding call and the `EmbeddingModel` batching are not modelled.
- VectorMath.CalculateAverage requires every vector to be at least as long as the first. On shorter vectors the Java code throws `ArrayIndexOutOfBoundsException`. Inside the service this cannot arise, because the embedding model has one fixed dimension.
- VectorMath.Mean: float rounding is not modelled; averages are over `real`.
- `@Transactional` rollback and transaction boundaries are framework behaviour and are not modelled.
- The repositories are the two maps. The database is not modelled, so a keyword's own generated id is absent and so is the orphan removal of keywords cleared from a product.
- The product store keeps each product's keyword texts in insertion order, and `GetProductById` and `ToInfos` rely on that order. In the database, `Product.keywords` is a `@OneToMany` list with no `@OrderColumn` (Product.java:22-24), so the order after a reload is not guaranteed.
- The document store is a plain map and does not model the index's fixed-dimension `Dense_Vector` mapping for `embedding` (384 dimensions, ProductDocument.java:84). A real index would probably reject the length-0 vector that `create` saves for an empty keyword list.
- Entity.Product.constructor: the initial name is Java's null, modelled as the empty string.
- `findAll` is not modelled, because its order is the repository's. `GetAllProducts` takes the list it returns as input.
- `knnSearch(List<String>, int)` and `findSimilarProducts(Long, int)` are called by the tool and the controller but have no body in the service. They are function parameters, and their behaviour is not modelled.
- The controller's `findAll` and `knnSearch` endpoints are not modelled. They only forward to the service and wrap the answer in 200.
- The chat, SSE and language-model code is not modelled: the chat service, its configuration, and the streaming endpoints.
- The seed data loader, the repository declarations and the tests are not modelled.
- Controller.Create: a request with a null keyword list is not modelled. `_create` throws a `NullPointerException` on it (ProductService.java:39), so the endpoint answers with a server error rather than 200. Request fields are modelled as never null.
- Controller.Update: a request with a null keyword list is not modelled. The `NullPointerException` at ProductService.java:72 is caught as a runtime exception (ProductController.java:51), so a known id then gets 404 as well.
- SearchTool.SearchProducts: a null keyword string is not modelled. `split` throws on it (ProductSearchTool.java:30).
- Service.ProductService.Create: the embedding model is taken to answer an empty batch with an empty list of vectors, so `create` with no keywords stores the length-0 embedding. A model that fails on an empty batch would make `create` throw after the product row is saved, and the two stores would then be out of step.
- `ProductDocument` is modelled only as an `(id, embedding)` value in the document map. Its null embedding is `None`. The store invariant `Valid()` states that no stored document has it, so it never reaches search.
