/** The HTTP controller's request rules: the `SearchRequest` default for
    `k`, the `k` default of the similar-products endpoint, and how each
    endpoint turns the service's outcome into a response status. */
module Controller {
  import opened Base
  import opened Entity
  import opened Service

  /** An HTTP response: status code and optional body. */
  datatype Response<T> = Response(status: int, body: Option<T>)

  function Ok<T>(body: T): Response<T> { Response(200, Some(body)) }
  function NotFound<T>(): Response<T> { Response(404, None) }
  function NoContent<T>(): Response<T> { Response(204, None) }

  datatype CreateRequest = CreateRequest(name: string, keywords: seq<string>)
  datatype UpdateRequest = UpdateRequest(name: string, keywords: seq<string>)
  datatype SearchRequest = SearchRequest(keywords: seq<string>, k: int32)

  /** The `SearchRequest` compact constructor: a `k` up to 0 becomes 10. */
  function NewSearchRequest(keywords: seq<string>, k: int32): (r: SearchRequest)
    ensures r.keywords == keywords
    ensures r.k > 0
    ensures k > 0 ==> r.k == k
    ensures k <= 0 ==> r.k == 10
  {
    SearchRequest(keywords, if k <= 0 then 10 else k)
  }

  /** `findById`: 200 with the product when stored, 404 without body otherwise. */
  function FindById(service: ProductService, id: int): (r: Response<ProductData>)
    reads service
    ensures r.status == 200 <==> id in service.products
    ensures r.status == 200 ==> r.body == Some(service.products[id])
    ensures r.status != 200 ==> r == Response(404, None)
  {
    match service.FindById(id)
    case Some(p) => Ok(p)
    case None => NotFound()
  }

  /** The `try`/`catch (RuntimeException)` around a service call: any
      exception becomes 404, a value becomes 200 with that value. */
  function CatchAsNotFound<T, E>(outcome: Result<T, E>): (r: Response<T>)
    ensures r.status == 200 <==> outcome.Success?
    ensures outcome.Success? ==> r.body == Some(outcome.value)
    ensures outcome.Failure? ==> r == Response(404, None)
  {
    match outcome
    case Success(v) => Ok(v)
    case Failure(_) => NotFound()
  }

  /** `create`: always 200 with the created product. */
  method Create(service: ProductService, request: CreateRequest) returns (response: Response<ProductData>)
    requires service.Valid()
    modifies service
    ensures service.Valid()
    ensures response == Ok(ProductData(old(service.nextId), request.name, request.keywords))
    ensures service.products == old(service.products)[old(service.nextId) := response.body.value]
  {
    var product := service.Create(request.name, request.keywords);
    response := Ok(product);
  }

  /** `update`: 404 exactly when the service throws, which it does for an
      unknown id; otherwise 200 with the updated product. */
  method Update(service: ProductService, id: int, request: UpdateRequest) returns (response: Response<ProductData>)
    requires service.Valid()
    modifies service
    ensures service.Valid()
    ensures response.status == 404 <==> id !in old(service.products)
    ensures id !in old(service.products) ==> response.body == None && service.products == old(service.products)
    ensures id in old(service.products) ==>
              response == Ok(ProductData(id, request.name, request.keywords))
  {
    var outcome := service.Update(id, request.name, request.keywords);
    response := CatchAsNotFound(outcome);
  }

  /** `delete`: always 204, and the id is gone from both stores. */
  method Delete(service: ProductService, id: int) returns (response: Response<()>)
    requires service.Valid()
    modifies service
    ensures service.Valid()
    ensures response == NoContent()
    ensures id !in service.products && id !in service.documents
  {
    service.Delete(id);
    response := NoContent();
  }

  /** The request parameter `k` with its default: 5 when the parameter is
      omitted or empty (both are `None` here); a given value is passed on as it is, even when not positive. */
  function SimilarK(k: Option<int32>): (r: int32)
    ensures k.None? ==> r == 5
    ensures k.Some? ==> r == k.value
  {
    k.GetOr(5)
  }

  /** `findSimilarProducts`: asks the service with the defaulted `k`; 404
      when it throws, 200 with its list otherwise. */
  function FindSimilarProducts<E>(id: int, k: Option<int32>,
                                  findSimilar: (int, int32) -> Result<seq<ProductData>, E>)
    : (r: Response<seq<ProductData>>)
    ensures var outcome := findSimilar(id, SimilarK(k));
            && (r.status == 200 <==> outcome.Success?)
            && (outcome.Success? ==> r.body == Some(outcome.value))
            && (outcome.Failure? ==> r == Response(404, None))
  {
    CatchAsNotFound(findSimilar(id, SimilarK(k)))
  }
}
