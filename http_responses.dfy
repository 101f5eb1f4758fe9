/** The success presenters: `ok` and `created` wrap the data as `{data}` without headers. */
module HttpResponses {
  import opened Wrappers
  import opened Http

  /** `ok(data)` */
  function Ok<D>(data: D): (r: HttpResponse<D>)
    ensures r.statusCode == 200 && r.body == DataBody(data) && r.headers == None
  {
    HttpResponse(200, DataBody(data), None)
  }

  /** `created(data)` */
  function Created<D>(data: D): (r: HttpResponse<D>)
    ensures r.statusCode == 201 && r.body == DataBody(data) && r.headers == None
  {
    HttpResponse(201, DataBody(data), None)
  }
}
