/** The Google Books provider (index.js:39-63): it accepts a reply only
    when it counts and lists at least one volume, and resolves with the
    first volume's `volumeInfo` untouched. */
module GoogleBooks {
  import opened Outcomes
  import opened Books

  /** One entry of the `items` array. */
  datatype Item = Item(volumeInfo: Option<Json>)

  /** The fields of the reply the handler reads. */
  datatype Payload = Payload(totalItems: Option<int>, items: Option<seq<Item>>)

  /** `!books.totalItems`: a missing count and a count of zero both read as false. */
  predicate CountsNoBooks(p: Payload) {
    p.totalItems.None? || p.totalItems.value == 0
  }

  /** `!books.items || books.items.length === 0`. */
  predicate ListsNoItems(p: Payload) {
    p.items.None? || |p.items.value| == 0
  }

  /** The reply handler for one Google Books request. */
  function Resolve(isbn: string, reply: Reply<Payload>): (r: Outcome<Resolved>)
    ensures r.Ok? <==>
      && reply.Response?
      && reply.status == 200
      && reply.data.totalItems.Some? && reply.data.totalItems.value != 0
      && reply.data.items.Some? && |reply.data.items.value| > 0
    ensures r.Ok? ==> r.value == Volume(reply.data.items.value[0].volumeInfo)
    ensures reply.NoResponse? ==> r == Err(RequestFailed(reply.reason))
    ensures reply.Response? && reply.status != 200 ==> r == Err(WrongResponseCode(Some(reply.status)))
    ensures reply.Response? && reply.status == 200 && CountsNoBooks(reply.data) ==>
      r == Err(NoBooksFound(isbn))
    ensures reply.Response? && reply.status == 200 && !CountsNoBooks(reply.data) && ListsNoItems(reply.data) ==>
      r == Err(NoVolumeInfo(isbn))
  {
    match reply
    case NoResponse(reason) => Err(RequestFailed(reason))
    case Response(status, books) =>
      if status != 200 then Err(WrongResponseCode(Some(status)))
      else if CountsNoBooks(books) then Err(NoBooksFound(isbn))
      else if ListsNoItems(books) then Err(NoVolumeInfo(isbn))
      else Ok(Volume(books.items.value[0].volumeInfo))
  }
}
