/** Where a handler sends the browser: the model's view of Next.js router calls. */
module Router {

  /** A URL query parameter, as `URLSearchParams` holds it. */
  type Param = (string, string)

  datatype Outcome =
    | Stay                                    // no navigation
    | Push(path: string, query: seq<Param>)   // `router.push(path?query)`
    | Refresh                                 // `router.refresh()`
}
