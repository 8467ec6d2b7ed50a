/** What the network gives the scraper, as a value. The two HTTP calls of the
    source become look-ups in two maps: the playlist page by playlist identifier,
    and the continuation response by continuation token. A key that is absent
    stands for a request that failed. */
module Fetcher {
  import opened JsValue

  /** The playlist page after the `ytInitialData` assignment has been looked for
      and its text given to `JSON.parse`. */
  datatype PlaylistPage =
    | Unparseable                                  // `JSON.parse` threw
    | NoInitialData                                // the assignment is absent, so `'{}'` is parsed
    | InitialData(fields: map<string, Json>)       // the parsed object

  datatype Server = Server(playlists: map<string, PlaylistPage>, continuations: map<string, Json>)

  /** One HTTP request, in the order the scraper issues them. */
  datatype Request = PlaylistRequest(id: string) | ContinuationRequest(token: string)
}
