/** The failures `fetchFromPlaylist` reports, one per `throw Error(...)` the caller
    can observe. */
module Errors {

  datatype Error =
    | InvalidInput        // neither a `list=` parameter nor a bare identifier
    | FetchFailed         // the playlist page could not be fetched or its data parsed
    | PrivatePlaylist     // the page data carries `alerts`
    | NoPlaylistData      // the path to the video list renderer is missing
    | VideoParseFailed    // the first page's video array is not a usable array
    | MoreVideosFailed    // any failure while walking the continuation pages
    | MetadataFailed      // any failure while reading the playlist metadata

  /** The message each failure carries. */
  function Message(e: Error): string {
    match e
    case InvalidInput => "Invalid playlist URL or ID"
    case FetchFailed => "Could not fetch/parse playlist"
    case PrivatePlaylist => "This playlist is private"
    case NoPlaylistData => "Cannot find valid playlist JSON data. Is the playlist ID correct?"
    case VideoParseFailed => "Could not parse videos from videoData JSON"
    case MoreVideosFailed => "An error has occured while trying to fetch more videos"
    case MetadataFailed => "Could not parse playlist metadata"
  }
}
