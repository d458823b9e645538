/** What an operation reports back. The source returns strings; the model
    keeps their content: a failure names the kind of entity, the offending
    name and the reason (the arguments of `errorMessage`), and "no results"
    is an outcome of its own, distinct from a failure. */
module Outcomes {
  import opened Songs

  datatype Kind = PlaylistKind | SongKind

  datatype Reason =
    | NotAllowed          // "is not allowed"
    | AlreadyExists       // "already exists"
    | NotFound            // "not found"
    | AlreadyInPlaylist   // "already exists in playlist"
    | NotFoundInPlaylist  // "not found in playlist"

  datatype Error = Error(kind: Kind, name: string, reason: Reason)

  /** Outcome of an operation that changes the store. */
  datatype Status = Done | Rejected(error: Error)

  /** Outcome of an operation that lists songs: the songs, the "nothing to
      show" message, or an error. */
  datatype Listing = Items(songs: seq<Song>) | NoneFound | Failed(error: Error)

  /** The name a song error carries: `${title} by ${artist}`. */
  function SongLabel(title: string, artist: string): string {
    title + " by " + artist
  }
}
