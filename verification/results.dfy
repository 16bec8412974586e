/** Outcome types shared by the whole model: an optional value, a result
    that either carries a value or an error, and the recommender's error
    taxonomy. */
module Results {

  /** A value that may be absent. */
  datatype Option<+T> = None | Some(value: T)

  /** Either a value or an error describing why there is none. */
  datatype Result<+T, +E> = Success(value: T) | Failure(error: E)

  /** The conditions under which a query on the network gives no answer. */
  datatype Error =
    | UnknownUser(user: string)  // a lookup of a user who is not in the network
    | NoSimilarUser              // the network holds no user other than the requester
    | NoCandidate                // the most similar user follows nobody the requester does not
}
