/**
 * The authorization query who-can sends, the review response it reads, and
 * the reviewer that answers it. The reviewer stands in for the API client's
 * two review endpoints: its answers are fixed when it is made, and it records
 * every call it receives, in order.
 */
module Authorization {
  import opened Wrappers

  /** authorizationapi.AuthorizationAttributes, the fields who-can fills. */
  datatype AuthorizationAttributes = AuthorizationAttributes(verb: string, group: string, resource: string)

  /** authorizationapi.ResourceAccessReviewResponse: the namespace and who may act there. */
  datatype ReviewResponse = ReviewResponse(namespace: string, users: set<string>, groups: set<string>)

  /** One review request: cluster-wide, or local to a namespace. */
  datatype ReviewCall =
    | ClusterReview(action: AuthorizationAttributes)
    | LocalReview(namespace: string, action: AuthorizationAttributes)

  class Reviewer {
    /** How the server answers each request. */
    const answer: ReviewCall -> Result<ReviewResponse>
    /** The requests received so far, oldest first. */
    var calls: seq<ReviewCall>

    constructor (answer: ReviewCall -> Result<ReviewResponse>)
      ensures this.answer == answer && calls == []
    {
      this.answer := answer;
      calls := [];
    }

    /** ResourceAccessReviews().Create: a review across all namespaces. */
    method ReviewClusterWide(action: AuthorizationAttributes) returns (response: Result<ReviewResponse>)
      modifies this
      ensures calls == old(calls) + [ClusterReview(action)]
      ensures response == answer(ClusterReview(action))
    {
      calls := calls + [ClusterReview(action)];
      response := answer(ClusterReview(action));
    }

    /** LocalResourceAccessReviews(namespace).Create: a review within one namespace. */
    method ReviewLocal(namespace: string, action: AuthorizationAttributes) returns (response: Result<ReviewResponse>)
      modifies this
      ensures calls == old(calls) + [LocalReview(namespace, action)]
      ensures response == answer(LocalReview(namespace, action))
    {
      calls := calls + [LocalReview(namespace, action)];
      response := answer(LocalReview(namespace, action));
    }
  }
}
