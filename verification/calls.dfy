/** The calls the core makes into collaborators it does not own: the PKCE
    OAuth client, its token store and the People directory API. Operations
    return the calls they made, in order, so that "no network call" and
    "this before that" can be stated. */
module Calls {

  /** Parameters of the directory's `connections.list` request. */
  datatype ListRequest = ListRequest(resourceName: string, personFields: string, pageSize: int, sortOrder: string)

  /** Parameters of the directory's `searchContacts` request. */
  datatype SearchRequest = SearchRequest(query: string, readMask: string, pageSize: int)

  /** Parameters of the PKCE authorization request. */
  datatype AuthorizationParams = AuthorizationParams(endpoint: string, clientId: string, scope: string)

  datatype Call =
    | NewPkceClient(redirectUri: string)
    | GetTokens
    | SetTokens
    | RefreshTokens
    | AuthorizationRequest(params: AuthorizationParams)
    | InteractiveAuthorize
    | ExchangeCode(code: string)
    | ListConnections(accessToken: string, list: ListRequest)
    | SearchPeople(accessToken: string, search: SearchRequest)

  /** The trace holds a directory call: a connections listing or a search. */
  predicate Fetches(calls: seq<Call>) {
    exists i :: 0 <= i < |calls| && (calls[i].ListConnections? || calls[i].SearchPeople?)
  }

  /** The trace holds a call of the interactive PKCE flow. */
  predicate StartsFlow(calls: seq<Call>) {
    exists i :: 0 <= i < |calls| && calls[i].AuthorizationRequest?
  }
}
