/** The Twitch Helix client: an app access token cached until shortly before
    it expires, the user lookup by login, and the live-stream lookup by user
    id in requests of at most 100 ids. The network is a parameter: each
    request's answer is given as a value (or, for the stream batches, as a
    function of the ids requested). */
module TwitchApi {
  import opened Wrappers
  import Text

  type UserId = string

  /** One entry of the /users answer. */
  datatype TwitchUser = TwitchUser(id: UserId, login: string)

  /** One entry of the /streams answer; an empty `gameName` or `thumbnailUrl`
      stands for a missing (falsy) value. */
  datatype StreamRecord = StreamRecord(
    userId: UserId,
    title: string,
    gameName: string,
    viewerCount: Option<nat>,
    thumbnailUrl: string)

  /** The most ids one /streams request may carry. */
  const MaxIdsPerRequest: nat := 100

  /** A token is considered expired this many milliseconds before Twitch says it does. */
  const ExpiryMarginMillis: int := 5000

  /** What the token endpoint answers; an empty `accessToken` stands for a missing one. */
  datatype TokenResponse = TokenGranted(accessToken: string, expiresIn: int) | TokenRefused(status: int) | TokenUnreachable

  /** What the /users endpoint answers. */
  datatype UsersResponse = UsersOk(users: seq<TwitchUser>) | UsersNotOk(status: int) | UsersUnreachable

  /** What the /streams endpoint answers for one batch of ids. */
  datatype BatchResponse = BatchOk(streams: seq<StreamRecord>) | BatchNotOk(status: int) | BatchUnreachable

  /** The errors the client throws to its callers. */
  datatype ApiError = TokenRequestFailed | TokenMissing | UsersRequestFailed

  /** `userIds.slice(i, i + 100)`: JavaScript clamps the end to the length. */
  function BatchAt(userIds: seq<UserId>, i: nat): (b: seq<UserId>)
    requires i < |userIds|
    ensures 0 < |b| <= MaxIdsPerRequest
  {
    userIds[i .. if i + MaxIdsPerRequest <= |userIds| then i + MaxIdsPerRequest else |userIds|]
  }

  /** The batches the request loop sends, in order. */
  function Batches(userIds: seq<UserId>): seq<seq<UserId>>
  {
    Text.Chunks(userIds, MaxIdsPerRequest)
  }

  /** The batches are consecutive slices of at most 100 ids, all but the last
      exactly 100, and together they are the input in order. */
  lemma BatchesPartition(userIds: seq<UserId>)
    ensures Text.Flatten(Batches(userIds)) == userIds
    ensures forall k :: 0 <= k < |Batches(userIds)| ==> 0 < |Batches(userIds)[k]| <= MaxIdsPerRequest
    ensures forall k :: 0 <= k < |Batches(userIds)| - 1 ==> |Batches(userIds)[k]| == MaxIdsPerRequest
    ensures userIds == [] <==> Batches(userIds) == []
  {
    Text.ChunksFlatten(userIds, MaxIdsPerRequest);
    Text.ChunksSizes(userIds, MaxIdsPerRequest);
  }

  /** The streams of one batch: a non-ok answer or a failed request contributes nothing. */
  function BatchStreams(r: BatchResponse): seq<StreamRecord>
  {
    if r.BatchOk? then r.streams else []
  }

  /** The streams of the successful batches, appended in batch order. */
  function CollectStreams(batches: seq<seq<UserId>>, fetchBatch: seq<UserId> -> BatchResponse): seq<StreamRecord>
  {
    if batches == [] then [] else BatchStreams(fetchBatch(batches[0])) + CollectStreams(batches[1..], fetchBatch)
  }

  /** A failed batch is skipped: the result is what the batches before and after it give. */
  lemma {:induction false} FailedBatchSkipped(batches: seq<seq<UserId>>, fetchBatch: seq<UserId> -> BatchResponse, k: nat)
    requires k < |batches| && !fetchBatch(batches[k]).BatchOk?
    ensures CollectStreams(batches, fetchBatch)
         == CollectStreams(batches[..k], fetchBatch) + CollectStreams(batches[k + 1..], fetchBatch)
  {
    CollectSplit(batches, fetchBatch, k);
    assert batches[k..][1..] == batches[k + 1..];
  }

  /** Collecting over a concatenation of batch lists appends the results. */
  lemma {:induction false} CollectSplit(batches: seq<seq<UserId>>, fetchBatch: seq<UserId> -> BatchResponse, k: nat)
    requires k <= |batches|
    ensures CollectStreams(batches, fetchBatch)
         == CollectStreams(batches[..k], fetchBatch) + CollectStreams(batches[k..], fetchBatch)
  {
    if k > 0 {
      CollectSplit(batches[1..], fetchBatch, k - 1);
      assert batches[1..][..k - 1] == batches[..k][1..];
      assert batches[1..][k - 1..] == batches[k..];
    }
  }

  /** Every stream returned comes from the answer to one of the batches. */
  lemma {:induction false} CollectedStreamsAnswered(batches: seq<seq<UserId>>, fetchBatch: seq<UserId> -> BatchResponse, s: StreamRecord)
    requires s in CollectStreams(batches, fetchBatch)
    ensures exists k :: 0 <= k < |batches| && fetchBatch(batches[k]).BatchOk? && s in fetchBatch(batches[k]).streams
  {
    if s in BatchStreams(fetchBatch(batches[0])) {
      assert fetchBatch(batches[0]).BatchOk?;
    } else {
      CollectedStreamsAnswered(batches[1..], fetchBatch, s);
      var k :| 0 <= k < |batches[1..]| && fetchBatch(batches[1..][k]).BatchOk? && s in fetchBatch(batches[1..][k]).streams;
      assert batches[1..][k] == batches[k + 1];
    }
  }

  /** The ids from position `i` on (none once `i` has passed the end). */
  function IdsFrom(userIds: seq<UserId>, i: nat): seq<UserId>
  {
    if i < |userIds| then userIds[i..] else []
  }

  /** From position `i`, the first batch is `BatchAt(userIds, i)` and the rest start 100 further. */
  lemma BatchesFrom(userIds: seq<UserId>, i: nat)
    requires i < |userIds|
    ensures Batches(IdsFrom(userIds, i)) == [BatchAt(userIds, i)] + Batches(IdsFrom(userIds, i + MaxIdsPerRequest))
  {
    var rest := userIds[i..];
    if |rest| > MaxIdsPerRequest {
      assert rest[..MaxIdsPerRequest] == BatchAt(userIds, i);
      assert rest[MaxIdsPerRequest..] == userIds[i + MaxIdsPerRequest..];
      assert IdsFrom(userIds, i + MaxIdsPerRequest) == rest[MaxIdsPerRequest..];
      assert Text.Chunks(rest, MaxIdsPerRequest) == [rest[..MaxIdsPerRequest]] + Text.Chunks(rest[MaxIdsPerRequest..], MaxIdsPerRequest);
    } else {
      assert rest == BatchAt(userIds, i);
    }
  }

  /** The request loop of `getLiveStreamsByUserIds`: `i` steps by 100 and each
      batch's streams are pushed, unless the batch fails. */
  method FetchBatches(userIds: seq<UserId>, fetchBatch: seq<UserId> -> BatchResponse) returns (liveStreams: seq<StreamRecord>)
    ensures liveStreams == CollectStreams(Batches(userIds), fetchBatch)
  {
    liveStreams := [];
    var i: nat := 0;
    assert IdsFrom(userIds, 0) == userIds || userIds == [];
    while i < |userIds|
      invariant liveStreams + CollectStreams(Batches(IdsFrom(userIds, i)), fetchBatch)
             == CollectStreams(Batches(userIds), fetchBatch)
    {
      var batchIds := BatchAt(userIds, i);
      BatchesFrom(userIds, i);
      var later := CollectStreams(Batches(IdsFrom(userIds, i + MaxIdsPerRequest)), fetchBatch);
      CollectCons(batchIds, Batches(IdsFrom(userIds, i + MaxIdsPerRequest)), fetchBatch);
      var response := fetchBatch(batchIds);
      if response.BatchOk? {
        liveStreams := liveStreams + response.streams;
      } else {
        assert BatchStreams(response) + later == later;
      }
      i := i + MaxIdsPerRequest;
    }
  }

  lemma CollectCons(b: seq<UserId>, rest: seq<seq<UserId>>, fetchBatch: seq<UserId> -> BatchResponse)
    ensures CollectStreams([b] + rest, fetchBatch) == BatchStreams(fetchBatch(b)) + CollectStreams(rest, fetchBatch)
  {
    assert ([b] + rest)[1..] == rest;
  }

  /** The module-level token state of the client. */
  class TokenCache {
    var accessToken: Option<string>
    var tokenExpiry: int

    constructor ()
      ensures accessToken == None && tokenExpiry == 0
    {
      accessToken := None;
      tokenExpiry := 0;
    }

    /** `accessToken` is truthy. */
    predicate HasToken()
      reads this
    {
      accessToken.Some? && accessToken.value != ""
    }

    /** A new token must be requested: there is none, or its (margin-adjusted) expiry has passed. */
    predicate NeedsRefresh(now: int)
      reads this
    {
      !HasToken() || now >= tokenExpiry
    }

    /** `getAppAccessToken`: on success caches the token with an expiry 5 seconds
        early; on failure clears the cache and rethrows. */
    method GetAppAccessToken(now: int, response: TokenResponse) returns (r: Result<string, ApiError>)
      modifies this
      ensures response.TokenGranted? ==>
                accessToken == Some(response.accessToken)
                && tokenExpiry == now + response.expiresIn * 1000 - ExpiryMarginMillis
                && r == Ok(response.accessToken)
      ensures !response.TokenGranted? ==> accessToken == None && tokenExpiry == 0 && r == Err(TokenRequestFailed)
    {
      if response.TokenGranted? {
        accessToken := Some(response.accessToken);
        tokenExpiry := now + response.expiresIn * 1000 - ExpiryMarginMillis;
        r := Ok(response.accessToken);
      } else {
        accessToken := None;
        tokenExpiry := 0;
        r := Err(TokenRequestFailed);
      }
    }

    /** `ensureAccessToken`: requests a token exactly when `NeedsRefresh`, and
        fails unless a truthy token is cached afterwards. */
    method EnsureAccessToken(now: int, response: TokenResponse) returns (r: Result<string, ApiError>, requested: bool)
      modifies this
      ensures requested == old(NeedsRefresh(now))
      ensures !requested ==> accessToken == old(accessToken) && tokenExpiry == old(tokenExpiry)
      ensures requested && response.TokenGranted? ==>
                accessToken == Some(response.accessToken)
                && tokenExpiry == now + response.expiresIn * 1000 - ExpiryMarginMillis
      ensures requested && !response.TokenGranted? ==> accessToken == None && tokenExpiry == 0 && r == Err(TokenRequestFailed)
      ensures r.Ok? <==> HasToken()
      ensures r.Err? && !(requested && !response.TokenGranted?) ==> r == Err(TokenMissing)
      ensures r.Ok? ==> r.value == accessToken.value
      ensures r.Ok? && !requested ==> now < tokenExpiry
    {
      requested := NeedsRefresh(now);
      if requested {
        var granted := GetAppAccessToken(now, response);
        if granted.Err? {
          r := Err(granted.error);
          return;
        }
      }
      if !HasToken() {
        r := Err(TokenMissing);
        return;
      }
      r := Ok(accessToken.value);
    }

    /** `getTwitchUsersByLogin`: no request at all for an empty list; otherwise
        a token is ensured and a non-ok or failed answer is thrown. */
    method GetTwitchUsersByLogin(logins: seq<string>, now: int, token: TokenResponse, answer: UsersResponse)
      returns (r: Result<seq<TwitchUser>, ApiError>)
      modifies this
      ensures logins == [] ==> r == Ok([]) && accessToken == old(accessToken) && tokenExpiry == old(tokenExpiry)
      ensures logins != [] && old(!NeedsRefresh(now)) ==> accessToken == old(accessToken) && tokenExpiry == old(tokenExpiry)
      ensures logins != [] && old(NeedsRefresh(now)) && token.TokenGranted? ==>
                accessToken == Some(token.accessToken) && tokenExpiry == now + token.expiresIn * 1000 - ExpiryMarginMillis
      ensures logins != [] && old(NeedsRefresh(now)) && !token.TokenGranted? ==>
                accessToken == None && tokenExpiry == 0 && r == Err(TokenRequestFailed)
      ensures logins != [] && old(NeedsRefresh(now)) && token.TokenGranted? && token.accessToken == "" ==> r == Err(TokenMissing)
      ensures logins != [] && (old(!NeedsRefresh(now)) || (token.TokenGranted? && token.accessToken != "")) ==>
                r == (if answer.UsersOk? then Ok(answer.users) else Err(UsersRequestFailed))
      ensures r.Ok? && logins != [] ==> answer.UsersOk? && r.value == answer.users && HasToken()
    {
      if logins == [] {
        return Ok([]);
      }
      var t, _ := EnsureAccessToken(now, token);
      if t.Err? {
        return Err(t.error);
      }
      if !answer.UsersOk? {
        return Err(UsersRequestFailed);
      }
      r := Ok(answer.users);
    }

    /** `getLiveStreamsByUserIds`: no request for an empty list; otherwise a
        token is ensured and then every batch is requested, failures skipped. */
    method GetLiveStreamsByUserIds(userIds: seq<UserId>, now: int, token: TokenResponse, fetchBatch: seq<UserId> -> BatchResponse)
      returns (r: Result<seq<StreamRecord>, ApiError>)
      modifies this
      ensures userIds == [] ==> r == Ok([]) && accessToken == old(accessToken) && tokenExpiry == old(tokenExpiry)
      ensures userIds != [] && old(!NeedsRefresh(now)) ==> accessToken == old(accessToken) && tokenExpiry == old(tokenExpiry)
      ensures userIds != [] && old(NeedsRefresh(now)) && token.TokenGranted? ==>
                accessToken == Some(token.accessToken) && tokenExpiry == now + token.expiresIn * 1000 - ExpiryMarginMillis
      ensures userIds != [] && old(NeedsRefresh(now)) && !token.TokenGranted? ==>
                accessToken == None && tokenExpiry == 0 && r == Err(TokenRequestFailed)
      ensures userIds != [] && old(NeedsRefresh(now)) && token.TokenGranted? && token.accessToken == "" ==> r == Err(TokenMissing)
      ensures userIds != [] && (old(!NeedsRefresh(now)) || (token.TokenGranted? && token.accessToken != "")) ==>
                r == Ok(CollectStreams(Batches(userIds), fetchBatch))
      ensures r.Ok? && userIds != [] ==> r.value == CollectStreams(Batches(userIds), fetchBatch) && HasToken()
    {
      if userIds == [] {
        return Ok([]);
      }
      var t, _ := EnsureAccessToken(now, token);
      if t.Err? {
        return Err(t.error);
      }
      var streams := FetchBatches(userIds, fetchBatch);
      r := Ok(streams);
    }
  }

  /** A token obtained at `now` is reused until `now + expiresIn*1000 - 5000`
      and refreshed from then on. */
  method TokenReuseWindow(now: int, later: int, expiresIn: int, token: string, second: TokenResponse)
    returns (refreshed: bool, again: Result<string, ApiError>)
    requires token != ""
    ensures refreshed <==> later >= now + expiresIn * 1000 - ExpiryMarginMillis
    ensures !refreshed ==> again == Ok(token)
  {
    var cache := new TokenCache();
    var first, requested1 := cache.EnsureAccessToken(now, TokenGranted(token, expiresIn));
    assert requested1 && first == Ok(token);
    again, refreshed := cache.EnsureAccessToken(later, second);
  }
}