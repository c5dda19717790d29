/**
  The credential table as the two writers keep it: the OAuth callback and the system-user
  endpoint both look up the first credential of (user, ad account) and update it in place,
  or add a new one when there is none.
 */
module Credentials {
  import opened Wrappers
  import opened Dates
  import opened Models

  /** The credential belongs to this user and this ad account. */
  predicate Owns(a: FacebookAccount, userId: int, adAccountId: string) {
    a.userId == userId && a.adAccountId == adAccountId
  }

  /** `query(FacebookAccount).filter(user_id == …, ad_account_id == …).first()`, as an index. */
  function FirstCredential(accounts: seq<FacebookAccount>, userId: int, adAccountId: string): (r: Option<nat>)
    ensures r.Some? ==> r.value < |accounts| && Owns(accounts[r.value], userId, adAccountId)
    ensures r.Some? ==> forall j :: 0 <= j < r.value ==> !Owns(accounts[j], userId, adAccountId)
    ensures r.None? ==> forall j :: 0 <= j < |accounts| ==> !Owns(accounts[j], userId, adAccountId)
  {
    if |accounts| == 0 then None
    else if Owns(accounts[0], userId, adAccountId) then Some(0)
    else
      match FirstCredential(accounts[1..], userId, adAccountId)
      case None => None
      case Some(i) => Some(i + 1)
  }

  /** With one credential per pair, the first credential of a pair is its only one. */
  lemma OnlyCredential(accounts: seq<FacebookAccount>, userId: int, adAccountId: string, j: nat)
    requires OneCredentialPerPair(accounts)
    requires j < |accounts| && Owns(accounts[j], userId, adAccountId)
    ensures FirstCredential(accounts, userId, adAccountId) == Some(j)
  {
  }

  /** Rewriting the first credential of a pair with one that still belongs to the pair keeps it first. */
  lemma FirstAfterUpdate(accounts: seq<FacebookAccount>, userId: int, adAccountId: string, i: nat, a: FacebookAccount)
    requires FirstCredential(accounts, userId, adAccountId) == Some(i) && Owns(a, userId, adAccountId)
    ensures FirstCredential(accounts[i := a], userId, adAccountId) == Some(i)
  {
    var r := accounts[i := a];
    assert Owns(r[i], userId, adAccountId);
    assert forall j :: 0 <= j < i ==> r[j] == accounts[j];
  }

  /** A credential added for a pair that had none is the pair's first. */
  lemma FirstAfterAppend(accounts: seq<FacebookAccount>, userId: int, adAccountId: string, a: FacebookAccount)
    requires FirstCredential(accounts, userId, adAccountId).None? && Owns(a, userId, adAccountId)
    ensures FirstCredential(accounts + [a], userId, adAccountId) == Some(|accounts|)
  {
    var r := accounts + [a];
    assert Owns(r[|accounts|], userId, adAccountId);
    assert forall j :: 0 <= j < |accounts| ==> r[j] == accounts[j];
  }

  /**
    The callback's store step for one ad account: an existing credential gets the new token,
    expiry and update time, and keeps its type and system-user flag; otherwise a Bearer,
    non-system credential is added with the next id.
   */
  function UpsertOAuth(accounts: seq<FacebookAccount>, userId: int, adAccountId: string, token: string,
                       expiresAt: Option<Instant>, now: Instant): (r: seq<FacebookAccount>)
    ensures |r| == |accounts| || |r| == |accounts| + 1
    ensures forall j :: 0 <= j < |accounts| && !Owns(accounts[j], userId, adAccountId) ==> r[j] == accounts[j]
    ensures var i := FirstCredential(r, userId, adAccountId);
      i.Some? && r[i.value].accessToken == token && r[i.value].expiresAt == expiresAt
  {
    match FirstCredential(accounts, userId, adAccountId)
    case Some(i) =>
      var a := accounts[i].(accessToken := token, expiresAt := expiresAt, updatedAt := now);
      FirstAfterUpdate(accounts, userId, adAccountId, i, a);
      accounts[i := a]
    case None =>
      var a := DefaultAccount(|accounts| + 1, userId, adAccountId, token, now).(expiresAt := expiresAt);
      FirstAfterAppend(accounts, userId, adAccountId, a);
      accounts + [a]
  }

  /** An existing credential keeps its id, owner, type, system-user flag and creation time through the callback. */
  lemma UpsertOAuthKeepsFlags(accounts: seq<FacebookAccount>, userId: int, adAccountId: string, token: string,
                              expiresAt: Option<Instant>, now: Instant)
    requires FirstCredential(accounts, userId, adAccountId).Some?
    ensures var i := FirstCredential(accounts, userId, adAccountId).value;
      var r := UpsertOAuth(accounts, userId, adAccountId, token, expiresAt, now);
      |r| == |accounts|
      && r[i] == accounts[i].(accessToken := token, expiresAt := expiresAt, updatedAt := now)
      && r[i].isSystemUser == accounts[i].isSystemUser && r[i].tokenType == accounts[i].tokenType
  {
  }

  /** A pair without a credential gets a new Bearer credential that is not a system user's. */
  lemma UpsertOAuthCreates(accounts: seq<FacebookAccount>, userId: int, adAccountId: string, token: string,
                           expiresAt: Option<Instant>, now: Instant)
    requires FirstCredential(accounts, userId, adAccountId).None?
    ensures var r := UpsertOAuth(accounts, userId, adAccountId, token, expiresAt, now);
      |r| == |accounts| + 1 && r[..|accounts|] == accounts
      && r[|accounts|].id == |accounts| + 1 && Owns(r[|accounts|], userId, adAccountId)
      && r[|accounts|].tokenType == "Bearer" && !r[|accounts|].isSystemUser
      && r[|accounts|].accessToken == token && r[|accounts|].expiresAt == expiresAt
  {
    var r := UpsertOAuth(accounts, userId, adAccountId, token, expiresAt, now);
    assert r[..|accounts|] == accounts;
  }

  /**
    `insert_system_user_token`'s store step: an existing credential gets the token, becomes a
    system user's and loses its expiry; otherwise a system-user credential without expiry is added.
   */
  function UpsertSystem(accounts: seq<FacebookAccount>, userId: int, adAccountId: string, token: string,
                        now: Instant): (r: seq<FacebookAccount>)
    ensures |r| == |accounts| || |r| == |accounts| + 1
    ensures forall j :: 0 <= j < |accounts| && !Owns(accounts[j], userId, adAccountId) ==> r[j] == accounts[j]
    ensures var i := FirstCredential(r, userId, adAccountId);
      i.Some? && r[i.value].accessToken == token && r[i.value].isSystemUser && r[i.value].expiresAt.None?
  {
    match FirstCredential(accounts, userId, adAccountId)
    case Some(i) =>
      var a := accounts[i].(accessToken := token, isSystemUser := true, expiresAt := None, updatedAt := now);
      FirstAfterUpdate(accounts, userId, adAccountId, i, a);
      accounts[i := a]
    case None =>
      var a := DefaultAccount(|accounts| + 1, userId, adAccountId, token, now).(isSystemUser := true);
      FirstAfterAppend(accounts, userId, adAccountId, a);
      accounts + [a]
  }

  /** The credential a system-user insert leaves never counts as expired, whatever the clock says. */
  lemma SystemCredentialNeverExpires(accounts: seq<FacebookAccount>, userId: int, adAccountId: string, token: string,
                                     now: Instant, later: Instant)
    ensures var r := UpsertSystem(accounts, userId, adAccountId, token, now);
      !TokenExpired(r[FirstCredential(r, userId, adAccountId).value], later)
  {
  }

  /** Appending a credential for a pair that has none keeps one credential per pair and, with the next id, sequential ids. */
  lemma AppendKeepsTable(accounts: seq<FacebookAccount>, a: FacebookAccount)
    requires OneCredentialPerPair(accounts) && SequentialAccountIds(accounts)
    requires FirstCredential(accounts, a.userId, a.adAccountId).None? && a.id == |accounts| + 1
    ensures OneCredentialPerPair(accounts + [a]) && SequentialAccountIds(accounts + [a])
  {
    var r := accounts + [a];
    forall i, j | 0 <= i < j < |r|
      ensures (r[i].userId, r[i].adAccountId) != (r[j].userId, r[j].adAccountId)
    {
      if j == |accounts| {
        assert !Owns(accounts[i], a.userId, a.adAccountId);
      }
    }
  }

  /** Rewriting a credential's token fields keeps one credential per pair and sequential ids. */
  lemma UpdateKeepsTable(accounts: seq<FacebookAccount>, i: nat, a: FacebookAccount)
    requires OneCredentialPerPair(accounts) && SequentialAccountIds(accounts)
    requires i < |accounts| && a.id == accounts[i].id && a.userId == accounts[i].userId && a.adAccountId == accounts[i].adAccountId
    ensures OneCredentialPerPair(accounts[i := a]) && SequentialAccountIds(accounts[i := a])
  {
  }

  /** The callback's store step keeps one credential per pair and sequential ids. */
  lemma UpsertOAuthKeepsTable(accounts: seq<FacebookAccount>, userId: int, adAccountId: string, token: string,
                              expiresAt: Option<Instant>, now: Instant)
    requires OneCredentialPerPair(accounts) && SequentialAccountIds(accounts)
    ensures var r := UpsertOAuth(accounts, userId, adAccountId, token, expiresAt, now);
      OneCredentialPerPair(r) && SequentialAccountIds(r)
  {
    match FirstCredential(accounts, userId, adAccountId)
    case Some(k) =>
      UpdateKeepsTable(accounts, k, accounts[k].(accessToken := token, expiresAt := expiresAt, updatedAt := now));
    case None =>
      AppendKeepsTable(accounts, DefaultAccount(|accounts| + 1, userId, adAccountId, token, now).(expiresAt := expiresAt));
  }

  /** The system-user insert keeps one credential per pair and sequential ids. */
  lemma UpsertSystemKeepsTable(accounts: seq<FacebookAccount>, userId: int, adAccountId: string, token: string, now: Instant)
    requires OneCredentialPerPair(accounts) && SequentialAccountIds(accounts)
    ensures var r := UpsertSystem(accounts, userId, adAccountId, token, now);
      OneCredentialPerPair(r) && SequentialAccountIds(r)
  {
    match FirstCredential(accounts, userId, adAccountId)
    case Some(k) =>
      UpdateKeepsTable(accounts, k, accounts[k].(accessToken := token, isSystemUser := true, expiresAt := None, updatedAt := now));
    case None =>
      AppendKeepsTable(accounts, DefaultAccount(|accounts| + 1, userId, adAccountId, token, now).(isSystemUser := true));
  }

  /** Storing the same token twice is storing it once: the second upsert finds the first one's record. */
  lemma UpsertOAuthIdempotent(accounts: seq<FacebookAccount>, userId: int, adAccountId: string, token: string,
                              expiresAt: Option<Instant>, now: Instant)
    ensures var once := UpsertOAuth(accounts, userId, adAccountId, token, expiresAt, now);
      UpsertOAuth(once, userId, adAccountId, token, expiresAt, now) == once
  {
    var once := UpsertOAuth(accounts, userId, adAccountId, token, expiresAt, now);
    match FirstCredential(accounts, userId, adAccountId)
    case Some(k) =>
      var a := accounts[k].(accessToken := token, expiresAt := expiresAt, updatedAt := now);
      FirstAfterUpdate(accounts, userId, adAccountId, k, a);
      assert once[k := a] == once;
    case None =>
      var a := DefaultAccount(|accounts| + 1, userId, adAccountId, token, now).(expiresAt := expiresAt);
      FirstAfterAppend(accounts, userId, adAccountId, a);
      assert once[|accounts| := a] == once;
  }

  /**
    The callback's store loop over the ad accounts returned by the Graph API, in order, all
    with the same long-lived token and expiry.
   */
  function ConnectAll(accounts: seq<FacebookAccount>, userId: int, adAccountIds: seq<string>, token: string,
                      expiresAt: Option<Instant>, now: Instant): seq<FacebookAccount>
  {
    if |adAccountIds| == 0 then accounts
    else UpsertOAuth(ConnectAll(accounts, userId, adAccountIds[..|adAccountIds| - 1], token, expiresAt, now),
                     userId, adAccountIds[|adAccountIds| - 1], token, expiresAt, now)
  }

  /** A credential of the pair stays a credential of the pair through its upsert. */
  lemma UpsertOAuthKeepsPair(accounts: seq<FacebookAccount>, userId: int, adAccountId: string, token: string,
                             expiresAt: Option<Instant>, now: Instant)
    ensures var r := UpsertOAuth(accounts, userId, adAccountId, token, expiresAt, now);
      forall j :: 0 <= j < |accounts| && Owns(accounts[j], userId, adAccountId) ==> Owns(r[j], userId, adAccountId)
  {
    var r := UpsertOAuth(accounts, userId, adAccountId, token, expiresAt, now);
    match FirstCredential(accounts, userId, adAccountId)
    case Some(i) =>
      assert r == accounts[i := r[i]];
    case None =>
  }

  /** The index that owns the pair, after none before it does, is the pair's first credential. */
  lemma FirstAt(accounts: seq<FacebookAccount>, userId: int, adAccountId: string, k: nat)
    requires k < |accounts| && Owns(accounts[k], userId, adAccountId)
    requires forall j :: 0 <= j < k ==> !Owns(accounts[j], userId, adAccountId)
    ensures FirstCredential(accounts, userId, adAccountId) == Some(k)
  {
    var i := FirstCredential(accounts, userId, adAccountId);
    assert i.Some?;
    assert !(i.value < k) && !(k < i.value);
  }

  /** An upsert for one pair leaves the first credential of every other pair where it was. */
  lemma UpsertOAuthKeepsOthers(accounts: seq<FacebookAccount>, userId: int, adAccountId: string, token: string,
                               expiresAt: Option<Instant>, now: Instant, other: string)
    requires other != adAccountId && FirstCredential(accounts, userId, other).Some?
    ensures var r := UpsertOAuth(accounts, userId, adAccountId, token, expiresAt, now);
      FirstCredential(r, userId, other) == FirstCredential(accounts, userId, other)
      && r[FirstCredential(r, userId, other).value] == accounts[FirstCredential(accounts, userId, other).value]
  {
    var r := UpsertOAuth(accounts, userId, adAccountId, token, expiresAt, now);
    var k := FirstCredential(accounts, userId, other).value;
    assert r[k] == accounts[k];
    UpsertOAuthKeepsPair(accounts, userId, adAccountId, token, expiresAt, now);
    forall j | 0 <= j < k
      ensures !Owns(r[j], userId, other)
    {
      if Owns(accounts[j], userId, adAccountId) {
        assert Owns(r[j], userId, adAccountId);
      } else {
        assert r[j] == accounts[j];
      }
    }
    FirstAt(r, userId, other, k);
  }

  /** After the callback's loop every returned ad account has a credential holding the new token and expiry. */
  lemma {:induction false} ConnectAllStoresEach(accounts: seq<FacebookAccount>, userId: int, adAccountIds: seq<string>,
                                                 token: string, expiresAt: Option<Instant>, now: Instant)
    ensures var r := ConnectAll(accounts, userId, adAccountIds, token, expiresAt, now);
      forall k :: 0 <= k < |adAccountIds| ==>
        FirstCredential(r, userId, adAccountIds[k]).Some?
        && r[FirstCredential(r, userId, adAccountIds[k]).value].accessToken == token
        && r[FirstCredential(r, userId, adAccountIds[k]).value].expiresAt == expiresAt
  {
    if |adAccountIds| > 0 {
      var init := adAccountIds[..|adAccountIds| - 1];
      var last := adAccountIds[|adAccountIds| - 1];
      var prev := ConnectAll(accounts, userId, init, token, expiresAt, now);
      var r := ConnectAll(accounts, userId, adAccountIds, token, expiresAt, now);
      ConnectAllStoresEach(accounts, userId, init, token, expiresAt, now);
      forall k | 0 <= k < |adAccountIds|
        ensures FirstCredential(r, userId, adAccountIds[k]).Some?
        ensures r[FirstCredential(r, userId, adAccountIds[k]).value].accessToken == token
        ensures r[FirstCredential(r, userId, adAccountIds[k]).value].expiresAt == expiresAt
      {
        if adAccountIds[k] != last {
          assert adAccountIds[k] == init[k];
          UpsertOAuthKeepsOthers(prev, userId, last, token, expiresAt, now, adAccountIds[k]);
        }
      }
    }
  }

  /** The callback's loop keeps one credential per pair and sequential ids. */
  lemma {:induction false} ConnectAllKeepsTable(accounts: seq<FacebookAccount>, userId: int, adAccountIds: seq<string>,
                                                 token: string, expiresAt: Option<Instant>, now: Instant)
    requires OneCredentialPerPair(accounts) && SequentialAccountIds(accounts)
    ensures var r := ConnectAll(accounts, userId, adAccountIds, token, expiresAt, now);
      OneCredentialPerPair(r) && SequentialAccountIds(r)
  {
    if |adAccountIds| > 0 {
      var init := adAccountIds[..|adAccountIds| - 1];
      ConnectAllKeepsTable(accounts, userId, init, token, expiresAt, now);
      UpsertOAuthKeepsTable(ConnectAll(accounts, userId, init, token, expiresAt, now), userId,
                            adAccountIds[|adAccountIds| - 1], token, expiresAt, now);
    }
  }
}
